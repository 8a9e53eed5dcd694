/**
 * base/infrastructure/kafka/producer.go (`Send`) and base/infrastructure/kafka/utils.go
 * (`ParseKafkaMessageHeaders`): the metadata a message carries from one produce/consume hop to the next.
 * Times are Unix milliseconds.
 */
module KafkaHeaders {
  import opened Common
  import opened Decimal
  import opened Snowflake

  datatype Header = Header(key: string, value: string)

  datatype Metadata = Metadata(traceID: int, userID: int, ingestTime: int, publishTime: int)

  /** The values stored under one key, in order. */
  function Named(headers: seq<Header>, key: string): (values: seq<string>) {
    if headers == [] then []
    else
      var last := headers[|headers| - 1];
      Named(headers[..|headers| - 1], key) + (if last.key == key then [last.value] else [])
  }

  /** The id of the last text that is a valid one; 0 when there is none. */
  function LastID(values: seq<string>): (id: int) {
    if values == [] then 0
    else
      var id := ValidSnowflakeID(values[|values| - 1]);
      if id.Some? then id.value else LastID(values[..|values| - 1])
  }

  /** The last text that reads as a 64-bit integer; `default` when there is none. */
  function LastMillis(values: seq<string>, default: int): (ms: int) {
    if values == [] then default
    else
      var ms := ParseInt64(values[|values| - 1]);
      if ms.Some? then ms.value else LastMillis(values[..|values| - 1], default)
  }

  /** What a header list means: every field is decided by the headers of its own name alone. The clock is read twice. */
  function Parsed(headers: seq<Header>, ingestNow: int, publishNow: int): (meta: Metadata) {
    Metadata(
      LastID(Named(headers, "trace_id")),
      LastID(Named(headers, "user_id")),
      LastMillis(Named(headers, "ingest_time"), ingestNow),
      LastMillis(Named(headers, "publish_time"), publishNow))
  }

  /** The last valid text decides, and with none of them valid, or none at all, the default stands. */
  predicate IsLastID(values: seq<string>, i: nat) {
    i < |values| && ValidSnowflakeID(values[i]).Some? && forall j :: i < j < |values| ==> ValidSnowflakeID(values[j]).None?
  }

  predicate IsLastMillis(values: seq<string>, i: nat) {
    i < |values| && ParseInt64(values[i]).Some? && forall j :: i < j < |values| ==> ParseInt64(values[j]).None?
  }

  lemma {:induction false} LastValidID(values: seq<string>)
    ensures (forall v :: v in values ==> ValidSnowflakeID(v).None?) ==> LastID(values) == 0
    ensures forall i: nat :: IsLastID(values, i) ==> LastID(values) == ValidSnowflakeID(values[i]).value
    decreases |values|
  {
    hide ValidSnowflakeID;
    if values != [] {
      var n := |values| - 1;
      LastValidID(values[..n]);
      forall i: nat | IsLastID(values, i) ensures LastID(values) == ValidSnowflakeID(values[i]).value {
        assert i < n ==> IsLastID(values[..n], i);
      }
    }
  }

  lemma {:induction false} LastValidMillis(values: seq<string>, default: int)
    ensures (forall v :: v in values ==> ParseInt64(v).None?) ==> LastMillis(values, default) == default
    ensures forall i: nat :: IsLastMillis(values, i) ==> LastMillis(values, default) == ParseInt64(values[i]).value
    decreases |values|
  {
    hide ParseInt64;
    if values != [] {
      var n := |values| - 1;
      LastValidMillis(values[..n], default);
      forall i: nat | IsLastMillis(values, i) ensures LastMillis(values, default) == ParseInt64(values[i]).value {
        assert i < n ==> IsLastMillis(values[..n], i);
      }
    }
  }

  /** A message without headers: no trace, no sender, and the two times at which it is read. */
  lemma WithoutHeaders(ingestNow: int, publishNow: int)
    ensures Parsed([], ingestNow, publishNow) == Metadata(0, 0, ingestNow, publishNow)
  {
  }

  lemma NamedSnoc(headers: seq<Header>, h: Header, key: string)
    ensures Named(headers + [h], key) == if h.key == key then Named(headers, key) + [h.value] else Named(headers, key)
  {
    assert (headers + [h])[..|headers|] == headers;
  }

  lemma LastSnoc(values: seq<string>, v: string, default: int)
    ensures LastID(values + [v]) == (if ValidSnowflakeID(v).Some? then ValidSnowflakeID(v).value else LastID(values))
    ensures LastMillis(values + [v], default)
            == (if ParseInt64(v).Some? then ParseInt64(v).value else LastMillis(values, default))
  {
    assert (values + [v])[..|values|] == values;
  }

  /** One more header replaces the field of its own name, if its value is valid, and no other. */
  function Absorb(meta: Metadata, h: Header): (r: Metadata) {
    if h.key == "trace_id" && ValidSnowflakeID(h.value).Some? then meta.(traceID := ValidSnowflakeID(h.value).value)
    else if h.key == "user_id" && ValidSnowflakeID(h.value).Some? then meta.(userID := ValidSnowflakeID(h.value).value)
    else if h.key == "ingest_time" && ParseInt64(h.value).Some? then meta.(ingestTime := ParseInt64(h.value).value)
    else if h.key == "publish_time" && ParseInt64(h.value).Some? then meta.(publishTime := ParseInt64(h.value).value)
    else meta
  }

  lemma ParsedSnoc(headers: seq<Header>, h: Header, ingestNow: int, publishNow: int)
    ensures Parsed(headers + [h], ingestNow, publishNow) == Absorb(Parsed(headers, ingestNow, publishNow), h)
  {
    NamedSnoc(headers, h, "trace_id");
    NamedSnoc(headers, h, "user_id");
    NamedSnoc(headers, h, "ingest_time");
    NamedSnoc(headers, h, "publish_time");
    LastSnoc(Named(headers, "trace_id"), h.value, 0);
    LastSnoc(Named(headers, "user_id"), h.value, 0);
    LastSnoc(Named(headers, "ingest_time"), h.value, ingestNow);
    LastSnoc(Named(headers, "publish_time"), h.value, publishNow);
    assert "trace_id" != "user_id" && "ingest_time" != "publish_time";
  }

  /** `ParseKafkaMessageHeaders`: one pass that overwrites the fields of `meta`. */
  method ParseKafkaMessageHeaders(headers: seq<Header>, ingestNow: int, publishNow: int) returns (meta: Metadata)
    ensures meta == Parsed(headers, ingestNow, publishNow)
  {
    meta := Metadata(0, 0, ingestNow, publishNow);
    for i := 0 to |headers|
      invariant meta == Parsed(headers[..i], ingestNow, publishNow)
    {
      var h := headers[i];
      ParsedSnoc(headers[..i], h, ingestNow, publishNow);
      assert headers[..i + 1] == headers[..i] + [h];
      if h.key == "trace_id" {
        var id := ValidSnowflakeID(h.value);
        if id.Some? { meta := meta.(traceID := id.value); }
      } else if h.key == "user_id" {
        var id := ValidSnowflakeID(h.value);
        if id.Some? { meta := meta.(userID := id.value); }
      } else if h.key == "ingest_time" {
        var ms := ParseInt64(h.value);
        if ms.Some? { meta := meta.(ingestTime := ms.value); }
      } else if h.key == "publish_time" {
        var ms := ParseInt64(h.value);
        if ms.Some? { meta := meta.(publishTime := ms.value); }
      }
    }
    assert headers[..|headers|] == headers;
  }

  /** One call of `Send`: the sender, the clock readings, the extra headers and the id the generator would give. */
  datatype Hop = Hop(userID: int, publishTime: int, extra: seq<Header>, freshID: int, ingestTime: int)

  /** The headers `Send` puts on the wire. */
  function Sent(hop: Hop): (headers: seq<Header>) {
    [Header("user_id", PrintInt(hop.userID)), Header("publish_time", PrintInt(hop.publishTime))]
    + hop.extra
    + (if Named(hop.extra, "trace_id") == [] then [Header("trace_id", PrintInt(hop.freshID))] else [])
    + (if Named(hop.extra, "ingest_time") == [] then [Header("ingest_time", PrintInt(hop.ingestTime))] else [])
  }

  /** `Send`: copies the extra headers one by one and fills in what they lack. */
  method Send(hop: Hop) returns (headers: seq<Header>)
    ensures headers == Sent(hop)
  {
    headers := [Header("user_id", PrintInt(hop.userID)), Header("publish_time", PrintInt(hop.publishTime))];
    var copied, hasTraceID, hasIngestTime := CopyExtra(headers, hop.extra);
    headers := copied;
    if !hasTraceID { headers := headers + [Header("trace_id", PrintInt(hop.freshID))]; }
    if !hasIngestTime { headers := headers + [Header("ingest_time", PrintInt(hop.ingestTime))]; }
  }

  /** The loop of `Send`. */
  method CopyExtra(fixed: seq<Header>, extra: seq<Header>) returns (headers: seq<Header>, hasTraceID: bool, hasIngestTime: bool)
    ensures headers == fixed + extra
    ensures hasTraceID <==> Named(extra, "trace_id") != []
    ensures hasIngestTime <==> Named(extra, "ingest_time") != []
  {
    hide Named;
    NamedNone("trace_id");
    NamedNone("ingest_time");
    assert extra[..0] == [];
    headers, hasTraceID, hasIngestTime := fixed, false, false;
    for i := 0 to |extra|
      invariant headers == fixed + extra[..i]
      invariant hasTraceID <==> Named(extra[..i], "trace_id") != []
      invariant hasIngestTime <==> Named(extra[..i], "ingest_time") != []
    {
      var h := extra[i];
      assert extra[..i + 1] == extra[..i] + [h];
      NamedSnoc(extra[..i], h, "trace_id");
      NamedSnoc(extra[..i], h, "ingest_time");
      if h.key == "trace_id" { hasTraceID := true; }
      if h.key == "ingest_time" { hasIngestTime := true; }
      headers := headers + [h];
    }
    assert extra[..|extra|] == extra;
  }

  lemma NamedNone(key: string)
    ensures Named([], key) == []
  {
  }

  lemma {:induction false} NamedConcat(a: seq<Header>, b: seq<Header>, key: string)
    ensures Named(a + b, key) == Named(a, key) + Named(b, key)
    decreases |b|
  {
    hide Named;
    if b == [] {
      assert a + b == a;
      NamedNone(key);
    } else {
      var n := |b| - 1;
      NamedConcat(a, b[..n], key);
      assert a + b == a + b[..n] + [b[n]] && b == b[..n] + [b[n]];
      NamedSnoc(a + b[..n], b[n], key);
      NamedSnoc(b[..n], b[n], key);
    }
  }

  lemma NamedOne(h: Header, key: string)
    ensures Named([h], key) == if h.key == key then [h.value] else []
  {
    assert [h][..0] == [];
  }

  /** The two defaults `Send` writes first. */
  lemma NamedDefaults(hop: Hop, key: string)
    ensures Named([Header("user_id", PrintInt(hop.userID)), Header("publish_time", PrintInt(hop.publishTime))], key)
            == if key == "user_id" then [PrintInt(hop.userID)]
               else if key == "publish_time" then [PrintInt(hop.publishTime)] else []
  {
    var u, p := Header("user_id", PrintInt(hop.userID)), Header("publish_time", PrintInt(hop.publishTime));
    NamedConcat([u], [p], key);
    NamedOne(u, key);
    NamedOne(p, key);
    assert [u] + [p] == [u, p];
  }

  /** What `Send` stores under each name, whatever extra headers it is given. */
  lemma SentNames(hop: Hop)
    ensures Named(Sent(hop), "user_id") == [PrintInt(hop.userID)] + Named(hop.extra, "user_id")
    ensures Named(Sent(hop), "publish_time") == [PrintInt(hop.publishTime)] + Named(hop.extra, "publish_time")
    ensures Named(Sent(hop), "trace_id")
            == (if Named(hop.extra, "trace_id") == [] then [PrintInt(hop.freshID)] else Named(hop.extra, "trace_id"))
    ensures Named(Sent(hop), "ingest_time")
            == (if Named(hop.extra, "ingest_time") == [] then [PrintInt(hop.ingestTime)] else Named(hop.extra, "ingest_time"))
    ensures forall key :: key !in {"user_id", "publish_time", "trace_id", "ingest_time"} ==>
              Named(Sent(hop), key) == Named(hop.extra, key)
  {
    forall key | key !in {"user_id", "publish_time", "trace_id", "ingest_time"}
      ensures Named(Sent(hop), key) == Named(hop.extra, key)
    {
      SentNamed(hop, key);
    }
    SentNamed(hop, "user_id");
    SentNamed(hop, "publish_time");
    SentNamed(hop, "trace_id");
    SentNamed(hop, "ingest_time");
  }

  lemma NamedFour(a: seq<Header>, b: seq<Header>, c: seq<Header>, d: seq<Header>, key: string)
    ensures Named(a + b + c + d, key) == Named(a, key) + Named(b, key) + Named(c, key) + Named(d, key)
  {
    NamedConcat(a + b + c, d, key);
    NamedConcat(a + b, c, key);
    NamedConcat(a, b, key);
  }

  lemma SentNamed(hop: Hop, key: string)
    ensures Named(Sent(hop), key)
            == (if key == "user_id" then [PrintInt(hop.userID)]
                else if key == "publish_time" then [PrintInt(hop.publishTime)] else [])
               + Named(hop.extra, key)
               + (if key == "trace_id" && Named(hop.extra, key) == [] then [PrintInt(hop.freshID)] else [])
               + (if key == "ingest_time" && Named(hop.extra, key) == [] then [PrintInt(hop.ingestTime)] else [])
  {
    var defaults := [Header("user_id", PrintInt(hop.userID)), Header("publish_time", PrintInt(hop.publishTime))];
    var t := Header("trace_id", PrintInt(hop.freshID));
    var g := Header("ingest_time", PrintInt(hop.ingestTime));
    var trace := if Named(hop.extra, "trace_id") == [] then [t] else [];
    var ingest := if Named(hop.extra, "ingest_time") == [] then [g] else [];
    NamedFour(defaults, hop.extra, trace, ingest, key);
    NamedDefaults(hop, key);
    NamedOne(t, key);
    NamedOne(g, key);
    assert Named([], key) == [];
  }

  /**
   * A republishing consumer follows the rule stated at producer.go:83: it copies the incoming `trace_id` and
   * `ingest_time` headers and adds neither `user_id` nor `publish_time`. Other headers are free.
   */
  predicate Propagates(incoming: seq<Header>, hop: Hop) {
    && Named(hop.extra, "trace_id") == Named(incoming, "trace_id")
    && Named(hop.extra, "ingest_time") == Named(incoming, "ingest_time")
    && Named(hop.extra, "user_id") == []
    && Named(hop.extra, "publish_time") == []
  }

  /** The headers after the last of several hops. */
  function AfterHops(origin: Hop, hops: seq<Hop>): (headers: seq<Header>) {
    if hops == [] then Sent(origin) else Sent(hops[|hops| - 1])
  }

  predicate Chain(origin: Hop, hops: seq<Hop>) {
    forall i :: 0 <= i < |hops| ==> Propagates(AfterHops(origin, hops[..i]), hops[i])
  }

  lemma ChainPrefix(origin: Hop, hops: seq<Hop>, n: nat)
    requires Chain(origin, hops) && n <= |hops|
    ensures Chain(origin, hops[..n])
  {
    forall i | 0 <= i < n ensures Propagates(AfterHops(origin, hops[..n][..i]), hops[..n][i]) {
      assert hops[..n][..i] == hops[..i];
    }
  }

  lemma {:induction false} HopsKeepOrigin(origin: Hop, hops: seq<Hop>)
    requires Chain(origin, hops)
    ensures Named(AfterHops(origin, hops), "trace_id") == Named(Sent(origin), "trace_id")
    ensures Named(AfterHops(origin, hops), "ingest_time") == Named(Sent(origin), "ingest_time")
    decreases |hops|
  {
    SentNames(origin);
    if hops != [] {
      var n := |hops| - 1;
      ChainPrefix(origin, hops, n);
      HopsKeepOrigin(origin, hops[..n]);
      assert Propagates(AfterHops(origin, hops[..n]), hops[n]);
      SentNames(hops[n]);
    }
  }

  predicate PositiveID(id: int) {
    0 < id < TWO_63
  }

  predicate Int64(i: int) {
    -TWO_63 <= i < TWO_63
  }

  /** A list of one printed id or time reads back as that id or time. */
  lemma ReadOne(id: int, ms: int, default: int)
    requires Int64(id) && Int64(ms)
    ensures LastID([PrintInt(id)]) == if id > 0 then id else 0
    ensures LastMillis([PrintInt(ms)], default) == ms
  {
    PrintedIDParses(id);
    ParsePrintedInt(ms);
    assert [PrintInt(id)][..0] == [];
  }

  /**
   * After any number of hops the parser gives the original trace id and ingest time, the last sender and the
   * last publish time, at whatever moment it runs.
   */
  lemma MetadataSurvivesHops(origin: Hop, hops: seq<Hop>, ingestNow: int, publishNow: int)
    requires Named(origin.extra, "user_id") == [] && Named(origin.extra, "publish_time") == []
    requires Named(origin.extra, "trace_id") in {[], [PrintInt(origin.freshID)]}
    requires Named(origin.extra, "ingest_time") in {[], [PrintInt(origin.ingestTime)]}
    requires PositiveID(origin.freshID) && Int64(origin.ingestTime)
    requires Chain(origin, hops)
    requires var last := (if hops == [] then origin else hops[|hops| - 1]);
             PositiveID(last.userID) && Int64(last.publishTime)
    ensures var last := (if hops == [] then origin else hops[|hops| - 1]);
            Parsed(AfterHops(origin, hops), ingestNow, publishNow)
            == Metadata(origin.freshID, last.userID, origin.ingestTime, last.publishTime)
  {
    var last := if hops == [] then origin else hops[|hops| - 1];
    if hops != [] {
      assert Propagates(AfterHops(origin, hops[..|hops| - 1]), last);
    }
    HopsKeepOrigin(origin, hops);
    SentNames(origin);
    SentNames(last);
    assert [PrintInt(last.userID)] + [] == [PrintInt(last.userID)];
    assert [PrintInt(last.publishTime)] + [] == [PrintInt(last.publishTime)];
    ReadOne(origin.freshID, origin.ingestTime, ingestNow);
    ReadOne(last.userID, last.publishTime, publishNow);
  }

  lemma {:induction false} LastIDAppend(first: string, rest: seq<string>)
    ensures LastID([first] + rest) == if LastID(rest) != 0 then LastID(rest) else LastID([first])
  {
    if rest == [] {
      assert [first] + rest == [first];
    } else {
      var n := |rest| - 1;
      LastIDAppend(first, rest[..n]);
      assert ([first] + rest)[..n + 1] == [first] + rest[..n];
      ValidSnowflakeIDMeaning(rest[n]);
    }
  }

  /** The sender's id reaches the parser if and only if the extra headers name no other valid user. */
  lemma ExtraHeadersMayReplaceTheUser(hop: Hop, ingestNow: int, publishNow: int)
    requires PositiveID(hop.userID)
    ensures Parsed(Sent(hop), ingestNow, publishNow).userID == hop.userID <==> LastID(Named(hop.extra, "user_id")) in {0, hop.userID}
  {
    SentNames(hop);
    LastIDAppend(PrintInt(hop.userID), Named(hop.extra, "user_id"));
    ReadOne(hop.userID, 0, 0);
  }
}
