/**
 * internal/modules/chat/services/kafka/channelMessage.go: the batch handler between Kafka and MongoDB. Messages it
 * cannot parse, and messages the store reports as failed, go to the dead-letter queue.
 */
module ChannelMessageHandler {
  import opened Common
  import opened Decimal
  import opened KafkaHeaders
  import opened ChannelMessageStore

  datatype KafkaMessage = KafkaMessage(topic: string, key: string, value: string, headers: seq<Header>)

  /** The fields a JSON payload contributes; the others come from the headers. */
  datatype Body = Body(content: string, fileURL: Option<string>, serverID: int, channelID: int)

  /** JSON decoding, uninterpreted. */
  type Decoder = string -> Option<Body>

  /** `ParseChannelByteMessage` on the metadata of the message, read at time `now`. */
  function ParsedDoc(m: KafkaMessage, now: int, decode: Decoder): (doc: Option<Doc>) {
    var body := decode(m.value);
    if body.None? then None
    else
      var meta := Parsed(m.headers, now, now);
      Some(Doc(meta.traceID, body.value.content, body.value.fileURL, meta.userID, body.value.serverID,
               body.value.channelID, None, meta.ingestTime))
  }

  /** The document a message stands for, if it is a valid record. */
  function Record(m: KafkaMessage, now: int, decode: Decoder): (doc: Option<Doc>) {
    var parsed := ParsedDoc(m, now, decode);
    if parsed.None? || !Complete(parsed.value) then None else Some(parsed.value.(deleted := Some(false)))
  }

  /** The records of a batch whose i-th message is read at time `clock(i)`. */
  function Records(messages: seq<KafkaMessage>, clock: nat -> int, decode: Decoder): (docs: seq<Option<Doc>>)
    ensures |docs| == |messages|
    ensures forall i :: 0 <= i < |docs| ==> docs[i] == Record(messages[i], clock(i), decode)
  {
    seq(|messages|, i requires 0 <= i < |messages| => Record(messages[i], clock(i), decode))
  }

  /** The first `n` messages, split by whether their bodies parse. */
  ghost predicate SplitByParsing(
    messages: seq<KafkaMessage>, n: nat, decode: Decoder, parsed: seq<nat>, unparsed: seq<nat>,
    validMessages: seq<KafkaMessage>, dlq: seq<KafkaMessage>)
    requires n <= |messages|
  {
    && IndexArray(parsed, n) && IndexArray(unparsed, n)
    && (forall k :: k in parsed <==> 0 <= k < n && decode(messages[k].value).Some?)
    && (forall k :: k in unparsed <==> 0 <= k < n && decode(messages[k].value).None?)
    && validMessages == Select(messages, parsed) && dlq == Select(messages, unparsed)
  }

  lemma OneParsed(
    messages: seq<KafkaMessage>, n: nat, decode: Decoder, parsed: seq<nat>, unparsed: seq<nat>,
    validMessages: seq<KafkaMessage>, dlq: seq<KafkaMessage>)
    requires n < |messages| && SplitByParsing(messages, n, decode, parsed, unparsed, validMessages, dlq)
    requires decode(messages[n].value).Some?
    ensures SplitByParsing(messages, n + 1, decode, parsed + [n], unparsed, validMessages + [messages[n]], dlq)
  {
  }

  lemma OneUnparsed(
    messages: seq<KafkaMessage>, n: nat, decode: Decoder, parsed: seq<nat>, unparsed: seq<nat>,
    validMessages: seq<KafkaMessage>, dlq: seq<KafkaMessage>)
    requires n < |messages| && SplitByParsing(messages, n, decode, parsed, unparsed, validMessages, dlq)
    requires decode(messages[n].value).None?
    ensures SplitByParsing(messages, n + 1, decode, parsed, unparsed + [n], validMessages, dlq + [messages[n]])
  {
  }

  /** The first loop of the handler: positions and models of the messages that parse, positions of the others. */
  method ParseBatch(messages: seq<KafkaMessage>, clock: nat -> int, decode: Decoder)
    returns (models: seq<ChannelMessage>, validMessages: seq<KafkaMessage>, dlq: seq<KafkaMessage>,
             ghost parsed: seq<nat>, ghost unparsed: seq<nat>)
    ensures SplitByParsing(messages, |messages|, decode, parsed, unparsed, validMessages, dlq)
    ensures |models| == |parsed| && forall k :: 0 <= k < |models| ==> fresh(models[k])
    ensures forall k :: 0 <= k < |models| ==>
              ParsedDoc(messages[parsed[k]], clock(parsed[k]), decode) == Some(models[k].ToDoc())
  {
    hide Parsed, ParsedDoc;
    models, validMessages, dlq, parsed, unparsed := [], [], [], [], [];
    for i := 0 to |messages|
      invariant SplitByParsing(messages, i, decode, parsed, unparsed, validMessages, dlq)
      invariant |models| == |parsed| && forall k :: 0 <= k < |models| ==> fresh(models[k])
      invariant forall k :: 0 <= k < |models| ==>
                  ParsedDoc(messages[parsed[k]], clock(parsed[k]), decode) == Some(models[k].ToDoc())
    {
      var msg := messages[i];
      var publishNow: int := *;
      var metadata := ParseKafkaMessageHeaders(msg.headers, clock(i), publishNow);
      PublishTimeDoesNotShow(msg, clock(i), publishNow, decode);
      var model := ParseChannelByteMessage(msg, metadata, decode);
      if model == null {
        OneUnparsed(messages, i, decode, parsed, unparsed, validMessages, dlq);
        dlq := dlq + [msg];
        unparsed := unparsed + [i];
      } else {
        OneParsed(messages, i, decode, parsed, unparsed, validMessages, dlq);
        models := models + [model];
        validMessages := validMessages + [msg];
        parsed := parsed + [i];
      }
    }
  }

  lemma PublishTimeDoesNotShow(m: KafkaMessage, now: int, publishNow: int, decode: Decoder)
    ensures ParsedDoc(m, now, decode)
            == var body, meta := decode(m.value), Parsed(m.headers, now, publishNow);
               if body.None? then None
               else Some(Doc(meta.traceID, body.value.content, body.value.fileURL, meta.userID, body.value.serverID,
                             body.value.channelID, None, meta.ingestTime))
  {
  }

  /** `ParseChannelByteMessage`; null stands for an error. */
  method ParseChannelByteMessage(msg: KafkaMessage, metadata: Metadata, decode: Decoder) returns (model: ChannelMessage?)
    ensures model == null <==> decode(msg.value).None?
    ensures model != null ==> fresh(model)
    ensures model != null ==>
              model.ToDoc() == var body := decode(msg.value).value;
                               Doc(metadata.traceID, body.content, body.fileURL, metadata.userID, body.serverID, body.channelID,
                                   None, metadata.ingestTime)
  {
    var body := decode(msg.value);
    if body.None? {
      return null;
    }
    model := new ChannelMessage(metadata.traceID, body.value.content, body.value.fileURL, metadata.userID,
                                body.value.serverID, body.value.channelID, metadata.ingestTime);
  }

  /** A batch's positions, split: `dead` lists those sent to the dead-letter queue, the others are stored. */
  ghost predicate SplitsExactly(dead: seq<nat>, length: nat, stored: set<nat>) {
    && NoDuplicates(dead)
    && (forall i :: i in dead <==> 0 <= i < length && i !in stored)
    && (forall i :: i in stored ==> i < length)
    && |dead| + |stored| == length
  }

  /**
   * The handler. `refused` are the positions of the batch whose documents MongoDB refused for another reason than a
   * duplicate `_id`; without such objections there are none.
   */
  method HandleChannelMessages(
    coll: MessageCollection, messages: seq<KafkaMessage>, clock: nat -> int, decode: Decoder,
    objections: set<nat>, fatal: bool)
    returns (err: bool, dlq: seq<KafkaMessage>, ghost dead: seq<nat>, ghost refused: set<nat>)
    modifies coll
    ensures coll.docs == Persist(old(coll.docs), Records(messages, clock, decode), refused)
    ensures objections == {} ==> refused == {}
    ensures |dlq| == |dead| && forall k :: 0 <= k < |dead| ==> dead[k] < |messages| && dlq[k] == messages[dead[k]]
    ensures !err ==> SplitsExactly(dead, |messages|, StoredPositions(old(coll.docs), Records(messages, clock, decode), refused))
    ensures err ==> fatal && FailuresAre(dead, |messages|,
                                         set i | 0 <= i < |messages| && Records(messages, clock, decode)[i].Some?)
  {
    ghost var records := Records(messages, clock, decode);
    var models, validMessages, unparsedMessages, parsed, unparsed := ParseBatch(messages, clock, decode);
    ParsedOrNot(messages, clock, decode, parsed, unparsed);
    if |models| == 0 {
      NothingParsed(coll.docs, records, parsed, unparsed);
      return false, unparsedMessages, unparsed, {};
    }
    CheckedAreSelected(messages, clock, decode, parsed, Docs(models));
    var failed;
    ghost var valid;
    err, failed, dead, refused, valid := InsertParsed(coll, models, records, parsed, unparsed, objections, fatal);
    dlq := AppendFailed(unparsedMessages, validMessages, failed, messages, parsed, unparsed);
  }

  /** The bulk insert of the parsed models, and what it means for the positions of the batch. */
  method InsertParsed(
    coll: MessageCollection, models: seq<ChannelMessage>,
    ghost records: seq<Option<Doc>>, ghost parsed: seq<nat>, ghost unparsed: seq<nat>, objections: set<nat>, fatal: bool)
    returns (err: bool, failed: seq<nat>, ghost dead: seq<nat>, ghost refused: set<nat>, ghost valid: seq<nat>)
    requires IndexArray(parsed, |records|) && IndexArray(unparsed, |records|) && OthersAbsent(records, parsed)
    requires forall i: nat :: i < |records| ==> (i in unparsed <==> i !in parsed)
    requires Checked(Docs(models)) == Select(records, parsed)
    modifies coll, models
    ensures coll.docs == Persist(old(coll.docs), records, refused)
    ensures objections == {} ==> refused == {}
    ensures forall e :: e in failed ==> e < |parsed|
    ensures dead == unparsed + Mapped(parsed, failed)
    ensures IndexArray(valid, |parsed|) && IndexArray(Composed(parsed, valid), |records|) && NoDuplicates(Composed(parsed, valid))
    ensures forall i :: i in Composed(parsed, valid) <==> 0 <= i < |records| && records[i].Some?
    ensures !err ==> SplitsExactly(dead, |records|, StoredPositions(old(coll.docs), records, refused))
    ensures err ==> fatal && FailuresAre(dead, |records|, set i | 0 <= i < |records| && records[i].Some?)
  {
    ghost var before, docs := coll.docs, Docs(models);
    failed, err, valid := CreateChannelMessagesBulk(coll, models, objections, fatal);
    ghost var bad := Image(valid, objections);
    refused := Image(parsed, bad);
    PersistSelected(before, records, parsed, bad);
    dead := unparsed + Mapped(parsed, failed);
    forall k ensures k in valid <==> 0 <= k < |parsed| && records[parsed[k]].Some? {
      assert 0 <= k < |parsed| ==> Checked(docs)[k] == records[parsed[k]];
    }
    ComposedIsIndexArray(parsed, valid, |records|);
    ComposedListsRecords(records, parsed, valid);
    if err {
      DeadAfterError(records, parsed, unparsed, valid, failed);
    } else {
      DeadAfterInsert(before, records, parsed, unparsed, bad, failed);
    }
  }

  lemma ComposedListsRecords(records: seq<Option<Doc>>, parsed: seq<nat>, valid: seq<nat>)
    requires IndexArray(parsed, |records|) && OthersAbsent(records, parsed) && IndexArray(valid, |parsed|)
    requires forall k :: k in valid <==> 0 <= k < |parsed| && records[parsed[k]].Some?
    ensures forall i :: i in Composed(parsed, valid) <==> 0 <= i < |records| && records[i].Some?
  {
    var composed := Composed(parsed, valid);
    forall i | 0 <= i < |records| && records[i].Some? ensures i in composed {
      var k :| 0 <= k < |parsed| && parsed[k] == i;
      assert k in valid;
      var j :| 0 <= j < |valid| && valid[j] == k;
      assert composed[j] == i;
    }
    forall i | i in composed ensures 0 <= i < |records| && records[i].Some? {
      var j :| 0 <= j < |composed| && composed[j] == i;
      assert valid[j] in valid;
    }
  }

  lemma CheckedAreSelected(messages: seq<KafkaMessage>, clock: nat -> int, decode: Decoder, parsed: seq<nat>, docs: seq<Doc>)
    requires IndexArray(parsed, |messages|) && |docs| == |parsed|
    requires forall k :: 0 <= k < |docs| ==> ParsedDoc(messages[parsed[k]], clock(parsed[k]), decode) == Some(docs[k])
    ensures Checked(docs) == Select(Records(messages, clock, decode), parsed)
  {
  }

  /** The second loop of the handler. */
  method AppendFailed(
    unparsedMessages: seq<KafkaMessage>, validMessages: seq<KafkaMessage>, failed: seq<nat>,
    ghost messages: seq<KafkaMessage>, ghost parsed: seq<nat>, ghost unparsed: seq<nat>)
    returns (dlq: seq<KafkaMessage>)
    requires IndexArray(parsed, |messages|) && IndexArray(unparsed, |messages|)
    requires validMessages == Select(messages, parsed) && unparsedMessages == Select(messages, unparsed)
    requires forall e :: e in failed ==> e < |parsed|
    ensures var dead := unparsed + Mapped(parsed, failed);
            |dlq| == |dead| && forall k :: 0 <= k < |dead| ==> dead[k] < |messages| && dlq[k] == messages[dead[k]]
  {
    dlq := unparsedMessages;
    ghost var mapped := Mapped(parsed, failed);
    for j := 0 to |failed|
      invariant |dlq| == |unparsed| + j
      invariant dlq[..|unparsed|] == unparsedMessages
      invariant forall k :: 0 <= k < j ==> dlq[|unparsed| + k] == messages[mapped[k]]
    {
      assert failed[j] in failed;
      dlq := dlq + [validMessages[failed[j]]];
    }
    ghost var dead := unparsed + mapped;
    forall k | 0 <= k < |dead| ensures dead[k] < |messages| && dlq[k] == messages[dead[k]] {
      if k < |unparsed| {
        assert dlq[k] == dlq[..|unparsed|][k];
      } else {
        assert dlq[k] == dlq[|unparsed| + (k - |unparsed|)];
      }
    }
  }

  lemma ParsedOrNot(messages: seq<KafkaMessage>, clock: nat -> int, decode: Decoder, parsed: seq<nat>, unparsed: seq<nat>)
    requires forall i :: i in parsed <==> 0 <= i < |messages| && decode(messages[i].value).Some?
    requires forall i :: i in unparsed <==> 0 <= i < |messages| && decode(messages[i].value).None?
    ensures OthersAbsent(Records(messages, clock, decode), parsed)
    ensures forall i: nat :: i < |messages| ==> (i in unparsed <==> i !in parsed)
  {
  }

  /** Both kinds of dead letter together, when the insert went through. */
  lemma DeadAfterInsert(
    before: Collection, records: seq<Option<Doc>>, parsed: seq<nat>, unparsed: seq<nat>, bad: set<nat>, failed: seq<nat>)
    requires IndexArray(parsed, |records|) && IndexArray(unparsed, |records|) && OthersAbsent(records, parsed)
    requires forall i: nat :: i < |records| ==> (i in unparsed <==> i !in parsed)
    requires FailuresAre(failed, |parsed|, StoredPositions(before, Select(records, parsed), bad))
    ensures SplitsExactly(unparsed + Mapped(parsed, failed), |records|, StoredPositions(before, records, Image(parsed, bad)))
  {
    var stored := StoredPositions(before, Select(records, parsed), bad);
    StoredSelected(before, records, parsed, bad);
    FailuresMapped(parsed, failed, unparsed, |records|, stored);
    SplitCounts(unparsed + Mapped(parsed, failed), |records|, StoredPositions(before, records, Image(parsed, bad)));
  }

  /** Without objections a position is dead exactly when it is no record, or its id is stored already or stands further up. */
  lemma DeadExactlyWhenNoRecordOrDuplicate(coll: Collection, records: seq<Option<Doc>>, dead: seq<nat>, i: nat)
    requires SplitsExactly(dead, |records|, StoredPositions(coll, records, {})) && i < |records|
    ensures i in dead <==> records[i].None? || records[i].value.id in coll || Offers(records[..i], {}, records[i].value.id)
  {
    FailsExactlyWhenTaken(coll, records, {}, i);
  }

  /** The id a message is stored under: the last valid trace id among its headers. */
  function TraceID(m: KafkaMessage): (id: int) {
    LastID(Named(m.headers, "trace_id"))
  }

  /** The message parses, says what it is, where it belongs and who sent it, and has a text or a file. */
  predicate SoundMessage(m: KafkaMessage, decode: Decoder) {
    && decode(m.value).Some?
    && TraceID(m) != 0 && LastID(Named(m.headers, "user_id")) != 0
    && var body := decode(m.value).value;
       body.serverID != 0 && body.channelID != 0 && (body.content != "" || body.fileURL != None)
  }

  /** What it says, as a document. */
  function AsSent(m: KafkaMessage, now: int, decode: Decoder): (d: Doc)
    requires decode(m.value).Some?
  {
    var body := decode(m.value).value;
    Doc(TraceID(m), body.content, body.fileURL, LastID(Named(m.headers, "user_id")), body.serverID, body.channelID,
        Some(false), LastMillis(Named(m.headers, "ingest_time"), now))
  }

  /** A sound message further up has the same trace id. */
  predicate EarlierInBatch(messages: seq<KafkaMessage>, decode: Decoder, i: nat)
    requires i < |messages|
  {
    exists j :: 0 <= j < i && SoundMessage(messages[j], decode) && TraceID(messages[j]) == TraceID(messages[i])
  }

  lemma RecordOfASoundMessage(m: KafkaMessage, now: int, decode: Decoder)
    ensures Record(m, now, decode) == if SoundMessage(m, decode) then Some(AsSent(m, now, decode)) else None
  {
  }

  /**
   * The handler from outside, when MongoDB objects to duplicate ids alone: a message of the batch is dead-lettered exactly
   * if it is not sound or its trace id is taken, in the collection or further up; any other is stored as it was sent.
   */
  lemma WhatBecomesOfAMessage(
    coll: Collection, messages: seq<KafkaMessage>, clock: nat -> int, decode: Decoder, dead: seq<nat>, i: nat)
    requires SplitsExactly(dead, |messages|, StoredPositions(coll, Records(messages, clock, decode), {})) && i < |messages|
    ensures i in dead <==> !SoundMessage(messages[i], decode) || TraceID(messages[i]) in coll || EarlierInBatch(messages, decode, i)
    ensures i !in dead ==>
              var after := Persist(coll, Records(messages, clock, decode), {});
              && decode(messages[i].value).Some? && TraceID(messages[i]) in after
              && after[TraceID(messages[i])] == AsSent(messages[i], clock(i), decode)
  {
    hide Record, LastID, LastMillis, SoundMessage;
    var records := Records(messages, clock, decode);
    RecordOfASoundMessage(messages[i], clock(i), decode);
    SoundOnesParse(messages[i], decode);
    DeadExactlyWhenNoRecordOrDuplicate(coll, records, dead, i);
    if SoundMessage(messages[i], decode) { OffersEarlier(messages, clock, decode, i); }
    if i !in dead { StoredAppears(coll, records, {}, i); }
  }

  lemma OffersEarlier(messages: seq<KafkaMessage>, clock: nat -> int, decode: Decoder, i: nat)
    requires i < |messages|
    ensures Offers(Records(messages, clock, decode)[..i], {}, TraceID(messages[i])) <==> EarlierInBatch(messages, decode, i)
  {
    hide Record, SoundMessage;
    var above, id := Records(messages, clock, decode)[..i], TraceID(messages[i]);
    forall j | 0 <= j < i
      ensures above[j].Some? <==> SoundMessage(messages[j], decode)
      ensures above[j].Some? ==> above[j].value.id == TraceID(messages[j])
    {
      RecordOfASoundMessage(messages[j], clock(j), decode);
      SoundOnesParse(messages[j], decode);
    }
    if Offers(above, {}, id) {
      var j :| 0 <= j < i && above[j].Some? && above[j].value.id == id;
      assert SoundMessage(messages[j], decode);
    }
    if j :| 0 <= j < i && SoundMessage(messages[j], decode) && TraceID(messages[j]) == id {
      assert above[j].Some? && above[j].value.id == id;
    }
  }

  lemma SoundOnesParse(m: KafkaMessage, decode: Decoder)
    ensures SoundMessage(m, decode) ==> decode(m.value).Some?
  {
  }

  /** So a batch delivered a second time is dead-lettered as a whole, although its records are stored. */
  lemma SecondDeliveryIsDead(coll: Collection, first: seq<Option<Doc>>, second: seq<Option<Doc>>, dead: seq<nat>)
    requires |second| == |first|
    requires forall i :: 0 <= i < |first| ==>
               (second[i].Some? <==> first[i].Some?) && (first[i].Some? ==> second[i].value.id == first[i].value.id)
    requires SplitsExactly(dead, |second|, StoredPositions(Persist(coll, first, {}), second, {}))
    ensures |dead| == |second| && forall i :: 0 <= i < |second| ==> i in dead
    ensures Persist(Persist(coll, first, {}), second, {}) == Persist(coll, first, {})
  {
    var stored := Persist(coll, first, {});
    forall i | 0 <= i < |second| ensures i in dead {
      DeadExactlyWhenNoRecordOrDuplicate(stored, second, dead, i);
      if second[i].Some? { IdsAfterPersist(coll, first, {}, second[i].value.id); }
    }
    assert StoredPositions(stored, second, {}) == {};
    NothingGained(stored, second);
  }

  lemma NothingGained(coll: Collection, records: seq<Option<Doc>>)
    requires StoredPositions(coll, records, {}) == {}
    ensures Persist(coll, records, {}) == coll
  {
    var after := Persist(coll, records, {});
    StoredIsWhatIsGained(coll, records, {});
    forall id: int ensures id in after <==> id in coll {
    }
    forall id: int | id in coll ensures after[id] == coll[id] && after[id].content == coll[id].content {
    }
  }

  /** When the connection broke, only the messages that are no records are dead letters. */
  lemma DeadAfterError(records: seq<Option<Doc>>, parsed: seq<nat>, unparsed: seq<nat>, valid: seq<nat>, failed: seq<nat>)
    requires IndexArray(parsed, |records|) && IndexArray(unparsed, |records|) && OthersAbsent(records, parsed)
    requires forall i: nat :: i < |records| ==> (i in unparsed <==> i !in parsed)
    requires forall k :: k in valid <==> 0 <= k < |parsed| && records[parsed[k]].Some?
    requires FailuresAre(failed, |parsed|, Elements(valid))
    ensures FailuresAre(unparsed + Mapped(parsed, failed), |records|, set i | 0 <= i < |records| && records[i].Some?)
  {
    FailuresMapped(parsed, failed, unparsed, |records|, Elements(valid));
    forall i ensures i in Image(parsed, Elements(valid)) <==> 0 <= i < |records| && records[i].Some? {
      if 0 <= i < |records| && records[i].Some? {
        var k :| 0 <= k < |parsed| && parsed[k] == i;
        assert k in Elements(valid);
      }
    }
  }

  lemma NothingParsed(coll: Collection, records: seq<Option<Doc>>, parsed: seq<nat>, unparsed: seq<nat>)
    requires IndexArray(parsed, |records|) && IndexArray(unparsed, |records|) && OthersAbsent(records, parsed) && parsed == []
    requires forall i: nat :: i < |records| ==> i in unparsed
    ensures Persist(coll, records, {}) == coll
    ensures SplitsExactly(unparsed, |records|, StoredPositions(coll, records, {}))
  {
    PersistSelected(coll, records, parsed, {});
    assert Image(parsed, {}) == {};
    SplitCounts(unparsed, |records|, StoredPositions(coll, records, {}));
  }

  lemma SplitCounts(dead: seq<nat>, length: nat, stored: set<nat>)
    requires FailuresAre(dead, length, stored)
    requires forall i :: i in stored ==> i < length
    ensures SplitsExactly(dead, length, stored)
  {
    NoDuplicatesCount(dead);
    assert UpTo(length) == Elements(dead) + stored;
    assert |UpTo(length)| == |Elements(dead)| + |stored|;
  }

  function UpTo(n: nat): (all: set<nat>)
    ensures forall i :: i in all <==> 0 <= i < n
    ensures |all| == n
  {
    if n == 0 then {} else UpTo(n - 1) + {n - 1}
  }
}
