/**
 * Kafka may deliver a message any number of times, in batches cut anywhere. The trace id is the document's `_id`, so
 * what MongoDB ends up holding depends only on which messages were delivered.
 */
module Redelivery {
  import opened Common
  import opened Decimal
  import opened KafkaHeaders
  import opened ChannelMessageStore
  import opened ChannelMessageHandler

  /** One call of the batch handler: its messages, when each is read, and the positions MongoDB refused (see `HandleChannelMessages`). */
  datatype Delivery = Delivery(messages: seq<KafkaMessage>, clock: nat -> int, refused: set<nat>)

  /** The collection after a schedule of deliveries, as the handler's contract gives it. */
  ghost function Collected(schedule: seq<Delivery>, decode: Decoder): (coll: Collection) {
    if schedule == [] then map[]
    else
      var last := schedule[|schedule| - 1];
      Persist(Collected(schedule[..|schedule| - 1], decode), Records(last.messages, last.clock, decode), last.refused)
  }

  ghost predicate Sends(schedule: seq<Delivery>, m: KafkaMessage) {
    exists k :: 0 <= k < |schedule| && m in schedule[k].messages
  }

  /** The message says when it was ingested, so the time of reading does not show in its record. */
  predicate Timed(m: KafkaMessage) {
    exists i :: 0 <= i < |Named(m.headers, "ingest_time")| && ParseInt64(Named(m.headers, "ingest_time")[i]).Some?
  }

  /** The record of a message, read at whatever time. */
  function RecordOf(m: KafkaMessage, decode: Decoder): (doc: Option<Doc>) {
    Record(m, 0, decode)
  }

  lemma {:induction false} DefaultUnused(values: seq<string>, a: int, b: int)
    requires exists i :: 0 <= i < |values| && ParseInt64(values[i]).Some?
    ensures LastMillis(values, a) == LastMillis(values, b)
    decreases |values|
  {
    var n := |values| - 1;
    if ParseInt64(values[n]).None? {
      var i :| 0 <= i < |values| && ParseInt64(values[i]).Some?;
      assert values[..n][i] == values[i];
      DefaultUnused(values[..n], a, b);
    }
  }

  lemma ReadingTimeDoesNotShow(m: KafkaMessage, now: int, decode: Decoder)
    requires Timed(m)
    ensures Record(m, now, decode) == RecordOf(m, decode)
  {
    DefaultUnused(Named(m.headers, "ingest_time"), now, 0);
  }

  /** All messages carry an ingest time, and different records have different trace ids. */
  ghost predicate WellFormed(schedule: seq<Delivery>, decode: Decoder) {
    && (forall m :: Sends(schedule, m) ==> Timed(m))
    && (forall m, n :: Sends(schedule, m) && Sends(schedule, n)
                       && RecordOf(m, decode).Some? && RecordOf(n, decode).Some?
                       && RecordOf(m, decode).value.id == RecordOf(n, decode).value.id
                       ==> RecordOf(m, decode) == RecordOf(n, decode))
  }

  ghost predicate NothingRefused(schedule: seq<Delivery>) {
    forall k :: 0 <= k < |schedule| ==> schedule[k].refused == {}
  }

  /** The document is the record of some delivered message. */
  ghost predicate Backed(schedule: seq<Delivery>, decode: Decoder, doc: Doc) {
    exists m :: Sends(schedule, m) && RecordOf(m, decode) == Some(doc)
  }

  lemma PrefixSends(schedule: seq<Delivery>, m: KafkaMessage)
    requires schedule != []
    ensures Sends(schedule, m) <==> Sends(schedule[..|schedule| - 1], m) || m in schedule[|schedule| - 1].messages
  {
    var n := |schedule| - 1;
    if Sends(schedule[..n], m) {
      var k :| 0 <= k < n && m in schedule[..n][k].messages;
      assert m in schedule[k].messages;
    }
    if m in schedule[n].messages {
      assert 0 <= n < |schedule|;
    }
    if Sends(schedule, m) {
      var k :| 0 <= k < |schedule| && m in schedule[k].messages;
      if k < n { assert schedule[..n][k] == schedule[k]; }
    }
  }

  /** Every stored document is the record of a delivered message, whatever MongoDB refuses. */
  lemma {:induction false} OnlyDeliveredIsStored(schedule: seq<Delivery>, decode: Decoder)
    requires forall m :: Sends(schedule, m) ==> Timed(m)
    ensures forall id :: id in Collected(schedule, decode) ==>
              Backed(schedule, decode, Collected(schedule, decode)[id]) && Collected(schedule, decode)[id].id == id
    decreases |schedule|
  {
    if schedule != [] {
      var n := |schedule| - 1;
      var last := schedule[n];
      forall m ensures Sends(schedule, m) <==> Sends(schedule[..n], m) || m in last.messages {
        PrefixSends(schedule, m);
      }
      OnlyDeliveredIsStored(schedule[..n], decode);
      var before, docs := Collected(schedule[..n], decode), Records(last.messages, last.clock, decode);
      StoredIsWhatIsGained(before, docs, last.refused);
      var after := Collected(schedule, decode);
      forall id | id in after
        ensures Backed(schedule, decode, after[id]) && after[id].id == id
      {
        if id in before {
          var m :| Sends(schedule[..n], m) && RecordOf(m, decode) == Some(before[id]);
          assert Sends(schedule, m) && RecordOf(m, decode) == Some(after[id]);
        } else {
          var i :| i in StoredPositions(before, docs, last.refused) && docs[i].value.id == id;
          var m := last.messages[i];
          assert m in last.messages && Sends(schedule, m);
          ReadingTimeDoesNotShow(m, last.clock(i), decode);
          assert RecordOf(m, decode) == docs[i] == Some(after[id]);
        }
      }
    }
  }

  lemma {:induction false} EveryRecordIsStored(coll: Collection, docs: seq<Option<Doc>>, i: nat)
    requires i < |docs| && docs[i].Some?
    ensures docs[i].value.id in Persist(coll, docs, {})
  {
    PersistPrefix(coll, docs, {}, i + 1);
    assert docs[..i + 1][..i] == docs[..i];
  }

  lemma SameIdSameRecord(schedule: seq<Delivery>, decode: Decoder, doc: Doc, other: Doc)
    requires WellFormed(schedule, decode)
    requires Backed(schedule, decode, doc) && Backed(schedule, decode, other) && doc.id == other.id
    ensures doc == other
  {
  }

  /** A record of the last delivery is stored: now, or earlier by a message with the same trace id. */
  lemma LastDeliveredIsStored(schedule: seq<Delivery>, decode: Decoder, m: KafkaMessage)
    requires schedule != [] && Timed(m) && schedule[|schedule| - 1].refused == {}
    requires m in schedule[|schedule| - 1].messages && RecordOf(m, decode).Some?
    ensures RecordOf(m, decode).value.id in Collected(schedule, decode)
  {
    var last := schedule[|schedule| - 1];
    var i :| 0 <= i < |last.messages| && last.messages[i] == m;
    ReadingTimeDoesNotShow(m, last.clock(i), decode);
    EveryRecordIsStored(Collected(schedule[..|schedule| - 1], decode), Records(last.messages, last.clock, decode), i);
  }

  lemma StoredStays(schedule: seq<Delivery>, decode: Decoder, id: int)
    requires schedule != [] && id in Collected(schedule[..|schedule| - 1], decode)
    ensures id in Collected(schedule, decode)
  {
    var last := schedule[|schedule| - 1];
    StoredIsWhatIsGained(
      Collected(schedule[..|schedule| - 1], decode), Records(last.messages, last.clock, decode), last.refused);
  }

  lemma {:induction false} EveryDeliveredIdIsStored(schedule: seq<Delivery>, decode: Decoder, m: KafkaMessage)
    requires NothingRefused(schedule) && Sends(schedule, m) && Timed(m) && RecordOf(m, decode).Some?
    ensures RecordOf(m, decode).value.id in Collected(schedule, decode)
    decreases |schedule|
  {
    PrefixSends(schedule, m);
    if Sends(schedule[..|schedule| - 1], m) {
      EveryDeliveredIdIsStored(schedule[..|schedule| - 1], decode, m);
      StoredStays(schedule, decode, RecordOf(m, decode).value.id);
    } else {
      LastDeliveredIsStored(schedule, decode, m);
    }
  }

  /** With no objection but a duplicate id, every delivered record is stored under its trace id. */
  lemma EveryDeliveredIsStored(schedule: seq<Delivery>, decode: Decoder, m: KafkaMessage)
    requires WellFormed(schedule, decode) && NothingRefused(schedule)
    requires Sends(schedule, m) && RecordOf(m, decode).Some?
    ensures var doc := RecordOf(m, decode).value; doc.id in Collected(schedule, decode) && Collected(schedule, decode)[doc.id] == doc
  {
    var doc := RecordOf(m, decode).value;
    EveryDeliveredIdIsStored(schedule, decode, m);
    OnlyDeliveredIsStored(schedule, decode);
    assert Backed(schedule, decode, doc);
    SameIdSameRecord(schedule, decode, doc, Collected(schedule, decode)[doc.id]);
  }

  /**
   * The collection is the map from trace id to record of the delivered messages: each valid one once, nothing else,
   * however often and in whatever batches they came.
   */
  lemma CollectionIsTheDeliveredRecords(schedule: seq<Delivery>, decode: Decoder)
    requires WellFormed(schedule, decode) && NothingRefused(schedule)
    ensures var coll := Collected(schedule, decode);
            && (forall m :: Sends(schedule, m) && RecordOf(m, decode).Some? ==>
                  RecordOf(m, decode).value.id in coll && coll[RecordOf(m, decode).value.id] == RecordOf(m, decode).value)
            && (forall id :: id in coll ==> Backed(schedule, decode, coll[id]) && coll[id].id == id)
  {
    OnlyDeliveredIsStored(schedule, decode);
    forall m | Sends(schedule, m) && RecordOf(m, decode).Some?
      ensures RecordOf(m, decode).value.id in Collected(schedule, decode)
      ensures Collected(schedule, decode)[RecordOf(m, decode).value.id] == RecordOf(m, decode).value
    {
      EveryDeliveredIsStored(schedule, decode, m);
    }
  }

  lemma MoreDeliveredMoreStored(a: seq<Delivery>, b: seq<Delivery>, decode: Decoder, id: int)
    requires WellFormed(a, decode) && WellFormed(b, decode) && NothingRefused(b)
    requires forall m :: Sends(a, m) ==> Sends(b, m)
    requires id in Collected(a, decode)
    ensures id in Collected(b, decode) && Collected(b, decode)[id] == Collected(a, decode)[id]
  {
    OnlyDeliveredIsStored(a, decode);
    var m :| Sends(a, m) && RecordOf(m, decode) == Some(Collected(a, decode)[id]);
    EveryDeliveredIsStored(b, decode, m);
  }

  /** Two schedules that deliver the same messages end in the same collection: redelivery is harmless. */
  lemma RedeliveryIsHarmless(a: seq<Delivery>, b: seq<Delivery>, decode: Decoder)
    requires WellFormed(a, decode) && NothingRefused(a) && WellFormed(b, decode) && NothingRefused(b)
    requires forall m :: Sends(a, m) <==> Sends(b, m)
    ensures Collected(a, decode) == Collected(b, decode)
  {
    forall id | id in Collected(a, decode) ensures id in Collected(b, decode) && Collected(b, decode)[id] == Collected(a, decode)[id] {
      MoreDeliveredMoreStored(a, b, decode, id);
    }
    forall id | id in Collected(b, decode) ensures id in Collected(a, decode) {
      MoreDeliveredMoreStored(b, a, decode, id);
    }
  }

  /** At some delivery MongoDB was offered the id and did not refuse it. */
  ghost predicate TakenSomewhere(schedule: seq<Delivery>, decode: Decoder, id: int) {
    exists k :: 0 <= k < |schedule| && TakenAt(schedule[k], decode, id)
  }

  predicate TakenAt(delivery: Delivery, decode: Decoder, id: int) {
    Offers(Records(delivery.messages, delivery.clock, decode), delivery.refused, id)
  }

  /** Whatever MongoDB refuses: the ids in the collection are those it was offered once without refusing them. */
  lemma {:induction false} StoredExactlyWhenTaken(schedule: seq<Delivery>, decode: Decoder, id: int)
    ensures id in Collected(schedule, decode) <==> TakenSomewhere(schedule, decode, id)
    decreases |schedule|
  {
    if schedule != [] {
      var n := |schedule| - 1;
      var before := schedule[..n];
      StoredExactlyWhenTaken(before, decode, id);
      IdsAfterPersist(Collected(before, decode), Records(schedule[n].messages, schedule[n].clock, decode), schedule[n].refused, id);
      TakenSnoc(schedule, decode, id);
    }
  }

  lemma TakenSnoc(schedule: seq<Delivery>, decode: Decoder, id: int)
    requires schedule != []
    ensures var n := |schedule| - 1;
            TakenSomewhere(schedule, decode, id) <==> TakenSomewhere(schedule[..n], decode, id) || TakenAt(schedule[n], decode, id)
  {
    hide TakenAt;
    var n := |schedule| - 1;
    if TakenSomewhere(schedule[..n], decode, id) {
      var k :| 0 <= k < n && TakenAt(schedule[..n][k], decode, id);
      assert schedule[k] == schedule[..n][k];
    }
    if k :| 0 <= k < |schedule| && TakenAt(schedule[k], decode, id) {
      assert k < n ==> schedule[..n][k] == schedule[k];
    }
  }

  /** A delivered record is stored under its trace id if and only if its id was once not refused. */
  lemma RecordStoredExactlyWhenTaken(schedule: seq<Delivery>, decode: Decoder, m: KafkaMessage)
    requires WellFormed(schedule, decode) && Sends(schedule, m) && RecordOf(m, decode).Some?
    ensures var record, coll := RecordOf(m, decode).value, Collected(schedule, decode);
            record.id in coll && coll[record.id] == record <==> TakenSomewhere(schedule, decode, record.id)
  {
    var record := RecordOf(m, decode).value;
    StoredExactlyWhenTaken(schedule, decode, record.id);
    OnlyDeliveredIsStored(schedule, decode);
    assert Backed(schedule, decode, record);
    if record.id in Collected(schedule, decode) {
      SameIdSameRecord(schedule, decode, record, Collected(schedule, decode)[record.id]);
    }
  }

  /** One message, delivered again and again, any number of times a batch, is stored once. */
  lemma RedeliveredMessageIsStoredOnce(m: KafkaMessage, schedule: seq<Delivery>, decode: Decoder)
    requires Timed(m) && RecordOf(m, decode).Some? && NothingRefused(schedule)
    requires Sends(schedule, m) && forall n :: Sends(schedule, n) ==> n == m
    ensures WellFormed(schedule, decode)
    ensures var record := RecordOf(m, decode).value; Collected(schedule, decode) == map[record.id := record]
  {
    var record, coll := RecordOf(m, decode).value, Collected(schedule, decode);
    CollectionIsTheDeliveredRecords(schedule, decode);
    forall id | id in coll ensures id == record.id && coll[id] == record {
      assert Backed(schedule, decode, coll[id]);
    }
    assert record.id in coll;
  }
}
