/**
 * The chat pipeline from end to end: the manual-commit loop of base/infrastructure/kafka/consumer.go with the handler of
 * internal/modules/chat/services/kafka/channelMessage.go. A message that was committed is kept somewhere.
 */
module ChatPipeline {
  import opened Common
  import opened ChannelMessageStore
  import opened ChannelMessageHandler
  import opened Redelivery
  import opened BatchConsumer

  type Clocks = nat -> (nat -> int)
  type Refusals = nat -> set<nat>

  /** The batches of a run as deliveries: when each message is read, and the positions MongoDB refuses or never reaches. */
  function Deliveries(batches: seq<seq<KafkaMessage>>, clocks: Clocks, refusals: Refusals): (schedule: seq<Delivery>)
    ensures |schedule| == |batches|
    ensures forall k :: 0 <= k < |batches| ==> schedule[k] == Delivery(batches[k], clocks(k), refusals(k))
  {
    seq(|batches|, k requires 0 <= k < |batches| => Delivery(batches[k], clocks(k), refusals(k)))
  }

  /** The positions of a batch that hold a record. */
  function RecordPositions(messages: seq<KafkaMessage>, clock: nat -> int, decode: Decoder): (positions: set<nat>) {
    set i | 0 <= i < |messages| && Records(messages, clock, decode)[i].Some?
  }

  /** What `HandleChannelMessages` promises of its reply, errors and refusals included. */
  ghost predicate Promised(
    reply: HandlerReply, coll: Collection, messages: seq<KafkaMessage>, clock: nat -> int, decode: Decoder, refused: set<nat>)
  {
    && reply.stored == StoredPositions(coll, Records(messages, clock, decode), refused)
    && (!reply.err ==> SplitsExactly(reply.dead, |messages|, reply.stored))
    && (reply.err ==> FailuresAre(reply.dead, |messages|, RecordPositions(messages, clock, decode)))
  }

  /** The handler as a consumer sees it: its reply is the one promised, and the collection becomes what `Collected` says. */
  method Handle(
    coll: MessageCollection, messages: seq<KafkaMessage>, clock: nat -> int, decode: Decoder, objections: set<nat>, fatal: bool)
    returns (ghost reply: HandlerReply, ghost refused: set<nat>, err: bool, dlq: seq<KafkaMessage>)
    modifies coll
    ensures Promised(reply, old(coll.docs), messages, clock, decode, refused)
    ensures reply.err == err && |dlq| == |reply.dead|
    ensures forall k :: 0 <= k < |dlq| ==> reply.dead[k] < |messages| && dlq[k] == messages[reply.dead[k]]
    ensures coll.docs == Persist(old(coll.docs), Records(messages, clock, decode), refused)
    ensures objections == {} ==> refused == {}
  {
    ghost var dead;
    err, dlq, dead, refused := HandleChannelMessages(coll, messages, clock, decode, objections, fatal);
    reply := HandlerReply(err, dead, false, StoredPositions(old(coll.docs), Records(messages, clock, decode), refused));
  }

  /** Every batch got such a reply, for the collection left by the batches before it. */
  ghost predicate AnsweredByTheHandler(
    batches: seq<seq<KafkaMessage>>, c: Config<KafkaMessage>, clocks: Clocks, refusals: Refusals, decode: Decoder)
  {
    forall k: nat :: k < |batches| ==>
      Promised(c.handler(k, batches[k]), Collected(Deliveries(batches[..k], clocks, refusals), decode),
               batches[k], clocks(k), decode, refusals(k))
  }

  // ---- which batches are taken ----

  /** Every record of the batch was stored. */
  predicate AllRecordsStored(reply: HandlerReply, messages: seq<KafkaMessage>, clock: nat -> int, decode: Decoder) {
    RecordPositions(messages, clock, decode) <= reply.stored
  }

  /** With a dead-letter queue a batch is taken as a whole unless the handler reports an error and left a record unstored. */
  lemma BatchIsTakenExactly(
    reply: HandlerReply, coll: Collection, messages: seq<KafkaMessage>, clock: nat -> int, decode: Decoder, refused: set<nat>,
    c: Config<KafkaMessage>)
    requires c.hasDlq && Promised(reply, coll, messages, clock, decode, refused)
    ensures AllTaken(reply, |messages|, c) <==> !reply.err || AllRecordsStored(reply, messages, clock, decode)
  {
    hide StoredPositions;
    if !reply.err {
      SplitBatchIsTaken(reply, |messages|, c);
    }
  }

  /** The k-th batch is left uncommitted, or the handler reports no error, or it stored every record all the same. */
  predicate ChatBatchIsSafe(k: nat, batch: seq<KafkaMessage>, c: Config<KafkaMessage>, clocks: Clocks, decode: Decoder) {
    var reply := c.handler(k, batch);
    !Commits(reply, c.dlqAccepts(k), c) || !reply.err || AllRecordsStored(reply, batch, clocks(k), decode)
  }

  /** So in every run committed messages are all kept if and only if every batch is safe in this sense. */
  lemma ChatRunIsSafeExactly(
    events: seq<Event<KafkaMessage>>, c: Config<KafkaMessage>, clocks: Clocks, refusals: Refusals, decode: Decoder)
    requires c.hasDlq && AnsweredByTheHandler(After(events, c).batches, c, clocks, refusals, decode)
    ensures var s := After(events, c);
            s.committed <= s.stored + s.deadLettered
            <==> forall k: nat :: k < |s.batches| ==> ChatBatchIsSafe(k, s.batches[k], c, clocks, decode)
  {
    hide After, Promised, AllTaken, AllRecordsStored, Commits;
    var batches := After(events, c).batches;
    CommittedIsSafeExactly(events, c);
    forall k: nat | k < |batches| ensures BatchIsSafe(k, batches[k], c) <==> ChatBatchIsSafe(k, batches[k], c, clocks, decode) {
      BatchIsTakenExactly(c.handler(k, batches[k]), Collected(Deliveries(batches[..k], clocks, refusals), decode),
                          batches[k], clocks(k), decode, refusals(k), c);
    }
  }

  // ---- what becomes of each committed message ----

  /** What the commit argument needs of the replies: whatever is no record is returned as a failure. */
  ghost predicate NoRecordsAreDead(batches: seq<seq<KafkaMessage>>, c: Config<KafkaMessage>, decode: Decoder) {
    forall k: nat :: k < |batches| ==> NoRecordIsDead(c.handler(k, batches[k]), batches[k], decode)
  }

  ghost predicate NoRecordIsDead(reply: HandlerReply, batch: seq<KafkaMessage>, decode: Decoder) {
    forall i: nat :: i < |batch| && RecordOf(batch[i], decode).None? ==> i in reply.dead
  }

  lemma PromisedReplyIsDead(
    reply: HandlerReply, coll: Collection, messages: seq<KafkaMessage>, clock: nat -> int, decode: Decoder, refused: set<nat>)
    requires Promised(reply, coll, messages, clock, decode, refused) && forall m :: m in messages ==> Timed(m)
    ensures NoRecordIsDead(reply, messages, decode)
  {
    forall i: nat | i < |messages| && RecordOf(messages[i], decode).None? ensures i in reply.dead {
      ReadingTimeDoesNotShow(messages[i], clock(i), decode);
      assert Records(messages, clock, decode)[i].None?;
    }
  }

  lemma HandlerReturnsNoRecords(
    batches: seq<seq<KafkaMessage>>, c: Config<KafkaMessage>, clocks: Clocks, refusals: Refusals, decode: Decoder)
    requires AnsweredByTheHandler(batches, c, clocks, refusals, decode)
    requires forall m :: Sends(Deliveries(batches, clocks, refusals), m) ==> Timed(m)
    ensures NoRecordsAreDead(batches, c, decode)
  {
    hide Promised, NoRecordIsDead;
    var schedule := Deliveries(batches, clocks, refusals);
    forall k: nat | k < |batches| ensures NoRecordIsDead(c.handler(k, batches[k]), batches[k], decode) {
      forall m | m in batches[k] ensures Timed(m) {
        assert m in schedule[k].messages;
      }
      PromisedReplyIsDead(c.handler(k, batches[k]), Collected(Deliveries(batches[..k], clocks, refusals), decode),
                          batches[k], clocks(k), decode, refusals(k));
    }
  }

  /** A committed message was processed, and if it is no record it went to the dead-letter queue. */
  ghost predicate CommittedOk(s: State<KafkaMessage>, decode: Decoder) {
    var all := Flatten(s.batches);
    forall g :: g in s.committed ==> g < |all| && (RecordOf(all[g], decode).None? ==> g in s.deadLettered)
  }

  lemma ProcessedKeepsCommittedOk(s: State<KafkaMessage>, c: Config<KafkaMessage>, decode: Decoder)
    requires CommittedOk(s, decode) && c.hasDlq
    requires s.batch != [] ==> NoRecordIsDead(c.handler(|s.batches|, s.batch), s.batch, decode)
    ensures CommittedOk(Processed(s, c), decode)
  {
    if s.batch != [] {
      CommittedOkOneByOne(s, c, decode);
    }
  }

  lemma CommittedOkOneByOne(s: State<KafkaMessage>, c: Config<KafkaMessage>, decode: Decoder)
    requires CommittedOk(s, decode) && c.hasDlq && s.batch != []
    requires NoRecordIsDead(c.handler(|s.batches|, s.batch), s.batch, decode)
    ensures CommittedOk(Processed(s, c), decode)
  {
    hide Processed;
    FlattenSnoc(s.batches, s.batch);
    ProcessedBatches(s, c);
    var all := Flatten(Processed(s, c).batches);
    forall g | g in Processed(s, c).committed
      ensures g < |all| && (RecordOf(all[g], decode).None? ==> g in Processed(s, c).deadLettered)
    {
      ProcessedPosition(s, c, g);
    }
  }

  lemma NextOnlyAppends(s: State<KafkaMessage>, event: Event<KafkaMessage>, c: Config<KafkaMessage>)
    ensures s.batches <= Next(s, event, c).batches
  {
  }

  lemma SplitPrefix(some: seq<seq<KafkaMessage>>, all: seq<seq<KafkaMessage>>, c: Config<KafkaMessage>, decode: Decoder)
    requires some <= all && NoRecordsAreDead(all, c, decode)
    ensures NoRecordsAreDead(some, c, decode)
  {
    forall k: nat | k < |some| ensures NoRecordIsDead(c.handler(k, some[k]), some[k], decode) {
      assert some[k] == all[k];
    }
  }

  lemma NextKeepsCommittedOk(s: State<KafkaMessage>, event: Event<KafkaMessage>, c: Config<KafkaMessage>, decode: Decoder)
    requires CommittedOk(s, decode) && c.hasDlq && NoRecordsAreDead(Next(s, event, c).batches, c, decode)
    ensures CommittedOk(Next(s, event, c), decode)
  {
    var t := Next(s, event, c);
    var longer := if event.Fetched? then s.(batch := s.batch + [event.m]) else s;
    if |t.batches| > |s.batches| {
      assert t.batches == s.batches + [longer.batch];
      assert t.batches[|s.batches|] == longer.batch;
      ProcessedKeepsCommittedOk(longer, c, decode);
    }
  }

  lemma {:induction false} RunKeepsCommittedOk(events: seq<Event<KafkaMessage>>, c: Config<KafkaMessage>, decode: Decoder)
    requires c.hasDlq && NoRecordsAreDead(After(events, c).batches, c, decode)
    ensures CommittedOk(After(events, c), decode)
    decreases |events|
  {
    if events != [] {
      var before, last := events[..|events| - 1], events[|events| - 1];
      NextOnlyAppends(After(before, c), last, c);
      SplitPrefix(After(before, c).batches, After(events, c).batches, c, decode);
      RunKeepsCommittedOk(before, c, decode);
      NextKeepsCommittedOk(After(before, c), last, c, decode);
    }
  }

  lemma {:induction false} FlattenedIsDelivered(batches: seq<seq<KafkaMessage>>, clocks: Clocks, refusals: Refusals, g: nat)
    requires g < |Flatten(batches)|
    ensures Sends(Deliveries(batches, clocks, refusals), Flatten(batches)[g])
    decreases |batches|
  {
    var n := |batches| - 1;
    var schedule := Deliveries(batches, clocks, refusals);
    if g < |Flatten(batches[..n])| {
      FlattenedIsDelivered(batches[..n], clocks, refusals, g);
      assert schedule[..n] == Deliveries(batches[..n], clocks, refusals);
      PrefixSends(schedule, Flatten(batches)[g]);
    } else {
      assert Flatten(batches)[g] in schedule[n].messages;
    }
  }

  lemma ProcessedWasFetched(events: seq<Event<KafkaMessage>>, c: Config<KafkaMessage>, g: nat)
    requires g < |Flatten(After(events, c).batches)|
    ensures g < |FetchedIn(events, c)| && FetchedIn(events, c)[g] == Flatten(After(events, c).batches)[g]
  {
    NothingIsLostOrReordered(events, c);
  }

  predicate InCollection(coll: Collection, record: Doc) {
    record.id in coll && coll[record.id] == record
  }

  /**
   * In every run of the loop with this handler and a dead-letter queue, whatever fails and however Kafka redelivers: a
   * committed message that is no record is in the dead-letter queue; one that is a record is in the collection if and only
   * if at some delivery MongoDB did not refuse its id.
   */
  lemma CommittedMessagesAreKept(
    events: seq<Event<KafkaMessage>>, c: Config<KafkaMessage>, clocks: Clocks, refusals: Refusals, decode: Decoder, g: nat)
    requires c.hasDlq && AnsweredByTheHandler(After(events, c).batches, c, clocks, refusals, decode)
    requires WellFormed(Deliveries(After(events, c).batches, clocks, refusals), decode)
    requires g in After(events, c).committed
    ensures g < |FetchedIn(events, c)|
    ensures var s := After(events, c); var schedule := Deliveries(s.batches, clocks, refusals);
            var record := RecordOf(FetchedIn(events, c)[g], decode);
            if record.None? then g in s.deadLettered
            else InCollection(Collected(schedule, decode), record.value) <==> TakenSomewhere(schedule, decode, record.value.id)
  {
    hide After, AnsweredByTheHandler;
    var batches := After(events, c).batches;
    HandlerReturnsNoRecords(batches, c, clocks, refusals, decode);
    RunKeepsCommittedOk(events, c, decode);
    ProcessedWasFetched(events, c, g);
    if RecordOf(FetchedIn(events, c)[g], decode).Some? {
      FlattenedIsDelivered(batches, clocks, refusals, g);
      RecordStoredExactlyWhenTaken(Deliveries(batches, clocks, refusals), decode, Flatten(batches)[g]);
    }
  }

  /** In particular, where MongoDB refuses nothing, every committed record is in the collection. */
  lemma CommittedRecordsAreStored(
    events: seq<Event<KafkaMessage>>, c: Config<KafkaMessage>, clocks: Clocks, refusals: Refusals, decode: Decoder, g: nat)
    requires c.hasDlq && AnsweredByTheHandler(After(events, c).batches, c, clocks, refusals, decode)
    requires WellFormed(Deliveries(After(events, c).batches, clocks, refusals), decode)
    requires forall k: nat :: k < |After(events, c).batches| ==> refusals(k) == {}
    requires g in After(events, c).committed
    ensures g < |FetchedIn(events, c)|
    ensures var record := RecordOf(FetchedIn(events, c)[g], decode);
            record.Some? ==> InCollection(Collected(Deliveries(After(events, c).batches, clocks, refusals), decode), record.value)
  {
    hide After, AnsweredByTheHandler, WellFormed;
    var batches := After(events, c).batches;
    CommittedMessagesAreKept(events, c, clocks, refusals, decode, g);
    CommittedWasProcessed(events, c, g);
    if RecordOf(FetchedIn(events, c)[g], decode).Some? {
      ProcessedWasFetched(events, c, g);
      FlattenedIsDelivered(batches, clocks, refusals, g);
      EveryDeliveredIsStored(Deliveries(batches, clocks, refusals), decode, Flatten(batches)[g]);
    }
  }

  lemma CommittedWasProcessed(events: seq<Event<KafkaMessage>>, c: Config<KafkaMessage>, g: nat)
    requires g in After(events, c).committed
    ensures g < |Flatten(After(events, c).batches)|
  {
    hide After;
    CommittedIsSafeExactly(events, c);
  }
}
