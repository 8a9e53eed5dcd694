/**
 * base/infrastructure/kafka/consumer.go: the two batching loops. They fetch messages one by one into a reused slice,
 * hand the slice to a handler when it is full or a timer fires, send the handler's failures to a dead-letter queue,
 * and, in manual mode, commit.
 */
module BatchConsumer {
  import opened Common
  import opened ChannelMessageHandler

  /**
   * What a batch handler does with a batch: an error or not, the positions it returns as failed, those it stored.
   * `emptyList` tells an empty list of failures from a nil one.
   */
  datatype HandlerReply = HandlerReply(err: bool, dead: seq<nat>, emptyList: bool, stored: set<nat>)

  /** The list of failures is not nil, so it goes to the dead-letter queue. */
  predicate HasList(reply: HandlerReply) {
    |reply.dead| > 0 || reply.emptyList
  }

  /** The configuration, and the replies of the outside world to the k-th batch. */
  datatype Config<!M> = Config(
    batchSize: nat, autoCommit: bool, hasDlq: bool,
    handler: (nat, seq<M>) -> HandlerReply, dlqAccepts: nat -> bool)

  /** One turn of the loop: what `select` chose, or how the fetch ended. */
  datatype Event<M> =
    | ContextDone
    | TimerFired
    | Fetched(m: M)
    | FetchCancelled
    | FetchTimedOut
    | FetchFailed

  /**
   * `committed` are the messages passed to `CommitMessages`, `stored` and `deadLettered` those the handler stored and
   * those the dead-letter queue accepted, all as positions in the order of fetching.
   */
  datatype State<M> = State(
    batches: seq<seq<M>>, batch: seq<M>, committed: set<nat>, stored: set<nat>, deadLettered: set<nat>,
    success: int, failure: int, stopped: bool)

  function Start<M>(): (s: State<M>) {
    State([], [], {}, {}, {}, 0, 0, false)
  }

  function Shifted(base: nat, positions: set<nat>, length: nat): (shifted: set<nat>) {
    set i | i in positions && i < length :: base + i
  }

  function Positions(s: seq<nat>): (t: set<nat>) {
    set x | x in s
  }

  function Range(base: nat, length: nat): (r: set<nat>)
    ensures forall i :: i in r <==> base <= i < base + length
  {
    if length == 0 then {} else Range(base, length - 1) + {base + length - 1}
  }

  /** The handler's reply, counted; the batch is left empty. */
  function Handled<M>(s: State<M>, reply: HandlerReply): (r: State<M>) {
    var total, failed := |s.batch|, |reply.dead|;
    s.(batches := s.batches + [s.batch],
       batch := [],
       stored := s.stored + Shifted(|Flatten(s.batches)|, reply.stored, total),
       failure := s.failure + failed,
       success := s.success + (if total - failed > 0 then total - failed else 0))
  }

  predicate Letters<M>(reply: HandlerReply, accepted: bool, c: Config<M>) {
    HasList(reply) && c.hasDlq && accepted
  }

  /** The dead-letter queue refusing the failures is all that keeps manual mode from committing. */
  predicate Commits<M>(reply: HandlerReply, accepted: bool, c: Config<M>) {
    !c.autoCommit && (!HasList(reply) || !c.hasDlq || accepted)
  }

  /** The helper closure: handle, count, dead-letter, commit, and always empty the batch. */
  function Processed<M>(s: State<M>, c: Config<M>): (r: State<M>) {
    if s.batch == [] then s
    else
      var total, base := |s.batch|, |Flatten(s.batches)|;
      var reply := c.handler(|s.batches|, s.batch);
      var accepted := c.dlqAccepts(|s.batches|);
      Handled(s, reply).(
        deadLettered := if Letters(reply, accepted, c) then s.deadLettered + Shifted(base, Positions(reply.dead), total)
                        else s.deadLettered,
        committed := if Commits(reply, accepted, c) then s.committed + Range(base, total) else s.committed)
  }

  function Next<M>(s: State<M>, event: Event<M>, c: Config<M>): (r: State<M>) {
    if s.stopped then s
    else
      match event
      case ContextDone => Processed(s, c).(stopped := true)
      case TimerFired => Processed(s, c)
      case Fetched(m) =>
        var longer := s.(batch := s.batch + [m]);
        if |longer.batch| >= c.batchSize then Processed(longer, c) else longer
      case FetchCancelled => s.(stopped := true)
      case FetchTimedOut => s
      case FetchFailed => s
  }

  function After<M>(events: seq<Event<M>>, c: Config<M>): (s: State<M>) {
    if events == [] then Start() else Next(After(events[..|events| - 1], c), events[|events| - 1], c)
  }

  /** The messages fetched before the loop stopped. */
  function FetchedIn<M>(events: seq<Event<M>>, c: Config<M>): (ms: seq<M>) {
    if events == [] then []
    else
      var before, last := events[..|events| - 1], events[|events| - 1];
      FetchedIn(before, c) + (if last.Fetched? && !After(before, c).stopped then [last.m] else [])
  }

  // ---- the code ----

  class Consumer<M(0)> {
    var buffer: array<M>
    var len: nat
    var success: int
    var failure: int
    var stopped: bool
    var calls: nat
    ghost var batches: seq<seq<M>>
    ghost var committed: set<nat>
    ghost var stored: set<nat>
    ghost var deadLettered: set<nat>

    ghost predicate Valid()
      reads this, buffer
    {
      len <= buffer.Length && calls == |batches|
    }

    ghost function View(): (s: State<M>)
      reads this, buffer
      requires Valid()
    {
      State(batches, buffer[..len], committed, stored, deadLettered, success, failure, stopped)
    }

    /** The slice has the batch size as capacity; with a batch size of 0 the first append makes room for one. */
    constructor (batchSize: nat)
      ensures Valid() && View() == Start() && fresh(buffer)
      ensures buffer.Length == if batchSize == 0 then 1 else batchSize
    {
      buffer := new M[if batchSize == 0 then 1 else batchSize];
      len, success, failure, stopped, calls := 0, 0, 0, false, 0;
      batches, committed, stored, deadLettered := [], {}, {}, {};
    }

    /** `processAndCommit`, and `batchProcess` when `autoCommit` is set. */
    method Process(c: Config<M>)
      requires Valid()
      modifies this
      ensures Valid() && buffer == old(buffer)
      ensures View() == Processed(old(View()), c)
    {
      var totalMessageCnt := len;
      if totalMessageCnt == 0 {
        return;
      }
      ghost var base := |Flatten(batches)|;
      var reply, accepted := Handle(c);
      var refused := SendToDlq(base, reply, accepted, c);
      if !refused && !c.autoCommit {
        Commit(base);
      }
      len := 0;
      assert buffer[..0] == [];
    }

    /** The call of the handler, and its two metrics. */
    method Handle(c: Config<M>) returns (reply: HandlerReply, accepted: bool)
      requires Valid() && len > 0
      modifies this`calls, this`success, this`failure, this`batches, this`stored
      ensures Valid()
      ensures reply == c.handler(|old(batches)|, buffer[..len]) && accepted == c.dlqAccepts(|old(batches)|)
      ensures View() == Handled(old(View()), reply).(batch := buffer[..len])
    {
      var batch := buffer[..len];
      reply := c.handler(calls, batch);
      accepted := c.dlqAccepts(calls);
      calls := calls + 1;
      Count(len, |reply.dead|);
      stored := stored + Shifted(|Flatten(batches)|, reply.stored, len);
      batches := batches + [batch];
    }

    /** The failures, if any, are passed to the dead-letter queue, if there is one. */
    method SendToDlq(ghost base: nat, reply: HandlerReply, accepted: bool, c: Config<M>) returns (refused: bool)
      modifies this`deadLettered
      ensures deadLettered == if Letters(reply, accepted, c) then old(deadLettered) + Shifted(base, Positions(reply.dead), len)
                              else old(deadLettered)
      ensures refused <==> HasList(reply) && c.hasDlq && !accepted
    {
      refused := false;
      if HasList(reply) && c.hasDlq {
        if accepted {
          deadLettered := deadLettered + Shifted(base, Positions(reply.dead), len);
        } else {
          refused := true;
        }
      }
    }

    /** The two metrics; neither is ever lowered. */
    method Count(totalMessageCnt: nat, failedMessageCnt: nat)
      modifies this`success, this`failure
      ensures failure == old(failure) + failedMessageCnt
      ensures success == old(success) + (if totalMessageCnt > failedMessageCnt then totalMessageCnt - failedMessageCnt else 0)
    {
      var successMessageCnt := totalMessageCnt - failedMessageCnt;
      if failedMessageCnt > 0 { failure := failure + failedMessageCnt; }
      if successMessageCnt > 0 { success := success + successMessageCnt; }
    }

    /** Copies the messages out of the slice and passes them to `CommitMessages`. */
    method Commit(ghost base: nat)
      requires len <= buffer.Length
      modifies this`committed
      ensures committed == old(committed) + Range(base, len)
    {
      var commitBatch: seq<M> := [];
      for i := 0 to len
        invariant commitBatch == buffer[..i] && committed == old(committed)
      {
        commitBatch := commitBatch + [buffer[i]];
      }
      committed := committed + Range(base, |commitBatch|);
    }

    /** The endless loop, on the turns it takes until it stops or the turns end. */
    method Run(events: seq<Event<M>>, c: Config<M>)
      requires Valid() && View() == Start()
      requires buffer.Length == if c.batchSize == 0 then 1 else c.batchSize
      modifies this, buffer
      ensures Valid() && buffer == old(buffer)
      ensures View() == After(events, c)
    {
      for i := 0 to |events|
        invariant Valid() && buffer == old(buffer)
        invariant View() == After(events[..i], c)
      {
        assert events[..i + 1][..i] == events[..i];
        BatchStaysShort(events[..i], c);
        if !stopped {
          match events[i]
          case ContextDone =>
            Process(c);
            stopped := true;
          case TimerFired =>
            Process(c);
          case Fetched(m) =>
            ghost var before := View();
            buffer[len] := m;
            len := len + 1;
            assert buffer[..len] == before.batch + [m];
            if len >= c.batchSize {
              Process(c);
            }
          case FetchCancelled =>
            stopped := true;
          case FetchTimedOut =>
          case FetchFailed =>
        }
      }
      assert events[..|events|] == events;
    }
  }

  // ---- what the loop keeps ----

  /** At every loop head the batch is shorter than the batch size; with a size of 0 it is empty. */
  lemma {:induction false} BatchStaysShort<M>(events: seq<Event<M>>, c: Config<M>)
    ensures var s := After(events, c); if c.batchSize == 0 then s.batch == [] else |s.batch| < c.batchSize
    decreases |events|
  {
    if events != [] {
      BatchStaysShort(events[..|events| - 1], c);
    }
  }

  lemma ProcessedKeepsMessages<M>(s: State<M>, c: Config<M>)
    ensures var r := Processed(s, c);
            r.batch == [] && Flatten(r.batches) + r.batch == Flatten(s.batches) + s.batch && r.stopped == s.stopped
  {
    if s.batch != [] {
      FlattenSnoc(s.batches, s.batch);
    }
  }

  lemma FetchKeepsMessages<M>(s: State<M>, m: M, c: Config<M>)
    requires !s.stopped
    ensures var r := Next(s, Fetched(m), c); Flatten(r.batches) + r.batch == Flatten(s.batches) + s.batch + [m]
  {
    hide Processed, Flatten;
    var before, longer := Flatten(s.batches), s.(batch := s.batch + [m]);
    ProcessedKeepsMessages(longer, c);
    assert var r := Next(s, Fetched(m), c); Flatten(r.batches) + r.batch == before + longer.batch;
    Regroup(before, s.batch, [m]);
  }

  lemma Regroup<M>(a: seq<M>, b: seq<M>, c: seq<M>)
    ensures a + (b + c) == a + b + c
  {
  }

  lemma NextKeepsMessages<M>(s: State<M>, event: Event<M>, c: Config<M>)
    ensures var r := Next(s, event, c);
            Flatten(r.batches) + r.batch
            == Flatten(s.batches) + s.batch + (if event.Fetched? && !s.stopped then [event.m] else [])
  {
    if event.Fetched? && !s.stopped {
      FetchKeepsMessages(s, event.m, c);
    } else {
      ProcessedKeepsMessages(s, c);
      var kept := Flatten(s.batches) + s.batch;
      assert kept + [] == kept;
    }
  }

  /** The processed batches and the current one are the fetched messages, in order. */
  lemma {:induction false} NothingIsLostOrReordered<M>(events: seq<Event<M>>, c: Config<M>)
    ensures var s := After(events, c); Flatten(s.batches) + s.batch == FetchedIn(events, c)
    decreases |events|
  {
    if events != [] {
      var before := events[..|events| - 1];
      NothingIsLostOrReordered(before, c);
      NextKeepsMessages(After(before, c), events[|events| - 1], c);
    }
  }

  lemma AfterSnoc<M>(events: seq<Event<M>>, event: Event<M>, c: Config<M>)
    ensures After(events + [event], c) == Next(After(events, c), event, c)
    ensures FetchedIn(events + [event], c)
            == FetchedIn(events, c) + (if event.Fetched? && !After(events, c).stopped then [event.m] else [])
  {
    hide Next;
    assert (events + [event])[..|events|] == events;
  }

  /**
   * Which turns process a batch, in every run: a timer, the end of the context and a fetch that fills the batch, and no
   * other. What is processed is the whole batch, with the message just fetched.
   */
  lemma WhatATurnProcesses<M>(events: seq<Event<M>>, event: Event<M>, c: Config<M>)
    ensures var s, t := After(events, c), After(events + [event], c);
            var waiting := s.batch + (if event.Fetched? && !s.stopped then [event.m] else []);
            var due := !s.stopped && (event.TimerFired? || event.ContextDone? || (event.Fetched? && |waiting| >= c.batchSize));
            && (due && waiting != [] ==> t.batches == s.batches + [waiting] && t.batch == [])
            && (!due || waiting == [] ==> t.batches == s.batches && t.batch == waiting)
            && (t.stopped <==> s.stopped || event.ContextDone? || event.FetchCancelled?)
  {
    hide Flatten;
    AfterSnoc(events, event, c);
    var s := After(events, c);
    assert s.batch + [] == s.batch;
  }

  /** After a timer, the end of the context or a full batch, every message fetched so far has been handed to the handler. */
  lemma NothingWaitsAfterATimer<M>(events: seq<Event<M>>, event: Event<M>, c: Config<M>)
    requires !After(events, c).stopped
    requires event.TimerFired? || event.ContextDone? || (event.Fetched? && |After(events, c).batch| + 1 >= c.batchSize)
    ensures var t := After(events + [event], c); t.batch == [] && Flatten(t.batches) == FetchedIn(events + [event], c)
  {
    hide Flatten, After, FetchedIn;
    WhatATurnProcesses(events, event, c);
    NothingIsLostOrReordered(events + [event], c);
    var t := After(events + [event], c);
    assert Flatten(t.batches) + [] == Flatten(t.batches);
  }

  lemma {:induction false} BatchesOnlyGrow<M>(events: seq<Event<M>>, more: seq<Event<M>>, c: Config<M>)
    ensures var s, t := After(events, c), After(events + more, c); |s.batches| <= |t.batches| && t.batches[..|s.batches|] == s.batches
    decreases |more|
  {
    hide After;
    if more == [] {
      assert events + more == events;
    } else {
      var fewer, last := more[..|more| - 1], more[|more| - 1];
      BatchesOnlyGrow(events, fewer, c);
      WhatATurnProcesses(events + fewer, last, c);
      assert events + fewer + [last] == events + more;
    }
  }

  /** And it stays handed over: in every run, all that was fetched before the last timer or full batch is in the batches. */
  lemma FetchedBeforeATimerIsHandled<M>(events: seq<Event<M>>, event: Event<M>, more: seq<Event<M>>, c: Config<M>)
    requires !After(events, c).stopped
    requires event.TimerFired? || event.ContextDone? || (event.Fetched? && |After(events, c).batch| + 1 >= c.batchSize)
    ensures FetchedIn(events + [event], c) <= Flatten(After(events + [event] + more, c).batches)
  {
    hide After, FetchedIn, Flatten;
    NothingWaitsAfterATimer(events, event, c);
    BatchesOnlyGrow(events + [event], more, c);
    FlattenPrefix(After(events + [event], c).batches, After(events + [event] + more, c).batches);
  }

  lemma {:induction false} FlattenPrefix<M>(some: seq<seq<M>>, all: seq<seq<M>>)
    requires |some| <= |all| && all[..|some|] == some
    ensures Flatten(some) <= Flatten(all)
    decreases |all|
  {
    if |some| == |all| {
      assert some == all;
    } else {
      FlattenPrefix(some, all[..|all| - 1]);
      assert Flatten(all) == Flatten(all[..|all| - 1]) + all[|all| - 1];
    }
  }

  /** A handler that returns no more failures than messages. */
  ghost predicate FailsAtMostAll<M(!new)>(c: Config<M>) {
    forall k: nat, batch: seq<M> :: |c.handler(k, batch).dead| <= |batch|
  }

  /** Then every processed message is counted once, as a success or as a failure. */
  lemma {:induction false} CountsAddUp<M(!new)>(events: seq<Event<M>>, c: Config<M>)
    requires FailsAtMostAll(c)
    ensures var s := After(events, c); s.success + s.failure == |Flatten(s.batches)|
    decreases |events|
  {
    if events != [] {
      var before := events[..|events| - 1];
      CountsAddUp(before, c);
      var s := After(before, c);
      ProcessedCounts(s, c);
      match events[|events| - 1]
      case Fetched(m) => ProcessedCounts(s.(batch := s.batch + [m]), c);
      case _ =>
    }
  }

  lemma ProcessedCounts<M(!new)>(s: State<M>, c: Config<M>)
    requires FailsAtMostAll(c)
    ensures var r := Processed(s, c);
            r.success + r.failure - |Flatten(r.batches)| == s.success + s.failure - |Flatten(s.batches)|
  {
    if s.batch != [] {
      FlattenSnoc(s.batches, s.batch);
      assert |c.handler(|s.batches|, s.batch).dead| <= |s.batch|;
    }
  }

  /** How many failures the handler returned for these batches. */
  function Returned<M>(batches: seq<seq<M>>, c: Config<M>): (n: nat) {
    if batches == [] then 0
    else Returned(batches[..|batches| - 1], c) + |c.handler(|batches| - 1, batches[|batches| - 1]).dead|
  }

  lemma ReturnedSnoc<M>(batches: seq<seq<M>>, batch: seq<M>, c: Config<M>)
    ensures Returned(batches + [batch], c) == Returned(batches, c) + |c.handler(|batches|, batch).dead|
  {
    assert (batches + [batch])[..|batches|] == batches;
  }

  /** In every run the failure metric counts the failures the handler returned. */
  lemma {:induction false} FailuresAreCounted<M>(events: seq<Event<M>>, c: Config<M>)
    ensures After(events, c).failure == Returned(After(events, c).batches, c)
    decreases |events|
  {
    hide Returned, Flatten;
    if events == [] {
      NothingReturned(c);
    } else {
      var before, event := events[..|events| - 1], events[|events| - 1];
      FailuresAreCounted(before, c);
      var s := After(before, c);
      ReturnedSnoc(s.batches, s.batch + (if event.Fetched? then [event.m] else []), c);
      assert s.batch + [] == s.batch;
    }
  }

  lemma NothingReturned<M>(c: Config<M>)
    ensures Returned([], c) == 0
  {
  }

  /** A handler that reports no error and splits every batch into stored messages and dead letters, as `HandleChannelMessages` promises. */
  ghost predicate SplitsEveryBatch<M(!new)>(c: Config<M>) {
    forall k: nat, batch: seq<M> ::
      var reply := c.handler(k, batch);
      !reply.err && SplitsExactly(reply.dead, |batch|, reply.stored)
  }

  /**
   * The loop does not look at the handler's error. A handler that fails and returns nothing, as the channel message
   * handler does when the connection to MongoDB breaks, has its batch committed all the same.
   */
  lemma FailedBatchIsCommitted<M>(m: M, c: Config<M>)
    requires c.batchSize == 1 && !c.autoCommit && c.handler(0, [m]) == HandlerReply(true, [], false, {})
    ensures var s := After([Fetched(m)], c); 0 in s.committed && 0 !in s.stored + s.deadLettered
  {
    var events: seq<Event<M>> := [Fetched(m)];
    assert events[..0] == [];
    var s: State<M> := Start();
    assert s.batch + [m] == [m];
    assert 0 in Range(0, 1);
  }

  /** Every position of the batch was stored or, with a dead-letter queue, returned as a failure. */
  predicate AllTaken<M>(reply: HandlerReply, length: nat, c: Config<M>) {
    forall i: nat :: i < length ==> i in reply.stored || (c.hasDlq && i in reply.dead)
  }

  /** The k-th batch was not committed, or nothing of it was left behind. */
  predicate BatchIsSafe<M>(k: nat, batch: seq<M>, c: Config<M>) {
    !Commits(c.handler(k, batch), c.dlqAccepts(k), c) || AllTaken(c.handler(k, batch), |batch|, c)
  }

  /** Every committed message is stored or dead-lettered. */
  predicate Safe<M>(s: State<M>) {
    s.committed <= s.stored + s.deadLettered
  }

  /** Nothing is committed, stored or dead-lettered before it is processed. */
  ghost predicate OnlyProcessed<M>(s: State<M>) {
    var n := |Flatten(s.batches)|;
    && (forall g :: g in s.committed ==> g < n)
    && (forall g :: g in s.stored ==> g < n)
    && (forall g :: g in s.deadLettered ==> g < n)
  }

  lemma ShiftedAt(base: nat, positions: set<nat>, length: nat, g: nat)
    ensures g in Shifted(base, positions, length) <==> base <= g < base + length && g - base in positions
  {
    assert base <= g < base + length && g - base in positions ==> base + (g - base) in Shifted(base, positions, length);
  }

  /** Which positions are committed and kept after a batch, one by one. */
  lemma ProcessedPosition<M>(s: State<M>, c: Config<M>, g: nat)
    requires s.batch != []
    ensures var r, base, reply, accepted := Processed(s, c), |Flatten(s.batches)|, c.handler(|s.batches|, s.batch), c.dlqAccepts(|s.batches|);
            var here := base <= g < base + |s.batch|;
            && (g in r.committed <==> g in s.committed || (here && Commits(reply, accepted, c)))
            && (g in r.stored <==> g in s.stored || (here && g - base in reply.stored))
            && (g in r.deadLettered <==> g in s.deadLettered || (here && Letters(reply, accepted, c) && g - base in reply.dead))
  {
    var base, reply := |Flatten(s.batches)|, c.handler(|s.batches|, s.batch);
    ShiftedAt(base, reply.stored, |s.batch|, g);
    ShiftedAt(base, Positions(reply.dead), |s.batch|, g);
  }

  lemma ProcessedBatches<M>(s: State<M>, c: Config<M>)
    requires s.batch != []
    ensures Processed(s, c).batches == s.batches + [s.batch]
    ensures |Flatten(Processed(s, c).batches)| == |Flatten(s.batches)| + |s.batch|
  {
    FlattenSnoc(s.batches, s.batch);
  }

  lemma ProcessedKeepsPositions<M>(s: State<M>, c: Config<M>)
    requires s.batch != [] && OnlyProcessed(s)
    ensures OnlyProcessed(Processed(s, c))
  {
    hide Processed;
    ProcessedBatches(s, c);
    forall g: nat ensures var r := Processed(s, c);
                          g in r.committed || g in r.stored || g in r.deadLettered ==> g < |Flatten(r.batches)| {
      ProcessedPosition(s, c, g);
    }
  }

  /** One batch keeps committed messages safe exactly when they were safe and the batch is. */
  lemma ProcessedIsSafeExactly<M>(s: State<M>, c: Config<M>)
    requires s.batch != [] && OnlyProcessed(s)
    ensures Safe(Processed(s, c)) <==> Safe(s) && BatchIsSafe(|s.batches|, s.batch, c)
  {
    hide Processed;
    var r, base, reply := Processed(s, c), |Flatten(s.batches)|, c.handler(|s.batches|, s.batch);
    if Safe(r) {
      forall g | g in s.committed ensures g in s.stored + s.deadLettered {
        ProcessedPosition(s, c, g);
      }
      forall i: nat | i < |s.batch| && Commits(reply, c.dlqAccepts(|s.batches|), c)
        ensures i in reply.stored || (c.hasDlq && i in reply.dead)
      {
        ProcessedPosition(s, c, base + i);
      }
    }
    if Safe(s) && BatchIsSafe(|s.batches|, s.batch, c) {
      forall g | g in r.committed ensures g in r.stored + r.deadLettered {
        ProcessedPosition(s, c, g);
        assert base <= g < base + |s.batch| && g !in s.committed ==> g - base in reply.stored || (c.hasDlq && g - base in reply.dead);
      }
    }
  }

  /** A turn of the loop processes a batch or leaves everything settled as it is. */
  lemma NextSettles<M>(s: State<M>, event: Event<M>, c: Config<M>)
    ensures var t, longer := Next(s, event, c), if event.Fetched? then s.(batch := s.batch + [event.m]) else s;
            var p := Processed(longer, c);
            if t.batches == s.batches
            then t.committed == s.committed && t.stored == s.stored && t.deadLettered == s.deadLettered
            else longer.batch != [] && t.batches == p.batches && t.committed == p.committed && t.stored == p.stored
                 && t.deadLettered == p.deadLettered
  {
  }

  ghost predicate AllBatchesSafe<M>(batches: seq<seq<M>>, c: Config<M>) {
    forall k: nat :: k < |batches| ==> BatchIsSafe(k, batches[k], c)
  }

  lemma OneMoreBatchSafe<M>(batches: seq<seq<M>>, batch: seq<M>, c: Config<M>)
    ensures AllBatchesSafe(batches + [batch], c) <==> AllBatchesSafe(batches, c) && BatchIsSafe(|batches|, batch, c)
  {
    var all := batches + [batch];
    assert all[|batches|] == batch;
    if AllBatchesSafe(all, c) {
      forall k: nat | k < |batches| ensures BatchIsSafe(k, batches[k], c) {
        assert all[k] == batches[k];
      }
    }
  }

  lemma NextIsSafeExactly<M>(s: State<M>, event: Event<M>, c: Config<M>)
    requires OnlyProcessed(s) && (Safe(s) <==> AllBatchesSafe(s.batches, c))
    ensures OnlyProcessed(Next(s, event, c)) && (Safe(Next(s, event, c)) <==> AllBatchesSafe(Next(s, event, c).batches, c))
  {
    hide Processed, Next, AllBatchesSafe, BatchIsSafe;
    NextSettles(s, event, c);
    var t, longer := Next(s, event, c), if event.Fetched? then s.(batch := s.batch + [event.m]) else s;
    if t.batches != s.batches {
      ProcessedBatches(longer, c);
      ProcessedKeepsPositions(longer, c);
      ProcessedIsSafeExactly(longer, c);
      OneMoreBatchSafe(s.batches, longer.batch, c);
    }
  }

  /**
   * In every run: every committed message is stored or dead-lettered if and only if every batch was left uncommitted, or
   * was taken as a whole.
   */
  lemma {:induction false} CommittedIsSafeExactly<M>(events: seq<Event<M>>, c: Config<M>)
    ensures var s := After(events, c);
            s.committed <= s.stored + s.deadLettered <==> forall k: nat :: k < |s.batches| ==> BatchIsSafe(k, s.batches[k], c)
    ensures OnlyProcessed(After(events, c)) && (Safe(After(events, c)) <==> AllBatchesSafe(After(events, c).batches, c))
    decreases |events|
  {
    hide Next, BatchIsSafe;
    if events != [] {
      CommittedIsSafeExactly(events[..|events| - 1], c);
      NextIsSafeExactly(After(events[..|events| - 1], c), events[|events| - 1], c);
    }
  }

  /** Without an error a batch that is split is always taken. */
  lemma SplitBatchIsTaken<M>(reply: HandlerReply, length: nat, c: Config<M>)
    requires c.hasDlq && SplitsExactly(reply.dead, length, reply.stored)
    ensures AllTaken(reply, length, c)
  {
  }

  /** With such a handler and a dead-letter queue, a message is committed only once it is stored or dead-lettered. */
  lemma CommittedIsSafe<M(!new)>(events: seq<Event<M>>, c: Config<M>)
    requires SplitsEveryBatch(c) && c.hasDlq
    ensures var s := After(events, c); s.committed <= s.stored + s.deadLettered
  {
    hide After;
    CommittedIsSafeExactly(events, c);
    var batches := After(events, c).batches;
    forall k: nat | k < |batches| ensures BatchIsSafe(k, batches[k], c) {
      SplitBatchIsTaken(c.handler(k, batches[k]), |batches[k]|, c);
    }
  }

  /** What became of position `i` of the k-th batch, in terms of the handler's reply and the dead-letter queue alone. */
  ghost predicate FateIs<M>(s: State<M>, k: nat, i: nat, c: Config<M>)
    requires k < |s.batches| && i < |s.batches[k]|
  {
    var g, reply, sent := |Flatten(s.batches[..k])| + i, c.handler(k, s.batches[k]), c.hasDlq && c.dlqAccepts(k);
    && (g in s.stored <==> i in reply.stored)
    && (g in s.deadLettered <==> sent && i in reply.dead)
    && (g in s.committed <==> !c.autoCommit && (sent || !c.hasDlq || (reply.dead == [] && !reply.emptyList)))
  }

  lemma FatesStay<M>(s: State<M>, c: Config<M>, k: nat, i: nat)
    requires s.batch != [] && OnlyProcessed(s) && k < |s.batches| && i < |s.batches[k]| && FateIs(s, k, i, c)
    ensures k < |Processed(s, c).batches| && i < |Processed(s, c).batches[k]| && FateIs(Processed(s, c), k, i, c)
  {
    hide Processed, Flatten;
    ProcessedBatches(s, c);
    var r, g := Processed(s, c), |Flatten(s.batches[..k])| + i;
    assert r.batches[..k] == s.batches[..k];
    WithinFlattened(s.batches, k, i);
    ProcessedPosition(s, c, g);
  }

  lemma {:induction false} WithinFlattened<M>(batches: seq<seq<M>>, k: nat, i: nat)
    requires k < |batches| && i < |batches[k]|
    ensures |Flatten(batches[..k])| + i < |Flatten(batches)|
    ensures Flatten(batches)[|Flatten(batches[..k])| + i] == batches[k][i]
    decreases |batches|
  {
    var n := |batches| - 1;
    if k < n {
      WithinFlattened(batches[..n], k, i);
      assert batches[..n][..k] == batches[..k];
    }
  }

  lemma NewFates<M>(s: State<M>, c: Config<M>, i: nat)
    requires s.batch != [] && OnlyProcessed(s) && i < |s.batch|
    ensures |s.batches| < |Processed(s, c).batches| && i < |Processed(s, c).batches[|s.batches|]|
            && FateIs(Processed(s, c), |s.batches|, i, c)
  {
    hide Processed, Flatten;
    ProcessedBatches(s, c);
    var r := Processed(s, c);
    assert r.batches[..|s.batches|] == s.batches;
    ProcessedPosition(s, c, |Flatten(s.batches)| + i);
  }

  ghost predicate AllFates<M>(s: State<M>, c: Config<M>) {
    forall k: nat, i: nat :: k < |s.batches| && i < |s.batches[k]| ==> FateIs(s, k, i, c)
  }

  lemma ProcessedFates<M>(s: State<M>, c: Config<M>)
    requires s.batch != [] && OnlyProcessed(s) && AllFates(s, c)
    ensures AllFates(Processed(s, c), c)
  {
    hide Processed, FateIs;
    ProcessedBatches(s, c);
    var r := Processed(s, c);
    forall k: nat, i: nat | k < |r.batches| && i < |r.batches[k]| ensures FateIs(r, k, i, c) {
      if k < |s.batches| { FatesStay(s, c, k, i); } else { NewFates(s, c, i); }
    }
  }

  /**
   * In every run, for every message of every batch: it counts as stored exactly if the handler stored it, goes to the
   * dead-letter queue exactly if there is one, accepts, and the handler returned it, and is committed exactly in manual
   * mode and unless a list of failures was refused by the dead-letter queue.
   */
  lemma {:induction false} EveryMessageHasItsFate<M>(events: seq<Event<M>>, c: Config<M>)
    ensures var s := After(events, c);
            forall k: nat, i: nat :: k < |s.batches| && i < |s.batches[k]| ==> FateIs(s, k, i, c)
    ensures AllFates(After(events, c), c)
    decreases |events|
  {
    hide Processed, FateIs, Flatten;
    if events != [] {
      var before, event := events[..|events| - 1], events[|events| - 1];
      EveryMessageHasItsFate(before, c);
      CommittedIsSafeExactly(before, c);
      var s := After(before, c);
      NextSettles(s, event, c);
      var longer := if event.Fetched? then s.(batch := s.batch + [event.m]) else s;
      if After(events, c).batches != s.batches {
        LongerFates(s, longer, c);
        ProcessedFates(longer, c);
        SettledFates(Processed(longer, c), After(events, c), c);
      } else {
        SettledFates(s, After(events, c), c);
      }
    }
  }

  lemma SettledFates<M>(s: State<M>, t: State<M>, c: Config<M>)
    requires AllFates(s, c)
    requires t.batches == s.batches && t.committed == s.committed && t.stored == s.stored && t.deadLettered == s.deadLettered
    ensures AllFates(t, c)
  {
    forall k: nat, i: nat | k < |t.batches| && i < |t.batches[k]| ensures FateIs(t, k, i, c) {
      assert FateIs(s, k, i, c);
    }
  }

  lemma LongerFates<M>(s: State<M>, longer: State<M>, c: Config<M>)
    requires AllFates(s, c) && longer == s.(batch := longer.batch)
    ensures AllFates(longer, c) && (OnlyProcessed(s) ==> OnlyProcessed(longer))
  {
    SettledFates(s, longer, c);
  }
}
