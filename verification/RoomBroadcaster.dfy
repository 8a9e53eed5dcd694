/**
 * `roomBroadcaster` of internal/modules/websocket/application/broadcasting.go: one goroutine per room moves requests
 * from the room's bounded queue into a reused slice and flushes that slice to the room.
 */
module RoomBroadcaster {
  import opened Common

  const MAX_BATCH_SIZE: nat := 50
  const ROOM_OUT_BUFFER_LEN: nat := 100

  /** What `select` picked. While the drain runs, producers may enqueue: `arrivals[i]` come before its i-th receive. */
  datatype Turn<R> =
    | Arrival(request: R)
    | Receive(arrivals: seq<seq<R>>)
    | FlushTick
    | IdleTick(hasClients: bool)

  /** `accepted` are the requests that entered the queue, `flushed` the batches handed over for sending. */
  datatype State<R> = State(accepted: seq<R>, outBuffer: seq<R>, batch: seq<R>, flushed: seq<seq<R>>, running: bool)

  function Start<R>(): (s: State<R>) {
    State([], [], [], [], true)
  }

  /** A send on the queue's channel: a full queue turns the request away. */
  function Enqueued<R>(s: State<R>, request: R): (r: State<R>) {
    if |s.outBuffer| < ROOM_OUT_BUFFER_LEN
    then s.(accepted := s.accepted + [request], outBuffer := s.outBuffer + [request]) else s
  }

  function AllEnqueued<R>(s: State<R>, requests: seq<R>): (r: State<R>)
    ensures |r.outBuffer| >= |s.outBuffer| && r.batch == s.batch
    decreases |requests|
  {
    if requests == [] then s else AllEnqueued(Enqueued(s, requests[0]), requests[1..])
  }

  function Taken<R>(s: State<R>): (r: State<R>)
    requires s.outBuffer != []
  {
    s.(batch := s.batch + [s.outBuffer[0]], outBuffer := s.outBuffer[1..])
  }

  /** The greedy loop: at most `queued` receives, fewer if the batch fills up. Each finds a request waiting. */
  function Drained<R>(s: State<R>, queued: nat, arrivals: seq<seq<R>>): (r: State<R>)
    requires queued <= |s.outBuffer|
    decreases queued
  {
    if queued == 0 || |s.batch| >= MAX_BATCH_SIZE then s
    else Drained(Taken(AllEnqueued(s, if arrivals == [] then [] else arrivals[0])), queued - 1,
                 if arrivals == [] then [] else arrivals[1..])
  }

  function Flushed<R>(s: State<R>): (r: State<R>) {
    if s.batch == [] then s else s.(flushed := s.flushed + [s.batch], batch := [])
  }

  function Next<R>(s: State<R>, turn: Turn<R>): (r: State<R>) {
    match turn
    case Arrival(request) => Enqueued(s, request)
    case Receive(arrivals) =>
      if !s.running || s.outBuffer == [] then s
      else
        var first := Taken(s);
        var d := Drained(first, |first.outBuffer|, arrivals);
        if |d.batch| >= MAX_BATCH_SIZE then Flushed(d) else d
    case FlushTick => if s.running then Flushed(s) else s
    case IdleTick(hasClients) => if s.running && !hasClients then s.(running := false) else s
  }

  function After<R>(turns: seq<Turn<R>>): (s: State<R>) {
    if turns == [] then Start() else Next(After(turns[..|turns| - 1]), turns[|turns| - 1])
  }

  // ---- the code ----

  ghost function Contents<R>(payloads: seq<array<R>>): (batches: seq<seq<R>>)
    reads payloads
    ensures |batches| == |payloads| && forall k :: 0 <= k < |payloads| ==> batches[k] == payloads[k][..]
  {
    seq(|payloads|, k requires 0 <= k < |payloads| reads payloads => payloads[k][..])
  }

  /** The slice's backing array is written again and again; `payloads` are what earlier flushes made of it. */
  class Broadcaster<R(0)> {
    var outBuffer: seq<R>
    var batch: array<R>
    var len: nat
    var running: bool
    var payloads: seq<array<R>>
    ghost var accepted: seq<R>

    /** No payload is the backing array, so writing to the slice leaves them alone. */
    ghost predicate Valid()
      reads this, batch
    {
      batch.Length == MAX_BATCH_SIZE && len <= batch.Length && batch !in payloads
    }

    ghost function View(): (s: State<R>)
      reads this, batch, payloads
      requires Valid()
    {
      State(accepted, outBuffer, batch[..len], Contents(payloads), running)
    }

    constructor ()
      ensures Valid() && View() == Start() && fresh(batch)
    {
      batch := new R[MAX_BATCH_SIZE];
      len, running := 0, true;
      outBuffer, accepted, payloads := [], [], [];
    }

    method Enqueue(request: R)
      requires Valid()
      modifies this
      ensures Valid() && batch == old(batch) && View() == Enqueued(old(View()), request)
      ensures batch == old(batch) && len == old(len)
    {
      if |outBuffer| < ROOM_OUT_BUFFER_LEN {
        outBuffer := outBuffer + [request];
        accepted := accepted + [request];
      }
    }

    method EnqueueAll(requests: seq<R>)
      requires Valid()
      modifies this
      ensures Valid() && batch == old(batch) && View() == AllEnqueued(old(View()), requests)
      decreases |requests|
    {
      if requests != [] {
        Enqueue(requests[0]);
        EnqueueAll(requests[1..]);
      }
    }

    /** A receive from the channel appended to the slice; there is a request, so it does not block. What was flushed stays. */
    method Take()
      requires Valid() && outBuffer != [] && len < MAX_BATCH_SIZE
      modifies this, batch
      ensures Valid() && batch == old(batch) && View() == Taken(old(View()))
      ensures payloads == old(payloads) && forall k :: 0 <= k < |payloads| ==> payloads[k][..] == old(payloads[k][..])
    {
      batch[len] := outBuffer[0];
      outBuffer := outBuffer[1..];
      len := len + 1;
      assert batch[..len] == old(batch[..len]) + [old(outBuffer)[0]];
    }

    method Drain(arrivals: seq<seq<R>>)
      requires Valid()
      modifies this, batch
      ensures Valid() && batch == old(batch)
      ensures View() == Drained(old(View()), |old(outBuffer)|, arrivals)
    {
      hide Contents, AllEnqueued, Enqueued;
      var queuedCount := |outBuffer|;
      var i := 0;
      while i < queuedCount
        invariant 0 <= i <= queuedCount
        invariant Valid() && batch == old(batch) && queuedCount - i <= |outBuffer|
        invariant Drained(View(), queuedCount - i, if i <= |arrivals| then arrivals[i..] else [])
                  == Drained(old(View()), queuedCount, arrivals)
      {
        if len >= MAX_BATCH_SIZE {
          break;
        }
        EnqueueAll(if i < |arrivals| then arrivals[i] else []);
        Take();
        i := i + 1;
      }
    }

    /** Hands the slice itself over; the receiver has read it when it returns, and only then is it truncated. */
    method Flush()
      requires Valid()
      modifies this
      ensures Valid() && batch == old(batch) && View() == Flushed(old(View()))
    {
      if len == 0 {
        return;
      }
      var payload := Marshal(batch, len);
      payloads := payloads + [payload];
      len := 0;
    }

    method Run(turns: seq<Turn<R>>)
      requires Valid() && View() == Start()
      modifies this, batch
      ensures Valid() && batch == old(batch) && View() == After(turns)
    {
      hide Contents, Drained, AllEnqueued, Enqueued, Flushed, InOrder;
      for i := 0 to |turns|
        invariant Valid() && batch == old(batch) && View() == After(turns[..i])
      {
        assert turns[..i + 1][..i] == turns[..i];
        SizesHold(turns[..i]);
        match turns[i]
        case Arrival(request) =>
          Enqueue(request);
        case Receive(arrivals) =>
          if running && outBuffer != [] {
            Take();
            Drain(arrivals);
            if len >= MAX_BATCH_SIZE {
              Flush();
            }
          }
        case FlushTick =>
          if running {
            Flush();
          }
        case IdleTick(hasClients) =>
          if running && !hasClients {
            running := false;
          }
      }
      assert turns[..|turns|] == turns;
    }
  }

  /** The serialisation at the start of `broadcastBatchRequest`: element by element, into a buffer of its own. */
  method Marshal<R(0)>(messages: array<R>, count: nat) returns (payload: array<R>)
    requires count <= messages.Length
    ensures fresh(payload) && payload[..] == messages[..count]
  {
    payload := new R[count];
    for i := 0 to count
      invariant payload[..i] == messages[..i]
    {
      payload[i] := messages[i];
    }
  }

  // ---- what the goroutine keeps ----

  /** Requests on their way: flushed, in the batch, in the queue. */
  function InOrder<R>(s: State<R>): (requests: seq<R>) {
    Flatten(s.flushed) + s.batch + s.outBuffer
  }

  predicate Conserving<R(==)>(s: State<R>) {
    InOrder(s) == s.accepted
  }

  lemma EnqueueConserves<R>(s: State<R>, request: R)
    requires Conserving(s)
    ensures Conserving(Enqueued(s, request))
  {
    assert InOrder(s) + [request] == Flatten(s.flushed) + s.batch + (s.outBuffer + [request]);
  }

  lemma {:induction false} EnqueueAllConserves<R>(s: State<R>, requests: seq<R>)
    requires Conserving(s)
    ensures Conserving(AllEnqueued(s, requests))
    decreases |requests|
  {
    if requests != [] {
      EnqueueConserves(s, requests[0]);
      EnqueueAllConserves(Enqueued(s, requests[0]), requests[1..]);
    }
  }

  lemma TakeConserves<R>(s: State<R>)
    requires Conserving(s) && s.outBuffer != []
    ensures Conserving(Taken(s))
  {
    assert s.outBuffer == [s.outBuffer[0]] + s.outBuffer[1..];
    assert Flatten(s.flushed) + (s.batch + [s.outBuffer[0]]) + s.outBuffer[1..] == InOrder(s);
  }

  lemma {:induction false} DrainConserves<R>(s: State<R>, queued: nat, arrivals: seq<seq<R>>)
    requires Conserving(s) && queued <= |s.outBuffer| && |s.batch| <= MAX_BATCH_SIZE
    ensures Conserving(Drained(s, queued, arrivals))
    ensures |s.batch| <= |Drained(s, queued, arrivals).batch| <= MAX_BATCH_SIZE
    ensures Drained(s, queued, arrivals).flushed == s.flushed
    decreases queued
  {
    if queued > 0 && |s.batch| < MAX_BATCH_SIZE {
      var more := AllEnqueued(s, if arrivals == [] then [] else arrivals[0]);
      EnqueueAllConserves(s, if arrivals == [] then [] else arrivals[0]);
      EnqueueKeepsFlushed(s, if arrivals == [] then [] else arrivals[0]);
      TakeConserves(more);
      DrainConserves(Taken(more), queued - 1, if arrivals == [] then [] else arrivals[1..]);
    }
  }

  lemma {:induction false} EnqueueKeepsFlushed<R>(s: State<R>, requests: seq<R>)
    ensures AllEnqueued(s, requests).flushed == s.flushed
    decreases |requests|
  {
    if requests != [] {
      EnqueueKeepsFlushed(Enqueued(s, requests[0]), requests[1..]);
    }
  }

  lemma {:induction false} EnqueueKeepsRunning<R>(s: State<R>, requests: seq<R>)
    ensures AllEnqueued(s, requests).running == s.running
    decreases |requests|
  {
    if requests != [] {
      EnqueueKeepsRunning(Enqueued(s, requests[0]), requests[1..]);
    }
  }

  lemma {:induction false} DrainKeepsRunning<R>(s: State<R>, queued: nat, arrivals: seq<seq<R>>)
    requires queued <= |s.outBuffer|
    ensures Drained(s, queued, arrivals).running == s.running
    decreases queued
  {
    if queued > 0 && |s.batch| < MAX_BATCH_SIZE {
      var now := if arrivals == [] then [] else arrivals[0];
      EnqueueKeepsRunning(s, now);
      DrainKeepsRunning(Taken(AllEnqueued(s, now)), queued - 1, if arrivals == [] then [] else arrivals[1..]);
    }
  }

  lemma FlushConserves<R>(s: State<R>)
    requires Conserving(s)
    ensures Conserving(Flushed(s))
  {
    if s.batch != [] {
      FlattenSnoc(s.flushed, s.batch);
      assert Flatten(s.flushed) + s.batch + [] == Flatten(s.flushed) + s.batch;
    }
  }

  /** Every flush has between 1 and 50 requests; between turns the batch has fewer than 50. */
  predicate Sizes<R>(s: State<R>) {
    && |s.batch| < MAX_BATCH_SIZE
    && forall k :: 0 <= k < |s.flushed| ==> 1 <= |s.flushed[k]| <= MAX_BATCH_SIZE
  }

  lemma NextKeeps<R>(s: State<R>, turn: Turn<R>)
    requires Conserving(s) && Sizes(s)
    ensures Conserving(Next(s, turn)) && Sizes(Next(s, turn))
  {
    match turn
    case Arrival(request) => EnqueueConserves(s, request);
    case Receive(arrivals) =>
      if s.running && s.outBuffer != [] {
        TakeConserves(s);
        var first := Taken(s);
        DrainConserves(first, |first.outBuffer|, arrivals);
        FlushConserves(Drained(first, |first.outBuffer|, arrivals));
      }
    case FlushTick => FlushConserves(s);
    case IdleTick(hasClients) =>
  }

  lemma {:induction false} SizesHold<R>(turns: seq<Turn<R>>)
    ensures Conserving(After(turns)) && Sizes(After(turns))
    decreases |turns|
  {
    if turns != [] {
      SizesHold(turns[..|turns| - 1]);
      NextKeeps(After(turns[..|turns| - 1]), turns[|turns| - 1]);
    }
  }

  /**
   * Over every run, whatever producers do while the drain runs: what was flushed, then the batch, then the queue, is
   * what was accepted, in order; every flush has 1 to 50 requests.
   */
  lemma BroadcasterKeepsOrder<R>(turns: seq<Turn<R>>)
    ensures var s := After(turns);
            && Flatten(s.flushed) + s.batch + s.outBuffer == s.accepted
            && |s.batch| < MAX_BATCH_SIZE
            && (forall k :: 0 <= k < |s.flushed| ==> 1 <= |s.flushed[k]| <= MAX_BATCH_SIZE)
  {
    SizesHold(turns);
  }

  /** The queue never holds more than its capacity. */
  lemma {:induction false} DrainKeepsCapacity<R>(s: State<R>, queued: nat, arrivals: seq<seq<R>>)
    requires queued <= |s.outBuffer| <= ROOM_OUT_BUFFER_LEN
    ensures |Drained(s, queued, arrivals).outBuffer| <= ROOM_OUT_BUFFER_LEN
    decreases queued
  {
    if queued > 0 && |s.batch| < MAX_BATCH_SIZE {
      var now := if arrivals == [] then [] else arrivals[0];
      CapacityHolds(s, now);
      DrainKeepsCapacity(Taken(AllEnqueued(s, now)), queued - 1, if arrivals == [] then [] else arrivals[1..]);
    }
  }

  lemma {:induction false} CapacityHolds<R>(s: State<R>, requests: seq<R>)
    requires |s.outBuffer| <= ROOM_OUT_BUFFER_LEN
    ensures |AllEnqueued(s, requests).outBuffer| <= ROOM_OUT_BUFFER_LEN
    decreases |requests|
  {
    if requests != [] {
      CapacityHolds(Enqueued(s, requests[0]), requests[1..]);
    }
  }

  lemma {:induction false} QueueWithinCapacity<R>(turns: seq<Turn<R>>)
    ensures |After(turns).outBuffer| <= ROOM_OUT_BUFFER_LEN
    decreases |turns|
  {
    if turns != [] {
      var s := After(turns[..|turns| - 1]);
      QueueWithinCapacity(turns[..|turns| - 1]);
      if turns[|turns| - 1].Receive? && s.outBuffer != [] {
        DrainKeepsCapacity(Taken(s), |Taken(s).outBuffer|, turns[|turns| - 1].arrivals);
      }
    }
  }

  // ---- what each turn does, and when a batch is flushed ----

  lemma AfterSnoc<R>(turns: seq<Turn<R>>, turn: Turn<R>)
    ensures After(turns + [turn]) == Next(After(turns), turn)
  {
    hide Next;
    assert (turns + [turn])[..|turns|] == turns;
  }

  lemma {:induction false} EnqueuedBehind<R>(s: State<R>, requests: seq<R>)
    ensures var t := AllEnqueued(s, requests);
            && s.outBuffer <= t.outBuffer
            && t == s.(accepted := t.accepted, outBuffer := t.outBuffer)
    decreases |requests|
  {
    if requests != [] {
      EnqueuedBehind(Enqueued(s, requests[0]), requests[1..]);
    }
  }

  /** How many of the requests waiting fit into a batch of 50. */
  function Fitting(waiting: nat, taken: nat): (n: nat)
    requires taken <= 50
    ensures n == Min(waiting, 50 - taken)
  {
    if waiting + taken <= 50 then waiting else 50 - taken
  }

  /** From `s` to `t` the first `n` requests of the queue went to the end of the batch, and nothing else left the queue. */
  predicate MovedFirst<R(==)>(s: State<R>, t: State<R>, n: nat) {
    && n <= |s.outBuffer| && t.batch == s.batch + s.outBuffer[..n] && s.outBuffer[n..] <= t.outBuffer
    && t.flushed == s.flushed && t.running == s.running
  }

  lemma OneMoreMoved<R>(s: State<R>, more: State<R>, t: State<R>, n: nat)
    requires s.outBuffer != [] && s.outBuffer <= more.outBuffer
    requires more.batch == s.batch && more.flushed == s.flushed && more.running == s.running
    requires n + 1 <= |s.outBuffer| && MovedFirst(Taken(more), t, n)
    ensures MovedFirst(s, t, n + 1)
  {
    assert more.outBuffer[0] == s.outBuffer[0];
    assert more.outBuffer[1..][..n] == s.outBuffer[1..][..n];
    assert s.outBuffer[..n + 1] == [s.outBuffer[0]] + s.outBuffer[1..][..n];
    assert s.batch + s.outBuffer[..n + 1] == s.batch + [s.outBuffer[0]] + s.outBuffer[1..][..n];
    assert more.outBuffer[1..][n..] == more.outBuffer[n + 1..];
    assert s.outBuffer[n + 1..] <= more.outBuffer[n + 1..];
  }

  /** The drain moves the first requests of the queue, as many as it may and as the batch has places for. */
  lemma {:induction false} DrainMovesTheFirst<R>(s: State<R>, queued: nat, arrivals: seq<seq<R>>)
    requires queued <= |s.outBuffer| && |s.batch| <= 50
    ensures MovedFirst(s, Drained(s, queued, arrivals), Fitting(queued, |s.batch|))
    decreases queued
  {
    hide AllEnqueued, MovedFirst;
    if queued > 0 && |s.batch| < MAX_BATCH_SIZE {
      var now, later := if arrivals == [] then [] else arrivals[0], if arrivals == [] then [] else arrivals[1..];
      EnqueuedBehind(s, now);
      DrainMovesTheFirst(Taken(AllEnqueued(s, now)), queued - 1, later);
      OneMoreMoved(s, AllEnqueued(s, now), Drained(s, queued, arrivals), Fitting(queued - 1, |s.batch| + 1));
    } else {
      NoneMoved(s);
    }
  }

  lemma NoneMoved<R>(s: State<R>)
    ensures MovedFirst(s, s, 0)
  {
  }

  /** What a receive does: the batch takes the first requests of the queue up to 50, and is flushed exactly if it then has 50. */
  lemma WhatAReceiveMoves<R>(turns: seq<Turn<R>>, arrivals: seq<seq<R>>)
    requires After(turns).running
    ensures |After(turns).batch| < 50
    ensures var s, t := After(turns), After(turns + [Receive(arrivals)]);
            var n := Fitting(|s.outBuffer|, |s.batch|);
            var batch := s.batch + s.outBuffer[..n];
            && s.outBuffer[n..] <= t.outBuffer && t.running
            && (if |batch| == 50 then t.flushed == s.flushed + [batch] && t.batch == [] else t.flushed == s.flushed && t.batch == batch)
  {
    hide After, Drained;
    AfterSnoc(turns, Receive(arrivals));
    SizesHold(turns);
    var s := After(turns);
    if s.outBuffer != [] {
      var first := Taken(s);
      DrainMovesTheFirst(first, |first.outBuffer|, arrivals);
      OneMoreMoved(s, s, Drained(first, |first.outBuffer|, arrivals), Fitting(|first.outBuffer|, |first.batch|));
    } else {
      assert s.batch + s.outBuffer == s.batch;
    }
  }

  /** What every other turn does: a tick flushes what there is, an idle tick without clients ends the goroutine. */
  lemma WhatOtherTurnsDo<R>(turns: seq<Turn<R>>, turn: Turn<R>)
    requires !turn.Receive? || !After(turns).running
    ensures var s, t := After(turns), After(turns + [turn]);
            && t.flushed == (if turn.FlushTick? && s.running && s.batch != [] then s.flushed + [s.batch] else s.flushed)
            && t.batch == (if turn.FlushTick? && s.running then [] else s.batch)
            && t.outBuffer == (if turn.Arrival? && |s.outBuffer| < 100 then s.outBuffer + [turn.request] else s.outBuffer)
            && t.accepted == (if turn.Arrival? && |s.outBuffer| < 100 then s.accepted + [turn.request] else s.accepted)
            && (t.running <==> s.running && !(turn.IdleTick? && !turn.hasClients))
  {
    AfterSnoc(turns, turn);
  }

  /** After a tick of a running broadcaster everything it has received has been flushed; only the queue is still waiting. */
  lemma NothingWaitsAfterATick<R>(turns: seq<Turn<R>>)
    requires After(turns).running
    ensures var t := After(turns + [FlushTick]); t.batch == [] && Flatten(t.flushed) + t.outBuffer == t.accepted
  {
    hide After;
    WhatOtherTurnsDo(turns, FlushTick);
    BroadcasterKeepsOrder(turns + [FlushTick]);
    var t := After(turns + [FlushTick]);
    assert Flatten(t.flushed) + [] == Flatten(t.flushed);
  }

  /** A batch is flushed by a tick, or because it has 50 requests, and for no other reason. */
  lemma FlushedByTickOrFull<R>(turns: seq<Turn<R>>, turn: Turn<R>)
    ensures var s, t := After(turns), After(turns + [turn]);
            t.flushed != s.flushed ==>
              && |t.flushed| == |s.flushed| + 1 && t.flushed[..|s.flushed|] == s.flushed
              && s.running && (turn.FlushTick? || (turn.Receive? && |t.flushed[|s.flushed|]| == 50))
  {
    hide After;
    if turn.Receive? && After(turns).running { WhatAReceiveMoves(turns, turn.arrivals); } else { WhatOtherTurnsDo(turns, turn); }
  }
}
