/**
 * The hub and the broadcaster of one of its rooms as one transition system: handing over a batch is the snapshot of the
 * room's flush in the hub, the broadcaster does nothing else until every client of the snapshot is served, and its idle
 * check looks at the room's clients. Which requests has a member of the room been handed?
 */
module RoomDelivery {
  import opened Common
  import H = HubProtocol
  import D = HubDelivery
  import B = RoomBroadcaster

  /** The requests behind a list of flushes. */
  function Gathered<R>(indices: seq<nat>, flushed: seq<seq<R>>): (requests: seq<R>) {
    if indices == [] then []
    else
      var last := indices[|indices| - 1];
      Gathered(indices[..|indices| - 1], flushed) + (if last < |flushed| then flushed[last] else [])
  }

  lemma GatheredSnoc<R>(indices: seq<nat>, last: nat, flushed: seq<seq<R>>)
    requires last < |flushed|
    ensures Gathered(indices + [last], flushed) == Gathered(indices, flushed) + flushed[last]
  {
    assert (indices + [last])[..|indices|] == indices;
  }

  lemma ConsecutiveSnoc(low: nat, high: nat)
    requires low < high
    ensures D.Consecutive(low, high) == D.Consecutive(low, high - 1) + [high - 1]
  {
  }

  lemma {:induction false} ConsecutiveGathered<R>(low: nat, high: nat, flushed: seq<seq<R>>)
    requires low <= high <= |flushed|
    ensures Gathered(D.Consecutive(low, high), flushed) == Flatten(flushed[low..high])
    decreases high
  {
    hide Gathered, Flatten, D.Consecutive;
    if low == high {
      NothingGathered(low, flushed);
    } else {
      ConsecutiveGathered(low, high - 1, flushed);
      ConsecutiveSnoc(low, high);
      GatheredSnoc(D.Consecutive(low, high - 1), high - 1, flushed);
      assert flushed[low..high] == flushed[low..high - 1] + [flushed[high - 1]];
      FlattenSnoc(flushed[low..high - 1], flushed[high - 1]);
    }
  }

  lemma NothingGathered<R>(low: nat, flushed: seq<seq<R>>)
    requires low <= |flushed|
    ensures Gathered(D.Consecutive(low, low), flushed) == Flatten(flushed[low..low])
  {
  }

  lemma {:induction false} FlattenConcat<R>(a: seq<seq<R>>, b: seq<seq<R>>)
    ensures Flatten(a + b) == Flatten(a) + Flatten(b)
    decreases |b|
  {
    hide Flatten;
    if b == [] {
      assert a + b == a;
      FlattenNothing<R>();
    } else {
      var n := |b| - 1;
      FlattenConcat(a, b[..n]);
      assert a + b == a + b[..n] + [b[n]] && b == b[..n] + [b[n]];
      FlattenSnoc(a + b[..n], b[n]);
      FlattenSnoc(b[..n], b[n]);
    }
  }

  lemma FlattenNothing<R>()
    ensures Flatten<R>([]) == []
  {
  }

  /** The requests a client was handed for room `r` by the items on its channel. */
  function Handed<R>(items: seq<H.Item>, r: nat, flushed: seq<seq<R>>): (requests: seq<R>) {
    Gathered(D.FlushesOf(items, r), flushed)
  }

  /**
   * The member's channel has been handed, in order, the requests of the flushes from its joining up to the next one it is
   * due, which is the last or still to come; and they are a contiguous piece of the requests the broadcaster accepted.
   */
  predicate HandedItsRequests<R(==)>(s: H.State, b: B.State<R>, r: nat, c: nat)
    requires r < |s.rooms| && c in s.rooms[r].clients
  {
    var m, next := s.rooms[r].clients[c], H.NextFlush(s.rooms[r], c);
    && c < |s.clients| && m.mark <= |s.clients[c].outbox| && m.joinedAt <= next <= |b.flushed| <= next + 1
    && var handed, first := Handed(s.clients[c].outbox[m.mark..], r, b.flushed), |Flatten(b.flushed[..m.joinedAt])|;
       && handed == Flatten(b.flushed[m.joinedAt..next])
       && first + |handed| <= |b.accepted| && handed == b.accepted[first..first + |handed|]
  }

  /** For runs of both machines that flushed equally often. */
  lemma MembersOfLinkedRuns<R>(run: seq<H.Action>, turns: seq<B.Turn<R>>, r: nat, c: nat)
    requires r < |H.After(run).rooms| && c in H.After(run).rooms[r].clients && !D.AwaitsRemoval(H.After(run), r, c)
    requires H.After(run).rooms[r].flushes == |B.After(turns).flushed|
    ensures HandedItsRequests(H.After(run), B.After(turns), r, c)
  {
    hide H.After, B.After, Flatten;
    D.MembersGetEveryFlush(run);
    B.BroadcasterKeepsOrder(turns);
    var s, b := H.After(run), B.After(turns);
    var m := s.rooms[r].clients[c];
    var next := H.NextFlush(s.rooms[r], c);
    assert D.FlushIsLast(s.rooms[r]);
    ConsecutiveGathered(m.joinedAt, next, b.flushed);
    var before, since, later := b.flushed[..m.joinedAt], b.flushed[m.joinedAt..next], b.flushed[next..];
    assert before + since + later == b.flushed;
    FlattenConcat(before, since);
    FlattenConcat(before + since, later);
    Piece(Flatten(before), Flatten(since), Flatten(later) + b.batch + b.outBuffer, b.accepted);
  }

  lemma Piece<R>(a: seq<R>, b: seq<R>, c: seq<R>, all: seq<R>)
    requires all == a + b + c
    ensures |a| + |b| <= |all| && b == all[|a|..|a| + |b|]
  {
  }

  // ---- the two machines as one ----

  datatype Joint<R> = Joint(hub: H.State, broadcaster: B.State<R>)

  datatype Action<R> = InHub(action: H.Action) | InBroadcaster(turn: B.Turn<R>)

  /** Everything the hub does but what room `r`'s broadcaster does for it, and the turns of that broadcaster. */
  function Step<R>(j: Joint<R>, r: nat, a: Action<R>): (t: Joint<R>) {
    match a
    case InHub(action) =>
      if action == H.TakeSnapshot(r) || action == H.IdleCheck(r) then j else j.(hub := H.Step(j.hub, action))
    case InBroadcaster(turn) =>
      if r >= |j.hub.rooms| then j
      else if turn.Arrival? then j.(broadcaster := B.Next(j.broadcaster, turn))
      else if !j.hub.rooms[r].broadcaster.Broadcasting? then j
      else if turn.IdleTick? then
        Joint(H.Step(j.hub, H.IdleCheck(r)), B.Next(j.broadcaster, B.IdleTick(j.hub.rooms[r].clients != map[])))
      else
        var b := B.Next(j.broadcaster, turn);
        Joint(if |b.flushed| > |j.broadcaster.flushed| then H.Step(j.hub, H.TakeSnapshot(r)) else j.hub, b)
  }

  function After<R>(actions: seq<Action<R>>, r: nat): (j: Joint<R>) {
    if actions == [] then Joint(H.Start(), B.Start())
    else Step(After(actions[..|actions| - 1], r), r, actions[|actions| - 1])
  }

  /** Between batches, or handing one out. */
  predicate AtWork(room: H.Room) {
    room.broadcaster.Broadcasting? || room.broadcaster.Sending?
  }

  /** The hub counts the flushes of the room; before there is a room there is nothing; a stopped broadcaster is gone from the hub. */
  predicate Agree<R(==)>(j: Joint<R>, r: nat) {
    if r >= |j.hub.rooms| then j.broadcaster == B.Start()
    else j.hub.rooms[r].flushes == |j.broadcaster.flushed| && (AtWork(j.hub.rooms[r]) ==> j.broadcaster.running)
  }

  /** A hub step other than the two leaves the room's flushes alone, and starts no broadcaster again. */
  lemma OtherHubStep(s: H.State, a: H.Action, r: nat)
    requires a != H.TakeSnapshot(r) && a != H.IdleCheck(r)
    ensures r < |s.rooms| ==>
              && r < |H.Step(s, a).rooms| && H.Step(s, a).rooms[r].flushes == s.rooms[r].flushes
              && (AtWork(H.Step(s, a).rooms[r]) ==> AtWork(s.rooms[r]))
    ensures |s.rooms| <= r < |H.Step(s, a).rooms| ==> H.Step(s, a).rooms[r].flushes == 0
  {
  }

  lemma FlushStep(s: H.State, r: nat)
    requires r < |s.rooms| && s.rooms[r].broadcaster.Broadcasting?
    ensures var t := H.Step(s, H.TakeSnapshot(r)); r < |t.rooms| && t.rooms[r].flushes == s.rooms[r].flushes + 1
  {
  }

  lemma IdleStep(s: H.State, r: nat)
    requires r < |s.rooms| && s.rooms[r].broadcaster.Broadcasting?
    ensures var t := H.Step(s, H.IdleCheck(r));
            && r < |t.rooms| && t.rooms[r].flushes == s.rooms[r].flushes
            && (AtWork(t.rooms[r]) <==> s.rooms[r].clients != map[])
  {
  }

  /** A turn flushes at most one batch, and only an idle tick stops the broadcaster. */
  lemma TurnFlushes<R>(b: B.State<R>, turn: B.Turn<R>)
    requires B.Conserving(b) && B.Sizes(b)
    ensures var t := B.Next(b, turn);
            && |b.flushed| <= |t.flushed| <= |b.flushed| + 1
            && (turn.Arrival? || turn.IdleTick? ==> t.flushed == b.flushed)
            && (t.running <==> b.running && !(turn.IdleTick? && !turn.hasClients))
  {
    hide B.Drained;
    if turn.Receive? && b.running && b.outBuffer != [] {
      B.TakeConserves(b);
      B.DrainConserves(B.Taken(b), |B.Taken(b).outBuffer|, turn.arrivals);
      B.DrainKeepsRunning(B.Taken(b), |B.Taken(b).outBuffer|, turn.arrivals);
    }
  }

  lemma HubStepAgrees<R>(j: Joint<R>, r: nat, action: H.Action)
    requires Agree(j, r)
    ensures Agree(Step(j, r, InHub(action)), r)
  {
    hide H.Step;
    if action != H.TakeSnapshot(r) && action != H.IdleCheck(r) {
      OtherHubStep(j.hub, action, r);
      RoomsStay(j.hub, action);
    }
  }

  lemma RoomsStay(s: H.State, a: H.Action)
    ensures |s.rooms| <= |H.Step(s, a).rooms|
  {
  }

  lemma TurnAgrees<R>(j: Joint<R>, r: nat, turn: B.Turn<R>)
    requires Agree(j, r) && B.Conserving(j.broadcaster) && B.Sizes(j.broadcaster)
    ensures Agree(Step(j, r, InBroadcaster(turn)), r)
  {
    hide H.Step, B.Next;
    if r < |j.hub.rooms| {
      TurnFlushes(j.broadcaster, turn);
      if j.hub.rooms[r].broadcaster.Broadcasting? {
        FlushStep(j.hub, r);
        IdleStep(j.hub, r);
        TurnFlushes(j.broadcaster, B.IdleTick(j.hub.rooms[r].clients != map[]));
      }
    }
  }

  lemma HubSnoc(run: seq<H.Action>, a: H.Action)
    ensures H.After(run + [a]) == H.Step(H.After(run), a)
  {
    H.AfterSnoc(run, a);
  }

  lemma TurnsSnoc<R>(turns: seq<B.Turn<R>>, turn: B.Turn<R>)
    ensures B.After(turns + [turn]) == B.Next(B.After(turns), turn)
  {
    hide B.Next;
    assert (turns + [turn])[..|turns|] == turns;
  }

  /** A joint step is at most one step of the hub and at most one turn of the broadcaster. */
  lemma StepIsOfBoth<R>(j: Joint<R>, r: nat, a: Action<R>) returns (hubStep: seq<H.Action>, turn: seq<B.Turn<R>>)
    ensures |hubStep| <= 1 && |turn| <= 1
    ensures Step(j, r, a).hub == if hubStep == [] then j.hub else H.Step(j.hub, hubStep[0])
    ensures Step(j, r, a).broadcaster == if turn == [] then j.broadcaster else B.Next(j.broadcaster, turn[0])
  {
    hide H.Step, B.Next;
    hubStep, turn := [], [];
    match a
    case InHub(action) =>
      if action != H.TakeSnapshot(r) && action != H.IdleCheck(r) { hubStep := [action]; }
    case InBroadcaster(t) =>
      if r < |j.hub.rooms| && t.Arrival? {
        turn := [t];
      } else if r < |j.hub.rooms| && j.hub.rooms[r].broadcaster.Broadcasting? {
        turn := [if t.IdleTick? then B.IdleTick(j.hub.rooms[r].clients != map[]) else t];
        if t.IdleTick? {
          hubStep := [H.IdleCheck(r)];
        } else if |B.Next(j.broadcaster, t).flushed| > |j.broadcaster.flushed| {
          hubStep := [H.TakeSnapshot(r)];
        }
      }
  }

  /** So a joint run is a run of the hub and a run of the broadcaster, and they agree. */
  lemma {:induction false} JointRun<R>(actions: seq<Action<R>>, r: nat) returns (run: seq<H.Action>, turns: seq<B.Turn<R>>)
    ensures After(actions, r).hub == H.After(run) && After(actions, r).broadcaster == B.After(turns)
    ensures Agree(After(actions, r), r)
    decreases |actions|
  {
    hide H.Step, B.Next, Step, H.After, B.After, Agree;
    if actions == [] {
      run, turns := [], [];
      Beginning<R>(r);
    } else {
      var before, last := actions[..|actions| - 1], actions[|actions| - 1];
      run, turns := JointRun(before, r);
      var j := After(before, r);
      B.SizesHold(turns);
      match last {
        case InHub(action) => HubStepAgrees(j, r, action);
        case InBroadcaster(turn) => TurnAgrees(j, r, turn);
      }
      var hubStep, turn := StepIsOfBoth(j, r, last);
      if hubStep != [] { HubSnoc(run, hubStep[0]); }
      if turn != [] { TurnsSnoc(turns, turn[0]); }
      run := if hubStep == [] then run else run + [hubStep[0]];
      turns := if turn == [] then turns else turns + [turn[0]];
    }
  }

  lemma Beginning<R>(r: nat)
    ensures After<R>([], r).hub == H.After([]) && After<R>([], r).broadcaster == B.After([]) && Agree(After<R>([], r), r)
  {
  }

  /**
   * In every run of the two together: a member of the room that does not await removal has been handed, in order, exactly
   * the requests the broadcaster flushed since it joined, and those are a contiguous piece of the requests it accepted.
   */
  lemma MembersGetEveryRequest<R>(actions: seq<Action<R>>, r: nat, c: nat)
    requires var s := After(actions, r).hub;
             r < |s.rooms| && c in s.rooms[r].clients && !D.AwaitsRemoval(s, r, c)
    ensures HandedItsRequests(After(actions, r).hub, After(actions, r).broadcaster, r, c)
  {
    hide After, H.After, B.After, Flatten;
    var run, turns := JointRun(actions, r);
    MembersOfLinkedRuns(run, turns, r, c);
  }
}
