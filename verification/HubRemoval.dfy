/**
 * Who is about to remove a client, and from which room: the client's own goroutine when it switches rooms, evictions, and
 * the hub when it unregisters. While the client's `done` channel is open they all mean one and the same room.
 */
module HubRemoval {
  import opened Common
  import opened HubProtocol
  import P = HubPlacement

  datatype Remover = BySwitch(c: nat) | ByEviction(k: nat) | ByHub

  /** The goroutine is about to call `RemoveClients`. */
  predicate Removes(s: State, who: Remover) {
    match who
    case BySwitch(c) =>
      At(s, c) && s.clients[c].pc.Switching? && s.clients[c].pc.oldRoom.Some? && s.clients[c].pc.oldRoom.value < |s.rooms|
    case ByEviction(k) => k < |s.evictions| && s.evictions[k].room < |s.rooms| && s.evictions[k].clients != {}
    case ByHub => s.hub.HubUnregistering? && s.hub.room.Some? && s.hub.room.value < |s.rooms|
  }

  function RoomOf(s: State, who: Remover): (r: nat)
    requires Removes(s, who)
    ensures r < |s.rooms|
  {
    match who
    case BySwitch(c) => s.clients[c].pc.oldRoom.value
    case ByEviction(k) => s.evictions[k].room
    case ByHub => s.hub.room.value
  }

  function ClientsOf(s: State, who: Remover): (clients: set<nat>)
    requires Removes(s, who)
  {
    match who
    case BySwitch(c) => {c}
    case ByEviction(k) => s.evictions[k].clients
    case ByHub => {s.hub.client}
  }

  predicate Open(s: State, c: nat) {
    At(s, c) && !s.clients[c].doneClosed
  }

  /** A client found slow by a flush of the room: unless its channel is closed it is still there, and the room is at work. */
  predicate Marked(s: State, r: nat, c: nat) {
    && r < |s.rooms| && At(s, c)
    && (Open(s, c) ==> c in s.rooms[r].clients && (s.rooms[r].broadcaster.Broadcasting? || s.rooms[r].broadcaster.Sending?))
  }

  ghost predicate Inv(s: State) {
    && (forall k: nat, c :: k < |s.evictions| && c in s.evictions[k].clients ==> Marked(s, s.evictions[k].room, c))
    && (forall r: nat, c :: r < |s.rooms| && InFlush(s.rooms[r], c) ==> Marked(s, r, c))
  }

  predicate InFlush(room: Room, c: nat) {
    room.broadcaster.Sending? && (c in room.broadcaster.left || c in room.broadcaster.slow)
  }

  /** Every way out of a room closes the channel. */
  lemma MarkedStaysInRemoval(s: State, a: Action, r: nat, c: nat)
    requires Marked(s, r, c) && (a.RemoveFromOld? || a.Evict? || a.HubRemove?)
    ensures Marked(Step(s, a), r, c)
  {
  }

  /** A room with a client in it passes no idle check. */
  lemma MarkedStaysInRoomStep(s: State, a: Action, r: nat, c: nat)
    requires Marked(s, r, c) && (a.IdleCheck? || a.RemoveRoom? || a.BuildRoom? || a.LookupRooms? || a.AddToRoom?)
    ensures Marked(Step(s, a), r, c)
  {
  }

  lemma MarkedStaysInFlush(s: State, a: Action, r: nat, c: nat)
    requires Marked(s, r, c) && Flushing(a)
    ensures Marked(Step(s, a), r, c)
  {
  }

  lemma MarkedStaysInOtherStep(s: State, a: Action, r: nat, c: nat)
    requires Marked(s, r, c) && !a.RemoveFromOld? && !a.Evict? && !a.HubRemove?
    requires !Flushing(a) && !a.IdleCheck? && !a.RemoveRoom? && !a.BuildRoom? && !a.LookupRooms? && !a.AddToRoom?
    ensures Marked(Step(s, a), r, c)
  {
  }

  lemma MarkedStays(s: State, a: Action, r: nat, c: nat)
    requires Marked(s, r, c)
    ensures Marked(Step(s, a), r, c)
  {
    hide Step, Marked;
    if a.RemoveFromOld? || a.Evict? || a.HubRemove? { MarkedStaysInRemoval(s, a, r, c); }
    else if Flushing(a) { MarkedStaysInFlush(s, a, r, c); }
    else if a.IdleCheck? || a.RemoveRoom? || a.BuildRoom? || a.LookupRooms? || a.AddToRoom? {
      MarkedStaysInRoomStep(s, a, r, c);
    } else { MarkedStaysInOtherStep(s, a, r, c); }
  }

  lemma EvictionsComeFromFlushes(s: State, a: Action)
    ensures var t := Step(s, a);
            forall k: nat, c :: k < |t.evictions| && c in t.evictions[k].clients ==>
              || (k < |s.evictions| && t.evictions[k].room == s.evictions[k].room && c in s.evictions[k].clients)
              || (t.evictions[k].room < |s.rooms| && InFlush(s.rooms[t.evictions[k].room], c))
  {
  }

  lemma FlushesComeFromMembers(s: State, a: Action)
    ensures var t := Step(s, a);
            forall r: nat, c :: r < |t.rooms| && InFlush(t.rooms[r], c) ==>
              && r < |s.rooms|
              && (InFlush(s.rooms[r], c) || (c in s.rooms[r].clients && s.rooms[r].broadcaster.Broadcasting?))
  {
  }

  lemma StepKeepsInv(s: State, a: Action)
    requires Inv(s) && P.MembersExist(s)
    ensures Inv(Step(s, a))
  {
    hide Step;
    var t := Step(s, a);
    EvictionsComeFromFlushes(s, a);
    FlushesComeFromMembers(s, a);
    forall k: nat, c | k < |t.evictions| && c in t.evictions[k].clients ensures Marked(t, t.evictions[k].room, c) {
      MarkedStays(s, a, t.evictions[k].room, c);
    }
    forall r: nat, c | r < |t.rooms| && InFlush(t.rooms[r], c) ensures Marked(t, r, c) {
      MarkedStays(s, a, r, c);
    }
  }

  lemma {:induction false} RunKeepsInv(run: seq<Action>)
    ensures Inv(After(run))
    decreases |run|
  {
    hide Step;
    if run != [] {
      RunKeepsInv(run[..|run| - 1]);
      P.RunKeepsInv(run[..|run| - 1]);
      StepKeepsInv(After(run[..|run| - 1]), run[|run| - 1]);
    }
  }

  lemma EvictedFromItsLiveRoom(s: State, k: nat, c: nat)
    requires Inv(s) && P.Inv(s) && Open(s, c) && k < |s.evictions| && c in s.evictions[k].clients
    ensures var name := s.clients[c].room; P.LiveIn(s, c, name) && s.live[name] == s.evictions[k].room
  {
    var r := s.evictions[k].room;
    assert Marked(s, r, c) && Served(s.rooms[r]);
    assert P.LiveIn(s, c, s.rooms[r].name);
  }

  lemma OneRoomAtATime(s: State, c: nat, a: Remover, b: Remover)
    requires Inv(s) && P.Inv(s) && Open(s, c)
    requires Removes(s, a) && Removes(s, b) && c in ClientsOf(s, a) && c in ClientsOf(s, b)
    ensures RoomOf(s, a) == RoomOf(s, b)
  {
    if a.ByEviction? { EvictedFromItsLiveRoom(s, a.k, c); }
    if b.ByEviction? { EvictedFromItsLiveRoom(s, b.k, c); }
    assert P.GoroutineOk(s, c);
  }

  /** In every run all that are about to remove a client whose channel is open are about to remove it from one room. */
  lemma RemoversAgreeOnTheRoom(run: seq<Action>, c: nat, a: Remover, b: Remover)
    requires Open(After(run), c)
    requires var s := After(run); Removes(s, a) && Removes(s, b) && c in ClientsOf(s, a) && c in ClientsOf(s, b)
    ensures RoomOf(After(run), a) == RoomOf(After(run), b)
  {
    hide Step;
    RunKeepsInv(run);
    P.RunKeepsInv(run);
    OneRoomAtATime(After(run), c, a, b);
  }
}
