/** Which clients are in which rooms, in every run of the hub. */
module HubPlacement {
  import opened Common
  import opened HubProtocol

  /** The client is in the live room of that name. */
  ghost predicate LiveIn(s: State, c: nat, name: string) {
    name in s.live && s.live[name] < |s.rooms| && c in s.rooms[s.live[name]].clients
  }

  /** Every live room is stored under its own name. */
  ghost predicate LiveRoomsNamed(s: State) {
    && "" !in s.live
    && forall name :: name in s.live ==> s.live[name] < |s.rooms| && s.rooms[s.live[name]].name == name
  }

  ghost predicate MembersExist(s: State) {
    forall r, c :: 0 <= r < |s.rooms| && c in s.rooms[r].clients ==> c < |s.clients|
  }

  /** Every client of a live room has that room as its own. */
  ghost predicate MembersKnowTheirRoom(s: State) {
    forall c: nat, name :: LiveIn(s, c, name) ==> c < |s.clients| && s.clients[c].room == name
  }

  ghost predicate Nowhere(s: State, c: nat) {
    forall name :: !LiveIn(s, c, name)
  }

  /** Whatever live room holds the client is the one found earlier. */
  ghost predicate OnlyIn(s: State, c: nat, found: Option<nat>) {
    forall name :: LiveIn(s, c, name) ==> found == Some(s.live[name])
  }

  ghost predicate NamedRoom(s: State, r: Option<nat>, name: string) {
    r.Some? ==> r.value < |s.rooms| && s.rooms[r.value].name == name
  }

  /** What a connection goroutine may rely on between its lock regions. */
  ghost predicate GoroutineOk(s: State, c: nat)
    requires At(s, c)
  {
    match s.clients[c].pc
    case Building(name) => name != ""
    case Subscribing(name) => name != ""
    case Switching(oldRoom, newRoom, name) =>
      OnlyIn(s, c, oldRoom) && NamedRoom(s, newRoom, name) && (oldRoom.Some? ==> oldRoom.value < |s.rooms|)
    case Deciding(newRoom, name) => Nowhere(s, c) && NamedRoom(s, newRoom, name)
    case Adding(target, name) => Nowhere(s, c) && NamedRoom(s, Some(target), name)
    case _ => true
  }

  ghost predicate GoroutinesOk(s: State) {
    forall c: nat :: c < |s.clients| ==> GoroutineOk(s, c)
  }

  ghost predicate HasLeft(s: State, c: nat) {
    At(s, c) && s.clients[c].pc.Gone?
  }

  /** Clients handed to the hub have left; those it is done with are in no live room. */
  ghost predicate LeaversOk(s: State) {
    && (forall c :: c in s.unregisters ==> HasLeft(s, c))
    && (forall c :: c in s.unregistered ==> HasLeft(s, c) && Nowhere(s, c))
    && (s.hub.HubUnregistering? ==> HasLeft(s, s.hub.client) && OnlyIn(s, s.hub.client, s.hub.room)
                                    && (s.hub.room.Some? ==> s.hub.room.value < |s.rooms|))
  }

  /** A running broadcaster serves the live room of its name, so it removes no other room than its own. */
  ghost predicate BroadcastersServeLiveRooms(s: State) {
    forall r: nat :: r < |s.rooms| && Served(s.rooms[r]) ==>
      s.rooms[r].name in s.live && s.live[s.rooms[r].name] == r
  }

  ghost predicate Inv(s: State) {
    && LiveRoomsNamed(s)
    && MembersExist(s)
    && MembersKnowTheirRoom(s)
    && GoroutinesOk(s)
    && LeaversOk(s)
    && BroadcastersServeLiveRooms(s)
  }

  // ---- changes that put nobody anywhere ----

  /** No client enters a live room, and rooms and clients keep their names. */
  ghost predicate OnlyLeaving(s: State, t: State) {
    && |s.rooms| <= |t.rooms|
    && |s.clients| <= |t.clients|
    && (forall r: nat :: r < |s.rooms| ==> t.rooms[r].name == s.rooms[r].name)
    && (forall c: nat :: c < |s.clients| ==> t.clients[c].room == s.clients[c].room)
    && (forall c: nat, name :: LiveIn(t, c, name) ==> LiveIn(s, c, name) && t.live[name] == s.live[name])
  }

  lemma OnlyLeavingKeeps(s: State, t: State, c: nat)
    requires OnlyLeaving(s, t) && At(s, c) && GoroutineOk(s, c) && t.clients[c].pc == s.clients[c].pc
    ensures GoroutineOk(t, c)
  {
  }

  lemma LeaversKept(s: State, t: State)
    requires LeaversOk(s) && OnlyLeaving(s, t)
    requires t.unregisters == s.unregisters && t.unregistered == s.unregistered && t.hub == s.hub
    requires forall c: nat :: HasLeft(s, c) ==> HasLeft(t, c)
    ensures LeaversOk(t)
  {
  }

  /** A step of one goroutine that moves nobody into a room. */
  lemma PcStepKeepsInv(s: State, t: State, c: nat)
    requires Inv(s) && OnlyLeaving(s, t) && At(s, c) && |t.clients| == |s.clients|
    requires LiveRoomsNamed(t) && MembersExist(t) && BroadcastersServeLiveRooms(t)
    requires forall d: nat :: d < |s.clients| && d != c ==> t.clients[d].pc == s.clients[d].pc
    requires GoroutineOk(t, c) && (s.clients[c].pc.Gone? ==> t.clients[c].pc.Gone?)
    requires t.unregisters == s.unregisters && t.unregistered == s.unregistered && t.hub == s.hub
    ensures Inv(t)
  {
    forall d: nat | d < |t.clients| ensures GoroutineOk(t, d) {
      if d != c { OnlyLeavingKeeps(s, t, d); }
    }
    LeaversKept(s, t);
  }

  lemma MoveKeepsInv(s: State, c: nat, pc: Pc)
    requires Inv(s) && At(s, c) && !s.clients[c].pc.Gone?
    requires !pc.Switching? && !pc.Deciding? && !pc.Adding?
    requires pc.Building? || pc.Subscribing? ==> pc.name != ""
    ensures Inv(Moved(s, c, pc))
  {
    PcStepKeepsInv(s, Moved(s, c, pc), c);
  }

  lemma CreatedKeepsInv(s: State, name: string, broadcaster: BroadcasterPc)
    requires Inv(s) && name !in s.live && name != ""
    ensures Inv(Created(s, name, broadcaster)) && OnlyLeaving(s, Created(s, name, broadcaster))
  {
    var t := Created(s, name, broadcaster);
    forall c: nat, n | LiveIn(t, c, n) ensures LiveIn(s, c, n) && t.live[n] == s.live[n] {
      assert n != name;
    }
    forall d: nat | d < |t.clients| ensures GoroutineOk(t, d) {
      OnlyLeavingKeeps(s, t, d);
    }
    LeaversKept(s, t);
  }

  lemma RemovalOnlyLeaves(s: State, r: nat, gone: set<nat>)
    requires r < |s.rooms|
    ensures var t := RemoveClients(s, r, gone);
            && OnlyLeaving(s, t) && |t.clients| == |s.clients| && |t.rooms| == |s.rooms| && t.live == s.live
            && (forall c: nat :: c < |s.clients| ==> t.clients[c].pc == s.clients[c].pc)
            && (forall c: nat, name :: c in gone && LiveIn(t, c, name) ==> t.live[name] != r)
  {
  }

  lemma RemovalKeepsInv(s: State, r: nat, gone: set<nat>)
    requires Inv(s) && r < |s.rooms|
    ensures Inv(RemoveClients(s, r, gone))
  {
    var t := RemoveClients(s, r, gone);
    RemovalOnlyLeaves(s, r, gone);
    forall d: nat | d < |t.clients| ensures GoroutineOk(t, d) {
      OnlyLeavingKeeps(s, t, d);
    }
    LeaversKept(s, t);
  }

  // ---- the steps of SubscribeRoom ----

  lemma LookupKeepsInv(s: State, c: nat, name: string)
    requires Inv(s) && At(s, c) && s.clients[c].pc == Subscribing(name) && s.clients[c].room != name
    ensures Inv(AfterLookup(s, c, name))
  {
    assert GoroutineOk(s, c);
    var target := Found(s, name);
    var s1 := if target.None? then Created(s, name, NoBroadcaster) else s;
    if target.None? { CreatedKeepsInv(s, name, NoBroadcaster); }
    var t := AfterLookup(s, c, name);
    assert OnlyLeaving(s1, t);
    var oldRoom := if s.clients[c].room != "" then Found(s, s.clients[c].room) else None;
    forall n | LiveIn(t, c, n) ensures oldRoom == Some(t.live[n]) {
      assert LiveIn(s1, c, n) && LiveIn(s, c, n);
    }
    PcStepKeepsInv(s1, t, c);
  }

  lemma RemovedFromKeepsInv(s: State, c: nat, found: Option<nat>)
    requires Inv(s)
    ensures var t := RemovedFrom(s, c, found);
            && Inv(t) && OnlyLeaving(s, t) && |t.clients| == |s.clients| && |t.rooms| == |s.rooms|
            && (forall d: nat :: d < |s.clients| ==> t.clients[d].pc == s.clients[d].pc)
  {
    if found.Some? && found.value < |s.rooms| {
      RemovalKeepsInv(s, found.value, {c});
      RemovalOnlyLeaves(s, found.value, {c});
    }
  }

  /** A client removed from the only live room that can hold it is nowhere. */
  lemma RemovedFromItsRoom(s: State, c: nat, found: Option<nat>)
    requires OnlyIn(s, c, found) && (found.Some? ==> found.value < |s.rooms|)
    ensures Nowhere(RemovedFrom(s, c, found), c)
  {
    var t := RemovedFrom(s, c, found);
    forall n ensures !LiveIn(t, c, n) {
      assert LiveIn(t, c, n) ==> LiveIn(s, c, n);
    }
  }

  lemma RemoveFromOldKeepsInv(s: State, c: nat)
    requires Inv(s) && At(s, c) && s.clients[c].pc.Switching?
    ensures Inv(Step(s, RemoveFromOld(c)))
  {
    var pc := s.clients[c].pc;
    assert GoroutineOk(s, c);
    RemovedFromKeepsInv(s, c, pc.oldRoom);
    RemovedFromItsRoom(s, c, pc.oldRoom);
    DecidingKeepsInv(RemovedFrom(s, c, pc.oldRoom), c, pc.newRoom, pc.name);
  }

  lemma DecidingKeepsInv(s: State, c: nat, newRoom: Option<nat>, name: string)
    requires Inv(s) && At(s, c) && !s.clients[c].pc.Gone? && Nowhere(s, c) && NamedRoom(s, newRoom, name)
    ensures Inv(Moved(s, c, Deciding(newRoom, name)))
  {
    var t := Moved(s, c, Deciding(newRoom, name));
    assert forall n :: LiveIn(t, c, n) <==> LiveIn(s, c, n);
    PcStepKeepsInv(s, t, c);
  }

  lemma DecideKeepsInv(s: State, c: nat, canJoin: bool)
    requires Inv(s) && At(s, c) && s.clients[c].pc.Deciding?
    ensures Inv(Step(s, Decide(c, canJoin)))
  {
    assert GoroutineOk(s, c);
    PcStepKeepsInv(s, Step(s, Decide(c, canJoin)), c);
  }

  /** Only here does a client enter a room; it is in no live room then, so it ends up in at most this one. */
  lemma AddKeepsInv(s: State, c: nat)
    requires Inv(s) && At(s, c) && s.clients[c].pc.Adding?
    ensures Inv(Step(s, AddToRoom(c)))
  {
    var r, name := s.clients[c].pc.target, s.clients[c].pc.name;
    assert GoroutineOk(s, c);
    var t := Step(s, AddToRoom(c));
    assert t == AfterAdd(s, c, r, name);
    forall d: nat, n | LiveIn(t, d, n) ensures d < |t.clients| && t.clients[d].room == n && (d != c ==> LiveIn(s, d, n)) {
      if d == c {
        assert !LiveIn(s, c, n);
        assert t.live[n] == r && s.rooms[r].name == n;
      } else {
        assert LiveIn(s, d, n);
      }
    }
    forall d: nat | d < |t.clients| ensures GoroutineOk(t, d) {
      if d != c { assert GoroutineOk(s, d); }
    }
    AddKeepsLeavers(s, t, c);
  }

  lemma AddKeepsLeavers(s: State, t: State, c: nat)
    requires LeaversOk(s) && At(s, c) && !s.clients[c].pc.Gone? && |t.clients| == |s.clients| && |t.rooms| == |s.rooms|
    requires t.live == s.live && forall d: nat, n :: d != c && LiveIn(t, d, n) ==> LiveIn(s, d, n)
    requires forall d: nat :: d < |s.clients| && d != c ==> t.clients[d].pc == s.clients[d].pc
    requires t.unregisters == s.unregisters && t.unregistered == s.unregistered && t.hub == s.hub
    ensures LeaversOk(t)
  {
  }

  // ---- the other steps ----

  lemma ConnectKeepsInv(s: State)
    requires Inv(s)
    ensures Inv(Step(s, Connect))
  {
    var t := Step(s, Connect);
    assert OnlyLeaving(s, t);
    forall d: nat | d < |t.clients| ensures GoroutineOk(t, d) {
      if d < |s.clients| { OnlyLeavingKeeps(s, t, d); }
    }
    LeaversKept(s, t);
  }

  lemma UnregisterKeepsInv(s: State, c: nat)
    requires Inv(s) && At(s, c) && s.clients[c].pc.Leaving?
    ensures Inv(Step(s, Unregister(c)))
  {
    MoveKeepsInv(s, c, Gone);
    var t := Moved(s, c, Gone);
    var u := t.(unregisters := t.unregisters + [c]);
    assert OnlyLeaving(t, u);
    forall d: nat | d < |u.clients| ensures GoroutineOk(u, d) {
      OnlyLeavingKeeps(t, u, d);
    }
  }

  /** Steps that touch neither names, nor places, nor program counters. */
  lemma QuietKeepsInv(s: State, t: State)
    requires Inv(s) && OnlyLeaving(s, t) && |t.clients| == |s.clients| && |t.rooms| == |s.rooms|
    requires forall c: nat :: c < |s.clients| ==> t.clients[c].pc == s.clients[c].pc
    requires LiveRoomsNamed(t) && MembersExist(t) && BroadcastersServeLiveRooms(t)
    requires t.unregisters == s.unregisters && t.unregistered == s.unregistered && t.hub == s.hub
    ensures Inv(t)
  {
    forall d: nat | d < |t.clients| ensures GoroutineOk(t, d) {
      OnlyLeavingKeeps(s, t, d);
    }
    LeaversKept(s, t);
  }

  /** `removeRoom` deletes by name; the room stored there is the broadcaster's own. */
  lemma RemoveRoomKeepsInv(s: State, r: nat)
    requires Inv(s) && r < |s.rooms| && s.rooms[r].broadcaster.SawNoClients?
    ensures Inv(Step(s, RemoveRoom(r)))
  {
    var t := Step(s, RemoveRoom(r));
    assert s.live[s.rooms[r].name] == r;
    forall q: nat | q < |t.rooms| && Served(t.rooms[q])
      ensures t.rooms[q].name in t.live && t.live[t.rooms[q].name] == q
    {
      assert q != r;
      assert s.live[s.rooms[q].name] == q;
    }
    forall c: nat, n | LiveIn(t, c, n) ensures LiveIn(s, c, n) && t.live[n] == s.live[n] {
      assert n != s.rooms[r].name;
    }
    QuietKeepsInv(s, t);
  }

  /** Same rooms, same clients: the same clients are in the same places. */
  ghost predicate SamePlaces(s: State, t: State) {
    t.live == s.live && t.rooms == s.rooms && t.clients == s.clients
  }

  lemma SamePlacesKeeps(s: State, t: State)
    requires SamePlaces(s, t) && Inv(s)
    ensures LiveRoomsNamed(t) && MembersExist(t) && MembersKnowTheirRoom(t) && GoroutinesOk(t) && BroadcastersServeLiveRooms(t)
    ensures forall c: nat, name :: LiveIn(t, c, name) <==> LiveIn(s, c, name)
    ensures forall c: nat :: HasLeft(t, c) <==> HasLeft(s, c)
    ensures forall c: nat :: Nowhere(t, c) <==> Nowhere(s, c)
  {
    assert forall c: nat, name :: LiveIn(t, c, name) <==> LiveIn(s, c, name);
    forall c: nat | c < |t.clients| ensures GoroutineOk(t, c) {
      assert GoroutineOk(s, c);
    }
  }

  lemma HubLookupKeepsInv(s: State)
    requires Inv(s) && s.hub.HubIdle? && s.unregisters != [] && At(s, s.unregisters[0])
    ensures Inv(Step(s, HubLookup))
  {
    var t := Step(s, HubLookup);
    SamePlacesKeeps(s, t);
    var c := s.unregisters[0];
    assert c in s.unregisters && HasLeft(s, c);
    assert t.hub == HubUnregistering(c, Found(s, s.clients[c].room));
    forall n | LiveIn(t, c, n) ensures t.hub.room == Some(t.live[n]) {
      assert LiveIn(s, c, n);
    }
    assert LeaversOk(t);
  }

  lemma HubRemoveKeepsInv(s: State)
    requires Inv(s) && s.hub.HubUnregistering?
    ensures Inv(Step(s, HubRemove))
  {
    var c, room := s.hub.client, s.hub.room;
    RemovedFromKeepsInv(s, c, room);
    RemovedFromItsRoom(s, c, room);
    UnregisteredKeepsInv(RemovedFrom(s, c, room), Step(s, HubRemove), c);
  }

  lemma UnregisteredKeepsInv(s: State, t: State, c: nat)
    requires Inv(s) && SamePlaces(s, t) && HasLeft(s, c) && Nowhere(s, c)
    requires t.unregisters == s.unregisters && t.unregistered == s.unregistered + {c} && t.hub.HubIdle?
    ensures Inv(t)
  {
    SamePlacesKeeps(s, t);
  }

  /** The steps of one connection goroutine. */
  lemma GoroutineStepKeepsInv(s: State, a: Action, c: nat)
    requires Inv(s) && At(s, c)
    requires a in {Register(c), BuildRoom(c), RemoveFromOld(c), AddToRoom(c), Confirm(c), StopReading(c), Unregister(c)}
             || (a.StartJoin? && a.c == c) || (a.LookupRooms? && a.c == c) || (a.Decide? && a.c == c)
    ensures Inv(Step(s, a))
  {
    assert GoroutineOk(s, c);
    match a
    case Register(_) =>
      if s.clients[c].pc.Connecting? && s.registers < REGISTER_BUFFER_LEN {
        MoveKeepsInv(s, c, Reading);
        QuietKeepsInv(Moved(s, c, Reading), Step(s, a));
      }
    case StartJoin(_, name) => if s.clients[c].pc.Reading? && name != "" { MoveKeepsInv(s, c, Building(name)); }
    case BuildRoom(_) => if s.clients[c].pc.Building? { BuildKeepsInv(s, c, s.clients[c].pc.name); }
    case LookupRooms(_, valid) =>
      if s.clients[c].pc.Subscribing? {
        if !valid || s.clients[c].room == s.clients[c].pc.name { MoveKeepsInv(s, c, Reading); }
        else { LookupKeepsInv(s, c, s.clients[c].pc.name); }
      }
    case RemoveFromOld(_) => if s.clients[c].pc.Switching? { RemoveFromOldKeepsInv(s, c); }
    case Decide(_, canJoin) => if s.clients[c].pc.Deciding? { DecideKeepsInv(s, c, canJoin); }
    case AddToRoom(_) => if s.clients[c].pc.Adding? { AddKeepsInv(s, c); }
    case Confirm(_) => if s.clients[c].pc.Confirming? { ConfirmKeepsInv(s, c); }
    case StopReading(_) => if s.clients[c].pc.Reading? { MoveKeepsInv(s, c, Leaving); }
    case Unregister(_) =>
      if s.clients[c].pc.Leaving? && |s.unregisters| < UNREGISTER_BUFFER_LEN { UnregisterKeepsInv(s, c); }
  }

  lemma BuildKeepsInv(s: State, c: nat, name: string)
    requires Inv(s) && At(s, c) && s.clients[c].pc == Building(name) && name != ""
    ensures Inv(Step(s, BuildRoom(c)))
  {
    if name !in s.live { CreatedKeepsInv(s, name, Broadcasting); }
    MoveKeepsInv(if name in s.live then s else Created(s, name, Broadcasting), c, Subscribing(name));
  }

  lemma ConfirmKeepsInv(s: State, c: nat)
    requires Inv(s) && At(s, c) && s.clients[c].pc.Confirming?
    ensures Inv(Step(s, Confirm(c)))
  {
    PcStepKeepsInv(s, Step(s, Confirm(c)), c);
  }

  /** A flush changes its broadcaster and what clients are sent, nothing else. */
  ghost predicate OnlyFlushes(s: State, t: State) {
    && t.live == s.live && t.hub == s.hub && t.unregisters == s.unregisters && t.unregistered == s.unregistered
    && |t.rooms| == |s.rooms| && |t.clients| == |s.clients|
    && (forall r: nat :: r < |s.rooms| ==>
          && t.rooms[r].name == s.rooms[r].name && t.rooms[r].clients == s.rooms[r].clients
          && (Served(t.rooms[r]) <==> Served(s.rooms[r])))
    && (forall c: nat :: c < |s.clients| ==> t.clients[c].pc == s.clients[c].pc && t.clients[c].room == s.clients[c].room)
  }

  lemma FlushStepOnlyFlushes(s: State, a: Action)
    requires Flushing(a)
    ensures OnlyFlushes(s, Step(s, a))
  {
  }

  lemma FlushStepKeepsInv(s: State, a: Action)
    requires Inv(s) && Flushing(a)
    ensures Inv(Step(s, a))
  {
    hide Step;
    FlushStepOnlyFlushes(s, a);
    QuietKeepsInv(s, Step(s, a));
  }

  lemma EvictKeepsInv(s: State, k: nat)
    requires Inv(s) && k < |s.evictions| && s.evictions[k].room < |s.rooms|
    ensures Inv(AfterEvict(s, k))
  {
    RemovalKeepsInv(s, s.evictions[k].room, s.evictions[k].clients);
    SamePlacesKeeps(RemoveClients(s, s.evictions[k].room, s.evictions[k].clients), AfterEvict(s, k));
  }

  lemma RoomStepKeepsInv(s: State, a: Action)
    requires Inv(s) && (a.IdleCheck? || a.RemoveRoom? || a.Evict? || a.WriteOne?)
    ensures Inv(Step(s, a))
  {
    if a.Evict? {
      if a.k < |s.evictions| && s.evictions[a.k].room < |s.rooms| { EvictKeepsInv(s, a.k); }
    } else if Step(s, a) != s {
      if a.RemoveRoom? { RemoveRoomKeepsInv(s, a.r); }
      else { QuietKeepsInv(s, Step(s, a)); }
    }
  }

  lemma HubStepKeepsInv(s: State, a: Action)
    requires Inv(s) && (a.HubRegister? || a.HubLookup? || a.HubRemove?)
    ensures Inv(Step(s, a))
  {
    if Step(s, a) != s {
      if a.HubRegister? { SamePlacesKeeps(s, Step(s, a)); }
      else if a.HubLookup? { HubLookupKeepsInv(s); }
      else { HubRemoveKeepsInv(s); }
    }
  }

  lemma StepKeepsInv(s: State, a: Action)
    requires Inv(s)
    ensures Inv(Step(s, a))
  {
    if a.Connect? { ConnectKeepsInv(s); }
    else if a.HubRegister? || a.HubLookup? || a.HubRemove? { HubStepKeepsInv(s, a); }
    else if Flushing(a) { FlushStepKeepsInv(s, a); }
    else if a.IdleCheck? || a.RemoveRoom? || a.Evict? || a.WriteOne? { RoomStepKeepsInv(s, a); }
    else if At(s, a.c) { GoroutineStepKeepsInv(s, a, a.c); }
  }

  lemma {:induction false} RunKeepsInv(run: seq<Action>)
    ensures Inv(After(run))
    decreases |run|
  {
    if run != [] {
      RunKeepsInv(run[..|run| - 1]);
      StepKeepsInv(After(run[..|run| - 1]), run[|run| - 1]);
    }
  }

  // ---- what it means ----

  /**
   * In every reachable state a live room is stored under its own name, its clients have it as their room, and so no
   * client is in two live rooms, even when rooms are deleted and created again between a lookup and an `addClient`.
   */
  lemma ClientsAreWhereTheySay(run: seq<Action>)
    ensures var s := After(run);
            && (forall name :: name in s.live ==> s.live[name] < |s.rooms| && s.rooms[s.live[name]].name == name)
            && (forall c: nat, name :: LiveIn(s, c, name) ==> c < |s.clients| && s.clients[c].room == name)
            && (forall c: nat, m, n :: LiveIn(s, c, m) && LiveIn(s, c, n) ==> m == n)
  {
    RunKeepsInv(run);
  }

  lemma StepKeepsUnregistered(s: State, a: Action)
    ensures s.unregistered <= Step(s, a).unregistered
  {
  }

  lemma {:induction false} UnregisteredStays(run: seq<Action>, more: seq<Action>)
    ensures After(run).unregistered <= After(run + more).unregistered
    decreases |more|
  {
    if more == [] {
      assert run + more == run;
    } else {
      var fewer := more[..|more| - 1];
      UnregisteredStays(run, fewer);
      assert run + more == run + fewer + [more[|more| - 1]];
      AfterSnoc(run + fewer, more[|more| - 1]);
      StepKeepsUnregistered(After(run + fewer), more[|more| - 1]);
    }
  }

  /** A client the hub has unregistered is in no live room, then and after any further run. */
  lemma UnregisteredIsGone(run: seq<Action>, more: seq<Action>, c: nat)
    requires c in After(run).unregistered
    ensures Nowhere(After(run + more), c)
  {
    UnregisteredStays(run, more);
    RunKeepsInv(run + more);
  }

  /** A broadcaster removes only its own room: no live room is lost to another broadcaster. */
  lemma RemovalIsOfItsOwnRoom(run: seq<Action>, r: nat, name: string)
    requires name in After(run).live
    ensures name !in Step(After(run), RemoveRoom(r)).live ==> After(run).live[name] == r
  {
    RunKeepsInv(run);
    var s := After(run);
    if r < |s.rooms| && s.rooms[r].broadcaster.SawNoClients? && name == s.rooms[r].name {
      assert s.live[name] == r;
    }
  }

  /**
   * So removing a room strands exactly the clients that are in it at that moment, and none if and only if it is still
   * as empty as the idle check saw it.
   */
  lemma RemovalStrandsItsMembers(run: seq<Action>, r: nat, c: nat)
    requires var s := After(run); r < |s.rooms| && s.rooms[r].broadcaster.SawNoClients? && c < |s.clients|
    ensures var s := After(run); var name := s.clients[c].room;
            LiveIn(s, c, name) && !LiveIn(Step(s, RemoveRoom(r)), c, name) <==> c in s.rooms[r].clients
  {
    RunKeepsInv(run);
    var s := After(run);
    var t := Step(s, RemoveRoom(r));
    assert s.live[s.rooms[r].name] == r;
    assert c in s.rooms[r].clients ==> LiveIn(s, c, s.rooms[r].name);
    assert t.live == s.live - {s.rooms[r].name};
  }

  /** A newcomer that asks for a room, which is created for it. */
  function Asking(name: string): (run: seq<Action>) {
    [Connect, Register(0), StartJoin(0, name), BuildRoom(0)]
  }

  /** It finds the room and is allowed in; meanwhile the broadcaster sees no clients. */
  function Racing(name: string): (run: seq<Action>) {
    [LookupRooms(0, true), RemoveFromOld(0), Decide(0, true), IdleCheck(0)]
  }

  const NEWCOMER: Client := Client(Connecting, "", false, 0, [], 0)

  lemma AfterAsking(name: string)
    requires name != ""
    ensures After(Asking(name)) == Midway(name, Subscribing(name), Broadcasting)
  {
    AfterTwo([], Connect, Register(0));
    var run2 := [Connect, Register(0)];
    assert [] + run2 == run2;
    assert After(run2) == Start().(clients := [NEWCOMER.(pc := Reading)], registers := 1);
    AfterTwo(run2, StartJoin(0, name), BuildRoom(0));
    assert run2 + [StartJoin(0, name), BuildRoom(0)] == Asking(name);
  }

  /** The newcomer at a later point, the room not yet removed. */
  function Midway(name: string, pc: Pc, broadcaster: BroadcasterPc): (s: State) {
    Start().(clients := [NEWCOMER.(pc := pc)], registers := 1, rooms := [Room(name, map[], 0, broadcaster)], live := map[name := 0])
  }

  lemma RaceLookup(name: string)
    requires name != ""
    ensures Step(Step(Midway(name, Subscribing(name), Broadcasting), LookupRooms(0, true)), RemoveFromOld(0))
            == Midway(name, Deciding(Some(0), name), Broadcasting)
  {
    assert Step(Midway(name, Subscribing(name), Broadcasting), LookupRooms(0, true))
        == Midway(name, Switching(None, Some(0), name), Broadcasting);
  }

  lemma RaceIdleCheck(name: string)
    ensures Step(Step(Midway(name, Deciding(Some(0), name), Broadcasting), Decide(0, true)), IdleCheck(0))
            == Midway(name, Adding(0, name), SawNoClients)
  {
    assert Step(Midway(name, Deciding(Some(0), name), Broadcasting), Decide(0, true)) == Midway(name, Adding(0, name), Broadcasting);
  }

  lemma AfterRacing(name: string)
    requires name != ""
    ensures After(Asking(name) + Racing(name)) == Midway(name, Adding(0, name), SawNoClients)
  {
    AfterAsking(name);
    RaceLookup(name);
    RaceIdleCheck(name);
    AfterTwo(Asking(name), LookupRooms(0, true), RemoveFromOld(0));
    AfterTwo(Asking(name) + [LookupRooms(0, true), RemoveFromOld(0)], Decide(0, true), IdleCheck(0));
    assert Asking(name) + [LookupRooms(0, true), RemoveFromOld(0)] + [Decide(0, true), IdleCheck(0)] == Asking(name) + Racing(name);
  }

  lemma JoinsAndIsRemoved(name: string)
    ensures var t := Step(Step(Midway(name, Adding(0, name), SawNoClients), AddToRoom(0)), RemoveRoom(0));
            && |t.clients| == 1 && t.clients[0].room == name && t.clients[0].pc == Confirming
            && |t.rooms| == 1 && 0 in t.rooms[0].clients && t.rooms[0].broadcaster == Exited
            && t.live == map[]
  {
    var s := Midway(name, Adding(0, name), SawNoClients);
    assert Step(s, AddToRoom(0)) == AfterAdd(s, 0, 0, name);
  }

  /**
   * The idle check and the removal are two lock regions. A client that joins between them keeps the room's name and a
   * place in the room object, but the room is no longer live.
   */
  lemma JoinBetweenIdleCheckAndRemoval(name: string)
    requires name != ""
    ensures var s := After(Asking(name) + Racing(name) + [AddToRoom(0), RemoveRoom(0)]);
            && |s.clients| == 1 && s.clients[0].room == name && s.clients[0].pc == Confirming
            && |s.rooms| == 1 && 0 in s.rooms[0].clients && s.rooms[0].broadcaster == Exited
            && s.live == map[]
  {
    hide Step;
    AfterRacing(name);
    AfterTwo(Asking(name) + Racing(name), AddToRoom(0), RemoveRoom(0));
    JoinsAndIsRemoved(name);
  }
}
