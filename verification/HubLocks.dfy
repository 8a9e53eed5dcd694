/**
 * The hub with `RemoveClients` taken one statement at a time (internal/modules/websocket/application/broadcasting.go:236-253):
 * a removal holds its room's lock from the first statement to the last, while everybody else goes on. The snapshot of a
 * flush, the idle check, `addClient` and other removals wait for the lock; sends, reads of the hub's map and the
 * goroutines of other rooms do not. A second close of a channel panics, and so does the close of a nil one.
 */
module HubLocks {
  import opened Common
  import H = HubProtocol
  import P = HubPlacement
  import R = HubRemoval
  import C = HubCounting

  /** Between two clients of the list, or past the `delete`, past the test `done != nil`, past the close of one. */
  datatype Stage = NextOne | Deleted(c: nat) | Tested(c: nat) | ClosedIt(c: nat)

  /** A removal under way: whose it is, its list, and what of the list is left. */
  datatype Region = Region(who: R.Remover, all: set<nat>, left: set<nat>, stage: Stage)

  /** The hub's memory as it is, and the room locks held by removals. */
  datatype State = State(hub: H.State, locks: map<nat, Region>, panicked: bool)

  datatype Action =
    | Atomic(a: H.Action)
    | Lock(who: R.Remover)
    | Delete(r: nat, c: nat)
    | Test(r: nat)
    | Close(r: nat)
    | Clear(r: nat)
    | Unlock(r: nat)

  /** A step of the hub that removes nobody and takes no lock that is held. */
  predicate Allowed(h: H.State, locks: map<nat, Region>, a: H.Action) {
    match a
    case AddToRoom(c) => H.At(h, c) && h.clients[c].pc.Adding? ==> h.clients[c].pc.target !in locks
    case TakeSnapshot(r) => r !in locks
    case IdleCheck(r) => r !in locks
    case RemoveFromOld(c) => !R.Removes(h, R.BySwitch(c))
    case Evict(k) => !R.Removes(h, R.ByEviction(k))
    case HubRemove => !R.Removes(h, R.ByHub)
    case _ => true
  }

  /** What the goroutine goes on with after its `RemoveClients`. */
  function Finish(h: H.State, who: R.Remover): (t: H.State)
    requires R.Removes(h, who)
  {
    match who
    case BySwitch(c) => H.Moved(h, c, H.Deciding(h.clients[c].pc.newRoom, h.clients[c].pc.name))
    case ByEviction(k) => h.(evictions := h.evictions[k := H.Eviction(h.evictions[k].room, {})])
    case ByHub =>
      h.(hub := H.HubIdle, totalClients := h.totalClients - 1, unregistered := h.unregistered + {h.hub.client})
  }

  function WithClient(h: H.State, c: nat, client: H.Client): (t: H.State)
    requires H.At(h, c)
  {
    h.(clients := h.clients[c := client])
  }

  function WithStage(f: State, r: nat, stage: Stage): (g: State)
    requires r in f.locks
  {
    f.(locks := f.locks[r := f.locks[r].(stage := stage)])
  }

  function Step(f: State, action: Action): (g: State) {
    match action
    case Atomic(a) => if Allowed(f.hub, f.locks, a) then f.(hub := H.Step(f.hub, a)) else f
    case Lock(who) =>
      if !R.Removes(f.hub, who) || R.RoomOf(f.hub, who) in f.locks then f
      else f.(locks := f.locks[R.RoomOf(f.hub, who) := Region(who, R.ClientsOf(f.hub, who), R.ClientsOf(f.hub, who), NextOne)])
    case Delete(r, c) =>
      if r !in f.locks || f.locks[r].stage != NextOne || c !in f.locks[r].left || r >= |f.hub.rooms| then f
      else
        State(f.hub.(rooms := f.hub.rooms[r := f.hub.rooms[r].(clients := f.hub.rooms[r].clients - {c})]),
              f.locks[r := f.locks[r].(left := f.locks[r].left - {c}, stage := Deleted(c))], f.panicked)
    case Test(r) =>
      if r !in f.locks || !f.locks[r].stage.Deleted? || !H.At(f.hub, f.locks[r].stage.c) then f
      else WithStage(f, r, if f.hub.clients[f.locks[r].stage.c].doneClosed then NextOne else Tested(f.locks[r].stage.c))
    case Close(r) =>
      if r !in f.locks || !f.locks[r].stage.Tested? || !H.At(f.hub, f.locks[r].stage.c) then f
      else
        var c := f.locks[r].stage.c;
        var client := f.hub.clients[c];
        if client.doneClosed || client.closes > 0 then f.(panicked := true)
        else WithStage(f.(hub := WithClient(f.hub, c, client.(closes := client.closes + 1))), r, ClosedIt(c))
    case Clear(r) =>
      if r !in f.locks || !f.locks[r].stage.ClosedIt? || !H.At(f.hub, f.locks[r].stage.c) then f
      else
        var c := f.locks[r].stage.c;
        WithStage(f.(hub := WithClient(f.hub, c, f.hub.clients[c].(doneClosed := true))), r, NextOne)
    case Unlock(r) =>
      if r !in f.locks || f.locks[r].stage != NextOne || f.locks[r].left != {} || !R.Removes(f.hub, f.locks[r].who) then f
      else f.(hub := Finish(f.hub, f.locks[r].who), locks := f.locks - {r})
  }

  function After(actions: seq<Action>): (f: State) {
    if actions == [] then State(H.Start(), map[], false) else Step(After(actions[..|actions| - 1]), actions[|actions| - 1])
  }

  // ---- the memory in the middle of removals ----

  function Current(stage: Stage): (clients: set<nat>) {
    if stage.NextOne? then {} else {stage.c}
  }

  /** Taken from the list and done with. */
  function Handled(region: Region): (clients: set<nat>) {
    region.all - region.left - Current(region.stage)
  }

  ghost predicate HandledSomewhere(locks: map<nat, Region>, c: nat) {
    exists r :: r in locks && c in Handled(locks[r])
  }

  ghost predicate HalfClosed(locks: map<nat, Region>, c: nat) {
    exists r :: r in locks && locks[r].stage == ClosedIt(c)
  }

  ghost function ShownClient(client: H.Client, locks: map<nat, Region>, c: nat): (shown: H.Client) {
    if HalfClosed(locks, c) then client.(closes := client.closes + 1)
    else if HandledSomewhere(locks, c) then H.Closed(client)
    else client
  }

  function ShownRoom(room: H.Room, locks: map<nat, Region>, r: nat): (shown: H.Room) {
    if r in locks then room.(clients := room.clients - (locks[r].all - locks[r].left)) else room
  }

  /** The hub `s`, none of whose open removals has happened, as the removals have left its memory so far. */
  ghost function Overlay(s: H.State, locks: map<nat, Region>): (h: H.State)
    ensures |h.rooms| == |s.rooms| && |h.clients| == |s.clients|
    ensures forall r {:trigger h.rooms[r]} :: 0 <= r < |s.rooms| ==> h.rooms[r] == ShownRoom(s.rooms[r], locks, r)
    ensures forall c {:trigger h.clients[c]} :: 0 <= c < |s.clients| ==> h.clients[c] == ShownClient(s.clients[c], locks, c)
    ensures h == s.(rooms := h.rooms, clients := h.clients)
  {
    s.(rooms := seq(|s.rooms|, r requires 0 <= r < |s.rooms| => ShownRoom(s.rooms[r], locks, r)),
       clients := seq(|s.clients|, c requires 0 <= c < |s.clients| => ShownClient(s.clients[c], locks, c)))
  }

  /** The removal is pending in `s`, with this list; a channel it has found open is open in `s`. */
  predicate RegionOk(s: H.State, r: nat, region: Region) {
    && R.Removes(s, region.who) && R.RoomOf(s, region.who) == r && R.ClientsOf(s, region.who) == region.all
    && region.left <= region.all
    && (forall c :: c in region.all ==> H.At(s, c))
    && (region.stage != NextOne ==> region.stage.c in region.all && region.stage.c !in region.left)
    && (region.stage.Tested? || region.stage.ClosedIt? ==> R.Open(s, region.stage.c))
  }

  ghost predicate LocksOk(s: H.State, locks: map<nat, Region>) {
    forall r :: r in locks ==> RegionOk(s, r, locks[r])
  }

  ghost predicate HubOk(s: H.State) {
    P.Inv(s) && R.Inv(s) && C.Inv(s)
  }

  lemma NoLocksNoOverlay(s: H.State)
    ensures Overlay(s, map[]) == s
  {
  }

  /** While a client's channel is open in `s`, one removal at most has it on its list. */
  lemma OneRegion(s: H.State, locks: map<nat, Region>, c: nat, q: nat, r: nat)
    requires HubOk(s) && LocksOk(s, locks) && R.Open(s, c)
    requires q in locks && r in locks && c in locks[q].all && c in locks[r].all
    ensures q == r
  {
    R.OneRoomAtATime(s, c, locks[q].who, locks[r].who);
  }

  // ---- the other goroutines' steps, seen through the overlay ----

  lemma SameRemovers(s: H.State, locks: map<nat, Region>, who: R.Remover)
    ensures R.Removes(Overlay(s, locks), who) <==> R.Removes(s, who)
    ensures R.Removes(s, who) ==>
              && R.RoomOf(Overlay(s, locks), who) == R.RoomOf(s, who)
              && R.ClientsOf(Overlay(s, locks), who) == R.ClientsOf(s, who)
  {
    var h := Overlay(s, locks);
    if who.BySwitch? && H.At(s, who.c) {
      assert h.clients[who.c].pc == s.clients[who.c].pc;
    }
  }

  /** Changing what a client is besides its `done` channel. */
  function Changed(client: H.Client, pc: H.Pc, outbox: seq<H.Item>, written: nat): (r: H.Client) {
    client.(pc := pc, outbox := outbox, written := written)
  }

  function WithChanged(
    h: H.State, c: nat, pc: H.Pc, outbox: seq<H.Item>, written: nat, registers: nat, unregisters: seq<nat>): (t: H.State)
    requires H.At(h, c)
  {
    h.(clients := h.clients[c := Changed(h.clients[c], pc, outbox, written)], registers := registers, unregisters := unregisters)
  }

  lemma ChangeCommutes(
    s: H.State, locks: map<nat, Region>, c: nat, pc: H.Pc, outbox: seq<H.Item>, written: nat, registers: nat, unregisters: seq<nat>)
    requires H.At(s, c)
    ensures Overlay(WithChanged(s, c, pc, outbox, written, registers, unregisters), locks)
            == WithChanged(Overlay(s, locks), c, pc, outbox, written, registers, unregisters)
  {
    hide HalfClosed, HandledSomewhere;
    var t, u := WithChanged(s, c, pc, outbox, written, registers, unregisters),
                WithChanged(Overlay(s, locks), c, pc, outbox, written, registers, unregisters);
    assert Overlay(t, locks).clients == u.clients;
    assert Overlay(t, locks).rooms == u.rooms;
  }

  /** A step of one connection goroutine that touches no room, and the pump that empties its channel. */
  predicate OwnStep(a: H.Action) {
    a.Register? || a.StartJoin? || a.Decide? || a.Confirm? || a.StopReading? || a.Unregister? || a.WriteOne?
  }

  /** Such a step looks at its client and the queues only, not at `done`. */
  lemma OwnStepIsAChange(h: H.State, a: H.Action)
    requires OwnStep(a)
    ensures var t := H.Step(h, a);
            t == h || (H.At(h, a.c) && H.At(t, a.c)
                       && t == WithChanged(h, a.c, t.clients[a.c].pc, t.clients[a.c].outbox, t.clients[a.c].written, t.registers, t.unregisters))
  {
  }

  /** The same but for the `done` channel of the client. */
  predicate Alike(h: H.State, s: H.State, c: nat) {
    && |h.clients| == |s.clients| && h.registers == s.registers && h.unregisters == s.unregisters
    && (H.At(s, c) ==> var x, y := h.clients[c], s.clients[c]; x == y.(doneClosed := x.doneClosed, closes := x.closes))
  }

  lemma QueueStepDepends(h: H.State, s: H.State, a: H.Action)
    requires (a.Register? || a.Unregister? || a.Confirm? || a.WriteOne?) && Alike(h, s, a.c)
    ensures Alike(H.Step(h, a), H.Step(s, a), a.c) && (H.Step(h, a) == h <==> H.Step(s, a) == s)
  {
  }

  lemma PcStepDepends(h: H.State, s: H.State, a: H.Action)
    requires (a.StartJoin? || a.Decide? || a.StopReading?) && Alike(h, s, a.c)
    ensures Alike(H.Step(h, a), H.Step(s, a), a.c) && (H.Step(h, a) == h <==> H.Step(s, a) == s)
  {
  }

  lemma OwnStepDepends(h: H.State, s: H.State, a: H.Action)
    requires OwnStep(a) && Alike(h, s, a.c)
    ensures Alike(H.Step(h, a), H.Step(s, a), a.c) && (H.Step(h, a) == h <==> H.Step(s, a) == s)
  {
    hide H.Step, Alike;
    if a.StartJoin? || a.Decide? || a.StopReading? { PcStepDepends(h, s, a); } else { QueueStepDepends(h, s, a); }
  }

  lemma SameChange(h: H.State, g: H.State, s: H.State, t: H.State, locks: map<nat, Region>, c: nat)
    requires h == Overlay(s, locks) && H.At(s, c) && H.At(h, c) && H.At(t, c) && H.At(g, c)
    requires var y := t.clients[c]; t == WithChanged(s, c, y.pc, y.outbox, y.written, t.registers, t.unregisters)
    requires var x := g.clients[c]; g == WithChanged(h, c, x.pc, x.outbox, x.written, g.registers, g.unregisters)
    requires Alike(g, t, c)
    ensures g == Overlay(t, locks)
  {
    hide Overlay, WithChanged;
    var y := t.clients[c];
    ChangeCommutes(s, locks, c, y.pc, y.outbox, y.written, t.registers, t.unregisters);
  }

  lemma AlikeOverlay(s: H.State, locks: map<nat, Region>, c: nat)
    ensures Alike(Overlay(s, locks), s, c)
  {
  }

  lemma OwnStepCommutes(s: H.State, locks: map<nat, Region>, a: H.Action)
    requires OwnStep(a)
    ensures H.Step(Overlay(s, locks), a) == Overlay(H.Step(s, a), locks)
  {
    hide H.Step, Overlay, WithChanged, Alike;
    var h, t := Overlay(s, locks), H.Step(s, a);
    AlikeOverlay(s, locks, a.c);
    OwnStepDepends(h, s, a);
    if t != s {
      OwnStepIsAChange(h, a);
      OwnStepIsAChange(s, a);
      SameChange(h, H.Step(h, a), s, t, locks, a.c);
    }
  }

  /** A room added, and one client sent on its way. */
  lemma CreatedCommutes(s: H.State, locks: map<nat, Region>, name: string, broadcaster: H.BroadcasterPc)
    requires LocksOk(s, locks)
    ensures Overlay(H.Created(s, name, broadcaster), locks) == H.Created(Overlay(s, locks), name, broadcaster)
  {
    hide HalfClosed, HandledSomewhere;
    var t := H.Created(s, name, broadcaster);
    assert |s.rooms| !in locks;
    assert Overlay(t, locks).rooms == H.Created(Overlay(s, locks), name, broadcaster).rooms;
    assert Overlay(t, locks).clients == Overlay(s, locks).clients;
  }

  lemma MovedCommutes(s: H.State, locks: map<nat, Region>, c: nat, pc: H.Pc)
    requires H.At(s, c)
    ensures Overlay(H.Moved(s, c, pc), locks) == H.Moved(Overlay(s, locks), c, pc)
  {
    hide Overlay;
    var client := s.clients[c];
    ChangeCommutes(s, locks, c, pc, client.outbox, client.written, s.registers, s.unregisters);
    AlikeOverlay(s, locks, c);
  }

  lemma BuildCommutes(s: H.State, locks: map<nat, Region>, c: nat)
    requires LocksOk(s, locks)
    ensures H.Step(Overlay(s, locks), H.BuildRoom(c)) == Overlay(H.Step(s, H.BuildRoom(c)), locks)
  {
    hide Overlay, H.Created, LocksOk;
    AlikeOverlay(s, locks, c);
    if H.At(s, c) && s.clients[c].pc.Building? {
      var name := s.clients[c].pc.name;
      OverlayKeepsFields(s, locks);
      CreatedCommutes(s, locks, name, H.Broadcasting);
      CreatedSize(s, name, H.Broadcasting);
      MovedCommutes(if name in s.live then s else H.Created(s, name, H.Broadcasting), locks, c, H.Subscribing(name));
    }
  }

  lemma CreatedSize(s: H.State, name: string, broadcaster: H.BroadcasterPc)
    ensures |H.Created(s, name, broadcaster).clients| == |s.clients|
  {
  }

  lemma OverlayKeepsFields(s: H.State, locks: map<nat, Region>)
    ensures var h := Overlay(s, locks);
            h.live == s.live && h.evictions == s.evictions && h.hub == s.hub && |h.rooms| == |s.rooms| && |h.clients| == |s.clients|
  {
  }

  lemma LookupCommutes(s: H.State, locks: map<nat, Region>, c: nat, nameValid: bool)
    requires LocksOk(s, locks)
    ensures H.Step(Overlay(s, locks), H.LookupRooms(c, nameValid)) == Overlay(H.Step(s, H.LookupRooms(c, nameValid)), locks)
  {
    hide Overlay, H.Created, LocksOk;
    AlikeOverlay(s, locks, c);
    if H.At(s, c) && s.clients[c].pc.Subscribing? {
      var name := s.clients[c].pc.name;
      OverlayKeepsFields(s, locks);
      CreatedCommutes(s, locks, name, H.NoBroadcaster);
      CreatedSize(s, name, H.NoBroadcaster);
      var oldRoom := if s.clients[c].room != "" then H.Found(s, s.clients[c].room) else None;
      MovedCommutes(s, locks, c, H.Reading);
      MovedCommutes(if name in s.live then s else H.Created(s, name, H.NoBroadcaster), locks, c,
                    H.Switching(oldRoom, H.Found(s, name), name));
    }
  }

  lemma ConnectCommutes(s: H.State, locks: map<nat, Region>)
    requires LocksOk(s, locks)
    ensures H.Step(Overlay(s, locks), H.Connect) == Overlay(H.Step(s, H.Connect), locks)
  {
    var t := H.Step(s, H.Connect);
    assert forall r :: r in locks ==> RegionOk(s, r, locks[r]);
    assert Overlay(t, locks).clients == H.Step(Overlay(s, locks), H.Connect).clients;
    assert Overlay(t, locks).rooms == Overlay(s, locks).rooms;
  }

  /** One room changed, whatever its clients, or the hub's own fields. */
  lemma RoomChanged(s: H.State, locks: map<nat, Region>, r: nat, room: H.Room, live: map<string, nat>, evictions: seq<H.Eviction>)
    requires r < |s.rooms|
    ensures Overlay(s.(rooms := s.rooms[r := room], live := live, evictions := evictions), locks)
            == Overlay(s, locks).(rooms := Overlay(s, locks).rooms[r := ShownRoom(room, locks, r)], live := live, evictions := evictions)
  {
    hide HalfClosed, HandledSomewhere, ShownRoom;
    var t := s.(rooms := s.rooms[r := room], live := live, evictions := evictions);
    assert Overlay(t, locks).rooms == Overlay(s, locks).rooms[r := ShownRoom(room, locks, r)];
    assert Overlay(t, locks).clients == Overlay(s, locks).clients;
  }

  lemma ShownAt(s: H.State, locks: map<nat, Region>, r: nat)
    requires r < |s.rooms|
    ensures r < |Overlay(s, locks).rooms| && Overlay(s, locks).rooms[r] == ShownRoom(s.rooms[r], locks, r)
  {
  }

  lemma RemoveRoomCommutes(s: H.State, locks: map<nat, Region>, r: nat)
    ensures H.Step(Overlay(s, locks), H.RemoveRoom(r)) == Overlay(H.Step(s, H.RemoveRoom(r)), locks)
  {
    hide Overlay;
    OverlayKeepsFields(s, locks);
    if r < |s.rooms| {
      ShownAt(s, locks, r);
      RoomChanged(s, locks, r, s.rooms[r].(broadcaster := H.Exited), s.live - {s.rooms[r].name}, s.evictions);
    }
  }

  /** The steps that need the room's lock find its clients as they are. */
  lemma LockedStepCommutes(s: H.State, locks: map<nat, Region>, a: H.Action)
    requires (a.TakeSnapshot? || a.IdleCheck?) && a.r !in locks
    ensures H.Step(Overlay(s, locks), a) == Overlay(H.Step(s, a), locks)
  {
    hide Overlay;
    OverlayKeepsFields(s, locks);
    if a.r < |s.rooms| {
      var room := s.rooms[a.r];
      ShownAt(s, locks, a.r);
      RoomChanged(s, locks, a.r, room.(broadcaster := H.SawNoClients), s.live, s.evictions);
      RoomChanged(s, locks, a.r, room.(flushes := room.flushes + 1, broadcaster := H.Sending(room.flushes, room.clients.Keys, {})),
                  s.live, s.evictions);
    }
  }

  lemma FlushEndCommutes(s: H.State, locks: map<nat, Region>, r: nat)
    ensures H.Step(Overlay(s, locks), H.EndFlush(r)) == Overlay(H.Step(s, H.EndFlush(r)), locks)
  {
    hide Overlay;
    OverlayKeepsFields(s, locks);
    if r < |s.rooms| && s.rooms[r].broadcaster.Sending? {
      ShownAt(s, locks, r);
      RoomChanged(s, locks, r, s.rooms[r].(broadcaster := H.Broadcasting), s.live, H.AfterFlushEnd(s, r).evictions);
    }
  }

  /** A send takes no lock: it goes to a client of the snapshot, be it removed meanwhile or not. */
  lemma SendCommutes(s: H.State, locks: map<nat, Region>, r: nat, c: nat)
    ensures H.Step(Overlay(s, locks), H.SendNext(r, c)) == Overlay(H.Step(s, H.SendNext(r, c)), locks)
  {
    hide Overlay;
    OverlayKeepsFields(s, locks);
    AlikeOverlay(s, locks, c);
    if r < |s.rooms| && H.At(s, c) && s.rooms[r].broadcaster.Sending? {
      var b, client := s.rooms[r].broadcaster, s.clients[c];
      ShownAt(s, locks, r);
      var slow := if H.HasSpace(client) then b.slow else b.slow + {c};
      var t := s.(rooms := s.rooms[r := s.rooms[r].(broadcaster := b.(left := b.left - {c}, slow := slow))]);
      RoomChanged(s, locks, r, s.rooms[r].(broadcaster := b.(left := b.left - {c}, slow := slow)), s.live, s.evictions);
      ChangeCommutes(t, locks, c, client.pc, client.outbox + [H.FlushItem(r, b.index)], client.written, s.registers, s.unregisters);
    }
  }

  lemma AddCommutes(s: H.State, locks: map<nat, Region>, c: nat)
    requires Allowed(Overlay(s, locks), locks, H.AddToRoom(c))
    ensures H.Step(Overlay(s, locks), H.AddToRoom(c)) == Overlay(H.Step(s, H.AddToRoom(c)), locks)
  {
    hide Overlay;
    OverlayKeepsFields(s, locks);
    AlikeOverlay(s, locks, c);
    if H.At(s, c) && s.clients[c].pc.Adding? && s.clients[c].pc.target < |s.rooms| {
      var r, name, client := s.clients[c].pc.target, s.clients[c].pc.name, s.clients[c];
      ShownAt(s, locks, r);
      var room := H.AfterAdd(s, c, r, name).rooms[r];
      RoomChanged(s, locks, r, room, s.live, s.evictions);
      NamedCommutes(s.(rooms := s.rooms[r := room]), locks, c, name);
    }
  }

  lemma NamedCommutes(s: H.State, locks: map<nat, Region>, c: nat, name: string)
    requires H.At(s, c)
    ensures Overlay(s.(clients := s.clients[c := s.clients[c].(room := name, pc := H.Confirming)]), locks)
            == var h := Overlay(s, locks); h.(clients := h.clients[c := h.clients[c].(room := name, pc := H.Confirming)])
  {
    hide HalfClosed, HandledSomewhere;
    var h := Overlay(s, locks);
    var t := s.(clients := s.clients[c := s.clients[c].(room := name, pc := H.Confirming)]);
    assert Overlay(t, locks).clients == h.clients[c := h.clients[c].(room := name, pc := H.Confirming)];
    assert Overlay(t, locks).rooms == h.rooms;
  }

  lemma HubQueueStepCommutes(s: H.State, locks: map<nat, Region>, a: H.Action)
    requires a.HubRegister? || a.HubLookup?
    ensures H.Step(Overlay(s, locks), a) == Overlay(H.Step(s, a), locks)
  {
    hide HalfClosed, HandledSomewhere;
    var h, t := Overlay(s, locks), H.Step(s, a);
    assert Overlay(t, locks).clients == h.clients && Overlay(t, locks).rooms == h.rooms;
  }

  /** A goroutine with nobody to remove, or no room to remove it from, takes no lock. */
  lemma NobodyEvicted(h: H.State, k: nat)
    requires !R.Removes(h, R.ByEviction(k))
    ensures H.Step(h, H.Evict(k)) == h
  {
    hide H.Step, H.RemoveClients;
    EvictStep(h, k);
    if k < |h.evictions| && h.evictions[k].room < |h.rooms| {
      RemovingNobody(h, h.evictions[k].room);
      assert h.evictions[k := H.Eviction(h.evictions[k].room, {})] == h.evictions;
    }
  }

  lemma EvictStep(h: H.State, k: nat)
    ensures H.Step(h, H.Evict(k)) == H.AfterEvict(h, k)
  {
  }

  lemma RemovingNobody(h: H.State, r: nat)
    requires r < |h.rooms|
    ensures H.RemoveClients(h, r, {}) == h
  {
    assert h.rooms[r].clients - {} == h.rooms[r].clients;
    assert H.ClosedAll(h.clients, {}) == h.clients;
  }

  lemma EvictWithoutClientsCommutes(s: H.State, locks: map<nat, Region>, k: nat)
    requires Allowed(Overlay(s, locks), locks, H.Evict(k))
    ensures H.Step(Overlay(s, locks), H.Evict(k)) == Overlay(H.Step(s, H.Evict(k)), locks)
  {
    hide H.Step, Overlay, R.Removes;
    SameRemovers(s, locks, R.ByEviction(k));
    NobodyEvicted(s, k);
    NobodyEvicted(Overlay(s, locks), k);
  }

  lemma SwitchWithoutRoomCommutes(s: H.State, locks: map<nat, Region>, c: nat)
    requires Allowed(Overlay(s, locks), locks, H.RemoveFromOld(c))
    ensures H.Step(Overlay(s, locks), H.RemoveFromOld(c)) == Overlay(H.Step(s, H.RemoveFromOld(c)), locks)
  {
    hide Overlay;
    SameRemovers(s, locks, R.BySwitch(c));
    OverlayKeepsFields(s, locks);
    AlikeOverlay(s, locks, c);
    if H.At(s, c) && s.clients[c].pc.Switching? {
      MovedCommutes(s, locks, c, H.Deciding(s.clients[c].pc.newRoom, s.clients[c].pc.name));
    }
  }

  lemma HubWithoutRoomCommutes(s: H.State, locks: map<nat, Region>)
    requires Allowed(Overlay(s, locks), locks, H.HubRemove)
    ensures H.Step(Overlay(s, locks), H.HubRemove) == Overlay(H.Step(s, H.HubRemove), locks)
  {
    hide HalfClosed, HandledSomewhere;
    SameRemovers(s, locks, R.ByHub);
    var h, t := Overlay(s, locks), H.Step(s, H.HubRemove);
    assert Overlay(t, locks).clients == h.clients && Overlay(t, locks).rooms == h.rooms;
  }

  lemma AtomicCommutes(s: H.State, locks: map<nat, Region>, a: H.Action)
    requires LocksOk(s, locks) && Allowed(Overlay(s, locks), locks, a)
    ensures H.Step(Overlay(s, locks), a) == Overlay(H.Step(s, a), locks)
  {
    hide H.Step, Overlay;
    if OwnStep(a) { OwnStepCommutes(s, locks, a); }
    else {
      match a
      case Connect => ConnectCommutes(s, locks);
      case BuildRoom(c) => BuildCommutes(s, locks, c);
      case LookupRooms(c, nameValid) => LookupCommutes(s, locks, c, nameValid);
      case AddToRoom(c) => AddCommutes(s, locks, c);
      case SendNext(r, c) => SendCommutes(s, locks, r, c);
      case EndFlush(r) => FlushEndCommutes(s, locks, r);
      case RemoveRoom(r) => RemoveRoomCommutes(s, locks, r);
      case RemoveFromOld(c) => SwitchWithoutRoomCommutes(s, locks, c);
      case Evict(k) => EvictWithoutClientsCommutes(s, locks, k);
      case HubRemove => HubWithoutRoomCommutes(s, locks);
      case HubRegister => HubQueueStepCommutes(s, locks, a);
      case HubLookup => HubQueueStepCommutes(s, locks, a);
      case TakeSnapshot(_) => LockedStepCommutes(s, locks, a);
      case IdleCheck(_) => LockedStepCommutes(s, locks, a);
    }
  }

  /** No such step changes what a removal under way is about, or closes a channel. */
  ghost predicate Undisturbed(s: H.State, t: H.State) {
    && |s.rooms| <= |t.rooms| && |s.clients| <= |t.clients| && t.hub == s.hub && t.evictions == s.evictions
    && forall c :: 0 <= c < |s.clients| ==>
         t.clients[c].doneClosed == s.clients[c].doneClosed && (s.clients[c].pc.Switching? ==> t.clients[c].pc == s.clients[c].pc)
  }

  lemma UndisturbedKeepsRegion(s: H.State, t: H.State, r: nat, region: Region)
    requires RegionOk(s, r, region) && Undisturbed(s, t)
    ensures RegionOk(t, r, region)
  {
  }

  lemma OwnStepKeepsRegion(s: H.State, a: H.Action, r: nat, region: Region)
    requires RegionOk(s, r, region) && OwnStep(a)
    ensures RegionOk(H.Step(s, a), r, region)
  {
    hide H.Step, RegionOk;
    OwnStepIsUndisturbed(s, a);
    UndisturbedKeepsRegion(s, H.Step(s, a), r, region);
  }

  lemma OwnStepIsUndisturbed(s: H.State, a: H.Action)
    requires OwnStep(a)
    ensures Undisturbed(s, H.Step(s, a))
  {
  }

  lemma RoomMapStepIsUndisturbed(s: H.State, a: H.Action)
    requires a.BuildRoom? || a.LookupRooms? || a.AddToRoom? || a.Connect?
    ensures Undisturbed(s, H.Step(s, a))
  {
  }

  lemma BroadcasterStepKeepsRegion(s: H.State, a: H.Action, r: nat, region: Region)
    requires RegionOk(s, r, region) && (H.Flushing(a) || a.IdleCheck? || a.RemoveRoom?)
    ensures RegionOk(H.Step(s, a), r, region)
  {
  }

  lemma RoomMapStepKeepsRegion(s: H.State, a: H.Action, r: nat, region: Region)
    requires RegionOk(s, r, region) && (a.BuildRoom? || a.LookupRooms? || a.AddToRoom? || a.Connect?)
    ensures RegionOk(H.Step(s, a), r, region)
  {
    hide H.Step, RegionOk;
    RoomMapStepIsUndisturbed(s, a);
    UndisturbedKeepsRegion(s, H.Step(s, a), r, region);
  }

  lemma RemoverStepKeepsRegion(s: H.State, locks: map<nat, Region>, a: H.Action, r: nat, region: Region)
    requires RegionOk(s, r, region) && Allowed(Overlay(s, locks), locks, a)
    requires a.RemoveFromOld? || a.HubRemove? || a.HubRegister? || a.HubLookup?
    ensures RegionOk(H.Step(s, a), r, region)
  {
    if a.RemoveFromOld? { SameRemovers(s, locks, R.BySwitch(a.c)); }
    if a.HubRemove? { SameRemovers(s, locks, R.ByHub); }
  }

  lemma AtomicKeepsLocks(s: H.State, locks: map<nat, Region>, a: H.Action)
    requires LocksOk(s, locks) && Allowed(Overlay(s, locks), locks, a)
    ensures LocksOk(H.Step(s, a), locks)
  {
    hide H.Step, Overlay, RegionOk;
    forall r | r in locks ensures RegionOk(H.Step(s, a), r, locks[r]) {
      if OwnStep(a) { OwnStepKeepsRegion(s, a, r, locks[r]); }
      else if a.Evict? {
        SameRemovers(s, locks, R.ByEviction(a.k));
        NobodyEvicted(s, a.k);
      }
      else if a.RemoveFromOld? || a.HubRemove? || a.HubRegister? || a.HubLookup? {
        RemoverStepKeepsRegion(s, locks, a, r, locks[r]);
      }
      else if H.Flushing(a) || a.IdleCheck? || a.RemoveRoom? { BroadcasterStepKeepsRegion(s, a, r, locks[r]); }
      else { RoomMapStepKeepsRegion(s, a, r, locks[r]); }
    }
  }
}
