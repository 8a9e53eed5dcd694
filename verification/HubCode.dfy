/**
 * The lock regions and loops of the hub as code over its mutable state, each proved to be the step of `HubProtocol`
 * that stands for it: hub.go:154-212, subscribe.go:34-119, broadcasting.go:12-22, 154-253.
 */
module HubCode {
  import opened Common
  import opened HubProtocol

  function Members(list: seq<nat>): (s: set<nat>) {
    set c | c in list
  }

  /** How a join ends: refused, done, with a panic, or waiting for room in the client's own channel. */
  datatype JoinOutcome = Refused | Joined | Panicked | Blocked

  class Hub {
    var live: map<string, nat>
    var rooms: seq<Room>
    var clients: seq<Client>
    var evictions: seq<Eviction>
    var registers: nat
    var unregisters: seq<nat>
    var unregistered: set<nat>
    var hub: HubPc
    var totalClients: int

    function View(): (s: State)
      reads this
    {
      State(live, rooms, clients, evictions, registers, unregisters, unregistered, hub, totalClients)
    }

    constructor ()
      ensures View() == Start()
    {
      live, rooms, clients, evictions := map[], [], [], [];
      registers, unregisters, unregistered, hub, totalClients := 0, [], {}, HubIdle, 0;
    }

    method GetOrCreateRoom(name: string) returns (r: nat)
      modifies this`rooms, this`live
      ensures View() == if name in old(live) then old(View()) else Created(old(View()), name, NoBroadcaster)
      ensures name in live && r == live[name]
    {
      if name in live {
        return live[name];
      }
      r := |rooms|;
      rooms := rooms + [Room(name, map[], 0, NoBroadcaster)];
      live := live[name := r];
    }

    /** Holds the hub lock, so the check and the creation are one step. */
    method BuildRoomBroadcaster(name: string)
      modifies this`rooms, this`live
      ensures View() == if name in old(live) then old(View()) else Created(old(View()), name, Broadcasting)
    {
      if name !in live {
        var r := GetOrCreateRoom(name);
        rooms := rooms[r := rooms[r].(broadcaster := Broadcasting)];
      }
    }

    /** `removeRoom`: deletes whatever is stored under the name. */
    method RemoveRoomNamed(name: string)
      modifies this`live
      ensures live == old(live) - {name}
    {
      if name in live {
        live := live - {name};
      }
    }

    /** `RemoveClients`: a client listed twice, or evicted before, has its `done` channel closed once. */
    method RemoveClientsFrom(r: nat, list: seq<nat>)
      requires r < |rooms| && forall k :: 0 <= k < |list| ==> list[k] < |clients|
      modifies this`rooms, this`clients
      ensures View() == RemoveClients(old(View()), r, Members(list))
    {
      hide ClosedAll;
      ghost var members, everyone := rooms[r].clients, clients;
      ClosedNobody(clients);
      assert Members(list[..0]) == {} && members - {} == members;
      assert rooms == rooms[r := rooms[r].(clients := members)];
      for i := 0 to |list|
        invariant rooms == old(rooms)[r := old(rooms)[r].(clients := members - Members(list[..i]))]
        invariant clients == ClosedAll(everyone, Members(list[..i]))
      {
        var c := list[i];
        ghost var gone := Members(list[..i]);
        ClosedOneMore(everyone, gone, c);
        MembersSnoc(list, i);
        assert members - gone - {c} == members - (gone + {c});
        rooms := rooms[r := rooms[r].(clients := rooms[r].clients - {c})];
        if !clients[c].doneClosed {
          clients := clients[c := clients[c].(doneClosed := true, closes := clients[c].closes + 1)];
        }
      }
      assert list[..|list|] == list;
    }

    method AddClient(r: nat, c: nat, name: string)
      requires r < |rooms| && c < |clients|
      modifies this`rooms, this`clients
      ensures View() == AfterAdd(old(View()), c, r, name)
      ensures EnteredRoom(old(rooms), rooms, c, r) && c < |clients| && clients[c].room == name
      ensures clients[c].outbox == old(clients)[c].outbox && clients[c].written == old(clients)[c].written
      ensures clients[c].doneClosed == old(clients)[c].doneClosed && clients[c].pc.Confirming?
    {
      if c !in rooms[r].clients {
        rooms := rooms[r := rooms[r].(clients := rooms[r].clients[c := Membership(NextFlush(rooms[r], c), |clients[c].outbox|)])];
      }
      clients := clients[c := clients[c].(room := name, pc := Confirming)];
    }

    /**
     * `broadcastBatchRequest` when nobody interferes: a snapshot of the members under the lock, one pass over it, and those
     * whose channel is full are handed to an eviction goroutine. A batch that cannot be serialised is dropped.
     */
    method BroadcastBatch(r: nat, marshals: bool)
      requires r < |rooms| && rooms[r].broadcaster.Broadcasting? && forall c :: c in rooms[r].clients ==> c < |clients|
      modifies this`rooms, this`clients, this`evictions
      ensures View() == if marshals then AfterFlush(old(View()), r) else old(View())
      ensures marshals ==> OnlyMembersWithSpaceGot(old(clients), clients, old(rooms)[r].clients.Keys, FlushItem(r, old(rooms)[r].flushes))
      ensures marshals ==> OnlyFullOnesAreEvicted(old(clients), old(evictions), evictions, old(rooms)[r].clients.Keys, r)
    {
      hide Step, Midflush, AfterFlush;
      if !marshals {
        return;
      }
      ghost var before := View();
      CopyMembers(r);
      NobodyServed(before, r);
      MidflushShape(before, r, before.rooms[r].clients.Keys);
      SendToSnapshot(before, r);
      MidflushShape(before, r, {});
      HandOverSlowOnes(r);
      EverybodyServed(before, r);
      FlushMeaning(before, r);
    }

    /** The snapshot, under the room's lock. */
    method CopyMembers(r: nat)
      requires r < |rooms| && rooms[r].broadcaster.Broadcasting?
      modifies this`rooms
      ensures View() == Step(old(View()), TakeSnapshot(r))
    {
      var room := rooms[r];
      rooms := rooms[r := room.(flushes := room.flushes + 1, broadcaster := Sending(room.flushes, room.clients.Keys, {}))];
    }

    /** The end of the flush: a goroutine for the slow clients, if there are any. */
    method HandOverSlowOnes(r: nat)
      requires r < |rooms| && rooms[r].broadcaster.Sending? && rooms[r].broadcaster.left == {}
      modifies this`rooms, this`evictions
      ensures View() == Step(old(View()), EndFlush(r))
    {
      var toRemove := rooms[r].broadcaster.slow;
      if |toRemove| > 0 {
        evictions := evictions + [Eviction(r, toRemove)];
      }
      rooms := rooms[r := rooms[r].(broadcaster := Broadcasting)];
    }

    /** The sends, in an arbitrary order; each is one step and either succeeds at once or marks its client. */
    method SendToSnapshot(ghost before: State, r: nat)
      requires r < |before.rooms| && View() == Midflush(before, r, before.rooms[r].clients.Keys)
      requires forall c :: c in before.rooms[r].clients ==> c < |clients|
      modifies this`rooms, this`clients
      ensures View() == Midflush(before, r, {})
    {
      hide Step, Midflush;
      MidflushShape(before, r, before.rooms[r].clients.Keys);
      var left := rooms[r].broadcaster.left;
      while left != {}
        invariant left <= before.rooms[r].clients.Keys && |clients| == |before.clients|
        invariant View() == Midflush(before, r, left)
        decreases |left|
      {
        ghost var someone := SomeMember(left);
        var c :| c in left;
        SendIsAStep(before, r, left, c);
        MidflushShape(before, r, left);
        SendOne(r, c);
        MidflushShape(before, r, left - {c});
        left := left - {c};
      }
    }

    /** The `select` of the loop: a full channel is left alone. */
    method SendOne(r: nat, c: nat)
      requires r < |rooms| && rooms[r].broadcaster.Sending? && c in rooms[r].broadcaster.left && c < |clients|
      modifies this`rooms, this`clients
      ensures View() == Step(old(View()), SendNext(r, c))
    {
      var b := rooms[r].broadcaster;
      if |clients[c].outbox| - clients[c].written < CLIENT_BUFFER_SIZE {
        clients := clients[c := clients[c].(outbox := clients[c].outbox + [FlushItem(r, b.index)])];
      } else {
        b := b.(slow := b.slow + {c});
      }
      rooms := rooms[r := rooms[r].(broadcaster := b.(left := b.left - {c}))];
    }

    /** A blocking send: with a full channel the goroutine stays where it is, and tries again. */
    method SendSubscribeConfirmation(c: nat) returns (blocked: bool)
      requires c < |clients| && clients[c].pc.Confirming?
      modifies this`clients
      ensures View() == Step(old(View()), Confirm(c))
      ensures blocked <==> |old(clients)[c].outbox| - old(clients)[c].written >= 20
      ensures c < |clients| && clients[c].doneClosed == old(clients)[c].doneClosed && clients[c].room == old(clients)[c].room
      ensures clients[c].outbox == old(clients)[c].outbox + (if blocked then [] else [Confirmation])
    {
      blocked := |clients[c].outbox| - clients[c].written >= CLIENT_BUFFER_SIZE;
      if !blocked {
        clients := clients[c := clients[c].(outbox := clients[c].outbox + [Confirmation], pc := Reading)];
      }
    }

    /** The hub-lock region of `SubscribeRoom`; the room it may create is not the one it returns. */
    method LookUpRooms(c: nat, name: string) returns (oldRoom: Option<nat>, newRoom: Option<nat>)
      requires c < |clients|
      modifies this`rooms, this`clients, this`live
      ensures View() == AfterLookup(old(View()), c, name)
      ensures clients[c].pc == Switching(oldRoom, newRoom, name) && newRoom == Found(old(View()), name)
      ensures clients[c].doneClosed == old(clients)[c].doneClosed && |rooms| >= |old(rooms)|
      ensures StayedOut(old(clients)[c], clients[c]) && NobodyEntered(old(rooms), rooms)
      ensures oldRoom.Some? <==> old(clients)[c].room != "" && old(clients)[c].room in old(live)
    {
      oldRoom := None;
      if clients[c].room != "" && clients[c].room in live {
        oldRoom := Some(live[clients[c].room]);
      }
      newRoom := if name in live then Some(live[name]) else None;
      if newRoom.None? {
        var discarded := GetOrCreateRoom(name);
      }
      clients := clients[c := clients[c].(pc := Switching(oldRoom, newRoom, name))];
    }

    method RemoveFromFound(c: nat, found: Option<nat>)
      requires c < |clients| && (found.Some? ==> found.value < |rooms|)
      modifies this`rooms, this`clients
      ensures View() == RemovedFrom(old(View()), c, found)
      ensures c < |clients| && (clients[c].doneClosed <==> old(clients)[c].doneClosed || found.Some?)
      ensures StayedOut(old(clients)[c], clients[c]) && NobodyEntered(old(rooms), rooms) && |rooms| == |old(rooms)|
      ensures found.Some? ==> rooms[found.value].clients == old(rooms)[found.value].clients - {c}
    {
      if found.Some? {
        RemoveClientsFrom(found.value, [c]);
        assert Members([c]) == {c};
      }
    }

    /** Leaving a room ends the connection: the client's `done` channel is closed, although it only switches rooms. */
    method LeaveOldRoom(c: nat, oldRoom: Option<nat>, newRoom: Option<nat>, name: string)
      requires c < |clients| && clients[c].pc == Switching(oldRoom, newRoom, name)
      requires oldRoom.Some? ==> oldRoom.value < |rooms|
      modifies this`rooms, this`clients
      ensures View() == Step(old(View()), RemoveFromOld(c))
      ensures c < |clients| && clients[c].pc == Deciding(newRoom, name)
      ensures clients[c].doneClosed <==> old(clients)[c].doneClosed || oldRoom.Some?
      ensures StayedOut(old(clients)[c], clients[c]) && NobodyEntered(old(rooms), rooms) && |rooms| == |old(rooms)|
      ensures oldRoom.Some? ==> c !in rooms[oldRoom.value].clients
    {
      RemoveFromFound(c, oldRoom);
      clients := clients[c := clients[c].(pc := Deciding(newRoom, name))];
    }

    /** The end of `SubscribeRoom`: without permission nothing, with a nil room a panic, else the client is added. */
    method Join(c: nat, newRoom: Option<nat>, name: string, canJoin: bool) returns (outcome: JoinOutcome)
      requires c < |clients| && clients[c].pc == Deciding(newRoom, name)
      requires newRoom.Some? ==> newRoom.value < |rooms|
      modifies this`rooms, this`clients
      ensures View() == Step(Step(Step(old(View()), Decide(c, canJoin)), AddToRoom(c)), Confirm(c))
      ensures outcome.Refused? <==> !canJoin
      ensures outcome.Panicked? <==> canJoin && newRoom.None?
      ensures outcome.Blocked? <==> canJoin && newRoom.Some? && |old(clients)[c].outbox| - old(clients)[c].written >= 20
      ensures c < |clients| && clients[c].doneClosed == old(clients)[c].doneClosed
      ensures !canJoin || newRoom.None? ==> rooms == old(rooms) && StayedOut(old(clients)[c], clients[c])
      ensures canJoin && newRoom.Some? ==>
                EnteredRoom(old(rooms), rooms, c, newRoom.value) && Admitted(old(clients)[c], clients[c], name, outcome == Blocked)
    {
      if !canJoin {
        clients := clients[c := clients[c].(pc := Reading)];
        return Refused;
      }
      if newRoom.None? {
        clients := clients[c := clients[c].(pc := Crashed)];
        return Panicked;
      }
      clients := clients[c := clients[c].(pc := Adding(newRoom.value, name))];
      assert View() == Step(old(View()), Decide(c, canJoin));
      outcome := Enter(c, newRoom.value, name);
    }

    method Enter(c: nat, r: nat, name: string) returns (outcome: JoinOutcome)
      requires c < |clients| && clients[c].pc == Adding(r, name) && r < |rooms|
      modifies this`rooms, this`clients
      ensures View() == Step(Step(old(View()), AddToRoom(c)), Confirm(c))
      ensures outcome == if |old(clients)[c].outbox| - old(clients)[c].written < 20 then Joined else Blocked
      ensures c < |clients| && clients[c].doneClosed == old(clients)[c].doneClosed
      ensures EnteredRoom(old(rooms), rooms, c, r) && Admitted(old(clients)[c], clients[c], name, outcome == Blocked)
    {
      AddClient(r, c, name);
      assert View() == Step(old(View()), AddToRoom(c));
      var blocked := SendSubscribeConfirmation(c);
      outcome := if blocked then Blocked else Joined;
    }

    /**
     * `SubscribeRoom` when nobody interferes. It panics on the nil room that the discarded result leaves behind, and it
     * closes the client's `done` channel whenever the client's old room is live.
     */
    method SubscribeRoom(c: nat, name: string, nameValid: bool, canJoin: bool) returns (outcome: JoinOutcome)
      requires c < |clients| && clients[c].pc == Subscribing(name)
      requires forall n :: n in live ==> live[n] < |rooms|
      modifies this`rooms, this`clients, this`live
      ensures View() == Subscribed(old(View()), c, nameValid, canJoin)
      ensures outcome.Panicked? <==> nameValid && old(clients)[c].room != name && canJoin && name !in old(live)
      ensures c < |clients|
      ensures clients[c].doneClosed
              <==> old(clients)[c].doneClosed
                   || (nameValid && old(clients)[c].room != name && old(clients)[c].room != "" && old(clients)[c].room in old(live))
      ensures var enters := nameValid && old(clients)[c].room != name && canJoin && name in old(live);
              && (!enters ==> StayedOut(old(clients)[c], clients[c]) && NobodyEntered(old(rooms), rooms))
              && (enters ==> old(live)[name] < |rooms| && c in rooms[old(live)[name]].clients
                             && Admitted(old(clients)[c], clients[c], name, outcome == Blocked))
    {
      ghost var before := View();
      if !nameValid || clients[c].room == name {
        RefusedSubscription(before, c, nameValid, canJoin);
        clients := clients[c := clients[c].(pc := Reading)];
        return Refused;
      }
      LookupIsAStep(before, c, name);
      var oldRoom, newRoom := LookUpRooms(c, name);
      LeaveOldRoom(c, oldRoom, newRoom, name);
      outcome := Join(c, newRoom, name, canJoin);
    }

    /** The register branch of the event loop. */
    method RegisterNext()
      requires hub.HubIdle? && registers > 0
      modifies this`registers, this`totalClients
      ensures View() == Step(old(View()), HubRegister)
    {
      registers := registers - 1;
      totalClients := totalClients + 1;
    }

    /** The goroutine of an eviction; the slow clients come as the slice it was handed. */
    method HandleSlowClients(k: nat, slowClients: seq<nat>)
      requires k < |evictions| && evictions[k].room < |rooms| && Members(slowClients) == evictions[k].clients
      requires forall i :: 0 <= i < |slowClients| ==> slowClients[i] < |clients|
      modifies this`rooms, this`clients, this`evictions
      ensures View() == Step(old(View()), Evict(k))
    {
      ghost var before := View();
      RemoveClientsFrom(evictions[k].room, slowClients);
      evictions := evictions[k := Eviction(evictions[k].room, {})];
      assert View() == AfterEvict(before, k);
      EvictIsAStep(before, k);
    }

    /** The idle branch of `roomBroadcaster`: the check, and with nobody coming in between, the removal. */
    method IdleTick(r: nat) returns (stopped: bool)
      requires r < |rooms| && rooms[r].broadcaster.Broadcasting?
      modifies this`rooms, this`live
      ensures View() == Step(Step(old(View()), IdleCheck(r)), RemoveRoom(r))
      ensures stopped <==> |old(rooms)[r].clients| == 0
      ensures |rooms| == |old(rooms)|
      ensures stopped ==> old(rooms)[r].name !in live && rooms[r].broadcaster.Exited?
      ensures !stopped ==> live == old(live) && rooms == old(rooms)
    {
      stopped := rooms[r].clients == map[];
      if stopped {
        rooms := rooms[r := rooms[r].(broadcaster := SawNoClients)];
        RemoveRoomNamed(rooms[r].name);
        rooms := rooms[r := rooms[r].(broadcaster := Exited)];
      }
    }

    /** The unregister branch of the event loop, with the lookup and the removal together. */
    method UnregisterNext()
      requires hub.HubIdle? && unregisters != [] && unregisters[0] < |clients|
      requires forall n :: n in live ==> live[n] < |rooms|
      modifies this
      ensures View() == Step(Step(old(View()), HubLookup), HubRemove)
    {
      var c := unregisters[0];
      var found := if clients[c].room in live then Some(live[clients[c].room]) else None;
      unregisters, hub := unregisters[1..], HubUnregistering(c, found);
      assert View() == Step(old(View()), HubLookup);
      RemoveAndCount(c, found);
    }

    /** One turn of the event loop: `select` takes from either queue that has something, and waits if neither has. */
    method ServeOnce(registerFirst: bool) returns (served: bool)
      requires hub.HubIdle? && (unregisters != [] ==> unregisters[0] < |clients|)
      requires forall n :: n in live ==> live[n] < |rooms|
      modifies this
      ensures served <==> old(registers) > 0 || old(unregisters) != []
      ensures View() == if !served then old(View())
                        else if old(registers) > 0 && (registerFirst || old(unregisters) == []) then Step(old(View()), HubRegister)
                        else Step(Step(old(View()), HubLookup), HubRemove)
    {
      served := registers > 0 || unregisters != [];
      if registers > 0 && (registerFirst || unregisters == []) {
        RegisterNext();
      } else if unregisters != [] {
        UnregisterNext();
      }
    }

    method RemoveAndCount(c: nat, found: Option<nat>)
      requires hub == HubUnregistering(c, found) && c < |clients| && (found.Some? ==> found.value < |rooms|)
      modifies this
      ensures View() == Step(old(View()), HubRemove)
    {
      hide RemoveClients;
      ghost var before := View();
      RemoveFromFound(c, found);
      assert hub == before.hub && totalClients == before.totalClients && unregistered == before.unregistered;
      totalClients := totalClients - 1;
      unregistered, hub := unregistered + {c}, HubIdle;
    }
  }

  /** An item sent without blocking to several clients: those whose channel is full do not get it. */
  function SentToAll(clients: seq<Client>, to: set<nat>, item: Item): (r: seq<Client>)
    ensures |r| == |clients|
    ensures forall c {:trigger r[c]} :: 0 <= c < |r| ==> r[c] == if c in to && HasSpace(clients[c]) then Sent(clients[c], item) else clients[c]
  {
    seq(|clients|, c requires 0 <= c < |clients| =>
          if c in to && HasSpace(clients[c]) then Sent(clients[c], item) else clients[c])
  }

  /** Those of them whose channel is full. */
  function SlowAmong(clients: seq<Client>, to: set<nat>): (slow: set<nat>) {
    set c | c in to && c < |clients| && !HasSpace(clients[c])
  }

  /** An undisturbed flush in one: every member gets the batch or, its channel being full, is marked for removal. */
  function AfterFlush(s: State, r: nat): (t: State)
    requires r < |s.rooms|
  {
    var room := s.rooms[r];
    var slow := SlowAmong(s.clients, room.clients.Keys);
    s.(rooms := s.rooms[r := room.(flushes := room.flushes + 1)],
       clients := SentToAll(s.clients, room.clients.Keys, FlushItem(r, room.flushes)),
       evictions := if slow == {} then s.evictions else s.evictions + [Eviction(r, slow)])
  }

  /** The members with room in their channel, and they alone, have one more item: this one. */
  predicate OnlyMembersWithSpaceGot(before: seq<Client>, after: seq<Client>, members: set<nat>, item: Item) {
    && |after| == |before|
    && forall c :: 0 <= c < |after| ==>
         var gets := c in members && |before[c].outbox| - before[c].written < 20;
         after[c] == if gets then before[c].(outbox := before[c].outbox + [item]) else before[c]
  }

  /** The members whose channel held its 20 items, and they alone, are handed to one eviction. */
  predicate OnlyFullOnesAreEvicted(clients: seq<Client>, before: seq<Eviction>, after: seq<Eviction>, members: set<nat>, r: nat) {
    var full := set c | c in members && c < |clients| && |clients[c].outbox| - clients[c].written >= 20;
    after == if full == {} then before else before + [Eviction(r, full)]
  }

  lemma FlushMeaning(s: State, r: nat)
    requires r < |s.rooms|
    ensures var t, members := AfterFlush(s, r), s.rooms[r].clients.Keys;
            && OnlyMembersWithSpaceGot(s.clients, t.clients, members, FlushItem(r, s.rooms[r].flushes))
            && OnlyFullOnesAreEvicted(s.clients, s.evictions, t.evictions, members, r)
  {
    var members := s.rooms[r].clients.Keys;
    assert SlowAmong(s.clients, members)
        == set c | c in members && c < |s.clients| && |s.clients[c].outbox| - s.clients[c].written >= 20;
  }

  /** The same with some clients not served yet. */
  function Midflush(s: State, r: nat, left: set<nat>): (t: State)
    requires r < |s.rooms|
  {
    var room := s.rooms[r];
    var served := room.clients.Keys - left;
    s.(rooms := s.rooms[r := room.(flushes := room.flushes + 1,
                                   broadcaster := Sending(room.flushes, left, SlowAmong(s.clients, served)))],
       clients := SentToAll(s.clients, served, FlushItem(r, room.flushes)))
  }

  lemma MidflushShape(s: State, r: nat, left: set<nat>)
    requires r < |s.rooms|
    ensures var t := Midflush(s, r, left);
            && |t.rooms| == |s.rooms| && |t.clients| == |s.clients|
            && t.rooms[r].broadcaster.Sending? && t.rooms[r].broadcaster.left == left
  {
  }

  lemma NobodyServed(s: State, r: nat)
    requires r < |s.rooms| && s.rooms[r].broadcaster.Broadcasting?
    ensures Step(s, TakeSnapshot(r)) == Midflush(s, r, s.rooms[r].clients.Keys)
  {
    assert SlowAmong(s.clients, {}) == {};
    assert SentToAll(s.clients, {}, FlushItem(r, s.rooms[r].flushes)) == s.clients;
    assert s.rooms[r].clients.Keys - s.rooms[r].clients.Keys == {};
  }

  lemma SendIsAStep(s: State, r: nat, left: set<nat>, c: nat)
    requires r < |s.rooms| && left <= s.rooms[r].clients.Keys && c in left && c < |s.clients|
    ensures Step(Midflush(s, r, left), SendNext(r, c)) == Midflush(s, r, left - {c})
  {
    var members, item := s.rooms[r].clients.Keys, FlushItem(r, s.rooms[r].flushes);
    var t, u := Step(Midflush(s, r, left), SendNext(r, c)), Midflush(s, r, left - {c});
    assert members - (left - {c}) == members - left + {c};
    assert t.clients == u.clients;
    assert t.rooms[r].broadcaster.slow == u.rooms[r].broadcaster.slow;
    assert t.rooms == u.rooms;
  }

  lemma EverybodyServed(s: State, r: nat)
    requires r < |s.rooms| && s.rooms[r].broadcaster.Broadcasting?
    ensures Step(Midflush(s, r, {}), EndFlush(r)) == AfterFlush(s, r)
  {
    assert s.rooms[r].clients.Keys - {} == s.rooms[r].clients.Keys;
  }

  /** The client has the room it had, and was sent nothing. */
  predicate StayedOut(before: Client, after: Client) {
    after.room == before.room && after.outbox == before.outbox && after.written == before.written
  }

  /** The client has the room's name, and the confirmation unless its channel was full. */
  predicate Admitted(before: Client, after: Client, name: string, blocked: bool) {
    after.room == name && after.outbox == before.outbox + (if blocked then [] else [Confirmation])
  }

  /** No room has a client it did not have; a room that was created is empty. */
  predicate NobodyEntered(before: seq<Room>, after: seq<Room>) {
    && |before| <= |after|
    && (forall r :: 0 <= r < |before| ==> after[r].clients.Keys <= before[r].clients.Keys)
    && (forall r :: |before| <= r < |after| ==> after[r].clients == map[])
  }

  /** The client is in the room, and that is all that changed in any room. */
  predicate EnteredRoom(before: seq<Room>, after: seq<Room>, c: nat, r: nat) {
    && |after| == |before| && r < |after|
    && after[r].clients.Keys == before[r].clients.Keys + {c}
    && (forall q :: 0 <= q < |after| && q != r ==> after[q] == before[q])
  }

  /** An undisturbed subscription, as the protocol's steps. */
  function Subscribed(s: State, c: nat, nameValid: bool, canJoin: bool): (t: State) {
    var s1 := Step(s, LookupRooms(c, nameValid));
    var s2 := Step(s1, RemoveFromOld(c));
    var s3 := Step(s2, Decide(c, canJoin));
    var s4 := Step(s3, AddToRoom(c));
    Step(s4, Confirm(c))
  }

  lemma RefusedSubscription(s: State, c: nat, nameValid: bool, canJoin: bool)
    requires At(s, c) && s.clients[c].pc.Subscribing? && (!nameValid || s.clients[c].room == s.clients[c].pc.name)
    ensures Subscribed(s, c, nameValid, canJoin) == Moved(s, c, Reading)
  {
    var t := Moved(s, c, Reading);
    assert Step(s, LookupRooms(c, nameValid)) == t;
    assert Step(t, RemoveFromOld(c)) == t && Step(t, Decide(c, canJoin)) == t;
    assert Step(t, AddToRoom(c)) == t && Step(t, Confirm(c)) == t;
  }

  lemma EvictIsAStep(s: State, k: nat)
    ensures Step(s, Evict(k)) == AfterEvict(s, k)
  {
  }

  lemma LookupIsAStep(s: State, c: nat, name: string)
    requires At(s, c) && s.clients[c].pc == Subscribing(name) && s.clients[c].room != name
    ensures Step(s, LookupRooms(c, true)) == AfterLookup(s, c, name)
  {
  }

  lemma ClosedNobody(clients: seq<Client>)
    ensures ClosedAll(clients, {}) == clients
  {
  }

  lemma ClosedOneMore(clients: seq<Client>, gone: set<nat>, c: nat)
    requires c < |clients|
    ensures var some := ClosedAll(clients, gone);
            ClosedAll(clients, gone + {c}) == if some[c].doneClosed then some else some[c := Closed(some[c])]
  {
  }

  lemma MembersSnoc(list: seq<nat>, i: nat)
    requires i < |list|
    ensures Members(list[..i + 1]) == Members(list[..i]) + {list[i]}
  {
  }
}
