/** What a member of a room is sent, in every run of the hub. */
module HubDelivery {
  import opened Common
  import opened HubProtocol

  /** The flushes of one room among the items of a channel, in order. */
  function FlushesOf(items: seq<Item>, r: nat): (indices: seq<nat>) {
    if items == [] then []
    else
      var last := items[|items| - 1];
      FlushesOf(items[..|items| - 1], r) + (if last.FlushItem? && last.room == r then [last.index] else [])
  }

  lemma FlushesSnoc(items: seq<Item>, item: Item, r: nat)
    ensures FlushesOf(items + [item], r)
            == FlushesOf(items, r) + (if item.FlushItem? && item.room == r then [item.index] else [])
  {
    assert (items + [item])[..|items|] == items;
  }

  /** Consecutive numbers from `from` up to, not including, `to`. */
  function Consecutive(from: nat, to: nat): (s: seq<nat>)
    requires from <= to
  {
    seq(to - from, i requires 0 <= i < to - from => from + i)
  }

  /** A flush of the room found the client's channel full, and its eviction has not run yet. */
  ghost predicate AwaitsRemoval(s: State, r: nat, c: nat) {
    || (exists k :: 0 <= k < |s.evictions| && s.evictions[k].room == r && c in s.evictions[k].clients)
    || (r < |s.rooms| && s.rooms[r].broadcaster.Sending? && c in s.rooms[r].broadcaster.slow)
  }

  /** Since it joined, the member's channel has been handed exactly the room's flushes up to `next`, each once, in order. */
  predicate HandedEverything(client: Client, m: Membership, r: nat, next: nat) {
    && m.joinedAt <= next
    && m.mark <= |client.outbox|
    && FlushesOf(client.outbox[m.mark..], r) == Consecutive(m.joinedAt, next)
  }

  ghost predicate MemberOk(s: State, r: nat, c: nat)
    requires r < |s.rooms| && c in s.rooms[r].clients
  {
    && c < |s.clients|
    && (AwaitsRemoval(s, r, c) || HandedEverything(s.clients[c], s.rooms[r].clients[c], r, NextFlush(s.rooms[r], c)))
  }

  /** The flush under way is the last one that began. */
  predicate FlushIsLast(room: Room) {
    room.broadcaster.Sending? ==> room.broadcaster.index + 1 == room.flushes
  }

  ghost predicate Inv(s: State) {
    && (forall r: nat, c: nat :: r < |s.rooms| && c in s.rooms[r].clients ==> MemberOk(s, r, c))
    && (forall c: nat :: c < |s.clients| ==> s.clients[c].written <= |s.clients[c].outbox| <= s.clients[c].written + CLIENT_BUFFER_SIZE)
    && (forall r: nat :: r < |s.rooms| ==> FlushIsLast(s.rooms[r]))
  }

  lemma OneMoreItem(client: Client, m: Membership, r: nat, next: nat, item: Item)
    requires HandedEverything(client, m, r, next)
    ensures item == FlushItem(r, next) ==> HandedEverything(Sent(client, item), m, r, next + 1)
    ensures !(item.FlushItem? && item.room == r) ==> HandedEverything(Sent(client, item), m, r, next)
  {
    assert (client.outbox + [item])[m.mark..] == client.outbox[m.mark..] + [item];
    FlushesSnoc(client.outbox[m.mark..], item, r);
    assert Consecutive(m.joinedAt, next) + [next] == Consecutive(m.joinedAt, next + 1);
  }

  /** Clients keep what they were sent, rooms only lose members, evictions stay. */
  ghost predicate Fewer(s: State, t: State) {
    && |s.rooms| <= |t.rooms| && |s.clients| <= |t.clients| && t.evictions == s.evictions
    && (forall r: nat, c: nat :: r < |t.rooms| && c in t.rooms[r].clients ==>
          r < |s.rooms| && c in s.rooms[r].clients && t.rooms[r].clients[c] == s.rooms[r].clients[c])
    && (forall r: nat :: r < |t.rooms| ==> SameFlushing(s, t, r))
    && (forall c: nat :: c < |s.clients| ==> t.clients[c].outbox == s.clients[c].outbox && t.clients[c].written == s.clients[c].written)
    && (forall c: nat :: |s.clients| <= c < |t.clients| ==> t.clients[c].outbox == [] && t.clients[c].written == 0)
  }

  /** The room's flushes are where they were; a new room has had none. */
  ghost predicate SameFlushing(s: State, t: State, r: nat)
    requires r < |t.rooms|
  {
    if r >= |s.rooms| then !t.rooms[r].broadcaster.Sending?
    else
      && t.rooms[r].flushes == s.rooms[r].flushes
      && (if s.rooms[r].broadcaster.Sending? then t.rooms[r].broadcaster == s.rooms[r].broadcaster
          else !t.rooms[r].broadcaster.Sending?)
  }

  lemma FewerKeepsInv(s: State, t: State)
    requires Inv(s) && Fewer(s, t)
    ensures Inv(t)
  {
    forall r: nat, c: nat | r < |t.rooms| && c in t.rooms[r].clients ensures MemberOk(t, r, c) {
      assert MemberOk(s, r, c) && SameFlushing(s, t, r);
    }
    forall r: nat | r < |t.rooms| ensures FlushIsLast(t.rooms[r]) {
      assert SameFlushing(s, t, r);
    }
  }

  lemma SnapshotKeepsInv(s: State, r: nat)
    requires Inv(s)
    ensures Inv(Step(s, TakeSnapshot(r)))
  {
    var t := Step(s, TakeSnapshot(r));
    if t != s {
      forall q: nat, c: nat | q < |t.rooms| && c in t.rooms[q].clients ensures MemberOk(t, q, c) {
        assert MemberOk(s, q, c);
      }
    }
  }

  lemma SendKeepsInv(s: State, r: nat, c: nat)
    requires Inv(s)
    ensures Inv(Step(s, SendNext(r, c)))
  {
    var t := Step(s, SendNext(r, c));
    if t != s {
      forall q: nat, d: nat | q < |t.rooms| && d in t.rooms[q].clients ensures MemberOk(t, q, d) {
        SendKeepsMember(s, r, c, q, d);
      }
    }
  }

  lemma SendKeepsMember(s: State, r: nat, c: nat, q: nat, d: nat)
    requires Inv(s) && r < |s.rooms| && s.rooms[r].broadcaster.Sending? && At(s, c) && c in s.rooms[r].broadcaster.left
    requires q < |s.rooms| && d in s.rooms[q].clients
    ensures q < |AfterSend(s, r, c).rooms| && d in AfterSend(s, r, c).rooms[q].clients && MemberOk(AfterSend(s, r, c), q, d)
  {
    assert MemberOk(s, q, d) && FlushIsLast(s.rooms[r]);
    if d == c && !AwaitsRemoval(s, q, d) {
      var b := s.rooms[r].broadcaster;
      OneMoreItem(s.clients[c], s.rooms[q].clients[c], q, NextFlush(s.rooms[q], c), FlushItem(r, b.index));
    }
  }

  lemma FlushEndKeepsInv(s: State, r: nat)
    requires Inv(s)
    ensures Inv(Step(s, EndFlush(r)))
  {
    var t := Step(s, EndFlush(r));
    if t != s {
      forall q: nat, c: nat | q < |t.rooms| && c in t.rooms[q].clients ensures MemberOk(t, q, c) {
        assert MemberOk(s, q, c);
        if AwaitsRemoval(s, q, c) { AwaitersStay(s, r, q, c); }
      }
    }
  }

  lemma AwaitersStay(s: State, r: nat, q: nat, c: nat)
    requires r < |s.rooms| && s.rooms[r].broadcaster.Sending? && q < |s.rooms| && AwaitsRemoval(s, q, c)
    ensures AwaitsRemoval(AfterFlushEnd(s, r), q, c)
  {
    var t, n := AfterFlushEnd(s, r), |s.evictions|;
    if k :| 0 <= k < n && s.evictions[k].room == q && c in s.evictions[k].clients {
      assert t.evictions[k] == s.evictions[k];
    } else if q == r {
      assert t.evictions[n] == Eviction(r, s.rooms[r].broadcaster.slow);
    }
  }

  lemma EvictKeepsInv(s: State, k: nat)
    requires Inv(s)
    ensures Inv(AfterEvict(s, k))
  {
    if k < |s.evictions| && s.evictions[k].room < |s.rooms| { EnabledEvictKeepsInv(s, k); }
  }

  lemma EnabledEvictKeepsInv(s: State, k: nat)
    requires Inv(s) && k < |s.evictions| && s.evictions[k].room < |s.rooms|
    ensures Inv(AfterEvict(s, k))
  {
    var t := AfterEvict(s, k);
    forall r: nat, c: nat | r < |t.rooms| && c in t.rooms[r].clients ensures MemberOk(t, r, c) {
      EvictKeepsMember(s, k, r, c);
    }
  }

  lemma EvictKeepsMember(s: State, k: nat, r: nat, c: nat)
    requires Inv(s) && k < |s.evictions| && s.evictions[k].room < |s.rooms|
    requires r < |AfterEvict(s, k).rooms| && c in AfterEvict(s, k).rooms[r].clients
    ensures MemberOk(AfterEvict(s, k), r, c)
  {
    var t := AfterEvict(s, k);
    assert MemberOk(s, r, c);
    if j :| 0 <= j < |s.evictions| && s.evictions[j].room == r && c in s.evictions[j].clients {
      assert j != k;
      assert t.evictions[j] == s.evictions[j];
    }
  }

  lemma AddKeepsInv(s: State, c: nat, r: nat, name: string)
    requires Inv(s) && At(s, c) && r < |s.rooms|
    ensures Inv(AfterAdd(s, c, r, name))
  {
    var t := AfterAdd(s, c, r, name);
    assert s.clients[c].outbox[|s.clients[c].outbox|..] == [];
    forall q: nat, d: nat | q < |t.rooms| && d in t.rooms[q].clients ensures MemberOk(t, q, d) {
      if q < |s.rooms| && d in s.rooms[q].clients {
        assert MemberOk(s, q, d);
      }
    }
  }

  lemma AddStepKeepsInv(s: State, c: nat)
    requires Inv(s)
    ensures Inv(Step(s, AddToRoom(c)))
  {
    if At(s, c) && s.clients[c].pc.Adding? && s.clients[c].pc.target < |s.rooms| {
      AddKeepsInv(s, c, s.clients[c].pc.target, s.clients[c].pc.name);
    }
  }

  lemma ConfirmStepKeepsInv(s: State, c: nat)
    requires Inv(s)
    ensures Inv(Step(s, Confirm(c)))
  {
    if At(s, c) && HasSpace(s.clients[c]) {
      ConfirmKeepsInv(s, c);
    }
  }

  lemma ConfirmKeepsInv(s: State, c: nat)
    requires Inv(s) && At(s, c) && HasSpace(s.clients[c])
    ensures Inv(s.(clients := s.clients[c := Sent(s.clients[c], Confirmation).(pc := Reading)]))
  {
    var t := s.(clients := s.clients[c := Sent(s.clients[c], Confirmation).(pc := Reading)]);
    forall r: nat, d: nat | r < |t.rooms| && d in t.rooms[r].clients ensures MemberOk(t, r, d) {
      assert MemberOk(s, r, d);
      if d == c && !AwaitsRemoval(s, r, d) {
        OneMoreItem(s.clients[c], s.rooms[r].clients[c], r, NextFlush(s.rooms[r], c), Confirmation);
      }
    }
  }

  lemma WriteKeepsInv(s: State, c: nat)
    requires Inv(s)
    ensures Inv(Step(s, WriteOne(c)))
  {
    var t := Step(s, WriteOne(c));
    forall r: nat, d: nat | r < |t.rooms| && d in t.rooms[r].clients ensures MemberOk(t, r, d) {
      assert MemberOk(s, r, d);
    }
  }

  lemma LookupKeepsInv(s: State, c: nat, nameValid: bool)
    requires Inv(s)
    ensures Inv(Step(s, LookupRooms(c, nameValid)))
  {
    FewerKeepsInv(s, Step(s, LookupRooms(c, nameValid)));
  }

  lemma BuildKeepsInv(s: State, c: nat)
    requires Inv(s)
    ensures Inv(Step(s, BuildRoom(c)))
  {
    FewerKeepsInv(s, Step(s, BuildRoom(c)));
  }

  lemma RemovalKeepsInv(s: State, r: nat, gone: set<nat>)
    requires Inv(s) && r < |s.rooms|
    ensures Inv(RemoveClients(s, r, gone))
  {
    FewerKeepsInv(s, RemoveClients(s, r, gone));
  }

  lemma MoveKeepsInv(s: State, c: nat, pc: Pc)
    requires Inv(s) && At(s, c)
    ensures Inv(Moved(s, c, pc))
  {
    FewerKeepsInv(s, Moved(s, c, pc));
  }

  lemma RemovedFromKeepsInv(s: State, c: nat, found: Option<nat>)
    requires Inv(s)
    ensures Inv(RemovedFrom(s, c, found))
  {
    if found.Some? && found.value < |s.rooms| { RemovalKeepsInv(s, found.value, {c}); }
  }

  lemma RemoveFromOldKeepsInv(s: State, c: nat)
    requires Inv(s)
    ensures Inv(Step(s, RemoveFromOld(c)))
  {
    if At(s, c) && s.clients[c].pc.Switching? {
      var pc := s.clients[c].pc;
      RemovedFromKeepsInv(s, c, pc.oldRoom);
      MoveKeepsInv(RemovedFrom(s, c, pc.oldRoom), c, Deciding(pc.newRoom, pc.name));
    }
  }

  lemma HubRemoveKeepsInv(s: State)
    requires Inv(s)
    ensures Inv(Step(s, HubRemove))
  {
    if s.hub.HubUnregistering? {
      RemovedFromKeepsInv(s, s.hub.client, s.hub.room);
      FewerKeepsInv(RemovedFrom(s, s.hub.client, s.hub.room), Step(s, HubRemove));
    }
  }

  lemma GoroutineStepKeepsInv(s: State, a: Action)
    requires Inv(s)
    requires a.Register? || a.StartJoin? || a.Decide? || a.StopReading? || a.Unregister?
    ensures Inv(Step(s, a))
  {
    FewerKeepsInv(s, Step(s, a));
  }

  lemma RoomOrQueueStepKeepsInv(s: State, a: Action)
    requires Inv(s)
    requires a.Connect? || a.IdleCheck? || a.RemoveRoom? || a.HubRegister? || a.HubLookup?
    ensures Inv(Step(s, a))
  {
    FewerKeepsInv(s, Step(s, a));
  }

  lemma StepKeepsInv(s: State, a: Action)
    requires Inv(s)
    ensures Inv(Step(s, a))
  {
    if a.TakeSnapshot? { SnapshotKeepsInv(s, a.r); }
    else if a.SendNext? { SendKeepsInv(s, a.r, a.c); }
    else if a.EndFlush? { FlushEndKeepsInv(s, a.r); }
    else if a.Evict? { EvictKeepsInv(s, a.k); }
    else if a.AddToRoom? { AddStepKeepsInv(s, a.c); }
    else if a.Confirm? { ConfirmStepKeepsInv(s, a.c); }
    else if a.WriteOne? { WriteKeepsInv(s, a.c); }
    else if a.LookupRooms? { LookupKeepsInv(s, a.c, a.nameValid); }
    else if a.RemoveFromOld? { RemoveFromOldKeepsInv(s, a.c); }
    else if a.HubRemove? { HubRemoveKeepsInv(s); }
    else if a.BuildRoom? { BuildKeepsInv(s, a.c); }
    else if a.Connect? || a.IdleCheck? || a.RemoveRoom? || a.HubRegister? || a.HubLookup? { RoomOrQueueStepKeepsInv(s, a); }
    else { GoroutineStepKeepsInv(s, a); }
  }

  /**
   * In every run: a member of a room is awaiting removal, or it has been handed exactly the consecutive flushes of that
   * room since it joined, in order, up to the next one it is due. So a member that missed one is awaiting removal.
   */
  lemma {:induction false} MembersGetEveryFlush(run: seq<Action>)
    ensures var s := After(run);
            forall r: nat, c: nat :: r < |s.rooms| && c in s.rooms[r].clients ==>
              && c < |s.clients|
              && (AwaitsRemoval(s, r, c) || HandedEverything(s.clients[c], s.rooms[r].clients[c], r, NextFlush(s.rooms[r], c)))
    ensures Inv(After(run))
    decreases |run|
  {
    if run != [] {
      MembersGetEveryFlush(run[..|run| - 1]);
      StepKeepsInv(After(run[..|run| - 1]), run[|run| - 1]);
    }
    assert forall r: nat, c: nat :: r < |After(run).rooms| && c in After(run).rooms[r].clients ==> MemberOk(After(run), r, c);
  }

  /** No channel ever holds more than its buffer. */
  lemma ChannelsStayBounded(run: seq<Action>, c: nat)
    requires c < |After(run).clients|
    ensures var client := After(run).clients[c]; client.written <= |client.outbox| <= client.written + CLIENT_BUFFER_SIZE
  {
    MembersGetEveryFlush(run);
  }

  // ---- what a client is still sent after it left ----

  /** The flush of the room that is under way and still has the client in its snapshot. */
  function Due(s: State, r: nat, c: nat): (indices: seq<nat>) {
    if r < |s.rooms| && s.rooms[r].broadcaster.Sending? && c in s.rooms[r].broadcaster.left then [s.rooms[r].broadcaster.index]
    else []
  }

  function HandedOf(s: State, r: nat, c: nat): (indices: seq<nat>) {
    if At(s, c) then FlushesOf(s.clients[c].outbox, r) else []
  }

  predicate Outside(s: State, r: nat, c: nat) {
    r < |s.rooms| ==> c !in s.rooms[r].clients
  }

  /** Due as before, or no longer, and then handed or not. */
  predicate AtMostTheDueOne(s: State, t: State, r: nat, c: nat) {
    || (Due(t, r, c) == Due(s, r, c) && HandedOf(t, r, c) == HandedOf(s, r, c))
    || (Due(t, r, c) == [] && HandedOf(t, r, c) == HandedOf(s, r, c) + Due(s, r, c))
    || (Due(t, r, c) == [] && HandedOf(t, r, c) == HandedOf(s, r, c))
  }

  /** Nothing is sent, and no flush begins, goes on or ends. */
  ghost predicate Quiet(s: State, t: State) {
    && |s.rooms| <= |t.rooms| && |s.clients| <= |t.clients|
    && (forall r: nat :: r < |t.rooms| ==> SameFlushing(s, t, r))
    && (forall c: nat :: c < |s.clients| ==> t.clients[c].outbox == s.clients[c].outbox)
    && (forall c: nat :: |s.clients| <= c < |t.clients| ==> t.clients[c].outbox == [])
  }

  lemma RemovalIsQuiet(s: State, a: Action)
    requires a.RemoveFromOld? || a.Evict? || a.HubRemove?
    ensures Quiet(s, Step(s, a))
  {
  }

  lemma RoomMapStepIsQuiet(s: State, a: Action)
    requires a.BuildRoom? || a.LookupRooms? || a.AddToRoom?
    ensures Quiet(s, Step(s, a))
  {
  }

  lemma OtherStepIsQuiet(s: State, a: Action)
    requires !Flushing(a) && !a.Confirm? && !a.RemoveFromOld? && !a.Evict? && !a.HubRemove?
    requires !a.BuildRoom? && !a.LookupRooms? && !a.AddToRoom?
    ensures Quiet(s, Step(s, a))
  {
  }

  lemma QuietStep(s: State, a: Action, r: nat, c: nat)
    requires !Flushing(a) && !a.Confirm?
    ensures AtMostTheDueOne(s, Step(s, a), r, c)
  {
    hide Step;
    var t := Step(s, a);
    if a.RemoveFromOld? || a.Evict? || a.HubRemove? { RemovalIsQuiet(s, a); }
    else if a.BuildRoom? || a.LookupRooms? || a.AddToRoom? { RoomMapStepIsQuiet(s, a); }
    else { OtherStepIsQuiet(s, a); }
    assert FlushesOf([], r) == [];
    assert r < |t.rooms| ==> SameFlushing(s, t, r);
  }

  lemma SendNextStep(s: State, q: nat, d: nat, r: nat, c: nat)
    ensures AtMostTheDueOne(s, Step(s, SendNext(q, d)), r, c)
  {
    hide FlushesOf;
    if At(s, c) && q < |s.rooms| && s.rooms[q].broadcaster.Sending? {
      FlushesSnoc(s.clients[c].outbox, FlushItem(q, s.rooms[q].broadcaster.index), r);
    }
  }

  lemma ConfirmStep(s: State, d: nat, r: nat, c: nat)
    ensures AtMostTheDueOne(s, Step(s, Confirm(d)), r, c)
  {
    hide FlushesOf;
    if At(s, c) && Step(s, Confirm(d)) != s {
      FlushesSnoc(s.clients[c].outbox, Confirmation, r);
    }
  }

  /** Only a flush that begins without the client leaves it with none due. */
  lemma SnapshotOrEndStep(s: State, a: Action, r: nat, c: nat)
    requires Outside(s, r, c) && (a.TakeSnapshot? || a.EndFlush?)
    ensures AtMostTheDueOne(s, Step(s, a), r, c)
  {
  }

  /**
   * A client that is out of the room and stays out is sent at most one more flush of it: the one under way, if that has
   * the client in its snapshot.
   */
  lemma {:induction false} AtMostOneFlushAfterLeaving(run: seq<Action>, more: seq<Action>, r: nat, c: nat)
    requires forall n :: 0 <= n <= |more| ==> Outside(After(run + more[..n]), r, c)
    ensures var s, t := After(run), After(run + more);
            HandedOf(t, r, c) == HandedOf(s, r, c) || HandedOf(t, r, c) == HandedOf(s, r, c) + Due(s, r, c)
    ensures AtMostTheDueOne(After(run), After(run + more), r, c)
    decreases |more|
  {
    hide Step, After, Outside, HandedOf, Due;
    if more == [] {
      assert run + more == run;
    } else {
      var fewer, last := more[..|more| - 1], more[|more| - 1];
      assert forall n :: 0 <= n <= |fewer| ==> fewer[..n] == more[..n];
      AtMostOneFlushAfterLeaving(run, fewer, r, c);
      assert run + more == run + fewer + [last];
      AfterSnoc(run + fewer, last);
      var s := After(run + fewer);
      if last.SendNext? { SendNextStep(s, last.r, last.c, r, c); }
      else if last.Confirm? { ConfirmStep(s, last.c, r, c); }
      else if Flushing(last) { SnapshotOrEndStep(s, last, r, c); }
      else { QuietStep(s, last, r, c); }
    }
  }
}
