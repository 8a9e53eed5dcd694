/**
 * Which live rooms have a broadcaster. `BuildRoomBroadcaster` creates a room with one; a failed lookup in `SubscribeRoom`
 * creates a room without, panics on the nil it kept, and leaves behind a live room that nobody will ever serve.
 */
module HubServing {
  import opened Common
  import opened HubProtocol
  import HubPlacement

  /** A room without a broadcaster never flushed; no live room's broadcaster has exited; only flushes that began were sent. */
  ghost predicate Inv(s: State) {
    && RoomsOk(s)
    && (forall c: nat :: c < |s.clients| ==> SentOnlyFlushes(s, s.clients[c].outbox))
  }

  ghost predicate SentOnlyFlushes(s: State, items: seq<Item>) {
    forall item :: item in items && item.FlushItem? ==> item.room < |s.rooms| && item.index < s.rooms[item.room].flushes
  }

  /** Rooms are only added, and go on flushing. */
  ghost predicate RoomsGrow(s: State, t: State) {
    |s.rooms| <= |t.rooms| && forall r: nat :: r < |s.rooms| ==> s.rooms[r].flushes <= t.rooms[r].flushes
  }

  lemma ItemsStayFlushes(s: State, t: State, items: seq<Item>)
    requires SentOnlyFlushes(s, items) && RoomsGrow(s, t)
    ensures SentOnlyFlushes(t, items)
  {
  }

  /** The part of the invariant about rooms. */
  ghost predicate RoomsOk(s: State) {
    && (forall r: nat :: r < |s.rooms| && s.rooms[r].broadcaster.NoBroadcaster? ==> s.rooms[r].flushes == 0)
    && (forall r: nat :: r < |s.rooms| && s.rooms[r].broadcaster.Sending? ==> s.rooms[r].broadcaster.index < s.rooms[r].flushes)
    && (forall name :: name in s.live ==> s.live[name] < |s.rooms| && !s.rooms[s.live[name]].broadcaster.Exited?)
  }

  /** What each client was sent before, plus at most one item. */
  ghost predicate AtMostOneMore(s: State, t: State, item: Item) {
    && |s.clients| <= |t.clients|
    && (forall c: nat :: c < |s.clients| ==> t.clients[c].outbox in {s.clients[c].outbox, s.clients[c].outbox + [item]})
    && (forall c: nat :: |s.clients| <= c < |t.clients| ==> t.clients[c].outbox == [])
    && (item.FlushItem? ==> item.room < |t.rooms| && item.index < t.rooms[item.room].flushes)
  }

  lemma OneMoreKeepsInv(s: State, t: State, item: Item)
    requires Inv(s) && RoomsGrow(s, t) && RoomsOk(t) && AtMostOneMore(s, t, item)
    ensures Inv(t)
  {
    forall c: nat | c < |t.clients| ensures SentOnlyFlushes(t, t.clients[c].outbox) {
      if c < |s.clients| { ItemsStayFlushes(s, t, s.clients[c].outbox); }
    }
  }

  /** Same rooms, as far as names, broadcasters and flushes go. */
  ghost predicate SameServing(s: State, t: State) {
    && t.live == s.live && |t.rooms| == |s.rooms|
    && forall r: nat :: r < |s.rooms| ==>
         t.rooms[r].broadcaster == s.rooms[r].broadcaster && t.rooms[r].flushes == s.rooms[r].flushes
  }

  lemma SameServingKeepsRooms(s: State, t: State)
    requires Inv(s) && SameServing(s, t)
    ensures RoomsGrow(s, t) && RoomsOk(t)
  {
  }

  predicate TouchesServing(a: Action) {
    a.BuildRoom? || a.LookupRooms? || Flushing(a) || a.IdleCheck? || a.RemoveRoom?
  }

  predicate RemovesClients(a: Action) {
    a.RemoveFromOld? || a.Evict? || a.HubRemove?
  }

  lemma RemovingKeepsServing(s: State, a: Action)
    requires RemovesClients(a)
    ensures SameServing(s, Step(s, a))
  {
  }

  lemma OtherStepKeepsServing(s: State, a: Action)
    requires !TouchesServing(a) && !RemovesClients(a)
    ensures SameServing(s, Step(s, a))
  {
  }

  lemma FlushStepKeepsRooms(s: State, a: Action)
    requires RoomsOk(s) && Flushing(a)
    ensures RoomsGrow(s, Step(s, a)) && RoomsOk(Step(s, a))
  {
  }

  lemma IdleCheckKeepsRooms(s: State, r: nat)
    requires RoomsOk(s)
    ensures RoomsGrow(s, Step(s, IdleCheck(r))) && RoomsOk(Step(s, IdleCheck(r)))
  {
  }

  lemma BuildingKeepsRooms(s: State, c: nat)
    requires Inv(s)
    ensures RoomsGrow(s, Step(s, BuildRoom(c))) && RoomsOk(Step(s, BuildRoom(c)))
  {
  }

  lemma LookingUpKeepsRooms(s: State, c: nat, nameValid: bool)
    requires Inv(s)
    ensures RoomsGrow(s, Step(s, LookupRooms(c, nameValid))) && RoomsOk(Step(s, LookupRooms(c, nameValid)))
  {
  }

  lemma StepKeepsRooms(s: State, a: Action)
    requires Inv(s) && HubPlacement.Inv(s)
    ensures RoomsGrow(s, Step(s, a)) && RoomsOk(Step(s, a))
  {
    hide Step;
    if a.RemoveRoom? { RemovalKeepsRooms(s, a.r); }
    else if Flushing(a) { FlushStepKeepsRooms(s, a); }
    else if a.IdleCheck? { IdleCheckKeepsRooms(s, a.r); }
    else if a.BuildRoom? { BuildingKeepsRooms(s, a.c); }
    else if a.LookupRooms? { LookingUpKeepsRooms(s, a.c, a.nameValid); }
    else {
      if RemovesClients(a) { RemovingKeepsServing(s, a); } else { OtherStepKeepsServing(s, a); }
      SameServingKeepsRooms(s, Step(s, a));
    }
  }

  lemma RemovalKeepsRooms(s: State, r: nat)
    requires Inv(s) && HubPlacement.Inv(s)
    ensures RoomsGrow(s, Step(s, RemoveRoom(r))) && RoomsOk(Step(s, RemoveRoom(r)))
  {
    if r < |s.rooms| && s.rooms[r].broadcaster.SawNoClients? {
      assert s.live[s.rooms[r].name] == r;
      assert forall name :: name in s.live && s.live[name] == r ==> name == s.rooms[r].name;
    }
  }

  lemma RemovingSendsNothing(s: State, a: Action)
    requires RemovesClients(a)
    ensures AtMostOneMore(s, Step(s, a), Confirmation)
  {
  }

  lemma RoomMapStepSendsNothing(s: State, a: Action)
    requires a.BuildRoom? || a.LookupRooms? || a.AddToRoom?
    ensures AtMostOneMore(s, Step(s, a), Confirmation)
  {
  }

  lemma OtherStepSendsAtMostOne(s: State, a: Action)
    requires !a.SendNext? && !RemovesClients(a) && !a.BuildRoom? && !a.LookupRooms? && !a.AddToRoom?
    ensures AtMostOneMore(s, Step(s, a), Confirmation)
  {
  }

  lemma StepSendsAtMostOne(s: State, a: Action)
    requires !a.SendNext?
    ensures AtMostOneMore(s, Step(s, a), Confirmation)
  {
    hide Step;
    if RemovesClients(a) { RemovingSendsNothing(s, a); }
    else if a.BuildRoom? || a.LookupRooms? || a.AddToRoom? { RoomMapStepSendsNothing(s, a); }
    else { OtherStepSendsAtMostOne(s, a); }
  }

  lemma FlushSendsAtMostOne(s: State, r: nat, c: nat)
    requires RoomsOk(s) && r < |s.rooms| && s.rooms[r].broadcaster.Sending?
    ensures AtMostOneMore(s, Step(s, SendNext(r, c)), FlushItem(r, s.rooms[r].broadcaster.index))
  {
  }

  lemma StepKeepsInv(s: State, a: Action)
    requires Inv(s) && HubPlacement.Inv(s)
    ensures Inv(Step(s, a))
  {
    StepKeepsRooms(s, a);
    if !a.SendNext? {
      StepSendsAtMostOne(s, a);
      OneMoreKeepsInv(s, Step(s, a), Confirmation);
    } else if a.r < |s.rooms| && s.rooms[a.r].broadcaster.Sending? {
      FlushSendsAtMostOne(s, a.r, a.c);
      OneMoreKeepsInv(s, Step(s, a), FlushItem(a.r, s.rooms[a.r].broadcaster.index));
    }
  }

  lemma {:induction false} RunKeepsInv(run: seq<Action>)
    ensures Inv(After(run))
    decreases |run|
  {
    hide Step;
    if run != [] {
      RunKeepsInv(run[..|run| - 1]);
      HubPlacement.RunKeepsInv(run[..|run| - 1]);
      StepKeepsInv(After(run[..|run| - 1]), run[|run| - 1]);
    }
  }

  // ---- who created a room ----

  /** The action of the run that created the room. */
  function Creator(run: seq<Action>, r: nat): (a: Action)
    requires r < |After(run).rooms|
  {
    var before := run[..|run| - 1];
    if r < |After(before).rooms| then Creator(before, r) else run[|run| - 1]
  }

  /** A room keeps being with or without a broadcaster goroutine; one that appears has it from `BuildRoomBroadcaster` only. */
  lemma StepAndBroadcasters(s: State, a: Action)
    ensures var t := Step(s, a);
            && (forall r: nat :: r < |s.rooms| ==> r < |t.rooms|
                                                   && (t.rooms[r].broadcaster.NoBroadcaster? <==> s.rooms[r].broadcaster.NoBroadcaster?))
            && (forall r: nat :: |s.rooms| <= r < |t.rooms| ==>
                  && (a.BuildRoom? || a.LookupRooms?)
                  && (t.rooms[r].broadcaster.NoBroadcaster? <==> a.LookupRooms?))
  {
  }

  lemma {:induction false} CreatorDecides(run: seq<Action>, r: nat)
    requires r < |After(run).rooms|
    ensures Creator(run, r).BuildRoom? || Creator(run, r).LookupRooms?
    ensures After(run).rooms[r].broadcaster.NoBroadcaster? <==> Creator(run, r).LookupRooms?
    decreases |run|
  {
    hide Step;
    var before := run[..|run| - 1];
    StepAndBroadcasters(After(before), run[|run| - 1]);
    assert After(run) == Step(After(before), run[|run| - 1]);
    if r < |After(before).rooms| {
      CreatorDecides(before, r);
    } else {
      assert After(run).rooms[r].broadcaster.NoBroadcaster? <==> run[|run| - 1].LookupRooms?;
    }
  }

  /**
   * In every run a live room has a broadcaster if and only if `BuildRoomBroadcaster` created it, and not the lookup of
   * `SubscribeRoom` that found it missing.
   */
  lemma ServedExactlyWhenBuilt(run: seq<Action>, name: string)
    requires name in After(run).live
    ensures After(run).live[name] < |After(run).rooms|
    ensures Served(After(run).rooms[After(run).live[name]]) <==> Creator(run, After(run).live[name]).BuildRoom?
    ensures !Served(After(run).rooms[After(run).live[name]]) <==> Creator(run, After(run).live[name]).LookupRooms?
  {
    hide Step;
    RunKeepsInv(run);
    CreatorDecides(run, After(run).live[name]);
  }

  // ---- an unserved room stays unserved ----

  ghost predicate UnservedAt(s: State, name: string, r: nat) {
    name in s.live && s.live[name] == r && r < |s.rooms| && s.rooms[r].broadcaster.NoBroadcaster?
  }

  lemma OnlyRemovalForgetsNames(s: State, a: Action, name: string)
    requires name in s.live && !a.RemoveRoom?
    ensures name in Step(s, a).live && Step(s, a).live[name] == s.live[name]
  {
  }

  lemma RemovalForgetsServedRooms(s: State, r: nat, name: string)
    requires HubPlacement.Inv(s) && name in s.live && s.live[name] < |s.rooms| && s.rooms[s.live[name]].broadcaster.NoBroadcaster?
    ensures name in Step(s, RemoveRoom(r)).live && Step(s, RemoveRoom(r)).live[name] == s.live[name]
  {
    if r < |s.rooms| && s.rooms[r].broadcaster.SawNoClients? {
      assert s.live[s.rooms[r].name] == r;
    }
  }

  lemma StepKeepsUnserved(s: State, a: Action, name: string, r: nat)
    requires HubPlacement.Inv(s) && UnservedAt(s, name, r)
    ensures UnservedAt(Step(s, a), name, r)
  {
    hide Step;
    StepAndBroadcasters(s, a);
    if a.RemoveRoom? { RemovalForgetsServedRooms(s, a.r, name); } else { OnlyRemovalForgetsNames(s, a, name); }
  }

  lemma {:induction false} UnservedStays(run: seq<Action>, more: seq<Action>, name: string, r: nat)
    requires UnservedAt(After(run), name, r)
    ensures UnservedAt(After(run + more), name, r)
    decreases |more|
  {
    hide Step;
    if more == [] {
      assert run + more == run;
    } else {
      var fewer, last := more[..|more| - 1], more[|more| - 1];
      UnservedStays(run, fewer, name, r);
      assert run + more == run + fewer + [last];
      AfterSnoc(run + fewer, last);
      HubPlacement.RunKeepsInv(run + fewer);
      StepKeepsUnserved(After(run + fewer), last, name, r);
    }
  }

  /** A live room without a broadcaster stays live and without one for ever, and no client is ever sent a flush of it. */
  lemma UnservedForEver(run: seq<Action>, more: seq<Action>, name: string)
    requires name in After(run).live && After(run).live[name] < |After(run).rooms|
    requires !Served(After(run).rooms[After(run).live[name]])
    ensures var t, r := After(run + more), After(run).live[name];
            && name in t.live && t.live[name] == r && r < |t.rooms| && !Served(t.rooms[r]) && t.rooms[r].flushes == 0
            && forall c: nat, i: nat :: c < |t.clients| && i < |t.clients[c].outbox| ==>
                 var item := t.clients[c].outbox[i]; !(item.FlushItem? && item.room == r)
  {
    hide Step;
    var r := After(run).live[name];
    RunKeepsInv(run);
    UnservedStays(run, more, name, r);
    RunKeepsInv(run + more);
    NothingSent(After(run + more), r);
  }

  lemma NothingSent(t: State, r: nat)
    requires Inv(t) && r < |t.rooms| && t.rooms[r].flushes == 0
    ensures forall c: nat, i: nat :: c < |t.clients| && i < |t.clients[c].outbox| ==>
              var item := t.clients[c].outbox[i]; !(item.FlushItem? && item.room == r)
  {
    forall c: nat, i: nat | c < |t.clients| && i < |t.clients[c].outbox|
      ensures var item := t.clients[c].outbox[i]; !(item.FlushItem? && item.room == r)
    {
      assert SentOnlyFlushes(t, t.clients[c].outbox) && t.clients[c].outbox[i] in t.clients[c].outbox;
    }
  }

  // ---- how it comes about ----

  /** The broadcaster gives up its room between the two calls of a join. */
  function GivenUp(): (run: seq<Action>) {
    [IdleCheck(0), RemoveRoom(0)]
  }

  /** The lookup then finds no room. */
  function LookedUpInVain(): (run: seq<Action>) {
    [LookupRooms(0, true), RemoveFromOld(0)]
  }

  function Panicking(name: string): (run: seq<Action>) {
    HubPlacement.Asking(name) + GivenUp() + LookedUpInVain() + [Decide(0, true)]
  }

  function Waiting(name: string, pc: Pc): (s: State) {
    HubPlacement.Midway(name, pc, Exited).(live := map[])
  }

  lemma AfterGivingUp(name: string)
    requires name != ""
    ensures After(HubPlacement.Asking(name) + GivenUp()) == Waiting(name, Subscribing(name))
  {
    hide Step;
    HubPlacement.AfterAsking(name);
    AfterTwo(HubPlacement.Asking(name), IdleCheck(0), RemoveRoom(0));
    GivesUp(name);
  }

  lemma GivesUp(name: string)
    ensures Step(Step(HubPlacement.Midway(name, Subscribing(name), Broadcasting), IdleCheck(0)), RemoveRoom(0))
            == Waiting(name, Subscribing(name))
  {
    var s := HubPlacement.Midway(name, Subscribing(name), Broadcasting);
    assert Step(s, IdleCheck(0)) == HubPlacement.Midway(name, Subscribing(name), SawNoClients);
  }

  lemma VainLookup(name: string)
    requires name != ""
    ensures var t := Step(Step(Waiting(name, Subscribing(name)), LookupRooms(0, true)), RemoveFromOld(0));
            && t.live == map[name := 1] && t.rooms == [Room(name, map[], 0, Exited), Room(name, map[], 0, NoBroadcaster)]
            && t.clients == [HubPlacement.NEWCOMER.(pc := Deciding(None, name))]
  {
    var s := Waiting(name, Subscribing(name));
    assert Step(s, LookupRooms(0, true)) == AfterLookup(s, 0, name);
    assert AfterLookup(s, 0, name).clients == [HubPlacement.NEWCOMER.(pc := Switching(None, None, name))];
  }

  lemma PanicAfter(s: State, name: string)
    requires |s.clients| == 1 && s.clients[0].pc == Deciding(None, name)
    ensures Step(s, Decide(0, true)) == Moved(s, 0, Crashed)
  {
  }

  /** The join then panics on the nil room, and the room it created is live, without a broadcaster, for good. */
  lemma JoinPanicsOnNilRoom(name: string)
    requires name != ""
    ensures var s := After(Panicking(name));
            && |s.clients| == 1 && s.clients[0].pc == Crashed
            && s.live == map[name := 1] && |s.rooms| == 2 && s.rooms[1] == Room(name, map[], 0, NoBroadcaster)
  {
    hide Step;
    AfterGivingUp(name);
    var asked := HubPlacement.Asking(name) + GivenUp();
    AfterTwo(asked, LookupRooms(0, true), RemoveFromOld(0));
    VainLookup(name);
    AfterSnoc(asked + LookedUpInVain(), Decide(0, true));
    PanicAfter(After(asked + LookedUpInVain()), name);
  }
}
