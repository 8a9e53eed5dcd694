/**
 * Runs of the statements of `HubLocks`: they reach what the runs of `HubProtocol` reach, in which a removal is one step, and
 * in none of them is a `done` channel closed twice.
 */
module HubStatements {
  import opened Common
  import opened HubLocks
  import H = HubProtocol
  import P = HubPlacement
  import R = HubRemoval
  import C = HubCounting

  // ---- one statement at a time ----

  /** For an open channel only the one removal that has the client on its list counts. */
  lemma ShownOpen(s: H.State, locks: map<nat, Region>, r: nat, c: nat)
    requires HubOk(s) && LocksOk(s, locks) && R.Open(s, c) && r in locks && c in locks[r].all
    ensures var client := s.clients[c];
            ShownClient(client, locks, c) == if locks[r].stage == ClosedIt(c) then client.(closes := client.closes + 1)
                                             else if c in Handled(locks[r]) then H.Closed(client)
                                             else client
  {
    hide HubOk;
    forall q | q in locks && c in locks[q].all ensures q == r {
      OneRegion(s, locks, c, q, r);
    }
  }

  /** A closed channel is left alone by all of them. */
  lemma ShownClosed(s: H.State, locks: map<nat, Region>, c: nat)
    requires LocksOk(s, locks) && H.At(s, c) && s.clients[c].doneClosed
    ensures ShownClient(s.clients[c], locks, c) == s.clients[c]
  {
  }

  /** A removal that goes on with client `c` is the same to all others. */
  ghost predicate SameBut(before: Region, now: Region, c: nat) {
    && now.all == before.all
    && (forall d :: d != c ==> (d in Handled(now) <==> d in Handled(before)) && (now.stage == ClosedIt(d) <==> before.stage == ClosedIt(d)))
  }

  lemma OthersShown(locks: map<nat, Region>, r: nat, region: Region, c: nat, d: nat, client: H.Client)
    requires r in locks && SameBut(locks[r], region, c) && d != c
    ensures ShownClient(client, locks[r := region], d) == ShownClient(client, locks, d)
  {
    var now := locks[r := region];
    if q :| q in now && now[q].stage == ClosedIt(d) { assert locks[q].stage == ClosedIt(d); }
    if q :| q in locks && locks[q].stage == ClosedIt(d) { assert now[q].stage == ClosedIt(d); }
    if q :| q in now && d in Handled(now[q]) { assert d in Handled(locks[q]); }
    if q :| q in locks && d in Handled(locks[q]) { assert d in Handled(now[q]); }
  }

  /** So a statement about client `c` need only be right about that client. */
  lemma OneClientShown(s: H.State, locks: map<nat, Region>, r: nat, region: Region, c: nat, client: H.Client)
    requires r in locks && SameBut(locks[r], region, c) && region.left == locks[r].left && H.At(s, c)
    requires ShownClient(s.clients[c], locks[r := region], c) == client
    ensures Overlay(s, locks[r := region]) == WithClient(Overlay(s, locks), c, client)
  {
    hide ShownClient;
    var h := Overlay(s, locks[r := region]);
    forall d | 0 <= d < |s.clients| ensures h.clients[d] == WithClient(Overlay(s, locks), c, client).clients[d] {
      if d != c { OthersShown(locks, r, region, c, d, s.clients[d]); }
    }
    assert h.clients == WithClient(Overlay(s, locks), c, client).clients;
    assert h.rooms == Overlay(s, locks).rooms;
  }

  /** `s` with the removals at `locks` is what the memory `f` shows, and nobody has panicked. */
  ghost predicate Shows(f: State, s: H.State) {
    f.hub == Overlay(s, f.locks) && LocksOk(s, f.locks) && HubOk(s) && !f.panicked
  }

  lemma ListedExist(s: H.State, who: R.Remover, c: nat)
    requires HubOk(s) && R.Removes(s, who) && c in R.ClientsOf(s, who)
    ensures H.At(s, c)
  {
    if who.ByEviction? { assert R.Marked(s, s.evictions[who.k].room, c); }
  }

  lemma LockShows(f: State, s: H.State, who: R.Remover)
    requires Shows(f, s)
    ensures Shows(Step(f, Lock(who)), s)
  {
    hide HubOk;
    SameRemovers(s, f.locks, who);
    if R.Removes(s, who) && R.RoomOf(s, who) !in f.locks {
      forall c | c in R.ClientsOf(s, who) ensures H.At(s, c) { ListedExist(s, who, c); }
      Begun(s, f.locks, who);
    }
  }

  lemma Begun(s: H.State, locks: map<nat, Region>, who: R.Remover)
    requires R.Removes(s, who) && R.RoomOf(s, who) !in locks
    ensures Overlay(s, locks[R.RoomOf(s, who) := Region(who, R.ClientsOf(s, who), R.ClientsOf(s, who), NextOne)]) == Overlay(s, locks)
  {
    var r, all := R.RoomOf(s, who), R.ClientsOf(s, who);
    var now := locks[r := Region(who, all, all, NextOne)];
    assert Handled(now[r]) == {};
    forall c | 0 <= c < |s.clients| ensures ShownClient(s.clients[c], now, c) == ShownClient(s.clients[c], locks, c) {
      if q :| q in locks && locks[q].stage == ClosedIt(c) { assert now[q].stage == ClosedIt(c); }
      if q :| q in locks && c in Handled(locks[q]) { assert c in Handled(now[q]); }
    }
    assert s.rooms[r].clients - (all - all) == s.rooms[r].clients;
    assert Overlay(s, now).clients == Overlay(s, locks).clients;
    assert Overlay(s, now).rooms == Overlay(s, locks).rooms;
  }

  lemma DeleteShows(f: State, s: H.State, r: nat, c: nat)
    requires Shows(f, s)
    ensures Shows(Step(f, Delete(r, c)), s)
  {
    hide HubOk, ShownClient;
    var g := Step(f, Delete(r, c));
    if g != f {
      assert RegionOk(s, r, f.locks[r]);
      var before, now := f.locks[r], g.locks[r];
      assert Handled(now) == Handled(before);
      forall d | 0 <= d < |s.clients| ensures ShownClient(s.clients[d], g.locks, d) == ShownClient(s.clients[d], f.locks, d) {
        StageLeavesShown(f.locks, r, now, d, s.clients[d]);
      }
      assert s.rooms[r].clients - (before.all - before.left) - {c} == s.rooms[r].clients - (now.all - now.left);
      assert g.hub.clients == Overlay(s, g.locks).clients;
      assert g.hub.rooms == Overlay(s, g.locks).rooms;
    }
  }

  lemma StageLeavesShown(locks: map<nat, Region>, r: nat, region: Region, d: nat, client: H.Client)
    requires r in locks && Handled(region) == Handled(locks[r]) && !region.stage.ClosedIt? && !locks[r].stage.ClosedIt?
    ensures ShownClient(client, locks[r := region], d) == ShownClient(client, locks, d)
  {
    var now := locks[r := region];
    if q :| q in now && now[q].stage == ClosedIt(d) { assert locks[q].stage == ClosedIt(d); }
    if q :| q in locks && locks[q].stage == ClosedIt(d) { assert now[q].stage == ClosedIt(d); }
    if q :| q in now && d in Handled(now[q]) { assert d in Handled(locks[q]); }
    if q :| q in locks && d in Handled(locks[q]) { assert d in Handled(now[q]); }
  }

  /** Where the client of a stage stands in memory. */
  lemma CurrentShown(f: State, s: H.State, r: nat)
    requires Shows(f, s) && r in f.locks && f.locks[r].stage != NextOne
    ensures var c := f.locks[r].stage.c;
            && H.At(s, c) && H.At(f.hub, c) && RegionOk(s, r, f.locks[r])
            && f.hub.clients[c] == (if f.locks[r].stage.ClosedIt? then s.clients[c].(closes := s.clients[c].closes + 1) else s.clients[c])
            && s.clients[c].closes == (if s.clients[c].doneClosed then 1 else 0)
  {
    var c := f.locks[r].stage.c;
    assert RegionOk(s, r, f.locks[r]);
    if R.Open(s, c) { ShownOpen(s, f.locks, r, c); } else { ShownClosed(s, f.locks, c); }
  }

  lemma TestShows(f: State, s: H.State, r: nat)
    requires Shows(f, s)
    ensures Shows(Step(f, Test(r)), s)
  {
    hide HubOk, Overlay, ShownClient;
    var g := Step(f, Test(r));
    if g != f {
      CurrentShown(f, s, r);
      var c := f.locks[r].stage.c;
      var region := g.locks[r];
      if s.clients[c].doneClosed {
        LocksAfter(s, f.locks, r, region);
        ShownClosed(s, g.locks, c);
        OneClientShown(s, f.locks, r, region, c, s.clients[c]);
        assert WithClient(f.hub, c, s.clients[c]) == f.hub;
      } else {
        LocksAfter(s, f.locks, r, region);
        ShownOpen(s, g.locks, r, c);
        OneClientShown(s, f.locks, r, region, c, s.clients[c]);
        assert WithClient(f.hub, c, s.clients[c]) == f.hub;
      }
    }
  }

  lemma LocksAfter(s: H.State, locks: map<nat, Region>, r: nat, region: Region)
    requires LocksOk(s, locks) && r in locks && RegionOk(s, r, region)
    ensures LocksOk(s, locks[r := region])
  {
  }

  lemma CloseShows(f: State, s: H.State, r: nat)
    requires Shows(f, s)
    ensures Shows(Step(f, Close(r)), s)
  {
    hide HubOk, Overlay, ShownClient;
    if r in f.locks && f.locks[r].stage.Tested? {
      CurrentShown(f, s, r);
      var c := f.locks[r].stage.c;
      var region := f.locks[r].(stage := ClosedIt(c));
      LocksAfter(s, f.locks, r, region);
      ShownOpen(s, f.locks[r := region], r, c);
      OneClientShown(s, f.locks, r, region, c, s.clients[c].(closes := s.clients[c].closes + 1));
    }
  }

  lemma ClearShows(f: State, s: H.State, r: nat)
    requires Shows(f, s)
    ensures Shows(Step(f, Clear(r)), s)
  {
    hide HubOk, Overlay, ShownClient;
    if r in f.locks && f.locks[r].stage.ClosedIt? {
      CurrentShown(f, s, r);
      var c := f.locks[r].stage.c;
      var region := f.locks[r].(stage := NextOne);
      LocksAfter(s, f.locks, r, region);
      ShownOpen(s, f.locks[r := region], r, c);
      OneClientShown(s, f.locks, r, region, c, H.Closed(s.clients[c]));
    }
  }

  // ---- the end of a removal ----

  /** The step of `HubProtocol` that the whole removal amounts to. */
  function Whole(who: R.Remover): (a: H.Action) {
    match who
    case BySwitch(c) => H.RemoveFromOld(c)
    case ByEviction(k) => H.Evict(k)
    case ByHub => H.HubRemove
  }

  lemma WholeRemoval(s: H.State, who: R.Remover)
    requires R.Removes(s, who)
    ensures var t := H.RemoveClients(s, R.RoomOf(s, who), R.ClientsOf(s, who));
            && R.Removes(t, who) && R.RoomOf(t, who) == R.RoomOf(s, who)
            && H.Step(s, Whole(who)) == Finish(t, who)
  {
  }

  /** With its list done, the memory is what the removal in one step leaves. */
  lemma DoneShows(s: H.State, locks: map<nat, Region>, r: nat)
    requires HubOk(s) && LocksOk(s, locks) && r in locks && locks[r].stage == NextOne && locks[r].left == {} && r < |s.rooms|
    ensures Overlay(s, locks) == Overlay(H.RemoveClients(s, r, locks[r].all), locks - {r})
  {
    hide HubOk, LocksOk, ShownClient;
    var t := H.RemoveClients(s, r, locks[r].all);
    forall c | 0 <= c < |s.clients| ensures ShownClient(s.clients[c], locks, c) == ShownClient(t.clients[c], locks - {r}, c) {
      if c in locks[r].all { ListedShown(s, locks, r, c); } else { UnlistedShown(s, locks, r, c, s.clients[c]); }
    }
    assert Overlay(s, locks).clients == Overlay(t, locks - {r}).clients;
    DoneRooms(s, locks, r);
  }

  lemma DoneRooms(s: H.State, locks: map<nat, Region>, r: nat)
    requires r in locks && locks[r].left == {} && r < |s.rooms|
    ensures Overlay(s, locks).rooms == Overlay(H.RemoveClients(s, r, locks[r].all), locks - {r}).rooms
  {
    hide ShownClient, H.ClosedAll;
    assert locks[r].all - locks[r].left == locks[r].all;
  }

  lemma ListedShown(s: H.State, locks: map<nat, Region>, r: nat, c: nat)
    requires HubOk(s) && LocksOk(s, locks) && r in locks && locks[r].stage == NextOne && locks[r].left == {}
    requires c in locks[r].all && H.At(s, c)
    ensures ShownClient(s.clients[c], locks, c) == H.Closed(s.clients[c]) == ShownClient(H.Closed(s.clients[c]), locks - {r}, c)
  {
    hide HubOk;
    assert locks[r].all - locks[r].left - Current(NextOne) == locks[r].all;
    if R.Open(s, c) {
      ShownOpen(s, locks, r, c);
    } else {
      ShownClosed(s, locks, c);
    }
    forall q | q in locks - {r} ensures locks[q].stage != ClosedIt(c) {
      assert RegionOk(s, q, locks[q]);
      if locks[q].stage == ClosedIt(c) { OneRegion(s, locks, c, q, r); }
    }
  }

  lemma UnlistedShown(s: H.State, locks: map<nat, Region>, r: nat, c: nat, client: H.Client)
    requires LocksOk(s, locks) && r in locks && c !in locks[r].all
    ensures ShownClient(client, locks, c) == ShownClient(client, locks - {r}, c)
  {
    assert RegionOk(s, r, locks[r]);
    var rest := locks - {r};
    if q :| q in locks && locks[q].stage == ClosedIt(c) { assert q in rest && rest[q].stage == ClosedIt(c); }
    if q :| q in locks && c in Handled(locks[q]) { assert q in rest && c in Handled(rest[q]); }
  }

  lemma OthersStayLocked(s: H.State, locks: map<nat, Region>, r: nat)
    requires HubOk(s) && LocksOk(s, locks) && r in locks && r < |s.rooms|
    ensures LocksOk(H.RemoveClients(s, r, locks[r].all), locks - {r})
  {
    hide HubOk;
    var t := H.RemoveClients(s, r, locks[r].all);
    forall q | q in locks - {r} ensures RegionOk(t, q, locks[q]) {
      assert RegionOk(s, q, locks[q]);
      if (locks[q].stage.Tested? || locks[q].stage.ClosedIt?) && locks[q].stage.c in locks[r].all {
        OneRegion(s, locks, locks[q].stage.c, q, r);
      }
    }
  }

  lemma FieldsCommute(s: H.State, locks: map<nat, Region>, evictions: seq<H.Eviction>, hub: H.HubPc, total: int, gone: set<nat>)
    ensures Overlay(s.(evictions := evictions, hub := hub, totalClients := total, unregistered := gone), locks)
            == Overlay(s, locks).(evictions := evictions, hub := hub, totalClients := total, unregistered := gone)
  {
    hide HalfClosed, HandledSomewhere;
    var t := s.(evictions := evictions, hub := hub, totalClients := total, unregistered := gone);
    assert Overlay(t, locks).clients == Overlay(s, locks).clients && Overlay(t, locks).rooms == Overlay(s, locks).rooms;
  }

  lemma FinishCommutes(s: H.State, locks: map<nat, Region>, who: R.Remover)
    requires R.Removes(s, who)
    ensures R.Removes(Overlay(s, locks), who) && Finish(Overlay(s, locks), who) == Overlay(Finish(s, who), locks)
  {
    hide Overlay;
    SameRemovers(s, locks, who);
    match who
    case BySwitch(c) =>
      AlikeOverlay(s, locks, c);
      MovedCommutes(s, locks, c, H.Deciding(s.clients[c].pc.newRoom, s.clients[c].pc.name));
    case _ =>
      var t := Finish(s, who);
      OverlayKeepsCounts(s, locks);
      FieldsCommute(s, locks, t.evictions, t.hub, t.totalClients, t.unregistered);
  }

  lemma OverlayKeepsCounts(s: H.State, locks: map<nat, Region>)
    ensures var h := Overlay(s, locks);
            && h.totalClients == s.totalClients && h.unregistered == s.unregistered && h.evictions == s.evictions && h.hub == s.hub
            && h == s.(rooms := h.rooms, clients := h.clients)
  {
  }

  lemma FinishKeepsLocks(s: H.State, locks: map<nat, Region>, who: R.Remover)
    requires LocksOk(s, locks) && R.Removes(s, who) && R.RoomOf(s, who) !in locks
    ensures LocksOk(Finish(s, who), locks)
  {
    forall q | q in locks ensures RegionOk(Finish(s, who), q, locks[q]) {
      assert RegionOk(s, q, locks[q]) && locks[q].who != who;
    }
  }

  lemma HubStaysOk(s: H.State, a: H.Action)
    requires HubOk(s)
    ensures HubOk(H.Step(s, a))
  {
    hide P.Inv, R.Inv, C.Inv, H.Step;
    MembersExist(s);
    P.StepKeepsInv(s, a);
    R.StepKeepsInv(s, a);
    C.StepKeepsInv(s, a);
  }

  lemma MembersExist(s: H.State)
    requires P.Inv(s)
    ensures P.MembersExist(s)
  {
  }

  lemma UnlockShows(f: State, s: H.State, r: nat)
    requires Shows(f, s) && Step(f, Unlock(r)) != f
    ensures Shows(Step(f, Unlock(r)), H.Step(s, Whole(f.locks[r].who)))
  {
    hide HubOk, Overlay, ShownClient, H.RemoveClients, H.Step, Finish;
    var who, rest := f.locks[r].who, f.locks - {r};
    assert RegionOk(s, r, f.locks[r]);
    var t := H.RemoveClients(s, r, f.locks[r].all);
    WholeRemoval(s, who);
    DoneShows(s, f.locks, r);
    OthersStayLocked(s, f.locks, r);
    FinishCommutes(t, rest, who);
    FinishKeepsLocks(t, rest, who);
    HubStaysOk(s, Whole(who));
  }

  lemma AtomicShows(f: State, s: H.State, a: H.Action)
    requires Shows(f, s) && Allowed(f.hub, f.locks, a)
    ensures Shows(Step(f, Atomic(a)), H.Step(s, a))
  {
    hide HubOk, Overlay, H.Step, LocksOk, Allowed;
    AtomicCommutes(s, f.locks, a);
    AtomicKeepsLocks(s, f.locks, a);
    HubStaysOk(s, a);
  }

  // ---- whole runs ----

  /** One statement: nothing in `HubProtocol` yet, or one of its steps. */
  lemma StatementShows(f: State, s: H.State, action: Action) returns (steps: seq<H.Action>)
    requires Shows(f, s)
    ensures |steps| <= 1
    ensures Shows(Step(f, action), if steps == [] then s else H.Step(s, steps[0]))
  {
    hide Shows, Allowed, H.Step;
    steps := [];
    match action
    case Atomic(a) =>
      if Allowed(f.hub, f.locks, a) {
        AtomicShows(f, s, a);
        steps := [a];
      }
    case Lock(who) => LockShows(f, s, who);
    case Delete(r, c) => DeleteShows(f, s, r, c);
    case Test(r) => TestShows(f, s, r);
    case Close(r) => CloseShows(f, s, r);
    case Clear(r) => ClearShows(f, s, r);
    case Unlock(r) =>
      if Step(f, action) != f {
        UnlockShows(f, s, r);
        steps := [Whole(f.locks[r].who)];
      }
  }

  lemma Beginning()
    ensures Shows(After([]), H.After([]))
  {
    NoLocksNoOverlay(H.Start());
    P.RunKeepsInv([]);
    R.RunKeepsInv([]);
    C.CountsAreExact([]);
  }

  /**
   * Whatever the interleaving of the statements, the memory is that of a run of `HubProtocol`, in which each removal happens
   * as its lock is given back, overlaid with what the removals under way have done so far; and nobody panics.
   */
  lemma {:induction false} StatementsAreSteps(actions: seq<Action>) returns (run: seq<H.Action>)
    ensures var f := After(actions); f.hub == Overlay(H.After(run), f.locks) && LocksOk(H.After(run), f.locks) && !f.panicked
    ensures Shows(After(actions), H.After(run))
    decreases |actions|
  {
    hide Step, H.Step, Overlay, LocksOk, HubOk, H.After;
    if actions == [] {
      run := [];
      Beginning();
    } else {
      var before, last := actions[..|actions| - 1], actions[|actions| - 1];
      run := StatementsAreSteps(before);
      var steps := StatementShows(After(before), H.After(run), last);
      if steps != [] {
        H.AfterSnoc(run, steps[0]);
        run := run + [steps[0]];
      }
    }
  }

  // ---- and every run of the hub is such a run ----

  lemma AfterSnoc(actions: seq<Action>, a: Action)
    ensures After(actions + [a]) == Step(After(actions), a)
  {
    assert (actions + [a])[..|actions|] == actions;
  }

  /** The removal at `r` is the only one under way. */
  predicate Alone(f: State, r: nat) {
    f.locks.Keys == {r}
  }

  /** One client of the list, from the `delete` to the end of the loop's body. */
  lemma OneClientRemoved(actions: seq<Action>, s: H.State, r: nat, c: nat) returns (more: seq<Action>)
    requires var f := After(actions);
             Shows(f, s) && r in f.locks && Alone(f, r) && f.locks[r].stage == NextOne && c in f.locks[r].left
    ensures var f, g := After(actions), After(actions + more);
            && Shows(g, s) && Alone(g, r) && r in g.locks && r in f.locks
            && g.locks[r] == f.locks[r].(left := f.locks[r].left - {c})
  {
    hide After, Shows, Overlay, HubOk;
    var f := After(actions);
    RegionAt(f, s, r);
    AfterSnoc(actions, Delete(r, c));
    DeleteShows(f, s, r, c);
    var a1 := actions + [Delete(r, c)];
    CurrentShown(After(a1), s, r);
    AfterSnoc(a1, Test(r));
    TestShows(After(a1), s, r);
    var a2 := a1 + [Test(r)];
    assert actions + [Delete(r, c), Test(r)] == a2;
    if After(a2).locks[r].stage.NextOne? {
      more := [Delete(r, c), Test(r)];
    } else {
      CurrentShown(After(a2), s, r);
      AfterSnoc(a2, Close(r));
      CloseShows(After(a2), s, r);
      var a3 := a2 + [Close(r)];
      CurrentShown(After(a3), s, r);
      AfterSnoc(a3, Clear(r));
      ClearShows(After(a3), s, r);
      more := [Delete(r, c), Test(r), Close(r), Clear(r)];
      assert actions + more == a3 + [Clear(r)];
    }
  }

  lemma RegionAt(f: State, s: H.State, r: nat)
    requires Shows(f, s) && r in f.locks
    ensures RegionOk(s, r, f.locks[r]) && r < |f.hub.rooms| && R.Removes(f.hub, f.locks[r].who)
  {
    assert RegionOk(s, r, f.locks[r]);
    SameRemovers(s, f.locks, f.locks[r].who);
  }

  lemma {:induction false} ListWorkedOff(actions: seq<Action>, s: H.State, r: nat) returns (more: seq<Action>)
    requires var f := After(actions); Shows(f, s) && r in f.locks && Alone(f, r) && f.locks[r].stage == NextOne
    ensures var f, g := After(actions), After(actions + more);
            && Shows(g, s) && Alone(g, r) && r in g.locks && r in f.locks && g.locks[r] == f.locks[r].(left := {})
    decreases After(actions).locks[r].left
  {
    hide After, Shows;
    var left := After(actions).locks[r].left;
    if left == {} {
      more := [];
      assert actions + more == actions;
    } else {
      var c := SomeMember(left);
      var one := OneClientRemoved(actions, s, r, c);
      var rest := ListWorkedOff(actions + one, s, r);
      more := one + rest;
      assert actions + one + rest == actions + more;
    }
  }

  /** With no other removal under way, all its statements in a row are the removal in one step. */
  lemma RemovalInARow(actions: seq<Action>, s: H.State, who: R.Remover) returns (more: seq<Action>)
    requires Shows(After(actions), s) && After(actions).locks == map[] && R.Removes(s, who)
    ensures Shows(After(actions + more), H.Step(s, Whole(who))) && After(actions + more).locks == map[]
  {
    hide After, Shows, Overlay, H.Step;
    var f, r := After(actions), R.RoomOf(s, who);
    HubShown(f, s);
    AfterSnoc(actions, Lock(who));
    LockShows(f, s, who);
    var locked := actions + [Lock(who)];
    assert After(locked).locks == map[r := Region(who, R.ClientsOf(s, who), R.ClientsOf(s, who), NextOne)];
    var work := ListWorkedOff(locked, s, r);
    var done := After(locked + work);
    RegionAt(done, s, r);
    AfterSnoc(locked + work, Unlock(r));
    assert done.locks - {r} == map[];
    assert Step(done, Unlock(r)) != done;
    UnlockShows(done, s, r);
    more := [Lock(who)] + work + [Unlock(r)];
    assert actions + more == locked + work + [Unlock(r)];
  }

  lemma HubShown(f: State, s: H.State)
    requires Shows(f, s) && f.locks == map[]
    ensures f.hub == s
  {
    NoLocksNoOverlay(s);
  }

  /** The goroutine whose removal the step is, if it is one that takes a lock. */
  function RemoverOf(s: H.State, a: H.Action): (who: Option<R.Remover>)
    ensures who.Some? ==> R.Removes(s, who.value) && Whole(who.value) == a
    ensures who.None? ==> Allowed(s, map[], a)
  {
    if a.RemoveFromOld? && R.Removes(s, R.BySwitch(a.c)) then Some(R.BySwitch(a.c))
    else if a.Evict? && R.Removes(s, R.ByEviction(a.k)) then Some(R.ByEviction(a.k))
    else if a.HubRemove? && R.Removes(s, R.ByHub) then Some(R.ByHub)
    else None
  }

  lemma {:induction false} StepsAreStatements(run: seq<H.Action>) returns (actions: seq<Action>)
    ensures After(actions) == State(H.After(run), map[], false)
    ensures Shows(After(actions), H.After(run))
    decreases |run|
  {
    hide After, Shows, H.Step, Overlay;
    if run == [] {
      actions := [];
      Beginning();
      Empty();
    } else {
      var before, last := run[..|run| - 1], run[|run| - 1];
      actions := StepsAreStatements(before);
      var s := H.After(before);
      var who := RemoverOf(s, last);
      if who.Some? {
        var more := RemovalInARow(actions, s, who.value);
        actions := actions + more;
      } else {
        AfterSnoc(actions, Atomic(last));
        AtomicShows(After(actions), s, last);
        actions := actions + [Atomic(last)];
      }
      HubShown(After(actions), H.After(run));
      NotPanicked(After(actions), H.After(run));
    }
  }

  lemma Empty()
    ensures After([]) == State(H.After([]), map[], false)
  {
  }

  lemma NotPanicked(f: State, s: H.State)
    requires Shows(f, s)
    ensures !f.panicked
  {
  }

  /**
   * The memory at moments without a removal under way is exactly what the runs of `HubProtocol` reach: taking each removal
   * as one step neither hides a state nor invents one.
   */
  lemma UnlockedMomentsAreTheStepsStates(h: H.State)
    ensures (exists actions :: After(actions) == State(h, map[], false)) <==> (exists run :: H.After(run) == h)
  {
    hide After, H.After, Overlay;
    if actions :| After(actions) == State(h, map[], false) {
      var run := StatementsAreSteps(actions);
      NoLocksNoOverlay(H.After(run));
      assert H.After(run) == h;
    }
    if run :| H.After(run) == h {
      var actions := StepsAreStatements(run);
      assert After(actions) == State(h, map[], false);
    }
  }

  lemma ShownOnce(f: State, s: H.State, c: nat)
    requires Shows(f, s) && H.At(f.hub, c)
    ensures f.hub.clients[c].closes <= 1 && (f.hub.clients[c].doneClosed ==> f.hub.clients[c].closes == 1)
  {
    assert H.At(s, c) && f.hub.clients[c] == ShownClient(s.clients[c], f.locks, c);
    if !R.Open(s, c) { ShownClosed(s, f.locks, c); }
  }

  /** In every interleaving of the statements each `done` channel is closed at most once, and never through a nil field. */
  lemma DoneIsClosedOnce(actions: seq<Action>)
    ensures !After(actions).panicked
    ensures forall c :: 0 <= c < |After(actions).hub.clients| ==> After(actions).hub.clients[c].closes <= 1
  {
    hide After, H.After, Shows;
    var run := StatementsAreSteps(actions);
    forall c | 0 <= c < |After(actions).hub.clients| ensures After(actions).hub.clients[c].closes <= 1 {
      ShownOnce(After(actions), H.After(run), c);
    }
  }
}
