/**
 * When can an invite be used more often than its limit allows? From any reachable state, as long as the counter is
 * neither seeded again nor lost, no member row is removed and the clock does not run back: exactly when the rows and the
 * new users behind the uses in hand outgrow the limit, or the invite may still be granted and the rows and the uses in
 * hand outgrow the counter. The proof is a potential that no step raises, and that some continuation turns into rows.
 */
module InviteOverrun {
  import opened Common
  import opened InvitedMembers
  import opened InviteAcceptance
  import opened InviteProtocol
  import opened InviteRuns

  /** The uses the database counted at the start and all rows created with the code since. */
  function RowsEver(s: State, code: string, usedCount: nat): (n: nat) {
    usedCount + CreatedWith(s.world.log, code)
  }

  /** The counter is neither seeded nor lost, and no member row is removed, which no code of this backend does. */
  predicate Orderly(a: Action) {
    !a.Leave? && !a.ExpireCounter? && !a.SeedOnCreation? && (a.SeedCounter? ==> !a.redisUp)
  }

  predicate AllOrderly(actions: seq<Action>) {
    forall i :: 0 <= i < |actions| ==> Orderly(actions[i])
  }

  // ---- the clock ----

  /** What the clock showed when a step looked at it, or would have, had it been enabled. */
  function Reading(a: Action): (now: Option<int>) {
    match a
    case Validate(_, now) => Some(now)
    case ConsumeUse(_, now, _) => Some(now)
    case _ => None
  }

  /** The clock never runs back. */
  predicate ClockGrows(actions: seq<Action>) {
    forall i, j :: 0 <= i < j < |actions| && Reading(actions[i]).Some? && Reading(actions[j]).Some? ==>
      Reading(actions[i]).value <= Reading(actions[j]).value
  }

  predicate PastExpiry(invite: Invite, now: int) {
    invite.expiresAt.Some? && now > invite.expiresAt.value
  }

  /** The run has seen the invite expired. */
  predicate SeenExpired(run: seq<Action>, invite: Invite) {
    exists i :: 0 <= i < |run| && Reading(run[i]).Some? && PastExpiry(invite, Reading(run[i]).value)
  }

  /** All that looks at the clock does so at the moment `now`. */
  predicate AllAt(actions: seq<Action>, now: int) {
    forall i :: 0 <= i < |actions| && Reading(actions[i]).Some? ==> Reading(actions[i]).value == now
  }

  /** A use is granted only before the invite expires. */
  predicate GrantsNothing(a: Action, invite: Invite) {
    a.ConsumeUse? ==> PastExpiry(invite, a.now)
  }

  predicate AllGrantNothing(actions: seq<Action>, invite: Invite) {
    forall i :: 0 <= i < |actions| ==> GrantsNothing(actions[i], invite)
  }

  /** Where a growing clock has shown the invite expired, nothing is granted any more. */
  lemma NothingGrantedOnceExpired(run: seq<Action>, more: seq<Action>, invite: Invite)
    requires ClockGrows(run + more) && SeenExpired(run, invite)
    ensures AllGrantNothing(more, invite)
  {
    var i :| 0 <= i < |run| && Reading(run[i]).Some? && PastExpiry(invite, Reading(run[i]).value);
    forall j | 0 <= j < |more| ensures GrantsNothing(more[j], invite) {
      var all := run + more;
      assert all[i] == run[i] && all[|run| + j] == more[j];
      if more[j].ConsumeUse? {
        assert Reading(all[i]).value <= Reading(all[|run| + j]).value;
      }
    }
  }

  /** The latest reading there is, or some moment if there is none. */
  function Latest(run: seq<Action>): (now: int) {
    if run == [] then 0
    else if Reading(run[|run| - 1]).Some? then Reading(run[|run| - 1]).value
    else Latest(run[..|run| - 1])
  }

  lemma {:induction false} LatestIsLast(run: seq<Action>)
    requires ClockGrows(run)
    ensures forall i :: 0 <= i < |run| && Reading(run[i]).Some? ==> Reading(run[i]).value <= Latest(run)
    decreases |run|
  {
    if run != [] {
      var n := |run| - 1;
      LatestIsLast(run[..n]);
      assert forall i :: 0 <= i < n ==> run[..n][i] == run[i];
    }
  }

  /** A moment at which the clock may stand next, and the invite is still good unless the run has seen it expired. */
  function Moment(run: seq<Action>, invite: Invite): (now: int) {
    if invite.expiresAt.Some? then invite.expiresAt.value else Latest(run)
  }

  lemma ClockStandsAtMoment(run: seq<Action>, more: seq<Action>, invite: Invite)
    requires ClockGrows(run) && !SeenExpired(run, invite) && AllAt(more, Moment(run, invite))
    ensures ClockGrows(run + more)
  {
    LatestIsLast(run);
    var all := run + more;
    forall i, j | 0 <= i < j < |all| && Reading(all[i]).Some? && Reading(all[j]).Some?
      ensures Reading(all[i]).value <= Reading(all[j]).value
    {
      if i < |run| {
        assert all[i] == run[i];
        assert !PastExpiry(invite, Reading(run[i]).value);
      }
    }
  }

  /** No step that looks at the clock. */
  predicate Timeless(actions: seq<Action>) {
    forall i :: 0 <= i < |actions| ==> Reading(actions[i]).None?
  }

  lemma TimelessKeepsClock(run: seq<Action>, more: seq<Action>)
    requires ClockGrows(run) && Timeless(more)
    ensures ClockGrows(run + more)
  {
  }

  lemma OneMoreEvent(log: seq<ChangeEvent>, event: ChangeEvent, code: string)
    ensures CreatedWith(log + [event], code) == CreatedWith(log, code) + (if UsesInvite(event, code) then 1 else 0)
  {
    assert (log + [event])[..|log|] == log;
  }

  /** Acceptors about to insert their row. */
  function Inserting(acceptors: seq<Acceptor>): (n: nat) {
    if acceptors == [] then 0
    else Inserting(acceptors[..|acceptors| - 1]) + (if acceptors[|acceptors| - 1].pc.Holding? then 1 else 0)
  }

  /** Acceptors about to give their use back. */
  function RollingBack(acceptors: seq<Acceptor>): (n: nat) {
    if acceptors == [] then 0
    else RollingBack(acceptors[..|acceptors| - 1]) + (if acceptors[|acceptors| - 1].pc.InsertFailed? then 1 else 0)
  }

  function InsertingUsers(acceptors: seq<Acceptor>): (users: set<int>) {
    set p | 0 <= p < |acceptors| && acceptors[p].pc.Holding? :: acceptors[p].userID
  }

  /** The users among those about to insert who have no row yet: of two with one user, only one gets a row. */
  function NewUsers(s: State): (users: set<int>) {
    InsertingUsers(s.acceptors) - s.world.members
  }

  /** The uses in hand, and those the counter can still grant if all in hand are given back; negative at an overfull counter. */
  function Grantable(s: State, limit: int): (n: int)
    requires s.world.counter.Some?
  {
    limit - s.world.counter.value + RollingBack(s.acceptors) + Inserting(s.acceptors)
  }

  /** The rows there are, and the most that can still come; `granting` says that the invite may still be granted. */
  function Potential(s: State, invite: Invite, granting: bool): (n: nat)
    requires invite.maxUses.Some?
  {
    CreatedWith(s.world.log, invite.code)
    + (if !granting || s.world.counter.None? then |NewUsers(s)| else Max(|NewUsers(s)|, Grantable(s, invite.maxUses.value)))
  }

  lemma {:induction false} CountsAfterUpdate(acceptors: seq<Acceptor>, p: nat, a: Acceptor)
    requires p < |acceptors|
    ensures Inserting(acceptors[p := a])
            == Inserting(acceptors) - (if acceptors[p].pc.Holding? then 1 else 0) + (if a.pc.Holding? then 1 else 0)
    ensures RollingBack(acceptors[p := a])
            == RollingBack(acceptors) - (if acceptors[p].pc.InsertFailed? then 1 else 0) + (if a.pc.InsertFailed? then 1 else 0)
    decreases |acceptors|
  {
    var n := |acceptors| - 1;
    if p == n {
      assert acceptors[p := a][..n] == acceptors[..n];
    } else {
      CountsAfterUpdate(acceptors[..n], p, a);
      assert acceptors[p := a][..n] == acceptors[..n][p := a];
    }
  }

  lemma CountsAfterArrival(acceptors: seq<Acceptor>, a: Acceptor)
    requires !HoldsUse(a)
    ensures Inserting(acceptors + [a]) == Inserting(acceptors) && RollingBack(acceptors + [a]) == RollingBack(acceptors)
  {
    assert (acceptors + [a])[..|acceptors|] == acceptors;
  }

  lemma SubsetSize(a: set<int>, b: set<int>)
    requires a <= b
    ensures |a| <= |b|
  {
    assert b == a + (b - a);
    assert |b| == |a| + |b - a|;
  }

  lemma UsersAfterUpdate(acceptors: seq<Acceptor>, p: nat, a: Acceptor)
    requires p < |acceptors| && a.userID == acceptors[p].userID
    ensures var users, now := InsertingUsers(acceptors), InsertingUsers(acceptors[p := a]);
            && (a.pc.Holding? == acceptors[p].pc.Holding? ==> now == users)
            && (!a.pc.Holding? ==> now <= users && users <= now + {a.userID})
            && (acceptors[p].pc.Holding? ==> a.userID in users)
  {
    var all := acceptors[p := a];
    forall u | u in InsertingUsers(acceptors) && u != a.userID ensures u in InsertingUsers(all) {
      var q :| 0 <= q < |acceptors| && acceptors[q].pc.Holding? && acceptors[q].userID == u;
      assert all[q] == acceptors[q];
    }
    forall u | u in InsertingUsers(all) && u != a.userID ensures u in InsertingUsers(acceptors) {
      var q :| 0 <= q < |all| && all[q].pc.Holding? && all[q].userID == u;
      assert all[q] == acceptors[q];
    }
    assert acceptors[p].pc.Holding? ==> a.userID in InsertingUsers(acceptors);
    assert all[p].pc.Holding? ==> a.userID in InsertingUsers(all);
    if !acceptors[p].pc.Holding? && !a.pc.Holding? {
      forall u | u in InsertingUsers(acceptors) ensures u in InsertingUsers(all) {
        var q :| 0 <= q < |acceptors| && acceptors[q].pc.Holding? && acceptors[q].userID == u;
        assert all[q] == acceptors[q];
      }
    }
    if !a.pc.Holding? {
      forall u | u in InsertingUsers(all) ensures u in InsertingUsers(acceptors) {
        var q :| 0 <= q < |all| && all[q].pc.Holding? && all[q].userID == u;
        assert all[q] == acceptors[q];
      }
    }
  }

  lemma UsersAfterArrival(acceptors: seq<Acceptor>, a: Acceptor)
    requires !a.pc.Holding?
    ensures InsertingUsers(acceptors + [a]) == InsertingUsers(acceptors)
  {
    var all := acceptors + [a];
    forall u | u in InsertingUsers(acceptors) ensures u in InsertingUsers(all) {
      var q :| 0 <= q < |acceptors| && acceptors[q].pc.Holding? && acceptors[q].userID == u;
      assert all[q] == acceptors[q];
    }
  }

  lemma {:induction false} NoMoreUsersThanUses(acceptors: seq<Acceptor>)
    ensures |InsertingUsers(acceptors)| <= Inserting(acceptors)
    decreases |acceptors|
  {
    if acceptors == [] {
      assert InsertingUsers(acceptors) == {};
    } else {
      var n := |acceptors| - 1;
      NoMoreUsersThanUses(acceptors[..n]);
      LastUser(acceptors);
    }
  }

  lemma LastUser(acceptors: seq<Acceptor>)
    requires acceptors != []
    ensures var n := |acceptors| - 1;
            |InsertingUsers(acceptors)| <= |InsertingUsers(acceptors[..n])| + (if acceptors[n].pc.Holding? then 1 else 0)
  {
    var n := |acceptors| - 1;
    var more := InsertingUsers(acceptors[..n]) + (if acceptors[n].pc.Holding? then {acceptors[n].userID} else {});
    forall u | u in InsertingUsers(acceptors) ensures u in more {
      var q :| 0 <= q < |acceptors| && acceptors[q].pc.Holding? && acceptors[q].userID == u;
      assert q < n ==> acceptors[..n][q] == acceptors[q];
    }
    SubsetSize(InsertingUsers(acceptors), more);
  }

  // ---- no step raises the potential ----

  lemma MoveKeepsPotential(s: State, p: nat, pc: Pc, invite: Invite, granting: bool)
    requires invite.maxUses.Some? && At(s, p) && !HoldsUse(s.acceptors[p]) && !pc.Holding? && !pc.InsertFailed?
    ensures Potential(Moved(s, p, pc), invite, granting) == Potential(s, invite, granting)
  {
    hide InsertingUsers, Inserting, RollingBack;
    CountsAfterUpdate(s.acceptors, p, s.acceptors[p].(pc := pc));
    UsersAfterUpdate(s.acceptors, p, s.acceptors[p].(pc := pc));
  }

  /** A granted use turns a grantable one into one in hand; whose it is makes no difference. */
  lemma ConsumeKeepsPotential(s: State, p: nat, invite: Invite, now: int, redisUp: bool, granting: bool)
    requires invite.maxUses.Some? && At(s, p) && s.acceptors[p].pc.NotMember? && (granting || PastExpiry(invite, now))
    ensures Potential(AfterConsume(s, p, invite, now, redisUp), invite, granting) == Potential(s, invite, granting)
  {
    hide InsertingUsers, Inserting, RollingBack;
    var result := Consume(s.world, invite, now, redisUp);
    var pc := if result.err.Some? then Finished(result.err) else Holding(s.ledger.epoch);
    var t := AfterConsume(s, p, invite, now, redisUp);
    CountsAfterUpdate(s.acceptors, p, s.acceptors[p].(pc := pc));
    UsersAfterUpdate(s.acceptors, p, s.acceptors[p].(pc := pc));
    if result.err.None? {
      UsersWithinUses(s);
      UsersWithinUses(t);
    }
  }

  lemma UsersWithinUses(s: State)
    ensures |NewUsers(s)| <= Inserting(s.acceptors)
  {
    NoMoreUsersThanUses(s.acceptors);
    SubsetSize(NewUsers(s), InsertingUsers(s.acceptors));
  }

  /** A new row, a burned use and a failed insert: the new users lose at least the user of the row. */
  lemma UsersAfterInsert(s: State, p: nat, code: string, dbUp: bool)
    requires At(s, p) && s.acceptors[p].pc.Holding?
    ensures var t, u := AfterInsert(s, p, code, dbUp), s.acceptors[p].userID;
            && NewUsers(t) <= NewUsers(s)
            && (dbUp && u !in s.world.members ==> u in NewUsers(s) && NewUsers(t) == NewUsers(s) - {u})
            && |NewUsers(t)| <= |NewUsers(s)| - (if dbUp && u !in s.world.members then 1 else 0)
  {
    hide InsertingUsers;
    var t, u := AfterInsert(s, p, code, dbUp), s.acceptors[p].userID;
    UsersAfterUpdate(s.acceptors, p, t.acceptors[p]);
    SubsetSize(NewUsers(t), NewUsers(s));
    if dbUp && u !in s.world.members {
      assert NewUsers(t) == NewUsers(s) - {u};
    }
  }

  lemma InsertMayLowerPotential(s: State, p: nat, invite: Invite, dbUp: bool, granting: bool)
    requires invite.maxUses.Some? && At(s, p) && s.acceptors[p].pc.Holding?
    ensures Potential(AfterInsert(s, p, invite.code, dbUp), invite, granting) <= Potential(s, invite, granting)
  {
    hide NewUsers, Inserting, RollingBack, CreatedWith;
    OneMoreEvent(s.world.log, RowCreated(Some(invite.code)), invite.code);
    CountsAfterUpdate(s.acceptors, p, s.acceptors[p].(pc := InsertFailed(s.acceptors[p].pc.epoch)));
    CountsAfterUpdate(s.acceptors, p, s.acceptors[p].(pc := Finished(None)));
    UsersAfterInsert(s, p, invite.code, dbUp);
  }

  lemma RollbackMayLowerPotential(s: State, p: nat, redisUp: bool, invite: Invite, granting: bool)
    requires invite.maxUses.Some? && At(s, p) && s.acceptors[p].pc.InsertFailed?
    ensures Potential(AfterRollback(s, p, redisUp), invite, granting) <= Potential(s, invite, granting)
  {
    hide InsertingUsers, Inserting, RollingBack;
    CountsAfterUpdate(s.acceptors, p, s.acceptors[p].(pc := Finished(Some(Internal))));
    UsersAfterUpdate(s.acceptors, p, s.acceptors[p].(pc := Finished(Some(Internal))));
  }

  lemma UseStepMayLowerPotential(s: State, a: Action, invite: Invite, granting: bool)
    requires s.world.folded <= |s.world.log| && (a.ConsumeUse? || a.InsertMember? || a.RollbackUse?) && invite.maxUses.Some?
    requires granting || GrantsNothing(a, invite)
    ensures Potential(Step(s, a, invite), invite, granting) <= Potential(s, invite, granting)
  {
    if At(s, a.p) {
      match a
      case ConsumeUse(p, now, up) =>
        if s.acceptors[p].pc.NotMember? { ConsumeKeepsPotential(s, p, invite, now, up, granting); }
      case InsertMember(p, up) =>
        if s.acceptors[p].pc.Holding? { InsertMayLowerPotential(s, p, invite, up, granting); }
      case RollbackUse(p, up) =>
        if s.acceptors[p].pc.InsertFailed? { RollbackMayLowerPotential(s, p, up, invite, granting); }
    }
  }

  lemma MoveStepKeepsPotential(s: State, a: Action, invite: Invite, granting: bool)
    requires s.world.folded <= |s.world.log| && Orderly(a) && invite.maxUses.Some?
    requires a.LoadInvite? || a.SelectInvite? || a.ShareReload? || a.SeedCounter? || a.Validate? || a.CheckMember?
    ensures Potential(Step(s, a, invite), invite, granting) == Potential(s, invite, granting)
  {
    var t := Step(s, a, invite);
    if t != s {
      MoveKeepsPotential(s, a.p, t.acceptors[a.p].pc, invite, granting);
    }
  }

  lemma TableStepMayLowerPotential(s: State, a: Action, invite: Invite, granting: bool)
    requires s.world.folded <= |s.world.log| && invite.maxUses.Some?
    requires a.Arrive? || a.OtherInsert? || a.FoldEvents?
    ensures Potential(Step(s, a, invite), invite, granting) <= Potential(s, invite, granting)
  {
    hide InsertingUsers, Inserting, RollingBack, CreatedWith;
    match a
    case Arrive(u) =>
      CountsAfterArrival(s.acceptors, Acceptor(u, Arrived));
      UsersAfterArrival(s.acceptors, Acceptor(u, Arrived));
    case OtherInsert(_, code) =>
      OneMoreEvent(s.world.log, RowCreated(code), invite.code);
      SubsetSize(NewUsers(Step(s, a, invite)), NewUsers(s));
    case FoldEvents(_, _) =>
  }

  lemma StepMayLowerPotential(s: State, a: Action, invite: Invite, granting: bool)
    requires s.world.folded <= |s.world.log| && Orderly(a) && invite.maxUses.Some?
    requires granting || GrantsNothing(a, invite)
    ensures Potential(Step(s, a, invite), invite, granting) <= Potential(s, invite, granting)
  {
    hide Step;
    if a.ConsumeUse? || a.InsertMember? || a.RollbackUse? { UseStepMayLowerPotential(s, a, invite, granting); }
    else if a.Arrive? || a.OtherInsert? || a.FoldEvents? { TableStepMayLowerPotential(s, a, invite, granting); }
    else { MoveStepKeepsPotential(s, a, invite, granting); }
  }

  lemma {:induction false} RunMayLowerPotential(s: State, actions: seq<Action>, invite: Invite, granting: bool)
    requires s.world.folded <= |s.world.log| && AllOrderly(actions) && invite.maxUses.Some?
    requires granting || AllGrantNothing(actions, invite)
    ensures Potential(RunFrom(s, actions, invite), invite, granting) <= Potential(s, invite, granting)
    decreases |actions|
  {
    hide Step;
    if actions != [] {
      StepMayLowerPotential(s, actions[0], invite, granting);
      RunMayLowerPotential(Step(s, actions[0], invite), actions[1..], invite, granting);
    }
  }

  // ---- some continuation turns it into rows ----

  lemma {:induction false} SomeoneInserting(acceptors: seq<Acceptor>) returns (p: nat)
    requires Inserting(acceptors) > 0
    ensures p < |acceptors| && acceptors[p].pc.Holding?
    decreases |acceptors|
  {
    p := |acceptors| - 1;
    if !acceptors[p].pc.Holding? {
      p := SomeoneInserting(acceptors[..p]);
    }
  }

  lemma {:induction false} SomeoneRollingBack(acceptors: seq<Acceptor>) returns (p: nat)
    requires RollingBack(acceptors) > 0
    ensures p < |acceptors| && acceptors[p].pc.InsertFailed?
    decreases |acceptors|
  {
    p := |acceptors| - 1;
    if !acceptors[p].pc.InsertFailed? {
      p := SomeoneRollingBack(acceptors[..p]);
    }
  }

  lemma AfterTwo(run: seq<Action>, a: Action, b: Action, invite: Invite, usedCount: nat)
    ensures After(run + [a, b], invite, usedCount) == Step(Step(After(run, invite, usedCount), a, invite), b, invite)
  {
    hide Step;
    assert (run + [a, b])[..|run| + 1] == run + [a];
    assert (run + [a])[..|run|] == run;
  }

  lemma AfterOne(run: seq<Action>, a: Action, invite: Invite, usedCount: nat)
    ensures After(run + [a], invite, usedCount) == Step(After(run, invite, usedCount), a, invite)
  {
    hide Step;
    assert (run + [a])[..|run|] == run;
  }

  predicate NobodyHolds(acceptors: seq<Acceptor>) {
    forall p :: 0 <= p < |acceptors| ==> !HoldsUse(acceptors[p])
  }

  lemma NoLimitNoUse(s: State, a: Action, invite: Invite)
    requires s.world.folded <= |s.world.log| && invite.maxUses.Some? && invite.maxUses.value <= 0
    requires NobodyHolds(s.acceptors)
    ensures NobodyHolds(Step(s, a, invite).acceptors)
  {
  }

  /** Uses are granted only by invites with a positive limit. */
  lemma {:induction false} HoldersHaveALimit(run: seq<Action>, invite: Invite, usedCount: nat)
    requires invite.maxUses.Some?
    ensures invite.maxUses.value <= 0 ==> NobodyHolds(After(run, invite, usedCount).acceptors)
    decreases |run|
  {
    hide Step;
    if run != [] && invite.maxUses.value <= 0 {
      HoldersHaveALimit(run[..|run| - 1], invite, usedCount);
      NoLimitNoUse(After(run[..|run| - 1], invite, usedCount), run[|run| - 1], invite);
    }
  }

  lemma NewUserInserted(s: State, p: nat, invite: Invite, granting: bool)
    requires s.world.folded <= |s.world.log| && invite.code != "" && invite.maxUses.Some?
    requires At(s, p) && s.acceptors[p].pc.Holding? && s.acceptors[p].userID in NewUsers(s)
    ensures var t := Step(s, InsertMember(p, true), invite);
            |NewUsers(t)| == |NewUsers(s)| - 1 && Potential(t, invite, granting) == Potential(s, invite, granting)
  {
    hide NewUsers, Inserting, RollingBack, CreatedWith;
    UserIsNew(s, s.acceptors[p].userID);
    OneMoreEvent(s.world.log, RowCreated(Some(invite.code)), invite.code);
    CountsAfterUpdate(s.acceptors, p, s.acceptors[p].(pc := Finished(None)));
    UsersAfterInsert(s, p, invite.code, true);
  }

  lemma UserIsNew(s: State, u: int)
    ensures u in NewUsers(s) <==> u !in s.world.members && exists p :: 0 <= p < |s.acceptors| && s.acceptors[p].pc.Holding? && s.acceptors[p].userID == u
  {
  }

  /** First every new user's use becomes a row. */
  lemma {:induction false} NewUsersInserted(run: seq<Action>, invite: Invite, usedCount: nat, granting: bool) returns (more: seq<Action>)
    requires invite.code != "" && invite.maxUses.Some?
    ensures AllOrderly(more) && Timeless(more)
    ensures var s, t := After(run, invite, usedCount), After(run + more, invite, usedCount);
            NewUsers(t) == {} && Potential(t, invite, granting) == Potential(s, invite, granting)
    decreases |NewUsers(After(run, invite, usedCount))|
  {
    hide Step, NewUsers, Potential;
    var s := After(run, invite, usedCount);
    if NewUsers(s) == {} {
      more := [];
      assert run + more == run;
    } else {
      var u := SomeMember(NewUsers(s));
      UserIsNew(s, u);
      var p :| 0 <= p < |s.acceptors| && s.acceptors[p].pc.Holding? && s.acceptors[p].userID == u;
      var insert := InsertMember(p, true);
      AfterOne(run, insert, invite, usedCount);
      NewUserInserted(s, p, invite, granting);
      var rest := NewUsersInserted(run + [insert], invite, usedCount, granting);
      more := [insert] + rest;
      assert run + [insert] + rest == run + more;
    }
  }

  lemma OtherUseFailed(s: State, p: nat, invite: Invite)
    requires s.world.folded <= |s.world.log| && invite.maxUses.Some?
    requires At(s, p) && s.acceptors[p].pc.Holding? && NewUsers(s) == {}
    ensures var t := Step(s, InsertMember(p, false), invite);
            NewUsers(t) == {} && Inserting(t.acceptors) == Inserting(s.acceptors) - 1 && Potential(t, invite, true) == Potential(s, invite, true)
  {
    hide NewUsers, Inserting, RollingBack, CreatedWith;
    CountsAfterUpdate(s.acceptors, p, s.acceptors[p].(pc := InsertFailed(s.acceptors[p].pc.epoch)));
    UsersAfterInsert(s, p, invite.code, false);
  }

  /** Then the inserts of the others fail, so that their uses are given back. */
  lemma {:induction false} OtherUsesFailed(run: seq<Action>, invite: Invite, usedCount: nat) returns (more: seq<Action>)
    requires invite.maxUses.Some? && NewUsers(After(run, invite, usedCount)) == {}
    ensures AllOrderly(more) && Timeless(more)
    ensures var s, t := After(run, invite, usedCount), After(run + more, invite, usedCount);
            NewUsers(t) == {} && Inserting(t.acceptors) == 0 && Potential(t, invite, true) == Potential(s, invite, true)
    decreases Inserting(After(run, invite, usedCount).acceptors)
  {
    hide Step, NewUsers, Potential, Inserting;
    var s := After(run, invite, usedCount);
    if Inserting(s.acceptors) == 0 {
      more := [];
      assert run + more == run;
    } else {
      var p := SomeoneInserting(s.acceptors);
      var fail := InsertMember(p, false);
      AfterOne(run, fail, invite, usedCount);
      OtherUseFailed(s, p, invite);
      var rest := OtherUsesFailed(run + [fail], invite, usedCount);
      more := [fail] + rest;
      assert run + [fail] + rest == run + more;
    }
  }

  lemma {:induction false} SomeNonMember(members: set<int>) returns (u: int)
    ensures forall m :: m in members ==> m < u
    decreases |members|
  {
    u := 0;
    if members != {} {
      var m := SomeMember(members);
      var v := SomeNonMember(members - {m});
      u := if v > m then v else m + 1;
      assert members == members - {m} + {m};
    }
  }

  /** Every call goes well, and the clock stands still. */
  function AllWell(now: int): (o: Outcomes) {
    Outcomes(Hit, true, false, now, LookedUp, now, true, true, true)
  }

  lemma AcceptedWell(w: World, userID: int, invite: Invite, now: int)
    requires w.counter.Some? && w.counter.value >= 0 && userID !in w.members
    requires invite.maxUses.Some? && w.counter.value < invite.maxUses.value && !PastExpiry(invite, now)
    ensures Accepted(w, userID, invite, AllWell(now)).world
            == w.(counter := Some(w.counter.value + 1), members := w.members + {userID},
                  log := w.log + [RowCreated(Some(invite.code))])
  {
  }

  lemma AloneIsOrderly(p: nat, userID: int, now: int)
    ensures AllOrderly([Arrive(userID)] + Alone(p, AllWell(now))) && AllAt([Arrive(userID)] + Alone(p, AllWell(now)), now)
  {
  }

  /** While the counter is below the limit, one more acceptor adds a row. */
  lemma OneMoreRow(run: seq<Action>, invite: Invite, usedCount: nat, now: int) returns (call: seq<Action>)
    requires invite.code != "" && invite.maxUses.Some? && !PastExpiry(invite, now)
    requires var c := After(run, invite, usedCount).world.counter; c.Some? && 0 <= c.value < invite.maxUses.value
    ensures AllOrderly(call) && AllAt(call, now)
    ensures var s, t := After(run, invite, usedCount), After(run + call, invite, usedCount);
            && t.world.counter == Some(s.world.counter.value + 1)
            && CreatedWith(t.world.log, invite.code) == CreatedWith(s.world.log, invite.code) + 1
            && Inserting(t.acceptors) == Inserting(s.acceptors) && RollingBack(t.acceptors) == RollingBack(s.acceptors)
  {
    hide Step, CreatedWith, Inserting, RollingBack, AllOrderly, AllAt, Alone;
    var s := After(run, invite, usedCount);
    var u := SomeNonMember(s.world.members);
    call := [Arrive(u)] + Alone(|s.acceptors|, AllWell(now));
    CallsAreRuns(run, u, AllWell(now), invite, usedCount);
    assert Extended(run, |s.acceptors|, u, AllWell(now)) == run + call;
    AcceptedWell(s.world, u, invite, now);
    OneMoreEvent(s.world.log, RowCreated(Some(invite.code)), invite.code);
    CountsAfterArrival(s.acceptors, Acceptor(u, Finished(Accepted(s.world, u, invite, AllWell(now)).err)));
    AloneIsOrderly(|s.acceptors|, u, now);
  }

  /** So acceptors that come one after the other, at any moment before it expires, fill the invite up. */
  lemma {:induction false} FillUp(run: seq<Action>, n: nat, invite: Invite, usedCount: nat, now: int) returns (more: seq<Action>)
    requires invite.code != "" && invite.maxUses.Some? && !PastExpiry(invite, now)
    requires var c := After(run, invite, usedCount).world.counter;
             c.Some? && c.value >= 0 && (n > 0 ==> c.value + n <= invite.maxUses.value)
    ensures AllOrderly(more) && AllAt(more, now)
    ensures var s, t := After(run, invite, usedCount), After(run + more, invite, usedCount);
            && t.world.counter == Some(s.world.counter.value + n)
            && CreatedWith(t.world.log, invite.code) == CreatedWith(s.world.log, invite.code) + n
            && Inserting(t.acceptors) == Inserting(s.acceptors) && RollingBack(t.acceptors) == RollingBack(s.acceptors)
    decreases n
  {
    hide Step;
    if n == 0 {
      more := [];
      assert run + more == run;
    } else {
      var call := OneMoreRow(run, invite, usedCount, now);
      var rest := FillUp(run + call, n - 1, invite, usedCount, now);
      more := call + rest;
      assert run + call + rest == run + more;
    }
  }

  /** A use given back at a full counter can be granted again. */
  lemma RolledBackAtFullCounter(s: State, p: nat, invite: Invite)
    requires s.world.folded <= |s.world.log| && invite.maxUses.Some? && invite.maxUses.value > 0
    requires At(s, p) && s.acceptors[p].pc.InsertFailed?
    requires s.world.counter.Some? && s.world.counter.value >= invite.maxUses.value
    ensures var t := Step(s, RollbackUse(p, true), invite);
            && t.world.counter == Some(s.world.counter.value - 1)
            && RollingBack(t.acceptors) == RollingBack(s.acceptors) - 1 && Inserting(t.acceptors) == Inserting(s.acceptors)
            && Potential(t, invite, true) == Potential(s, invite, true)
    ensures AllOrderly([RollbackUse(p, true)]) && Timeless([RollbackUse(p, true)])
  {
    hide InsertingUsers, Inserting, RollingBack;
    CountsAfterUpdate(s.acceptors, p, s.acceptors[p].(pc := Finished(Some(Internal))));
    UsersAfterUpdate(s.acceptors, p, s.acceptors[p].(pc := Finished(Some(Internal))));
  }

  lemma CounterNotNegative(run: seq<Action>, invite: Invite, usedCount: nat)
    requires invite.code != "" && After(run, invite, usedCount).world.counter.Some?
    ensures After(run, invite, usedCount).world.counter.value >= 0
  {
    RunKeepsInv(run, invite, usedCount);
  }

  /** Filling up turns grantable uses into rows one for one. */
  lemma FilledUp(s: State, t: State, invite: Invite)
    requires invite.maxUses.Some? && s.world.counter.Some? && Inserting(s.acceptors) == 0
    requires var n := Max(0, invite.maxUses.value - s.world.counter.value);
             && t.world.counter == Some(s.world.counter.value + n)
             && CreatedWith(t.world.log, invite.code) == CreatedWith(s.world.log, invite.code) + n
             && Inserting(t.acceptors) == Inserting(s.acceptors) && RollingBack(t.acceptors) == RollingBack(s.acceptors)
    ensures Potential(t, invite, true) == Potential(s, invite, true) && t.world.counter.value >= invite.maxUses.value
  {
    hide NewUsers, Inserting, RollingBack;
    UsersWithinUses(s);
    UsersWithinUses(t);
  }

  lemma NothingLeftToGrant(s: State, invite: Invite)
    requires invite.maxUses.Some? && Inserting(s.acceptors) == 0
    requires s.world.counter.None? || (s.world.counter.value >= invite.maxUses.value && RollingBack(s.acceptors) == 0)
    ensures Potential(s, invite, true) == CreatedWith(s.world.log, invite.code)
  {
    hide NewUsers, Inserting, RollingBack;
    UsersWithinUses(s);
  }

  /** With no use to insert, filling up and rolling back in turn makes a row of all that is left of the potential. */
  lemma {:induction false} AllGranted(run: seq<Action>, invite: Invite, usedCount: nat, now: int) returns (more: seq<Action>)
    requires invite.code != "" && invite.maxUses.Some? && !PastExpiry(invite, now)
    requires Inserting(After(run, invite, usedCount).acceptors) == 0
    ensures AllOrderly(more) && AllAt(more, now)
    ensures CreatedWith(After(run + more, invite, usedCount).world.log, invite.code) == Potential(After(run, invite, usedCount), invite, true)
    decreases RollingBack(After(run, invite, usedCount).acceptors)
  {
    hide Step, Potential, CreatedWith, Inserting, RollingBack, AllOrderly, AllAt, Timeless;
    var s := After(run, invite, usedCount);
    if s.world.counter.None? {
      more := [];
      NothingToDo(now);
      assert run + more == run;
      NothingLeftToGrant(s, invite);
    } else {
      CounterNotNegative(run, invite, usedCount);
      var filling := FillUp(run, Max(0, invite.maxUses.value - s.world.counter.value), invite, usedCount, now);
      var full := After(run + filling, invite, usedCount);
      FilledUp(s, full, invite);
      if RollingBack(s.acceptors) == 0 {
        more := filling;
        NothingLeftToGrant(full, invite);
      } else {
        var p := SomeoneRollingBack(full.acceptors);
        HoldersHaveALimit(run + filling, invite, usedCount);
        var one := [RollbackUse(p, true)];
        AfterOne(run + filling, one[0], invite, usedCount);
        RolledBackAtFullCounter(full, p, invite);
        var rest := AllGranted(run + filling + one, invite, usedCount, now);
        more := filling + one + rest;
        assert run + filling + one + rest == run + more;
        InTurn(filling, one, rest, now);
      }
    }
  }

  /** The whole potential of a reachable state can become rows, and no more than that. */
  lemma PotentialBecomesRows(run: seq<Action>, invite: Invite, usedCount: nat) returns (more: seq<Action>)
    requires invite.code != "" && invite.maxUses.Some? && ClockGrows(run)
    ensures AllOrderly(more) && ClockGrows(run + more)
    ensures RowsEver(After(run + more, invite, usedCount), invite.code, usedCount)
            == usedCount + Potential(After(run, invite, usedCount), invite, !SeenExpired(run, invite))
  {
    hide Step, Potential, NewUsers, Inserting, RollingBack, ClockGrows, SeenExpired, AllOrderly, AllAt, Timeless, CreatedWith;
    var granting := !SeenExpired(run, invite);
    var inserts := NewUsersInserted(run, invite, usedCount, granting);
    if granting {
      var now := Moment(run, invite);
      var fails := OtherUsesFailed(run + inserts, invite, usedCount);
      var rest := AllGranted(run + inserts + fails, invite, usedCount, now);
      more := inserts + fails + rest;
      assert run + inserts + fails + rest == run + more;
      InTurn(inserts, fails, rest, now);
      StillGood(run, invite);
      ClockStandsAtMoment(run, more, invite);
    } else {
      more := inserts;
      NoNewUsersNoPotential(After(run + more, invite, usedCount), invite);
      TimelessKeepsClock(run, more);
    }
  }

  lemma StillGood(run: seq<Action>, invite: Invite)
    requires !SeenExpired(run, invite)
    ensures !PastExpiry(invite, Moment(run, invite))
  {
  }

  lemma NothingToDo(now: int)
    ensures AllOrderly([]) && AllAt([], now)
  {
  }

  lemma InTurn(a: seq<Action>, b: seq<Action>, c: seq<Action>, now: int)
    requires AllOrderly(a) && AllOrderly(b) && AllOrderly(c)
    requires (AllAt(a, now) || Timeless(a)) && Timeless(b) && AllAt(c, now)
    ensures AllOrderly(a + b + c) && AllAt(a + b + c, now)
  {
  }

  lemma NoNewUsersNoPotential(s: State, invite: Invite)
    requires invite.maxUses.Some? && NewUsers(s) == {}
    ensures Potential(s, invite, false) == CreatedWith(s.world.log, invite.code)
  {
  }

  /**
   * A continuation that creates more rows than the limit, the counter neither seeded nor lost, no row removed, and the
   * clock not running back.
   */
  ghost predicate Overruns(run: seq<Action>, more: seq<Action>, invite: Invite, usedCount: nat)
    requires invite.maxUses.Some?
  {
    && AllOrderly(more) && ClockGrows(run + more)
    && RowsEver(After(run + more, invite, usedCount), invite.code, usedCount) > invite.maxUses.value
  }

  lemma OverrunNeedsPotential(run: seq<Action>, more: seq<Action>, invite: Invite, usedCount: nat)
    requires invite.maxUses.Some? && Overruns(run, more, invite, usedCount)
    ensures usedCount + Potential(After(run, invite, usedCount), invite, !SeenExpired(run, invite)) > invite.maxUses.value
  {
    hide Potential, SeenExpired, ClockGrows;
    var granting := !SeenExpired(run, invite);
    if !granting { NothingGrantedOnceExpired(run, more, invite); }
    RunMayLowerPotential(After(run, invite, usedCount), more, invite, granting);
    AfterIsRunFrom(run, more, invite, usedCount);
    AtLeastTheRows(After(run + more, invite, usedCount), invite, granting);
  }

  lemma AtLeastTheRows(s: State, invite: Invite, granting: bool)
    requires invite.maxUses.Some?
    ensures Potential(s, invite, granting) >= CreatedWith(s.world.log, invite.code)
  {
  }

  /**
   * From every reachable state, and for steps this backend takes: some continuation overruns the limit if and only if the
   * rows and the new users behind the uses in hand exceed the limit, or the invite has not been seen expired, there is a
   * counter, and the rows and the uses in hand exceed the counter less the uses being given back.
   */
  lemma OverrunExactlyWhenCounterIsBehind(run: seq<Action>, invite: Invite, usedCount: nat)
    requires invite.code != "" && invite.maxUses.Some? && ClockGrows(run)
    ensures var s := After(run, invite, usedCount);
            (exists more :: Overruns(run, more, invite, usedCount))
            <==> RowsEver(s, invite.code, usedCount) + |NewUsers(s)| > invite.maxUses.value
                 || (!SeenExpired(run, invite) && s.world.counter.Some?
                     && RowsEver(s, invite.code, usedCount) + Inserting(s.acceptors)
                        > s.world.counter.value - RollingBack(s.acceptors))
  {
    hide Step, After, NewUsers, Inserting, RollingBack, SeenExpired, ClockGrows;
    var granting := !SeenExpired(run, invite);
    if more :| Overruns(run, more, invite, usedCount) {
      OverrunNeedsPotential(run, more, invite, usedCount);
    }
    if usedCount + Potential(After(run, invite, usedCount), invite, granting) > invite.maxUses.value {
      var more := PotentialBecomesRows(run, invite, usedCount);
      assert Overruns(run, more, invite, usedCount);
    }
  }

  /** One acceptor takes the only use of an invite; before it inserts its row another one reloads and seeds the counter. */
  function TakeAUse(): (run: seq<Action>) {
    [SeedOnCreation, Arrive(1)] + [LoadInvite(0, Hit), Validate(0, 0)] + [CheckMember(0, LookedUp), ConsumeUse(0, 0, true)]
  }

  function Reload(): (run: seq<Action>) {
    [Arrive(2), LoadInvite(1, RedisError)] + [SelectInvite(1, true), SeedCounter(1, true)]
  }

  lemma AfterTakingAUse(code: string)
    ensures var s := After(TakeAUse(), Invite(code, Some(1), None), 0);
            && s.world == World(Some(1), 0, {}, [], 0) && s.ledger.epoch == 1
            && s.acceptors == [Acceptor(1, Holding(1))]
  {
    var invite, arrived := Invite(code, Some(1), None), [SeedOnCreation, Arrive(1)];
    AfterTwo([], SeedOnCreation, Arrive(1), invite, 0);
    assert [] + arrived == arrived;
    assert After(arrived, invite, 0).acceptors == [Acceptor(1, Arrived)];
    AfterTwo(arrived, LoadInvite(0, Hit), Validate(0, 0), invite, 0);
    var validated := arrived + [LoadInvite(0, Hit), Validate(0, 0)];
    assert After(validated, invite, 0).acceptors == [Acceptor(1, Validated)];
    AfterTwo(validated, CheckMember(0, LookedUp), ConsumeUse(0, 0, true), invite, 0);
  }

  lemma AfterReloading(run: seq<Action>, code: string)
    requires var s := After(run, Invite(code, Some(1), None), 0);
             s.world.usedCount == 0 && s.acceptors == [Acceptor(1, Holding(1))]
    ensures var s, t := After(run, Invite(code, Some(1), None), 0), After(run + Reload(), Invite(code, Some(1), None), 0);
            && t.world == s.world.(counter := Some(0))
            && t.acceptors == [Acceptor(1, Holding(1)), Acceptor(2, HasInvite)]
  {
    var invite, loading := Invite(code, Some(1), None), [Arrive(2), LoadInvite(1, RedisError)];
    AfterTwo(run, Arrive(2), LoadInvite(1, RedisError), invite, 0);
    assert After(run + loading, invite, 0).acceptors == [Acceptor(1, Holding(1)), Acceptor(2, Reloading)];
    AfterTwo(run + loading, SelectInvite(1, true), SeedCounter(1, true), invite, 0);
    assert run + loading + [SelectInvite(1, true), SeedCounter(1, true)] == run + Reload();
  }

  /** No row is uncounted then, and yet the limit of one can be exceeded: the use in hand is not in the new count. */
  lemma ReloadWithAUseInHandAllowsAnOverrun(code: string)
    requires code != ""
    ensures var invite := Invite(code, Some(1), None); var s := After(TakeAUse() + Reload(), invite, 0);
            && s.world.counter == Some(0) && RowsEver(s, code, 0) == 0
            && exists more :: Overruns(TakeAUse() + Reload(), more, invite, 0)
  {
    hide Step;
    AfterTakingAUse(code);
    AfterReloading(TakeAUse(), code);
    OneInsertingOfTwo(Acceptor(1, Holding(1)), Acceptor(2, HasInvite));
    OverrunExactlyWhenCounterIsBehind(TakeAUse() + Reload(), Invite(code, Some(1), None), 0);
  }

  lemma OneInsertingOfTwo(a: Acceptor, b: Acceptor)
    requires a.pc.Holding? && !HoldsUse(b)
    ensures Inserting([a, b]) == 1 && RollingBack([a, b]) == 0
  {
    assert [a] + [b] == [a, b] && [a][..0] == [];
    CountsAfterArrival([a], b);
  }
}
