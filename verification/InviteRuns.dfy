/**
 * Runs of the invite protocol one acceptor at a time: they are the sequential method, and two of them are enough
 * to exceed a limit when the counter is seeded from a count that lags behind the rows.
 */
module InviteRuns {
  import opened Common
  import opened InvitedMembers
  import opened InviteAcceptance
  import opened InviteProtocol

  function RunFrom(s: State, actions: seq<Action>, invite: Invite): (r: State)
    requires s.world.folded <= |s.world.log|
    ensures r.world.folded <= |r.world.log|
    decreases |actions|
  {
    if actions == [] then s else RunFrom(Step(s, actions[0], invite), actions[1..], invite)
  }

  lemma {:induction false} AfterIsRunFrom(run: seq<Action>, actions: seq<Action>, invite: Invite, usedCount: nat)
    ensures After(run + actions, invite, usedCount) == RunFrom(After(run, invite, usedCount), actions, invite)
    decreases |actions|
  {
    if actions == [] {
      assert run + actions == run;
    } else {
      var longer := run + [actions[0]];
      assert longer[..|run|] == run;
      assert run + actions == longer + actions[1..];
      AfterIsRunFrom(longer, actions[1..], invite, usedCount);
    }
  }

  lemma RunFromTwo(s: State, a: Action, b: Action, rest: seq<Action>, invite: Invite)
    requires s.world.folded <= |s.world.log|
    ensures RunFrom(s, [a, b] + rest, invite) == RunFrom(Step(Step(s, a, invite), b, invite), rest, invite)
  {
    assert ([a, b] + rest)[1..] == [b] + rest;
    assert ([b] + rest)[1..] == rest;
  }

  /** The actions of acceptor `p`, with the outcomes of its calls. Those it does not reach change nothing. */
  function Alone(p: nat, o: Outcomes): (actions: seq<Action>) {
    [LoadInvite(p, o.cache), SelectInvite(p, o.inviteFound)]
    + ([SeedCounter(p, o.seedOk), Validate(p, o.validatedAt)]
    + ([CheckMember(p, o.member), ConsumeUse(p, o.consumedAt, o.consumeUp)]
    + ([InsertMember(p, o.insertUp), RollbackUse(p, o.rollbackUp)] + [])))
  }

  /** The state after two actions. */
  function Two(s: State, a: Action, b: Action, invite: Invite): (r: State)
    requires s.world.folded <= |s.world.log|
    ensures r.world.folded <= |r.world.log|
  {
    Step(Step(s, a, invite), b, invite)
  }

  lemma AloneInPairs(s: State, p: nat, o: Outcomes, invite: Invite)
    requires s.world.folded <= |s.world.log|
    ensures var s2 := Two(s, LoadInvite(p, o.cache), SelectInvite(p, o.inviteFound), invite);
            var s4 := Two(s2, SeedCounter(p, o.seedOk), Validate(p, o.validatedAt), invite);
            var s6 := Two(s4, CheckMember(p, o.member), ConsumeUse(p, o.consumedAt, o.consumeUp), invite);
            RunFrom(s, Alone(p, o), invite) == Two(s6, InsertMember(p, o.insertUp), RollbackUse(p, o.rollbackUp), invite)
  {
    var tail6 := [InsertMember(p, o.insertUp), RollbackUse(p, o.rollbackUp)] + [];
    var tail4 := [CheckMember(p, o.member), ConsumeUse(p, o.consumedAt, o.consumeUp)] + tail6;
    var tail2 := [SeedCounter(p, o.seedOk), Validate(p, o.validatedAt)] + tail4;
    RunFromTwo(s, LoadInvite(p, o.cache), SelectInvite(p, o.inviteFound), tail2, invite);
    var s2 := Two(s, LoadInvite(p, o.cache), SelectInvite(p, o.inviteFound), invite);
    RunFromTwo(s2, SeedCounter(p, o.seedOk), Validate(p, o.validatedAt), tail4, invite);
    var s4 := Two(s2, SeedCounter(p, o.seedOk), Validate(p, o.validatedAt), invite);
    RunFromTwo(s4, CheckMember(p, o.member), ConsumeUse(p, o.consumedAt, o.consumeUp), tail6, invite);
    var s6 := Two(s4, CheckMember(p, o.member), ConsumeUse(p, o.consumedAt, o.consumeUp), invite);
    RunFromTwo(s6, InsertMember(p, o.insertUp), RollbackUse(p, o.rollbackUp), [], invite);
  }

  /** An acceptor that runs undisturbed does to the world what the sequential method does, and ends with its reply. */
  lemma UndisturbedRun(s: State, p: nat, o: Outcomes, invite: Invite)
    requires s.world.folded <= |s.world.log| && At(s, p) && s.acceptors[p].pc.Arrived?
    ensures var r := RunFrom(s, Alone(p, o), invite); var expected := Accepted(s.world, s.acceptors[p].userID, invite, o);
            && r.world == expected.world
            && r.acceptors == s.acceptors[p := s.acceptors[p].(pc := Finished(expected.err))]
  {
    AloneInPairs(s, p, o, invite);
    var s2 := Loaded(s, p, o, invite);
    var s4 := Checked(s2, p, o, invite);
    var s6 := Consumed(s4, p, o, invite);
    var s8 := Inserted(s6, p, o, invite);
  }

  lemma Loaded(s: State, p: nat, o: Outcomes, invite: Invite) returns (r: State)
    requires s.world.folded <= |s.world.log| && At(s, p) && s.acceptors[p].pc.Arrived?
    ensures r == Two(s, LoadInvite(p, o.cache), SelectInvite(p, o.inviteFound), invite)
    ensures r.world == s.world
    ensures |r.acceptors| == |s.acceptors| && r.acceptors == s.acceptors[p := s.acceptors[p].(pc := r.acceptors[p].pc)]
    ensures r.acceptors[p].pc == if o.cache == Miss then Finished(Some(InvalidCode))
                                 else if o.cache == BadJson then Finished(Some(Internal))
                                 else if o.cache == Hit then HasInvite
                                 else if o.inviteFound then Seeding(s.world.usedCount) else Finished(Some(Internal))
  {
    r := Two(s, LoadInvite(p, o.cache), SelectInvite(p, o.inviteFound), invite);
  }

  lemma Checked(s: State, p: nat, o: Outcomes, invite: Invite) returns (r: State)
    requires s.world.folded <= |s.world.log| && At(s, p)
    requires s.acceptors[p].pc in {HasInvite, Seeding(s.world.usedCount)} || s.acceptors[p].pc.Finished?
    ensures r == Two(s, SeedCounter(p, o.seedOk), Validate(p, o.validatedAt), invite)
    ensures |r.acceptors| == |s.acceptors| && r.acceptors == s.acceptors[p := s.acceptors[p].(pc := r.acceptors[p].pc)]
    ensures r.world == if s.acceptors[p].pc.Seeding? && o.seedOk then s.world.(counter := Some(s.world.usedCount)) else s.world
    ensures r.acceptors[p].pc == if s.acceptors[p].pc.Finished? then s.acceptors[p].pc
                                 else if ValidateServerInvite(invite, o.validatedAt).Some?
                                 then Finished(ValidateServerInvite(invite, o.validatedAt)) else Validated
  {
    r := Two(s, SeedCounter(p, o.seedOk), Validate(p, o.validatedAt), invite);
  }

  lemma Consumed(s: State, p: nat, o: Outcomes, invite: Invite) returns (r: State)
    requires s.world.folded <= |s.world.log| && At(s, p)
    requires s.acceptors[p].pc.Validated? || s.acceptors[p].pc.Finished?
    ensures r == Two(s, CheckMember(p, o.member), ConsumeUse(p, o.consumedAt, o.consumeUp), invite)
    ensures |r.acceptors| == |s.acceptors| && r.acceptors == s.acceptors[p := s.acceptors[p].(pc := r.acceptors[p].pc)]
    ensures s.acceptors[p].pc.Finished? ==> r == s
    ensures s.acceptors[p].pc.Validated? ==>
              var consumed := Consume(s.world, invite, o.consumedAt, o.consumeUp);
              if o.member == LookupFailed then r.world == s.world && r.acceptors[p].pc == Finished(Some(Internal))
              else if o.member == LookedUp && s.acceptors[p].userID in s.world.members then
                r.world == s.world && r.acceptors[p].pc == Finished(Some(AlreadyMember))
              else
                r.world == consumed.world
                && r.acceptors[p].pc == if consumed.err.Some? then Finished(consumed.err) else Holding(s.ledger.epoch)
  {
    r := Two(s, CheckMember(p, o.member), ConsumeUse(p, o.consumedAt, o.consumeUp), invite);
    RollbackUndoesConsume(s.world.counter, ScriptLimit(invite));
  }

  lemma Inserted(s: State, p: nat, o: Outcomes, invite: Invite) returns (r: State)
    requires s.world.folded <= |s.world.log| && At(s, p)
    requires s.acceptors[p].pc.Holding? || s.acceptors[p].pc.Finished?
    ensures r == Two(s, InsertMember(p, o.insertUp), RollbackUse(p, o.rollbackUp), invite)
    ensures |r.acceptors| == |s.acceptors| && r.acceptors == s.acceptors[p := s.acceptors[p].(pc := r.acceptors[p].pc)]
    ensures s.acceptors[p].pc.Finished? ==> r == s
    ensures s.acceptors[p].pc.Holding? ==>
              var created := CreateMember(s.world, s.acceptors[p].userID, invite.code, o.insertUp);
              && r.acceptors[p].pc == Finished(created.err)
              && r.world == if created.err.None? then created.world else Rollback(created.world, o.rollbackUp).world
  {
    r := Two(s, InsertMember(p, o.insertUp), RollbackUse(p, o.rollbackUp), invite);
  }

  /** A run extended by one more acceptor, from its arrival to its reply, with nobody else moving. */
  function Extended(run: seq<Action>, p: nat, userID: int, o: Outcomes): (longer: seq<Action>) {
    run + [Arrive(userID)] + Alone(p, o)
  }

  /** So calls made one after the other are among the protocol's runs, with the replies of the sequential method. */
  lemma CallsAreRuns(run: seq<Action>, userID: int, o: Outcomes, invite: Invite, usedCount: nat)
    ensures var s := After(run, invite, usedCount); var expected := Accepted(s.world, userID, invite, o);
            var r := After(Extended(run, |s.acceptors|, userID, o), invite, usedCount);
            r.world == expected.world && r.acceptors == s.acceptors + [Acceptor(userID, Finished(expected.err))]
  {
    var s := After(run, invite, usedCount);
    var arrived := run + [Arrive(userID)];
    assert arrived[..|run|] == run;
    assert After(arrived, invite, usedCount) == Step(s, Arrive(userID), invite);
    AfterIsRunFrom(arrived, Alone(|s.acceptors|, o), invite, usedCount);
    UndisturbedRun(After(arrived, invite, usedCount), |s.acceptors|, o, invite);
  }

  /** Every call of an acceptor goes well, but Redis loses the cached invite, so it is loaded and the counter seeded. */
  const RELOADED: Outcomes := Outcomes(RedisError, true, true, 0, LookedUp, 0, true, true, true)

  /** A reload while the database counts nothing yet: one more use of a limit of one, whatever was used before. */
  lemma ReloadGrantsAUse(run: seq<Action>, userID: int, code: string)
    requires var w := After(run, Invite(code, Some(1), None), 0).world; w.usedCount == 0 && userID !in w.members
    ensures var invite := Invite(code, Some(1), None); var s := After(run, invite, 0);
            var r := After(Extended(run, |s.acceptors|, userID, RELOADED), invite, 0);
            && r.world == s.world.(counter := Some(1), members := s.world.members + {userID},
                                   log := s.world.log + [RowCreated(Some(code))])
            && r.acceptors == s.acceptors + [Acceptor(userID, Finished(None))]
  {
    hide After, Step, Extended;
    CallsAreRuns(run, userID, RELOADED, Invite(code, Some(1), None), 0);
  }

  /**
   * Two acceptors, one after the other, on an invite for one use: the second reloads before the first one's row
   * event is folded, so the counter starts again from 0 and both become members.
   */
  lemma ReloadBeforeTheFoldExceedsTheLimit(code: string)
    requires code != ""
    ensures var invite := Invite(code, Some(1), None);
            var s := After(Extended(Extended([], 0, 1, RELOADED), 1, 2, RELOADED), invite, 0);
            && s.world.members == {1, 2}
            && s.acceptors == [Acceptor(1, Finished(None)), Acceptor(2, Finished(None))]
            && !CleanEpoch(s)
  {
    hide Step;
    var invite := Invite(code, Some(1), None);
    assert After([], invite, 0) == Start(0);
    ReloadGrantsAUse([], 1, code);
    var once := Extended([], 0, 1, RELOADED);
    ReloadGrantsAUse(once, 2, code);
    var twice := Extended(once, 1, 2, RELOADED);
    var created := RowCreated(Some(code));
    CountTwo(code);
    assert After(twice, invite, 0).world.log == [created, created];
    assert [created, created][0..] == [created, created];
    CounterCoversUsedCount(twice, invite, 0);
  }

  lemma CountTwo(code: string)
    requires code != ""
    ensures CreatedWith([RowCreated(Some(code)), RowCreated(Some(code))], code) == 2
  {
    var e := RowCreated(Some(code));
    assert [e, e][..1] == [e] && [e][..0] == [];
    assert CreatedWith([e], code) == 1;
  }
}
