/**
 * Any number of acceptors of one invite (base/cacheStore/server/mutation.go:125-186), the reloads that seed the
 * counter again, expiry, and the consumer that folds row events into `used_count`, in every interleaving.
 * An action that is not enabled changes nothing, so every action sequence is a run. A panic ends its process; acceptors
 * that ended with it are those that never move again, and the run goes on with the next process.
 */
module InviteProtocol {
  import opened Common
  import opened InvitedMembers
  import opened InviteAcceptance

  /** Where an acceptor stands. `epoch` is the seeding during which it took its use. */
  datatype Pc =
    | Arrived
    | Reloading
    | Seeding(readCount: int)
    | HasInvite
    | Validated
    | NotMember
    | Holding(epoch: nat)
    | InsertFailed(epoch: nat)
    | Finished(err: Option<AppError>)

  datatype Acceptor = Acceptor(userID: int, pc: Pc)

  /**
   * History of the current epoch, which starts when the counter is seeded. `rows`, `burned` and `leaked` tell what
   * became of uses taken in the epoch: a row inserted, a duplicate row reported as success, a rollback that never
   * reached Redis. Acceptors still holding a use of an earlier epoch are stale; `staleRollbacks` counts the
   * decrements they made, `clamped` the rollbacks of this epoch that met a counter of 0.
   */
  datatype Ledger = Ledger(
    epoch: nat, seed: int, staleAtSeed: nat, caughtUp: bool,
    rows: nat, burned: nat, leaked: nat, staleRollbacks: nat, clamped: nat,
    rowsEver: nat, lostEvents: nat)

  datatype State = State(world: World, acceptors: seq<Acceptor>, ledger: Ledger)

  datatype Action =
    | Arrive(userID: int)
    | LoadInvite(p: nat, reply: CacheReply)
    | SelectInvite(p: nat, found: bool)
    | ShareReload(p: nat)
    | SeedCounter(p: nat, redisUp: bool)
    | Validate(p: nat, now: int)
    | CheckMember(p: nat, answer: MemberReply)
    | ConsumeUse(p: nat, now: int, redisUp: bool)
    | InsertMember(p: nat, dbUp: bool)
    | RollbackUse(p: nat, redisUp: bool)
    | SeedOnCreation
    | ExpireCounter
    | OtherInsert(userID: int, inviteCode: Option<string>)
    | Leave(userID: int)
    | FoldEvents(n: nat, dbUp: bool)

  function Start(usedCount: nat): (s: State) {
    State(World(None, usedCount, {}, [], 0), [], Ledger(0, 0, 0, false, 0, 0, 0, 0, 0, 0, 0))
  }

  predicate HoldsUse(a: Acceptor) {
    a.pc.Holding? || a.pc.InsertFailed?
  }

  predicate HoldsFresh(a: Acceptor, epoch: nat) {
    HoldsUse(a) && a.pc.epoch == epoch
  }

  /** Acceptors with an unresolved use of this epoch. */
  function Fresh(acceptors: seq<Acceptor>, epoch: nat): (n: nat) {
    if acceptors == [] then 0
    else Fresh(acceptors[..|acceptors| - 1], epoch) + (if HoldsFresh(acceptors[|acceptors| - 1], epoch) then 1 else 0)
  }

  /** Acceptors with an unresolved use of any epoch. */
  function Holders(acceptors: seq<Acceptor>): (n: nat) {
    if acceptors == [] then 0
    else Holders(acceptors[..|acceptors| - 1]) + (if HoldsUse(acceptors[|acceptors| - 1]) then 1 else 0)
  }

  /** Row events of this invite not folded yet. */
  function Pending(w: World, code: string): (n: nat)
    requires w.folded <= |w.log|
  {
    CreatedWith(w.log[w.folded..], code)
  }

  function Moved(s: State, p: nat, pc: Pc): (r: State)
    requires p < |s.acceptors|
  {
    s.(acceptors := s.acceptors[p := s.acceptors[p].(pc := pc)])
  }

  predicate At(s: State, p: nat) {
    p < |s.acceptors|
  }

  /** The counter is set to `count` and a new epoch begins. */
  function Seeded(s: State, count: int, code: string): (r: State)
    requires s.world.folded <= |s.world.log|
  {
    State(
      s.world.(counter := Some(count)),
      s.acceptors,
      Ledger(s.ledger.epoch + 1, count, Holders(s.acceptors),
             count >= s.world.usedCount + Pending(s.world, code),
             0, 0, 0, 0, 0, s.ledger.rowsEver, s.ledger.lostEvents))
  }

  function AfterConsume(s: State, p: nat, invite: Invite, now: int, redisUp: bool): (r: State)
    requires At(s, p)
  {
    var result := Consume(s.world, invite, now, redisUp);
    if result.err.Some? then Moved(s, p, Finished(result.err))
    else Moved(s, p, Holding(s.ledger.epoch)).(world := result.world)
  }

  function AfterInsert(s: State, p: nat, code: string, dbUp: bool): (r: State)
    requires At(s, p) && s.acceptors[p].pc.Holding?
  {
    var result := CreateMember(s.world, s.acceptors[p].userID, code, dbUp);
    var current := s.acceptors[p].pc.epoch == s.ledger.epoch;
    if result.err.Some? then Moved(s, p, InsertFailed(s.acceptors[p].pc.epoch))
    else if s.acceptors[p].userID in s.world.members then
      Moved(s, p, Finished(None)).(ledger := if current then s.ledger.(burned := s.ledger.burned + 1) else s.ledger)
    else
      var l := s.ledger.(rowsEver := s.ledger.rowsEver + 1);
      Moved(s, p, Finished(None)).(world := result.world, ledger := if current then l.(rows := l.rows + 1) else l)
  }

  function AfterRollback(s: State, p: nat, redisUp: bool): (r: State)
    requires At(s, p) && s.acceptors[p].pc.InsertFailed?
  {
    var result := Rollback(s.world, redisUp);
    var current := s.acceptors[p].pc.epoch == s.ledger.epoch;
    var l := s.ledger;
    var ledger :=
      if !redisUp then (if current then l.(leaked := l.leaked + 1) else l)
      else if s.world.counter.None? then (if current then l.(leaked := l.leaked + 1) else l)
      else if s.world.counter.value > 0 then (if current then l else l.(staleRollbacks := l.staleRollbacks + 1))
      else (if current then l.(clamped := l.clamped + 1) else l);
    Moved(s, p, Finished(Some(Internal))).(world := result.world, ledger := ledger)
  }

  function AfterFold(s: State, n: nat, dbUp: bool, code: string): (r: State)
    requires s.world.folded + n <= |s.world.log|
  {
    var w := s.world;
    var count := CreatedWith(w.log[w.folded..w.folded + n], code);
    if dbUp then s.(world := w.(folded := w.folded + n, usedCount := w.usedCount + count))
    else s.(world := w.(folded := w.folded + n), ledger := s.ledger.(lostEvents := s.ledger.lostEvents + count))
  }

  function Step(s: State, action: Action, invite: Invite): (r: State)
    requires s.world.folded <= |s.world.log|
    ensures r.world.folded <= |r.world.log|
  {
    match action
    case Arrive(u) => s.(acceptors := s.acceptors + [Acceptor(u, Arrived)])
    case LoadInvite(p, reply) =>
      if !At(s, p) || !s.acceptors[p].pc.Arrived? then s
      else Moved(s, p, match reply
                       case Miss => Finished(Some(InvalidCode))
                       case Hit => HasInvite
                       case BadJson => Finished(Some(Internal))
                       case RedisError => Reloading)
    case SelectInvite(p, found) =>
      if !At(s, p) || !s.acceptors[p].pc.Reloading? then s
      else Moved(s, p, if found then Seeding(s.world.usedCount) else Finished(Some(Internal)))
    case ShareReload(p) =>
      if !At(s, p) || !s.acceptors[p].pc.Reloading? then s else Moved(s, p, HasInvite)
    case SeedCounter(p, redisUp) =>
      if !At(s, p) || !s.acceptors[p].pc.Seeding? then s
      else
        var moved := Moved(s, p, HasInvite);
        if redisUp then Seeded(moved, s.acceptors[p].pc.readCount, invite.code) else moved
    case Validate(p, now) =>
      if !At(s, p) || !s.acceptors[p].pc.HasInvite? then s
      else
        var err := ValidateServerInvite(invite, now);
        Moved(s, p, if err.Some? then Finished(err) else Validated)
    case CheckMember(p, reply) =>
      if !At(s, p) || !s.acceptors[p].pc.Validated? then s
      else Moved(s, p, match reply
                       case LookupFailed => Finished(Some(Internal))
                       case ServerUnknown => NotMember
                       case LookedUp => if s.acceptors[p].userID in s.world.members then Finished(Some(AlreadyMember))
                                        else NotMember)
    case ConsumeUse(p, now, redisUp) =>
      if !At(s, p) || !s.acceptors[p].pc.NotMember? then s else AfterConsume(s, p, invite, now, redisUp)
    case InsertMember(p, dbUp) =>
      if !At(s, p) || !s.acceptors[p].pc.Holding? then s else AfterInsert(s, p, invite.code, dbUp)
    case RollbackUse(p, redisUp) =>
      if !At(s, p) || !s.acceptors[p].pc.InsertFailed? then s else AfterRollback(s, p, redisUp)
    case SeedOnCreation =>
      var seed := SeedOnCreate(invite.maxUses, 0);
      if seed.Seeded? then Seeded(s, seed.count, invite.code) else s
    case ExpireCounter => s.(world := s.world.(counter := None))
    case OtherInsert(u, code) =>
      if u in s.world.members || code == Some(invite.code) then s
      else s.(world := s.world.(members := s.world.members + {u}, log := s.world.log + [RowCreated(code)]))
    case Leave(u) => s.(world := s.world.(members := s.world.members - {u}, log := s.world.log + [OtherChange]))
    case FoldEvents(n, dbUp) =>
      if s.world.folded + n > |s.world.log| then s else AfterFold(s, n, dbUp, invite.code)
  }

  /** The state after a run. */
  function After(run: seq<Action>, invite: Invite, usedCount: nat): (s: State)
    ensures s.world.folded <= |s.world.log|
  {
    if run == [] then Start(usedCount)
    else Step(After(run[..|run| - 1], invite, usedCount), run[|run| - 1], invite)
  }

  // ---- counting acceptors ----

  lemma {:induction false} CountsUpdate(acceptors: seq<Acceptor>, p: nat, a: Acceptor, epoch: nat)
    requires p < |acceptors|
    ensures Fresh(acceptors[p := a], epoch)
            == Fresh(acceptors, epoch) - (if HoldsFresh(acceptors[p], epoch) then 1 else 0)
               + (if HoldsFresh(a, epoch) then 1 else 0)
    ensures Holders(acceptors[p := a])
            == Holders(acceptors) - (if HoldsUse(acceptors[p]) then 1 else 0) + (if HoldsUse(a) then 1 else 0)
    decreases |acceptors|
  {
    var n := |acceptors| - 1;
    if p == n {
      assert acceptors[p := a][..n] == acceptors[..n];
    } else {
      CountsUpdate(acceptors[..n], p, a, epoch);
      assert acceptors[p := a][..n] == acceptors[..n][p := a];
    }
  }

  lemma {:induction false} NobodyIsFreshYet(acceptors: seq<Acceptor>, epoch: nat)
    requires forall i :: 0 <= i < |acceptors| && HoldsUse(acceptors[i]) ==> acceptors[i].pc.epoch < epoch
    ensures Fresh(acceptors, epoch) == 0
    decreases |acceptors|
  {
    if acceptors != [] {
      NobodyIsFreshYet(acceptors[..|acceptors| - 1], epoch);
    }
  }

  lemma {:induction false} FreshAreHolders(acceptors: seq<Acceptor>, epoch: nat)
    ensures Fresh(acceptors, epoch) <= Holders(acceptors)
    decreases |acceptors|
  {
    if acceptors != [] {
      FreshAreHolders(acceptors[..|acceptors| - 1], epoch);
    }
  }

  lemma {:induction false} AHolderCounts(acceptors: seq<Acceptor>, p: nat, epoch: nat)
    requires p < |acceptors|
    ensures HoldsFresh(acceptors[p], epoch) ==> Fresh(acceptors, epoch) > 0
    ensures HoldsUse(acceptors[p]) && !HoldsFresh(acceptors[p], epoch) ==> Holders(acceptors) > Fresh(acceptors, epoch)
    decreases |acceptors|
  {
    var n := |acceptors| - 1;
    FreshAreHolders(acceptors[..n], epoch);
    if p < n {
      AHolderCounts(acceptors[..n], p, epoch);
    }
  }

  // ---- the invariant ----

  /** Uses taken in this epoch and not given back. */
  function Taken(s: State): (n: nat) {
    Fresh(s.acceptors, s.ledger.epoch) + s.ledger.rows + s.ledger.burned + s.ledger.leaked + s.ledger.clamped
  }

  predicate Epochs(s: State) {
    && (forall i :: 0 <= i < |s.acceptors| && HoldsUse(s.acceptors[i]) ==> s.acceptors[i].pc.epoch <= s.ledger.epoch)
    && (forall i :: 0 <= i < |s.acceptors| && s.acceptors[i].pc.Seeding? ==> s.acceptors[i].pc.readCount >= 0)
  }

  /** Stale holders only become fewer, and each gives its use back at most once. */
  predicate StaleBounded(s: State) {
    && Holders(s.acceptors) - Fresh(s.acceptors, s.ledger.epoch) + s.ledger.staleRollbacks <= s.ledger.staleAtSeed
    && s.ledger.clamped <= s.ledger.staleRollbacks
  }

  /** The counter is the seed plus the uses taken, less what stale holders gave back. */
  predicate Conserved(s: State) {
    s.world.counter.Some? ==>
      && s.world.counter.value >= 0
      && s.ledger.epoch > 0
      && s.world.counter.value + s.ledger.staleRollbacks == s.ledger.seed + Taken(s)
  }

  predicate Limited(s: State, invite: Invite) {
    && s.ledger.seed >= 0
    && (invite.maxUses.Some? ==> Taken(s) <= Max(0, invite.maxUses.value - s.ledger.seed) + s.ledger.staleRollbacks)
  }

  /** Every row is in `used_count`, on its way there, or in a batch whose update failed. */
  predicate Counted(s: State, invite: Invite, usedCount: nat)
    requires s.world.folded <= |s.world.log|
  {
    s.world.usedCount + Pending(s.world, invite.code) + s.ledger.lostEvents == usedCount + s.ledger.rowsEver
  }

  /** An epoch that started with nobody holding a use and from a count that missed no row. */
  predicate CleanEpoch(s: State) {
    s.ledger.staleAtSeed == 0 && s.ledger.caughtUp
  }

  predicate CounterCoversRows(s: State, invite: Invite)
    requires s.world.folded <= |s.world.log|
  {
    CleanEpoch(s) ==> s.world.usedCount + Pending(s.world, invite.code) <= s.ledger.seed + s.ledger.rows
  }

  predicate Inv(s: State, invite: Invite, usedCount: nat) {
    && s.world.folded <= |s.world.log|
    && s.world.usedCount >= 0
    && Epochs(s) && StaleBounded(s) && Conserved(s) && Limited(s, invite)
    && Counted(s, invite, usedCount) && CounterCoversRows(s, invite)
  }

  // ---- every step keeps it ----

  lemma MoveKeepsInv(s: State, p: nat, pc: Pc, invite: Invite, usedCount: nat)
    requires Inv(s, invite, usedCount) && At(s, p)
    requires !HoldsUse(s.acceptors[p]) && !pc.Holding? && !pc.InsertFailed?
    requires pc.Seeding? ==> pc.readCount >= 0
    ensures Inv(Moved(s, p, pc), invite, usedCount)
  {
    CountsUpdate(s.acceptors, p, s.acceptors[p].(pc := pc), s.ledger.epoch);
  }

  lemma ArrivalCounts(acceptors: seq<Acceptor>, a: Acceptor, epoch: nat)
    requires !HoldsUse(a)
    ensures Fresh(acceptors + [a], epoch) == Fresh(acceptors, epoch) && Holders(acceptors + [a]) == Holders(acceptors)
  {
    assert (acceptors + [a])[..|acceptors|] == acceptors;
  }

  lemma ArrivalKeepsInv(s: State, userID: int, invite: Invite, usedCount: nat)
    requires Inv(s, invite, usedCount)
    ensures Inv(Step(s, Arrive(userID), invite), invite, usedCount)
  {
    ArrivalCounts(s.acceptors, Acceptor(userID, Arrived), s.ledger.epoch);
  }

  lemma SeedKeepsInv(s: State, count: int, invite: Invite, usedCount: nat)
    requires Inv(s, invite, usedCount) && count >= 0
    ensures Inv(Seeded(s, count, invite.code), invite, usedCount)
  {
    NobodyIsFreshYet(s.acceptors, s.ledger.epoch + 1);
  }

  lemma ConsumeKeepsInv(s: State, p: nat, now: int, redisUp: bool, invite: Invite, usedCount: nat)
    requires Inv(s, invite, usedCount) && At(s, p) && s.acceptors[p].pc.NotMember?
    ensures Inv(AfterConsume(s, p, invite, now, redisUp), invite, usedCount)
  {
    var result := Consume(s.world, invite, now, redisUp);
    RollbackUndoesConsume(s.world.counter, ScriptLimit(invite));
    var pc := if result.err.Some? then Finished(result.err) else Holding(s.ledger.epoch);
    CountsUpdate(s.acceptors, p, s.acceptors[p].(pc := pc), s.ledger.epoch);
  }

  lemma RowEvent(w: World, event: ChangeEvent, code: string)
    requires w.folded <= |w.log|
    ensures Pending(w.(log := w.log + [event]), code) == Pending(w, code) + (if UsesInvite(event, code) then 1 else 0)
  {
    assert (w.log + [event])[w.folded..] == w.log[w.folded..] + [event];
    assert (w.log[w.folded..] + [event])[..|w.log| - w.folded] == w.log[w.folded..];
  }

  lemma InsertKeepsInv(s: State, p: nat, dbUp: bool, invite: Invite, usedCount: nat)
    requires Inv(s, invite, usedCount) && At(s, p) && s.acceptors[p].pc.Holding? && invite.code != ""
    ensures Inv(AfterInsert(s, p, invite.code, dbUp), invite, usedCount)
  {
    var epoch := s.acceptors[p].pc.epoch;
    AHolderCounts(s.acceptors, p, s.ledger.epoch);
    if !dbUp {
      CountsUpdate(s.acceptors, p, s.acceptors[p].(pc := InsertFailed(epoch)), s.ledger.epoch);
    } else {
      CountsUpdate(s.acceptors, p, s.acceptors[p].(pc := Finished(None)), s.ledger.epoch);
      if s.acceptors[p].userID !in s.world.members {
        RowEvent(s.world, RowCreated(Some(invite.code)), invite.code);
      }
    }
  }

  lemma RollbackKeepsInv(s: State, p: nat, redisUp: bool, invite: Invite, usedCount: nat)
    requires Inv(s, invite, usedCount) && At(s, p) && s.acceptors[p].pc.InsertFailed?
    ensures Inv(AfterRollback(s, p, redisUp), invite, usedCount)
  {
    CountsUpdate(s.acceptors, p, s.acceptors[p].(pc := Finished(Some(Internal))), s.ledger.epoch);
    AHolderCounts(s.acceptors, p, s.ledger.epoch);
  }

  lemma FoldedEvents(w: World, n: nat, code: string)
    requires w.folded + n <= |w.log|
    ensures Pending(w, code) == CreatedWith(w.log[w.folded..w.folded + n], code) + Pending(w.(folded := w.folded + n), code)
  {
    CreatedWithConcat(w.log[w.folded..w.folded + n], w.log[w.folded + n..], code);
    assert w.log[w.folded..] == w.log[w.folded..w.folded + n] + w.log[w.folded + n..];
  }

  lemma FoldKeepsInv(s: State, n: nat, dbUp: bool, invite: Invite, usedCount: nat)
    requires Inv(s, invite, usedCount)
    ensures Inv(Step(s, FoldEvents(n, dbUp), invite), invite, usedCount)
  {
    if s.world.folded + n <= |s.world.log| {
      FoldedEvents(s.world, n, invite.code);
      var t := AfterFold(s, n, dbUp, invite.code);
      assert Pending(t.world, invite.code) == Pending(s.world.(folded := s.world.folded + n), invite.code);
    }
  }

  lemma ForeignRowKeepsInv(s: State, action: Action, invite: Invite, usedCount: nat)
    requires Inv(s, invite, usedCount) && (action.OtherInsert? || action.Leave?)
    ensures Inv(Step(s, action, invite), invite, usedCount)
  {
    if action.Leave? {
      RowEvent(s.world, OtherChange, invite.code);
    } else {
      RowEvent(s.world, RowCreated(action.inviteCode), invite.code);
    }
  }

  /** The steps that only move an acceptor along. */
  lemma PlainMoveKeepsInv(s: State, action: Action, invite: Invite, usedCount: nat)
    requires Inv(s, invite, usedCount)
    requires action.LoadInvite? || action.SelectInvite? || action.ShareReload? || action.Validate? || action.CheckMember?
    ensures Inv(Step(s, action, invite), invite, usedCount)
  {
    var t := Step(s, action, invite);
    if t != s {
      MoveKeepsInv(s, action.p, t.acceptors[action.p].pc, invite, usedCount);
    }
  }

  lemma SeedStepKeepsInv(s: State, p: nat, redisUp: bool, invite: Invite, usedCount: nat)
    requires Inv(s, invite, usedCount)
    ensures Inv(Step(s, SeedCounter(p, redisUp), invite), invite, usedCount)
  {
    if At(s, p) && s.acceptors[p].pc.Seeding? {
      MoveKeepsInv(s, p, HasInvite, invite, usedCount);
      SeedKeepsInv(Moved(s, p, HasInvite), s.acceptors[p].pc.readCount, invite, usedCount);
    }
  }

  lemma UseStepKeepsInv(s: State, action: Action, invite: Invite, usedCount: nat)
    requires Inv(s, invite, usedCount) && invite.code != ""
    requires action.ConsumeUse? || action.InsertMember? || action.RollbackUse?
    ensures Inv(Step(s, action, invite), invite, usedCount)
  {
    var p := action.p;
    if At(s, p) {
      match action
      case ConsumeUse(_, now, redisUp) =>
        if s.acceptors[p].pc.NotMember? { ConsumeKeepsInv(s, p, now, redisUp, invite, usedCount); }
      case InsertMember(_, dbUp) =>
        if s.acceptors[p].pc.Holding? { InsertKeepsInv(s, p, dbUp, invite, usedCount); }
      case RollbackUse(_, redisUp) =>
        if s.acceptors[p].pc.InsertFailed? { RollbackKeepsInv(s, p, redisUp, invite, usedCount); }
    }
  }

  lemma CounterStepKeepsInv(s: State, action: Action, invite: Invite, usedCount: nat)
    requires Inv(s, invite, usedCount) && (action.SeedOnCreation? || action.ExpireCounter?)
    ensures Inv(Step(s, action, invite), invite, usedCount)
  {
    if action.SeedOnCreation? {
      SeedKeepsInv(s, 0, invite, usedCount);
    }
  }

  lemma StepKeepsInv(s: State, action: Action, invite: Invite, usedCount: nat)
    requires Inv(s, invite, usedCount) && invite.code != ""
    ensures Inv(Step(s, action, invite), invite, usedCount)
  {
    if action.Arrive? {
      ArrivalKeepsInv(s, action.userID, invite, usedCount);
    } else if action.SeedCounter? {
      SeedStepKeepsInv(s, action.p, action.redisUp, invite, usedCount);
    } else if action.ConsumeUse? || action.InsertMember? || action.RollbackUse? {
      UseStepKeepsInv(s, action, invite, usedCount);
    } else if action.SeedOnCreation? || action.ExpireCounter? {
      CounterStepKeepsInv(s, action, invite, usedCount);
    } else if action.OtherInsert? || action.Leave? {
      ForeignRowKeepsInv(s, action, invite, usedCount);
    } else if action.FoldEvents? {
      FoldKeepsInv(s, action.n, action.dbUp, invite, usedCount);
    } else {
      PlainMoveKeepsInv(s, action, invite, usedCount);
    }
  }

  /** Every interleaving of any number of acceptors, reloads, expiries and folds keeps the invariant. */
  lemma {:induction false} RunKeepsInv(run: seq<Action>, invite: Invite, usedCount: nat)
    requires invite.code != ""
    ensures Inv(After(run, invite, usedCount), invite, usedCount)
    decreases |run|
  {
    if run != [] {
      RunKeepsInv(run[..|run| - 1], invite, usedCount);
      StepKeepsInv(After(run[..|run| - 1], invite, usedCount), run[|run| - 1], invite, usedCount);
    }
  }

  // ---- what it means ----

  /**
   * In an epoch that no acceptor entered with a use in hand, the counter is exactly the seed plus the uses
   * in hand, the rows, the burned uses and the leaked ones; and no rollback meets a counter of 0.
   */
  lemma CounterIsExact(run: seq<Action>, invite: Invite, usedCount: nat)
    requires invite.code != ""
    ensures var s := After(run, invite, usedCount); var l := s.ledger;
            && (l.staleAtSeed == 0 && s.world.counter.Some? ==>
                  s.world.counter.value == l.seed + Fresh(s.acceptors, l.epoch) + l.rows + l.burned + l.leaked)
            && (l.staleAtSeed == 0 ==> l.clamped == 0 && l.staleRollbacks == 0)
            && (l.staleAtSeed == 0 && s.world.counter.Some? ==>
                  forall p :: 0 <= p < |s.acceptors| && s.acceptors[p].pc.InsertFailed? ==> s.world.counter.value > 0)
  {
    RunKeepsInv(run, invite, usedCount);
    var s := After(run, invite, usedCount);
    FreshAreHolders(s.acceptors, s.ledger.epoch);
    forall p | 0 <= p < |s.acceptors| && s.ledger.staleAtSeed == 0 && s.world.counter.Some? && s.acceptors[p].pc.InsertFailed?
      ensures s.world.counter.value > 0
    {
      AHolderCounts(s.acceptors, p, s.ledger.epoch);
    }
  }

  /** Rows created in an epoch stay within what the seed left of the limit, plus one for each stale holder. */
  lemma MembersWithinLimit(run: seq<Action>, invite: Invite, usedCount: nat)
    requires invite.code != "" && invite.maxUses.Some?
    ensures var s := After(run, invite, usedCount); var l := s.ledger;
            l.rows + l.burned + Fresh(s.acceptors, l.epoch) <= Max(0, invite.maxUses.value - l.seed) + l.staleAtSeed
  {
    RunKeepsInv(run, invite, usedCount);
    var s := After(run, invite, usedCount);
    FreshAreHolders(s.acceptors, s.ledger.epoch);
  }

  /** Rows ever created with the code are all accounted for in the database's count or in the change log. */
  lemma RowsAreCounted(run: seq<Action>, invite: Invite, usedCount: nat)
    requires invite.code != ""
    ensures var s := After(run, invite, usedCount);
            s.world.usedCount + Pending(s.world, invite.code) + s.ledger.lostEvents == usedCount + s.ledger.rowsEver
  {
    RunKeepsInv(run, invite, usedCount);
  }

  /** In a clean epoch the counter never falls behind the database, not even behind the rows not folded yet. */
  lemma CounterCoversUsedCount(run: seq<Action>, invite: Invite, usedCount: nat)
    requires invite.code != ""
    ensures var s := After(run, invite, usedCount);
            CleanEpoch(s) && s.world.counter.Some? ==>
              s.world.counter.value >= s.world.usedCount + Pending(s.world, invite.code)
  {
    RunKeepsInv(run, invite, usedCount);
    var s := After(run, invite, usedCount);
    FreshAreHolders(s.acceptors, s.ledger.epoch);
  }

  /** Hence, while an epoch is clean and no update was lost, all rows ever created respect the limit together. */
  lemma AllRowsWithinLimit(run: seq<Action>, invite: Invite, usedCount: nat)
    requires invite.code != "" && invite.maxUses.Some?
    ensures var s := After(run, invite, usedCount);
            CleanEpoch(s) && s.ledger.lostEvents == 0 ==>
              usedCount + s.ledger.rowsEver <= Max(s.ledger.seed, invite.maxUses.value)
  {
    RunKeepsInv(run, invite, usedCount);
    var s := After(run, invite, usedCount);
    FreshAreHolders(s.acceptors, s.ledger.epoch);
  }

  // ---- what the steps outside an acceptance do ----

  /**
   * A fold takes the next `n` events, if there are as many, and adds the rows among them that carry the code to
   * `used_count`, or to the lost events where the update fails.
   */
  lemma WhatAFoldDoes(s: State, n: nat, dbUp: bool, invite: Invite)
    requires s.world.folded <= |s.world.log|
    ensures var t, w := Step(s, FoldEvents(n, dbUp), invite), s.world;
            if w.folded + n <= |w.log| then
              var rows := |RowsWith(w.log[w.folded..w.folded + n], invite.code)|;
              && t.world == w.(folded := w.folded + n, usedCount := w.usedCount + (if dbUp then rows else 0))
              && t.ledger == s.ledger.(lostEvents := s.ledger.lostEvents + (if dbUp then 0 else rows))
              && t.acceptors == s.acceptors
            else t == s
  {
    if s.world.folded + n <= |s.world.log| {
      CreatedWithCountsRows(s.world.log[s.world.folded..s.world.folded + n], invite.code);
    }
  }

  /** Expiry takes the counter away; members come in otherwise, with another code or none, and leave, each with its event. */
  lemma WhatOthersDo(s: State, u: int, code: Option<string>, invite: Invite)
    requires s.world.folded <= |s.world.log|
    ensures Step(s, ExpireCounter, invite) == s.(world := s.world.(counter := None))
    ensures var t := Step(s, Leave(u), invite);
            && u !in t.world.members && (forall v :: v != u ==> (v in t.world.members <==> v in s.world.members))
            && t.world.counter == s.world.counter && |t.world.log| == |s.world.log| + 1
    ensures var t := Step(s, OtherInsert(u, code), invite);
            && (code != Some(invite.code) ==> u in t.world.members)
            && (forall v :: v != u ==> (v in t.world.members <==> v in s.world.members))
            && t.world.counter == s.world.counter && t.acceptors == s.acceptors
            && (t.world.log == s.world.log <==> u in s.world.members || code == Some(invite.code))
  {
  }

  /** A reload's second step: a new counter, and a clean epoch if and only if it covers every row and nobody holds a use. */
  lemma WhatSeedingDoes(s: State, p: nat, invite: Invite)
    requires s.world.folded <= |s.world.log| && At(s, p) && s.acceptors[p].pc.Seeding?
    ensures var t, count := Step(s, SeedCounter(p, true), invite), s.acceptors[p].pc.readCount;
            && t.world == s.world.(counter := Some(count)) && t.ledger.epoch == s.ledger.epoch + 1
            && (CleanEpoch(t) <==> Holders(s.acceptors) == 0 && count >= s.world.usedCount + Pending(s.world, invite.code))
  {
    CountsUpdate(s.acceptors, p, s.acceptors[p].(pc := HasInvite), 0);
  }
}
