/**
 * base/lib/models/ServerInvite.go, base/lib/serverInvite and base/cacheStore/server/mutation.go: taking one use
 * of an invite from a counter in Redis, inserting a member row in Postgres, and giving the use back when that fails.
 * Each Lua script and each SQL statement is one atomic step on the `World`.
 */
module InviteAcceptance {
  import opened Common
  import opened InvitedMembers

  datatype Invite = Invite(code: string, maxUses: Option<int>, expiresAt: Option<int>)

  datatype AppError = InvalidCode | Expired | LimitNotPositive | LimitExceeded | CodeNotFound | AlreadyMember | Internal

  /** `ValidateServerInvite`; None is success. */
  function ValidateServerInvite(invite: Invite, now: int): (err: Option<AppError>) {
    if invite.expiresAt.Some? && now > invite.expiresAt.value then Some(Expired)
    else if invite.maxUses.Some? && invite.maxUses.value <= 0 then Some(LimitNotPositive)
    else None
  }

  /** The scripts return a number and leave a counter; None is an absent key. */
  datatype ScriptResult = ScriptResult(reply: int, counter: Option<int>)

  function ConsumeScript(counter: Option<int>, maxUses: int): (r: ScriptResult) {
    var currentUses := if counter.Some? then counter.value else -1;
    if currentUses < 0 then ScriptResult(-1, counter)
    else if maxUses > 0 && currentUses >= maxUses then ScriptResult(-429, counter)
    else ScriptResult(currentUses + 1, Some(currentUses + 1))
  }

  function RollbackScript(counter: Option<int>): (r: ScriptResult) {
    if counter.None? then ScriptResult(0, counter)
    else if counter.value > 0 then ScriptResult(counter.value - 1, Some(counter.value - 1))
    else ScriptResult(counter.value, counter)
  }

  /** A granted use is undone exactly by the rollback. */
  lemma RollbackUndoesConsume(counter: Option<int>, maxUses: int)
    ensures ConsumeScript(counter, maxUses).reply >= 0 <==>
            counter.Some? && counter.value >= 0 && (maxUses <= 0 || counter.value < maxUses)
    ensures ConsumeScript(counter, maxUses).reply >= 0 ==> ConsumeScript(counter, maxUses).reply == counter.value + 1
    ensures ConsumeScript(counter, maxUses).reply >= 0 ==>
              RollbackScript(ConsumeScript(counter, maxUses).counter).counter == counter
    ensures ConsumeScript(counter, maxUses).reply < 0 ==> ConsumeScript(counter, maxUses).counter == counter
  {
  }

  /** A rollback lowers a positive counter by one, never below 0, and makes no counter where there is none. */
  lemma RollbackStopsAtZero(counter: Option<int>)
    requires counter.Some? ==> counter.value >= 0
    ensures counter.None? ==> RollbackScript(counter) == ScriptResult(0, None)
    ensures counter.Some? ==> RollbackScript(counter).counter == Some(RollbackScript(counter).reply)
                              && RollbackScript(counter).reply == Max(0, counter.value - 1)
  {
  }

  /** Everything an acceptance of one invite touches: the Redis counter, the row count, the members, the change log. */
  datatype World = World(
    counter: Option<int>,
    usedCount: int,
    members: set<int>,
    log: seq<ChangeEvent>,
    folded: nat)

  /** The limit handed to the script: -1 for an invite without one. */
  function ScriptLimit(invite: Invite): (limit: int) {
    if invite.maxUses.Some? then invite.maxUses.value else -1
  }

  datatype StepResult = StepResult(err: Option<AppError>, world: World)

  /** `ConsumeServerInviteCache`. */
  function Consume(w: World, invite: Invite, now: int, redisUp: bool): (r: StepResult) {
    var invalid := ValidateServerInvite(invite, now);
    if invalid.Some? then StepResult(invalid, w)
    else if !redisUp then StepResult(Some(Internal), w)
    else
      var result := ConsumeScript(w.counter, ScriptLimit(invite));
      StepResult(ReplyError(result.reply), w.(counter := result.counter))
  }

  /** How both callers read a script's reply. */
  function ReplyError(reply: int): (err: Option<AppError>) {
    if reply == -429 then Some(LimitExceeded) else if reply == -1 then Some(CodeNotFound) else None
  }

  /** Why a use is refused, one reason at a time; and a use is granted exactly when none of them applies. */
  lemma RefusedUseHasItsReason(w: World, invite: Invite, now: int, redisUp: bool)
    ensures var err := Consume(w, invite, now, redisUp).err;
            var expired := invite.expiresAt.Some? && invite.expiresAt.value < now;
            var limit, uses := invite.maxUses, w.counter;
            var valid := !expired && (limit.None? || limit.value >= 1);
            && (err == Some(Expired) <==> expired)
            && (err == Some(LimitNotPositive) <==> !expired && limit.Some? && limit.value < 1)
            && (err == Some(Internal) <==> valid && !redisUp)
            && (err == Some(CodeNotFound) <==> valid && redisUp && !(uses.Some? && uses.value >= 0))
            && (err == Some(LimitExceeded)
                <==> valid && redisUp && uses.Some? && uses.value >= 0 && limit.Some? && uses.value >= limit.value)
            && (err == None
                <==> valid && redisUp && uses.Some? && uses.value >= 0 && (limit.None? || uses.value < limit.value))
  {
  }

  /** `RollbackConsumeServerInviteCache`. */
  function Rollback(w: World, redisUp: bool): (r: StepResult) {
    if !redisUp then StepResult(Some(Internal), w)
    else
      var result := RollbackScript(w.counter);
      StepResult(ReplyError(result.reply), w.(counter := result.counter))
  }

  /** `CreateServerMember`: a second row for a user violates the unique index, which is reported as success. */
  function CreateMember(w: World, userID: int, code: string, dbUp: bool): (r: StepResult) {
    if !dbUp then StepResult(Some(Internal), w)
    else if userID in w.members then StepResult(None, w)
    else StepResult(None, w.(members := w.members + {userID}, log := w.log + [RowCreated(Some(code))]))
  }

  /** What the invite cache answers: a miss and a null marker look alike. */
  datatype CacheReply = Miss | Hit | BadJson | RedisError

  /** What the membership check sees: an unknown server means "not a member" without asking the database. */
  datatype MemberReply = LookedUp | ServerUnknown | LookupFailed

  /** The outcomes of the calls one acceptance makes, in order. */
  datatype Outcomes = Outcomes(
    cache: CacheReply, inviteFound: bool, seedOk: bool, validatedAt: int, member: MemberReply,
    consumedAt: int, consumeUp: bool, insertUp: bool, rollbackUp: bool)

  class Backend {
    var counter: Option<int>
    var usedCount: int
    var members: set<int>
    var log: seq<ChangeEvent>
    var folded: nat

    function State(): (w: World)
      reads this
    {
      World(counter, usedCount, members, log, folded)
    }

    method RunConsumeScript(maxUses: int) returns (reply: int)
      modifies this`counter
      ensures ScriptResult(reply, counter) == ConsumeScript(old(counter), maxUses)
    {
      var currentUses := if counter.Some? then counter.value else -1;
      if currentUses < 0 { return -1; }
      if maxUses > 0 && currentUses >= maxUses { return -429; }
      counter := Some(counter.value + 1);
      return counter.value;
    }

    method RunRollbackScript() returns (reply: int)
      modifies this`counter
      ensures ScriptResult(reply, counter) == RollbackScript(old(counter))
    {
      if counter.None? { return 0; }
      if counter.value > 0 {
        counter := Some(counter.value - 1);
        return counter.value;
      }
      return counter.value;
    }

    /** `usedCount` is the invite's own field, which a granted use sets to the fresh count. */
    method ConsumeServerInviteCache(invite: Invite, usedCount: int, now: int, redisUp: bool)
      returns (err: Option<AppError>, newUsedCount: int)
      modifies this`counter
      ensures StepResult(err, State()) == Consume(old(State()), invite, now, redisUp)
      ensures if err.None? then counter == Some(newUsedCount) else newUsedCount == usedCount
    {
      newUsedCount := usedCount;
      err := ValidateServerInvite(invite, now);
      if err.Some? { return; }
      var maxUsesLimit := -1;
      if invite.maxUses.Some? { maxUsesLimit := invite.maxUses.value; }
      if !redisUp { return Some(Internal), usedCount; }
      var reply := RunConsumeScript(maxUsesLimit);
      if reply == -429 { return Some(LimitExceeded), usedCount; }
      if reply == -1 { return Some(CodeNotFound), usedCount; }
      newUsedCount := reply;
    }

    method RollbackConsumeServerInviteCache(usedCount: int, redisUp: bool) returns (err: Option<AppError>, newUsedCount: int)
      modifies this`counter
      ensures StepResult(err, State()) == Rollback(old(State()), redisUp)
      ensures newUsedCount == if err.None? then RollbackScript(old(counter)).reply else usedCount
    {
      if !redisUp { return Some(Internal), usedCount; }
      var reply := RunRollbackScript();
      if reply == -429 { return Some(LimitExceeded), usedCount; }
      if reply == -1 { return Some(CodeNotFound), usedCount; }
      return None, reply;
    }

    method CreateServerMember(userID: int, code: string, dbUp: bool) returns (err: Option<AppError>)
      modifies this`members, this`log
      ensures StepResult(err, State()) == CreateMember(old(State()), userID, code, dbUp)
    {
      if !dbUp { return Some(Internal); }
      if userID in members { return None; }
      members := members + {userID};
      log := log + [RowCreated(Some(code))];
      return None;
    }

    /**
     * One acceptance with nobody else running; the protocol interleaves the same steps. `cachedCount` is the used count
     * of a cached invite, `returned` that of the invite the caller gets: the counter as this acceptance left it.
     */
    method AcceptServerInviteAndCreateMember(userID: int, invite: Invite, cachedCount: int, o: Outcomes)
      returns (err: Option<AppError>, returned: Option<int>)
      modifies this
      ensures StepResult(err, State()) == Accepted(old(State()), userID, invite, o)
      ensures if err.None? then returned.Some? && returned == State().counter else returned.None?
    {
      returned := None;
      var loadedCount := cachedCount;
      if o.cache == Miss { return Some(InvalidCode), None; }
      if o.cache == BadJson { return Some(Internal), None; }
      if o.cache == RedisError {
        if !o.inviteFound { return Some(Internal), None; }
        loadedCount := usedCount;
        if o.seedOk { counter := Some(usedCount); }
      }
      err := ValidateServerInvite(invite, o.validatedAt);
      if err.Some? { return; }
      if o.member == LookupFailed { return Some(Internal), None; }
      if o.member == LookedUp && userID in members { return Some(AlreadyMember), None; }
      var newUsedCount;
      err, newUsedCount := ConsumeServerInviteCache(invite, loadedCount, o.consumedAt, o.consumeUp);
      if err.Some? { return; }
      err := CreateServerMember(userID, invite.code, o.insertUp);
      if err.Some? {
        var ignored, unused := RollbackConsumeServerInviteCache(newUsedCount, o.rollbackUp);
        return;
      }
      returned := Some(newUsedCount);
    }
  }

  /** The world after one undisturbed acceptance, as a composition of its steps. */
  function Accepted(w: World, userID: int, invite: Invite, o: Outcomes): (r: StepResult) {
    if o.cache == Miss then StepResult(Some(InvalidCode), w)
    else if o.cache == BadJson then StepResult(Some(Internal), w)
    else if o.cache == RedisError && !o.inviteFound then StepResult(Some(Internal), w)
    else
      var w1 := if o.cache == RedisError && o.seedOk then w.(counter := Some(w.usedCount)) else w;
      var invalid := ValidateServerInvite(invite, o.validatedAt);
      if invalid.Some? then StepResult(invalid, w1)
      else if o.member == LookupFailed then StepResult(Some(Internal), w1)
      else if o.member == LookedUp && userID in w1.members then StepResult(Some(AlreadyMember), w1)
      else
        var consumed := Consume(w1, invite, o.consumedAt, o.consumeUp);
        if consumed.err.Some? then consumed
        else
          var created := CreateMember(consumed.world, userID, invite.code, o.insertUp);
          if created.err.None? then created
          else StepResult(created.err, Rollback(created.world, o.rollbackUp).world)
  }

  predicate LoadsInvite(o: Outcomes) {
    o.cache == Hit || (o.cache == RedisError && o.inviteFound)
  }

  /** Loading an invite from the database seeds the counter, if Redis takes the write. */
  function AfterLoad(w: World, o: Outcomes): (r: World) {
    if o.cache == RedisError && o.inviteFound && o.seedOk then w.(counter := Some(w.usedCount)) else w
  }

  /** An acceptance that has its invite gets as far as holding a use. */
  predicate Granted(w: World, userID: int, invite: Invite, o: Outcomes) {
    && ValidateServerInvite(invite, o.validatedAt).None? && ValidateServerInvite(invite, o.consumedAt).None?
    && o.member != LookupFailed && !(o.member == LookedUp && userID in w.members)
    && o.consumeUp && w.counter.Some? && (invite.maxUses.Some? ==> w.counter.value < invite.maxUses.value)
  }

  /**
   * Alone, whatever its calls answer: an acceptance succeeds exactly when it gets the invite, a use is granted and the
   * insert goes through; it then takes one use and adds the member, unless the member was there already. One that fails
   * changes nothing beyond a seeding, except when a use was granted and the rollback could not reach Redis.
   */
  lemma AcceptanceIsAllOrNothing(w: World, userID: int, invite: Invite, o: Outcomes)
    requires w.usedCount >= 0 && (w.counter.Some? ==> w.counter.value >= 0)
    ensures var r, loaded := Accepted(w, userID, invite, o), AfterLoad(w, o);
            && (r.err.None? <==> LoadsInvite(o) && Granted(loaded, userID, invite, o) && o.insertUp)
            && (r.err.None? ==> r.world.counter == Some(loaded.counter.value + 1)
                                && r.world.members == w.members + {userID}
                                && r.world.log == if userID in w.members then w.log else w.log + [RowCreated(Some(invite.code))])
            && (r.err.Some? ==> (r.world == loaded <==> !LoadsInvite(o) || !Granted(loaded, userID, invite, o) || o.rollbackUp))
  {
    var loaded := AfterLoad(w, o);
    var consumed := Consume(loaded, invite, o.consumedAt, o.consumeUp);
    RollbackUndoesConsume(loaded.counter, ScriptLimit(invite));
    if userID in w.members {
      assert w.members + {userID} == w.members;
    }
    if Granted(loaded, userID, invite, o) {
      assert consumed.err.None? && consumed.world == loaded.(counter := Some(loaded.counter.value + 1));
    }
  }

  predicate ExpiredAt(invite: Invite, now: int) {
    invite.expiresAt.Some? && invite.expiresAt.value < now
  }

  predicate LimitBelowOne(invite: Invite) {
    invite.maxUses.Some? && invite.maxUses.value < 1
  }

  /** The counter an acceptance meets: the one that was there, or the one its own reload has seeded from `used_count`. */
  function UsesMet(w: World, o: Outcomes): (uses: Option<int>) {
    if o.cache == RedisError && o.inviteFound && o.seedOk then Some(w.usedCount) else w.counter
  }

  predicate UsedUp(uses: Option<int>, invite: Invite) {
    uses.Some? && invite.maxUses.Some? && uses.value >= invite.maxUses.value
  }

  /** The invite is had and was good when the acceptance looked at it first. */
  predicate FoundGood(invite: Invite, o: Outcomes) {
    (o.cache == Hit || (o.cache == RedisError && o.inviteFound)) && !ExpiredAt(invite, o.validatedAt) && !LimitBelowOne(invite)
  }

  predicate SeenAsMember(w: World, userID: int, o: Outcomes) {
    o.member == LookedUp && userID in w.members
  }

  /** The acceptance gets as far as running the script. */
  predicate AsksForAUse(w: World, userID: int, invite: Invite, o: Outcomes) {
    && FoundGood(invite, o) && o.member != LookupFailed && !SeenAsMember(w, userID, o)
    && !ExpiredAt(invite, o.consumedAt) && o.consumeUp
  }

  /** Why an acceptance fails, one reason at a time. */
  lemma FailedAcceptanceHasItsReason(w: World, userID: int, invite: Invite, o: Outcomes)
    requires w.usedCount >= 0 && (w.counter.Some? ==> w.counter.value >= 0)
    ensures var err, uses, asks := Accepted(w, userID, invite, o).err, UsesMet(w, o), AsksForAUse(w, userID, invite, o);
            && (err == Some(CodeNotFound) <==> asks && uses == None)
            && (err == Some(LimitExceeded) <==> asks && UsedUp(uses, invite))
            && (err == None <==> asks && uses != None && !UsedUp(uses, invite) && o.insertUp)
    ensures var err := Accepted(w, userID, invite, o).err;
            && (err == Some(InvalidCode) <==> o.cache == Miss)
            && (err == Some(LimitNotPositive)
                <==> (o.cache == Hit || (o.cache == RedisError && o.inviteFound)) && !ExpiredAt(invite, o.validatedAt) && LimitBelowOne(invite))
            && (err == Some(AlreadyMember) <==> FoundGood(invite, o) && SeenAsMember(w, userID, o))
    ensures var err, looked := Accepted(w, userID, invite, o).err, o.member != LookupFailed && !SeenAsMember(w, userID, o);
            err == Some(Expired)
            <==> ((o.cache == Hit || (o.cache == RedisError && o.inviteFound)) && ExpiredAt(invite, o.validatedAt))
                 || (FoundGood(invite, o) && looked && ExpiredAt(invite, o.consumedAt))
    ensures var err, looked := Accepted(w, userID, invite, o).err, o.member != LookupFailed && !SeenAsMember(w, userID, o);
            err == Some(Internal)
            <==> || o.cache == BadJson || (o.cache == RedisError && !o.inviteFound)
                 || (FoundGood(invite, o) && o.member == LookupFailed)
                 || (FoundGood(invite, o) && looked && !ExpiredAt(invite, o.consumedAt) && !o.consumeUp)
                 || (AsksForAUse(w, userID, invite, o) && UsesMet(w, o) != None && !UsedUp(UsesMet(w, o), invite) && !o.insertUp)
  {
    hide Consume, ValidateServerInvite;
    ValidityHasItsReason(invite, o.validatedAt);
    RefusedUseHasItsReason(AfterLoad(w, o), invite, o.consumedAt, o.consumeUp);
  }

  /** What a failed acceptance leaves of the counter, and what a successful one makes of it. */
  lemma AcceptanceAndTheCounter(w: World, userID: int, invite: Invite, o: Outcomes)
    requires w.usedCount >= 0 && (w.counter.Some? ==> w.counter.value >= 0)
    ensures var r, uses := Accepted(w, userID, invite, o), UsesMet(w, o);
            && (r.err == None ==> uses != None && r.world.counter == Some(uses.value + 1))
            && (r.err != None && (o.insertUp || o.rollbackUp) ==> r.world.counter == uses)
            && r.world.usedCount == w.usedCount && r.world.folded == w.folded
  {
    AcceptanceIsAllOrNothing(w, userID, invite, o);
    FailedAcceptanceHasItsReason(w, userID, invite, o);
  }

  lemma ValidityHasItsReason(invite: Invite, now: int)
    ensures var err, expired := ValidateServerInvite(invite, now), invite.expiresAt.Some? && invite.expiresAt.value < now;
            && (err == Some(Expired) <==> expired)
            && (err == Some(LimitNotPositive) <==> !expired && invite.maxUses.Some? && invite.maxUses.value < 1)
            && (err == None <==> !expired && (invite.maxUses.None? || invite.maxUses.value >= 1))
  {
  }

  /** The goroutine of `CreateServerInvite` that seeds the counter; `Panicked` is a nil dereference, which ends the process. */
  datatype CreationSeed = Seeded(count: int) | NotSeeded | Panicked

  /** The value of `*p <= 0`; None is the panic of a nil dereference. */
  function PointsBelowOne(p: Option<int>): (r: Option<bool>) {
    if p.None? then None else Some(p.value <= 0)
  }

  /** The goroutine's test `MaxUses != nil || *MaxUses <= 0`, evaluated from the left as Go does. */
  function SeedOnCreate(maxUses: Option<int>, usedCount: int): (r: CreationSeed) {
    var test := if maxUses != None then Some(true) else PointsBelowOne(maxUses);
    if test.None? then Panicked else if test.value then Seeded(usedCount) else NotSeeded
  }

  /** Every limited invite is seeded, whatever its limit, and every unlimited one panics: the second operand never decides. */
  lemma CreationPanicsExactlyWhenUnlimited(maxUses: Option<int>, usedCount: int)
    ensures SeedOnCreate(maxUses, usedCount) == if maxUses.None? then Panicked else Seeded(usedCount)
  {
  }
}
