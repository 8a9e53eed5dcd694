/** The connection count and the closing of `done` channels, in every run of the hub. */
module HubCounting {
  import opened Common
  import opened HubProtocol

  /** The handler has sent its registration and not yet its unregistration. */
  predicate Between(client: Client) {
    !client.pc.Connecting? && !client.pc.Gone?
  }

  /** How many handlers are between the two sends. */
  function Handlers(clients: seq<Client>): (n: nat) {
    if clients == [] then 0 else Handlers(clients[..|clients| - 1]) + (if Between(clients[|clients| - 1]) then 1 else 0)
  }

  lemma {:induction false} HandlersUpdate(clients: seq<Client>, c: nat, client: Client)
    requires c < |clients|
    ensures Handlers(clients[c := client])
            == Handlers(clients) - (if Between(clients[c]) then 1 else 0) + (if Between(client) then 1 else 0)
    decreases |clients|
  {
    var n := |clients| - 1;
    if c == n {
      assert clients[c := client][..n] == clients[..n];
    } else {
      HandlersUpdate(clients[..n], c, client);
      assert clients[c := client][..n] == clients[..n][c := client];
    }
  }

  lemma {:induction false} SameHandlers(a: seq<Client>, b: seq<Client>)
    requires |a| == |b| && forall c :: 0 <= c < |a| ==> a[c].pc == b[c].pc
    ensures Handlers(a) == Handlers(b)
    decreases |a|
  {
    if a != [] {
      SameHandlers(a[..|a| - 1], b[..|b| - 1]);
    }
  }

  /** The hub counts what it took from the queues; while it unregisters one client, that one is in neither. */
  predicate TotalOk(s: State) {
    s.totalClients + s.registers - |s.unregisters| - (if s.hub.HubUnregistering? then 1 else 0) == Handlers(s.clients)
  }

  predicate ClosedOnce(s: State) {
    forall c :: 0 <= c < |s.clients| ==> s.clients[c].closes == if s.clients[c].doneClosed then 1 else 0
  }

  predicate Inv(s: State) {
    TotalOk(s) && ClosedOnce(s)
  }

  /** A step that changes one client, but neither its phase nor its `done` channel, and no count. */
  predicate OneClientMoves(s: State, t: State, c: nat)
    requires At(s, c)
  {
    && |t.clients| == |s.clients| && t.clients == s.clients[c := t.clients[c]]
    && Between(t.clients[c]) == Between(s.clients[c])
    && t.clients[c].closes == s.clients[c].closes && t.clients[c].doneClosed == s.clients[c].doneClosed
    && t.registers == s.registers && t.unregisters == s.unregisters && t.hub == s.hub && t.totalClients == s.totalClients
  }

  lemma OneClientMovesKeepsInv(s: State, t: State, c: nat)
    requires Inv(s) && At(s, c) && OneClientMoves(s, t, c)
    ensures Inv(t)
  {
    HandlersUpdate(s.clients, c, t.clients[c]);
  }

  lemma PcStepKeepsInv(s: State, a: Action)
    requires Inv(s) && (a.StartJoin? || a.Decide? || a.StopReading?)
    ensures Inv(Step(s, a))
  {
    var t := Step(s, a);
    if t != s {
      OneClientMovesKeepsInv(s, t, a.c);
    }
  }

  lemma RoomMapStepKeepsInv(s: State, a: Action)
    requires Inv(s) && (a.BuildRoom? || a.LookupRooms? || a.AddToRoom?)
    ensures Inv(Step(s, a))
  {
    var t := Step(s, a);
    if t != s {
      OneClientMovesKeepsInv(s, t, a.c);
    }
  }

  lemma ChannelStepKeepsInv(s: State, a: Action)
    requires Inv(s) && (a.Confirm? || a.WriteOne?)
    ensures Inv(Step(s, a))
  {
    var t := Step(s, a);
    if t != s {
      OneClientMovesKeepsInv(s, t, a.c);
    }
  }

  lemma RemovalKeepsInv(s: State, r: nat, gone: set<nat>)
    requires Inv(s) && r < |s.rooms|
    ensures Inv(RemoveClients(s, r, gone))
    ensures RemoveClients(s, r, gone).hub == s.hub
  {
    SameHandlers(s.clients, RemoveClients(s, r, gone).clients);
  }

  lemma RemovedFromKeepsInv(s: State, c: nat, found: Option<nat>)
    requires Inv(s)
    ensures Inv(RemovedFrom(s, c, found))
  {
    if found.Some? && found.value < |s.rooms| { RemovalKeepsInv(s, found.value, {c}); }
  }

  lemma RemoveFromOldKeepsInv(s: State, c: nat)
    requires Inv(s)
    ensures Inv(Step(s, RemoveFromOld(c)))
  {
    if At(s, c) && s.clients[c].pc.Switching? {
      var pc := s.clients[c].pc;
      RemovedFromKeepsInv(s, c, pc.oldRoom);
      OneClientMovesKeepsInv(RemovedFrom(s, c, pc.oldRoom), Step(s, RemoveFromOld(c)), c);
    }
  }

  lemma RegisterKeepsInv(s: State, c: nat)
    requires Inv(s)
    ensures Inv(Step(s, Register(c)))
  {
    if At(s, c) {
      HandlersUpdate(s.clients, c, s.clients[c].(pc := Reading));
    }
  }

  lemma UnregisterKeepsInv(s: State, c: nat)
    requires Inv(s)
    ensures Inv(Step(s, Unregister(c)))
  {
    if At(s, c) {
      HandlersUpdate(s.clients, c, s.clients[c].(pc := Gone));
    }
  }

  lemma ConnectKeepsInv(s: State)
    requires Inv(s)
    ensures Inv(Step(s, Connect))
  {
    var newcomer := Client(Connecting, "", false, 0, [], 0);
    assert (s.clients + [newcomer])[..|s.clients|] == s.clients;
  }

  lemma SendKeepsInv(s: State, r: nat, c: nat)
    requires Inv(s)
    ensures Inv(Step(s, SendNext(r, c)))
  {
    var t := Step(s, SendNext(r, c));
    if t != s {
      OneClientMovesKeepsInv(s, t, c);
    }
  }

  lemma EvictKeepsInv(s: State, k: nat)
    requires Inv(s)
    ensures Inv(AfterEvict(s, k))
  {
    if k < |s.evictions| && s.evictions[k].room < |s.rooms| { EnabledEvictKeepsInv(s, k); }
  }

  lemma EnabledEvictKeepsInv(s: State, k: nat)
    requires Inv(s) && k < |s.evictions| && s.evictions[k].room < |s.rooms|
    ensures Inv(AfterEvict(s, k))
  {
    RemovalKeepsInv(s, s.evictions[k].room, s.evictions[k].clients);
  }

  lemma HubRemoveKeepsInv(s: State)
    requires Inv(s)
    ensures Inv(Step(s, HubRemove))
  {
    if s.hub.HubUnregistering? { RemovedFromKeepsInv(s, s.hub.client, s.hub.room); }
  }

  lemma RoomOrQueueStepKeepsInv(s: State, a: Action)
    requires Inv(s) && (a.TakeSnapshot? || a.EndFlush? || a.IdleCheck? || a.RemoveRoom? || a.HubRegister? || a.HubLookup?)
    ensures Inv(Step(s, a))
  {
  }

  lemma StepKeepsInv(s: State, a: Action)
    requires Inv(s)
    ensures Inv(Step(s, a))
  {
    if a.Connect? { ConnectKeepsInv(s); }
    else if a.Register? { RegisterKeepsInv(s, a.c); }
    else if a.Unregister? { UnregisterKeepsInv(s, a.c); }
    else if a.RemoveFromOld? { RemoveFromOldKeepsInv(s, a.c); }
    else if a.Confirm? || a.WriteOne? { ChannelStepKeepsInv(s, a); }
    else if a.SendNext? { SendKeepsInv(s, a.r, a.c); }
    else if a.Evict? { EvictKeepsInv(s, a.k); }
    else if a.HubRemove? { HubRemoveKeepsInv(s); }
    else if a.TakeSnapshot? || a.EndFlush? || a.IdleCheck? || a.RemoveRoom? || a.HubRegister? || a.HubLookup? { RoomOrQueueStepKeepsInv(s, a); }
    else if a.StartJoin? || a.Decide? || a.StopReading? { PcStepKeepsInv(s, a); }
    else { RoomMapStepKeepsInv(s, a); }
  }

  /**
   * In every run each `done` channel is closed at most once, and the total, plus registrations queued, less
   * unregistrations queued or in hand, is the number of handlers between their two sends.
   */
  lemma {:induction false} CountsAreExact(run: seq<Action>)
    ensures var s := After(run);
            && s.totalClients + s.registers - |s.unregisters| - (if s.hub.HubUnregistering? then 1 else 0) == Handlers(s.clients)
            && (forall c :: 0 <= c < |s.clients| ==> s.clients[c].closes <= 1)
    ensures Inv(After(run))
    decreases |run|
  {
    if run != [] {
      CountsAreExact(run[..|run| - 1]);
      StepKeepsInv(After(run[..|run| - 1]), run[|run| - 1]);
    }
  }

  lemma StepKeepsQueue(s: State, a: Action)
    requires s.registers <= REGISTER_BUFFER_LEN
    ensures Step(s, a).registers <= REGISTER_BUFFER_LEN
  {
  }

  lemma {:induction false} QueueWithinBuffer(run: seq<Action>)
    ensures After(run).registers <= REGISTER_BUFFER_LEN
    decreases |run|
  {
    hide Step;
    if run != [] {
      QueueWithinBuffer(run[..|run| - 1]);
      StepKeepsQueue(After(run[..|run| - 1]), run[|run| - 1]);
    }
  }

  /** The total is never further below zero than the register queue is long. */
  lemma TotalIsBounded(run: seq<Action>)
    ensures After(run).totalClients + REGISTER_BUFFER_LEN >= 0
  {
    hide After, Step;
    CountsAreExact(run);
    QueueWithinBuffer(run);
  }

  // ---- how far below zero the total gets ----

  /** Nobody is connected, `n` registrations are queued, and the hub has counted `n` connections too few. */
  predicate Behind(s: State, n: nat) {
    s.totalClients + n == 0 && s.registers == n && s.unregisters == [] && s.hub.HubIdle? && s.live == map[]
  }

  lemma ComesAndStops(s: State, n: nat)
    requires Behind(s, n) && n < REGISTER_BUFFER_LEN
    ensures var c, t := |s.clients|, Step(Step(Step(s, Connect), Register(|s.clients|)), StopReading(|s.clients|));
            && t.totalClients + n == 0 && t.registers == n + 1 && t.unregisters == [] && t.hub.HubIdle? && t.live == map[]
            && At(t, c) && t.clients[c].pc == Leaving && t.clients[c].room == ""
  {
  }

  lemma LeavesAndIsCounted(t: State, c: nat, n: nat)
    requires t.totalClients + n == 0 && t.registers == n + 1 && t.unregisters == [] && t.hub.HubIdle? && t.live == map[]
    requires At(t, c) && t.clients[c].pc == Leaving && t.clients[c].room == ""
    ensures Behind(Step(Step(Step(t, Unregister(c)), HubLookup), HubRemove), n + 1)
  {
    var left := Step(t, Unregister(c));
    assert left == Moved(t, c, Gone).(unregisters := [c]);
    IsCounted(left, c, n);
  }

  lemma IsCounted(left: State, c: nat, n: nat)
    requires left.totalClients + n == 0 && left.registers == n + 1 && left.unregisters == [c] && left.hub.HubIdle?
    requires left.live == map[] && At(left, c) && left.clients[c].room == ""
    ensures Behind(Step(Step(left, HubLookup), HubRemove), n + 1)
  {
    assert Step(left, HubLookup) == left.(unregisters := [], hub := HubUnregistering(c, None));
  }

  lemma AfterThree(run: seq<Action>, a: Action, b: Action, c: Action)
    ensures After(run + [a, b, c]) == Step(Step(Step(After(run), a), b), c)
  {
    hide Step;
    AfterTwo(run, a, b);
    AfterSnoc(run + [a, b], c);
    assert run + [a, b] + [c] == run + [a, b, c];
  }

  /** A connection that comes and goes while the hub serves only the other queue puts the total one further behind. */
  lemma OneFurtherBehind(run: seq<Action>, n: nat) returns (more: seq<Action>)
    requires Behind(After(run), n) && n < REGISTER_BUFFER_LEN
    ensures Behind(After(run + more), n + 1)
  {
    hide Step, Behind;
    var c := |After(run).clients|;
    var comes, leaves := [Connect, Register(c), StopReading(c)], [Unregister(c), HubLookup, HubRemove];
    AfterThree(run, Connect, Register(c), StopReading(c));
    AfterThree(run + comes, Unregister(c), HubLookup, HubRemove);
    ComesAndStops(After(run), n);
    LeavesAndIsCounted(After(run + comes), c, n);
    more := comes + leaves;
    assert run + comes + leaves == run + more;
  }

  /** So the bound is attained: the two queues are served in no fixed order, and every total down to it occurs. */
  lemma {:induction false} TotalCanBeNegative(n: nat) returns (run: seq<Action>)
    requires n <= REGISTER_BUFFER_LEN
    ensures After(run).totalClients + n == 0
    ensures Behind(After(run), n)
    decreases n
  {
    hide Step;
    if n == 0 {
      run := [];
    } else {
      var before := TotalCanBeNegative(n - 1);
      var more := OneFurtherBehind(before, n - 1);
      run := before + more;
    }
  }
}
