/** How clients come into rooms and why they are thrown out again, in every run of the hub. */
module HubAdmission {
  import opened Common
  import opened HubProtocol

  lemma AfterPrefix(run: seq<Action>)
    requires run != []
    ensures After(run) == Step(After(run[..|run| - 1]), run[|run| - 1])
  {
  }

  // ---- nobody is in a room without permission ----

  /** At step `i` the client was allowed into room `r`, and until the end of the run it has been on its way there. */
  ghost predicate OnItsWaySince(run: seq<Action>, i: nat, c: nat, r: nat, name: string) {
    && i < |run| && run[i] == Decide(c, true)
    && At(After(run[..i]), c) && After(run[..i]).clients[c].pc == Deciding(Some(r), name)
    && forall k :: i < k <= |run| ==> At(After(run[..k]), c) && After(run[..k]).clients[c].pc == Adding(r, name)
  }

  predicate RemovesClients(a: Action) {
    a.RemoveFromOld? || a.Evict? || a.HubRemove?
  }

  lemma RemovalLeadsNobodyIn(s: State, a: Action, c: nat, r: nat, name: string)
    requires RemovesClients(a) && At(Step(s, a), c) && Step(s, a).clients[c].pc == Adding(r, name)
    ensures At(s, c) && s.clients[c].pc == Adding(r, name)
  {
  }

  lemma OtherStepLeadsIn(s: State, a: Action, c: nat, r: nat, name: string)
    requires !RemovesClients(a) && At(Step(s, a), c) && Step(s, a).clients[c].pc == Adding(r, name)
    ensures At(s, c)
    ensures s.clients[c].pc == Adding(r, name) || (a == Decide(c, true) && s.clients[c].pc == Deciding(Some(r), name))
  {
  }

  /** Only a permitted decision sends a client into a room. */
  lemma OnlyPermissionLeadsIn(s: State, a: Action, c: nat, r: nat, name: string)
    requires At(Step(s, a), c) && Step(s, a).clients[c].pc == Adding(r, name)
    ensures At(s, c)
    ensures s.clients[c].pc == Adding(r, name) || (a == Decide(c, true) && s.clients[c].pc == Deciding(Some(r), name))
  {
    hide Step;
    if RemovesClients(a) { RemovalLeadsNobodyIn(s, a, c, r, name); } else { OtherStepLeadsIn(s, a, c, r, name); }
  }

  lemma {:induction false} AddingWasPermitted(run: seq<Action>, c: nat) returns (i: nat)
    requires At(After(run), c) && After(run).clients[c].pc.Adding?
    ensures OnItsWaySince(run, i, c, After(run).clients[c].pc.target, After(run).clients[c].pc.name)
    decreases |run|
  {
    hide Step;
    var r, name := After(run).clients[c].pc.target, After(run).clients[c].pc.name;
    var n := |run| - 1;
    AfterPrefix(run);
    OnlyPermissionLeadsIn(After(run[..n]), run[n], c, r, name);
    assert run[..|run|] == run;
    if After(run[..n]).clients[c].pc == Adding(r, name) {
      i := AddingWasPermitted(run[..n], c);
      assert run[..n][..i] == run[..i];
      assert forall k :: i < k <= n ==> run[..n][..k] == run[..k];
    } else {
      i := n;
    }
  }

  ghost predicate InRoom(s: State, r: nat, c: nat) {
    r < |s.rooms| && c in s.rooms[r].clients
  }

  /** Step `j` put the client into room `r`, where it has been ever since. */
  ghost predicate InsideSince(run: seq<Action>, j: nat, c: nat, r: nat) {
    && j < |run| && run[j] == AddToRoom(c)
    && !InRoom(After(run[..j]), r, c)
    && forall k :: j < k <= |run| ==> InRoom(After(run[..k]), r, c)
  }

  lemma OnlyAddingEnters(s: State, a: Action, c: nat, r: nat)
    requires InRoom(Step(s, a), r, c) && !InRoom(s, r, c)
    ensures a == AddToRoom(c) && At(s, c) && s.clients[c].pc.Adding? && s.clients[c].pc.target == r
  {
  }

  lemma {:induction false} MembersWereAdded(run: seq<Action>, c: nat, r: nat) returns (j: nat)
    requires InRoom(After(run), r, c)
    ensures InsideSince(run, j, c, r)
    ensures At(After(run[..j]), c) && After(run[..j]).clients[c].pc.Adding? && After(run[..j]).clients[c].pc.target == r
    decreases |run|
  {
    hide Step;
    var n := |run| - 1;
    AfterPrefix(run);
    assert run[..|run|] == run;
    if InRoom(After(run[..n]), r, c) {
      j := MembersWereAdded(run[..n], c, r);
      assert run[..n][..j] == run[..j];
      assert forall k :: j < k <= n ==> run[..n][..k] == run[..k];
    } else {
      OnlyAddingEnters(After(run[..n]), run[n], c, r);
      j := n;
    }
  }

  /**
   * In every run a client that is in a room got there by one `addClient`, has been there since, and that very join was
   * permitted: a decision to let it into this room came before, and the client did nothing else in between.
   */
  lemma MembersWerePermitted(run: seq<Action>, c: nat, r: nat)
    requires r < |After(run).rooms| && c in After(run).rooms[r].clients
    ensures exists i: nat, j: nat, name ::
              i < j < |run| && InsideSince(run, j, c, r) && OnItsWaySince(run[..j], i, c, r, name)
  {
    hide Step, After;
    var j := MembersWereAdded(run, c, r);
    var i := AddingWasPermitted(run[..j], c);
    assert OnItsWaySince(run[..j], i, c, r, After(run[..j]).clients[c].pc.name);
  }

  // ---- nobody is thrown out whose channel had room ----

  /** At step `i` a flush of the room came to the client and found its 20 places taken. */
  ghost predicate FoundFull(run: seq<Action>, i: nat, c: nat, r: nat) {
    && i < |run| && run[i] == SendNext(r, c) && At(After(run[..i]), c)
    && |After(run[..i]).clients[c].outbox| - After(run[..i]).clients[c].written >= 20
  }

  /** The client is to be removed from the room for being slow. */
  ghost predicate CalledSlow(s: State, r: nat, c: nat) {
    || (r < |s.rooms| && s.rooms[r].broadcaster.Sending? && c in s.rooms[r].broadcaster.slow)
    || (exists k :: 0 <= k < |s.evictions| && s.evictions[k].room == r && c in s.evictions[k].clients)
  }

  lemma NobodyIsCalledSlow(s: State, a: Action, c: nat, r: nat)
    requires CalledSlow(Step(s, a), r, c) && !Flushing(a)
    ensures CalledSlow(s, r, c)
  {
    var t := Step(s, a);
    if k :| 0 <= k < |t.evictions| && t.evictions[k].room == r && c in t.evictions[k].clients {
      assert k < |s.evictions| && s.evictions[k].room == r && c in s.evictions[k].clients;
    }
  }

  lemma FlushCallsSlow(s: State, a: Action, c: nat, r: nat)
    requires CalledSlow(Step(s, a), r, c) && !CalledSlow(s, r, c) && Flushing(a)
    ensures a == SendNext(r, c) && At(s, c) && |s.clients[c].outbox| - s.clients[c].written >= 20
  {
    var t := Step(s, a);
    assert |s.evictions| <= |t.evictions| && t.evictions[..|s.evictions|] == s.evictions;
    assert forall k :: 0 <= k < |s.evictions| ==> t.evictions[k] == t.evictions[..|s.evictions|][k];
  }

  lemma OnlyFullChannelsAreSlow(s: State, a: Action, c: nat, r: nat)
    requires CalledSlow(Step(s, a), r, c) && !CalledSlow(s, r, c)
    ensures a == SendNext(r, c) && At(s, c) && |s.clients[c].outbox| - s.clients[c].written >= 20
  {
    hide Step, CalledSlow;
    if Flushing(a) { FlushCallsSlow(s, a, c, r); } else { NobodyIsCalledSlow(s, a, c, r); }
  }

  /** In every run a client is called slow only if some flush of that room found its channel full. */
  lemma {:induction false} SlowOnesWereFull(run: seq<Action>, c: nat, r: nat) returns (i: nat)
    requires CalledSlow(After(run), r, c)
    ensures FoundFull(run, i, c, r)
    decreases |run|
  {
    hide Step, CalledSlow;
    if run == [] {
      NobodySlowAtFirst(r, c);
    } else {
      var n := |run| - 1;
      AfterPrefix(run);
      if CalledSlow(After(run[..n]), r, c) {
        i := SlowOnesWereFull(run[..n], c, r);
        assert run[..n][..i] == run[..i];
      } else {
        OnlyFullChannelsAreSlow(After(run[..n]), run[n], c, r);
        i := n;
      }
    }
  }

  lemma NobodySlowAtFirst(r: nat, c: nat)
    ensures !CalledSlow(After([]), r, c)
  {
  }
}
