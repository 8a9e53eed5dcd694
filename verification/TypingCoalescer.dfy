/**
 * internal/modules/websocket/application/typing.go: typing events of a room are gathered for a while, then sent
 * as one request that names at most four users and counts the rest.
 */
module TypingCoalescer {
  import opened Common

  const MAX_TRACKED_TYPERS: nat := 4

  datatype Typing = Typing(typers: set<int>, total: nat)

  const EMPTY: Typing := Typing({}, 0)

  function Added(state: Typing, userID: int): (r: Typing) {
    if userID in state.typers then state
    else Typing(if |state.typers| < MAX_TRACKED_TYPERS then state.typers + {userID} else state.typers, state.total + 1)
  }

  function AllAdded(state: Typing, userIDs: seq<int>): (r: Typing) {
    if userIDs == [] then state else Added(AllAdded(state, userIDs[..|userIDs| - 1]), userIDs[|userIDs| - 1])
  }

  /** The load-shedding test: the room's queue is at nine tenths of its capacity. */
  predicate Shed(queued: nat, capacity: nat) {
    queued >= capacity * 9 / 10
  }

  /**
   * A room's coalescer with its timers. `timer` is the field, `pending` are the timers that will still fire, `armed` is how
   * many were made, `underway` how many flushes have passed the shedding test and not yet taken the lock.
   */
  datatype Room = Room(typing: Typing, timer: Option<nat>, pending: set<nat>, armed: nat, underway: nat)

  const NEW_ROOM: Room := Room(EMPTY, None, {}, 0, 0)

  /** A call by a tracked user changes nothing; any other stops the timer of the field and arms a new one. */
  function Called(room: Room, userID: int): (r: Room) {
    if userID in room.typing.typers then room
    else Room(Added(room.typing, userID), Some(room.armed),
              (if room.timer.Some? then room.pending - {room.timer.value} else room.pending) + {room.armed},
              room.armed + 1, room.underway)
  }

  function AllCalled(room: Room, userIDs: seq<int>): (r: Room) {
    if userIDs == [] then room else Called(AllCalled(room, userIDs[..|userIDs| - 1]), userIDs[|userIDs| - 1])
  }

  /** A timer fires: its flush is shed, or goes on to the lock. */
  function Fired(room: Room, id: nat, queued: nat, capacity: nat): (r: Room) {
    if id !in room.pending then room
    else room.(pending := room.pending - {id}, underway := if Shed(queued, capacity) then room.underway else room.underway + 1)
  }

  /** The lock region of a flush; a timer armed meanwhile is forgotten by the field, but not stopped. */
  function Drained(room: Room): (r: Room) {
    if room.underway == 0 then room else room.(typing := EMPTY, timer := None, underway := room.underway - 1)
  }

  lemma {:induction false} AllCalledTyping(room: Room, userIDs: seq<int>)
    ensures AllCalled(room, userIDs).typing == AllAdded(room.typing, userIDs)
    ensures AllCalled(room, userIDs).underway == room.underway
    decreases |userIDs|
  {
    if userIDs != [] {
      AllCalledTyping(room, userIDs[..|userIDs| - 1]);
    }
  }

  datatype Typer = Typer(id: int, name: string)
  datatype TypingRequest = TypingRequest(users: seq<Typer>, total: nat)

  class RoomTyping {
    var typers: set<int>
    var total: nat
    var timer: Option<nat>
    var pending: set<nat>
    var armed: nat
    ghost var underway: nat

    function State(): (s: Typing)
      reads this
    {
      Typing(typers, total)
    }

    ghost function View(): (r: Room)
      reads this
    {
      Room(State(), timer, pending, armed, underway)
    }

    constructor ()
      ensures View() == NEW_ROOM
    {
      typers, total, timer, pending, armed, underway := {}, 0, None, {}, 0, 0;
    }

    method AddTyper(userID: int)
      modifies this
      ensures View() == Called(old(View()), userID)
    {
      if userID in typers {
        return;
      }
      if |typers| < MAX_TRACKED_TYPERS {
        typers := typers + {userID};
      }
      total := total + 1;
      if timer.Some? {
        pending := pending - {timer.value};
      }
      timer := Some(armed);
      pending, armed := pending + {armed}, armed + 1;
    }

    method AddAll(userIDs: seq<int>)
      modifies this
      ensures View() == AllCalled(old(View()), userIDs)
    {
      for i := 0 to |userIDs|
        invariant View() == AllCalled(old(View()), userIDs[..i])
      {
        assert userIDs[..i + 1][..i] == userIDs[..i];
        AddTyper(userIDs[i]);
      }
      assert userIDs[..|userIDs|] == userIDs;
    }

    /**
     * The flush of the timer `id` that fires. `queued` is read before the lock is taken, `between` are the calls that come
     * in meanwhile, `users` is the reply of the user cache (None when that fails), and `sends` tells whether the room's
     * queue takes the request within the timeout.
     */
    method FlushTyping(id: nat, queued: nat, capacity: nat, between: seq<int>, users: Option<map<int, string>>, sends: bool)
      returns (request: Option<TypingRequest>)
      requires id in pending
      modifies this
      ensures var fired := Fired(old(View()), id, queued, capacity);
              View() == if Shed(queued, capacity) then fired else Drained(AllCalled(fired, between))
      ensures Shed(queued, capacity) ==> request.None?
      ensures var drained := AllAdded(old(State()), between);
              !Shed(queued, capacity) ==>
                && State() == EMPTY && timer == None && underway == old(underway)
                && (request.Some? <==> drained.total > 0 && users.Some? && sends)
                && (request.Some? ==>
                      request.value.total == drained.total && Lists(request.value.users, drained.typers, users.value))
    {
      hide AllAdded, AllCalled, Lists;
      pending := pending - {id};
      if queued >= capacity * 9 / 10 {
        return None;
      }
      underway := underway + 1;
      AllCalledTyping(View(), between);
      AddAll(between);
      ghost var before := State();
      var typerIDs := TyperIDs();
      var drained := total;
      typers, total, timer, underway := {}, 0, None, underway - 1;
      if drained == 0 || users.None? || !sends {
        return None;
      }
      var list := TypersNamed(typerIDs, before.typers, users.value);
      return Some(TypingRequest(list, drained));
    }

    /** The tracked users as a list, in arbitrary order. */
    method TyperIDs() returns (typerIDs: seq<int>)
      ensures |typerIDs| == |typers| && forall u :: u in typers <==> u in typerIDs
    {
      typerIDs := [];
      var left := typers;
      while left != {}
        invariant left <= typers
        invariant |typerIDs| + |left| == |typers|
        invariant forall u :: u in typers <==> u in left || u in typerIDs
        decreases |left|
      {
        ghost var someone := SomeMember(left);
        var id :| id in left;
        left := left - {id};
        typerIDs := typerIDs + [id];
      }
    }
  }

  /** The list that is sent: every user once, by name if the cache knows it. */
  ghost predicate Lists(list: seq<Typer>, typers: set<int>, users: map<int, string>) {
    && |list| == |typers|
    && (forall u :: u in typers <==> exists i :: 0 <= i < |list| && list[i].id == u)
    && (forall i :: 0 <= i < |list| ==> list[i].name == if list[i].id in users then users[list[i].id] else "")
  }

  method TypersNamed(typerIDs: seq<int>, ghost typers: set<int>, users: map<int, string>) returns (list: seq<Typer>)
    requires |typerIDs| == |typers| && forall u :: u in typers <==> u in typerIDs
    ensures Lists(list, typers, users)
  {
    list := [];
    for i := 0 to |typerIDs|
      invariant |list| == i
      invariant forall k :: 0 <= k < i ==> list[k] == Typer(typerIDs[k], if typerIDs[k] in users then users[typerIDs[k]] else "")
    {
      var name := if typerIDs[i] in users then users[typerIDs[i]] else "";
      list := list + [Typer(typerIDs[i], name)];
    }
    forall u ensures u in typers <==> exists i :: 0 <= i < |list| && list[i].id == u {
      if u in typers {
        var i :| 0 <= i < |typerIDs| && typerIDs[i] == u;
        assert list[i].id == u;
      }
    }
  }

  /** The coalescer after a run of calls that starts empty. */
  function Coalesced(calls: seq<int>): (s: Typing) {
    AllAdded(EMPTY, calls)
  }

  function Users(calls: seq<int>): (users: set<int>) {
    set u | u in calls
  }

  /** `u` is among the first four different users of the run: at its first call fewer than four others had called. */
  predicate AmongFirstFour(calls: seq<int>, u: int) {
    exists i :: 0 <= i < |calls| && calls[i] == u && u !in calls[..i] && |Users(calls[..i])| < MAX_TRACKED_TYPERS
  }

  /** No user outside the first four called twice. */
  predicate UntrackedCallOnce(calls: seq<int>) {
    forall i, j :: 0 <= i < j < |calls| && calls[i] == calls[j] ==> AmongFirstFour(calls, calls[i])
  }

  lemma AmongFirstFourSnoc(calls: seq<int>, u: int, v: int)
    ensures AmongFirstFour(calls + [u], v)
            <==> AmongFirstFour(calls, v) || (v == u && u !in calls && |Users(calls)| < MAX_TRACKED_TYPERS)
  {
    var all := calls + [u];
    assert all[..|calls|] == calls;
    forall i | 0 <= i < |calls| ensures all[..i] == calls[..i] {
    }
    if AmongFirstFour(all, v) {
      var i :| 0 <= i < |all| && all[i] == v && v !in all[..i] && |Users(all[..i])| < MAX_TRACKED_TYPERS;
      if i < |calls| {
        assert all[..i] == calls[..i] && calls[i] == v;
      }
    }
    if AmongFirstFour(calls, v) {
      var i :| 0 <= i < |calls| && calls[i] == v && v !in calls[..i] && |Users(calls[..i])| < MAX_TRACKED_TYPERS;
      assert all[..i] == calls[..i] && all[i] == v;
    }
    if v == u && u !in calls && |Users(calls)| < MAX_TRACKED_TYPERS {
      assert all[|calls|] == v;
    }
  }

  lemma UsersSnoc(calls: seq<int>, u: int)
    ensures Users(calls + [u]) == Users(calls) + {u}
    ensures |Users(calls + [u])| == |Users(calls)| + (if u in calls then 0 else 1)
  {
    assert Users(calls + [u]) == Users(calls) + {u};
  }

  lemma SubsetSize<T>(a: set<T>, b: set<T>)
    requires a <= b
    ensures |a| <= |b|
    ensures |a| == |b| ==> a == b
  {
    assert b == a + (b - a);
    assert |b| == |a| + |b - a|;
  }

  /** The counting laws of a run of calls without a flush. */
  lemma {:induction false} CoalescedLaws(calls: seq<int>)
    ensures var s := Coalesced(calls);
            && |s.typers| == Min(s.total, 4)
            && (forall u :: u in s.typers <==> AmongFirstFour(calls, u))
            && s.typers <= Users(calls)
            && |Users(calls)| <= s.total
            && (|Users(calls)| <= 4 ==> s.total == |Users(calls)| && s.typers == Users(calls))
            && (|Users(calls)| >= 4 ==> |s.typers| == 4)
    decreases |calls|
  {
    if calls != [] {
      var n := |calls| - 1;
      var before, u := calls[..n], calls[n];
      assert calls == before + [u];
      CoalescedLaws(before);
      UsersSnoc(before, u);
      forall v ensures AmongFirstFour(calls, v)
                       <==> AmongFirstFour(before, v) || (v == u && u !in before && |Users(before)| < MAX_TRACKED_TYPERS) {
        AmongFirstFourSnoc(before, u, v);
      }
      var s := Coalesced(before);
      SubsetSize(s.typers, Users(before));
    }
  }

  /** The total counts every user once if and only if no user outside the first four called again. */
  lemma {:induction false} TotalCountsUsersExactly(calls: seq<int>)
    ensures Coalesced(calls).total == |Users(calls)| <==> UntrackedCallOnce(calls)
    decreases |calls|
  {
    if calls != [] {
      var n := |calls| - 1;
      var before, u := calls[..n], calls[n];
      assert calls == before + [u];
      TotalCountsUsersExactly(before);
      CoalescedLaws(before);
      CoalescedLaws(calls);
      UsersSnoc(before, u);
      RepeatsSnoc(before, u);
    }
  }

  lemma RepeatsSnoc(before: seq<int>, u: int)
    ensures UntrackedCallOnce(before + [u]) <==> UntrackedCallOnce(before) && (u in before ==> AmongFirstFour(before, u))
  {
    var calls := before + [u];
    forall v ensures AmongFirstFour(calls, v)
                     <==> AmongFirstFour(before, v) || (v == u && u !in before && |Users(before)| < MAX_TRACKED_TYPERS) {
      AmongFirstFourSnoc(before, u, v);
    }
    if UntrackedCallOnce(calls) {
      forall i, j | 0 <= i < j < |before| && before[i] == before[j] ensures AmongFirstFour(before, before[i]) {
        assert calls[i] == calls[j];
      }
      if u in before {
        var i :| 0 <= i < |before| && before[i] == u;
        assert calls[i] == calls[|before|];
      }
    }
  }

  /** A call, a timer that fires, the lock region of a flush under way. */
  datatype Event = AddTyper(userID: int) | TimerFires(id: nat, queued: nat) | Drain

  /**
   * A room's coalescer with what it has done: calls counted, totals drained, how often, calls since the last drain, and
   * whether the field's timer has fired and been shed since then.
   */
  datatype History = History(room: Room, accepted: nat, drained: nat, drains: nat, since: seq<int>, shed: bool)

  function Next(h: History, event: Event, capacity: nat): (r: History) {
    match event
    case AddTyper(u) =>
      var counted := u !in h.room.typing.typers;
      h.(room := Called(h.room, u), accepted := if counted then h.accepted + 1 else h.accepted, since := h.since + [u],
         shed := h.shed && !counted)
    case TimerFires(id, queued) =>
      h.(room := Fired(h.room, id, queued, capacity),
         shed := h.shed || (id in h.room.pending && h.room.timer == Some(id) && Shed(queued, capacity)))
    case Drain =>
      if h.room.underway == 0 then h
      else History(Drained(h.room), h.accepted, h.drained + h.room.typing.total, h.drains + 1, [], false)
  }

  function After(events: seq<Event>, capacity: nat): (h: History) {
    if events == [] then History(NEW_ROOM, 0, 0, 0, [], false)
    else Next(After(events[..|events| - 1], capacity), events[|events| - 1], capacity)
  }

  /** Over any run, shed flushes included, nothing counted is lost or counted twice. */
  lemma {:induction false} TotalsAreConserved(events: seq<Event>, capacity: nat)
    ensures var h := After(events, capacity);
            && h.drained + h.room.typing.total == h.accepted
            && h.room.typing == Coalesced(h.since)
    decreases |events|
  {
    if events != [] {
      var n := |events| - 1;
      TotalsAreConserved(events[..n], capacity);
      var h := After(events[..n], capacity);
      if events[n].AddTyper? {
        assert (h.since + [events[n].userID])[..|h.since|] == h.since;
      }
    }
  }

  /** With the queue of 100 places a flush is shed from 90 requests on. */
  lemma ShedsFromNinety(queued: nat)
    ensures Shed(queued, 100) <==> queued >= 90
  {
  }

  lemma AfterSnoc(events: seq<Event>, event: Event, capacity: nat)
    ensures After(events + [event], capacity) == Next(After(events, capacity), event, capacity)
  {
    hide Next;
    assert (events + [event])[..|events|] == events;
  }

  // ---- what a shed flush leaves behind ----

  /** Something is counted, and nothing is left that would flush it. */
  predicate Stuck(room: Room) {
    room.typing.total > 0 && room.pending == {} && room.underway == 0
  }

  predicate UntrackedCall(event: Event, room: Room) {
    event.AddTyper? && event.userID !in room.typing.typers
  }

  /**
   * In every run, what is counted, with no flush under way, has its timer pending exactly until that timer's own flush is
   * shed; so nothing else leaves a room stuck.
   */
  lemma {:induction false} TimerIsLostExactlyWhenShed(events: seq<Event>, capacity: nat)
    ensures var h := After(events, capacity);
            h.room.typing.total > 0 && h.room.underway == 0 ==>
              ((h.room.timer.Some? && h.room.timer.value in h.room.pending) <==> !h.shed)
    ensures var h := After(events, capacity); Stuck(h.room) ==> h.shed
    ensures TimersOk(After(events, capacity))
    decreases |events|
  {
    if events != [] {
      TimerIsLostExactlyWhenShed(events[..|events| - 1], capacity);
      NextKeepsTimersOk(After(events[..|events| - 1], capacity), events[|events| - 1], capacity);
    }
  }

  /** A timer that was shed is no longer pending; one that was neither shed nor served is; no timer is armed twice. */
  predicate TimersOk(h: History) {
    && (h.room.timer.Some? ==> h.room.timer.value < h.room.armed)
    && (forall id :: id in h.room.pending ==> id < h.room.armed)
    && (h.shed && h.room.timer.Some? ==> h.room.timer.value !in h.room.pending)
    && (h.room.typing.total > 0 ==>
          (h.room.timer.Some? && h.room.timer.value in h.room.pending) || h.room.underway > 0 || h.shed)
  }

  lemma NextKeepsTimersOk(h: History, event: Event, capacity: nat)
    requires TimersOk(h)
    ensures TimersOk(Next(h, event, capacity))
  {
  }

  lemma StuckStep(h: History, event: Event, capacity: nat)
    requires Stuck(h.room)
    ensures var t := Next(h, event, capacity);
            if UntrackedCall(event, h.room) then t.room.armed > h.room.armed
            else t.room == h.room && t.drains == h.drains && t.drained == h.drained
  {
  }

  lemma ArmedGrows(h: History, event: Event, capacity: nat)
    ensures Next(h, event, capacity).room.armed >= h.room.armed
  {
  }

  /**
   * A stuck room stays as it is, without another flush, until a user outside the tracked ones calls: then, and only then,
   * a timer is armed again.
   */
  lemma {:induction false} StuckUntilUntrackedCall(events: seq<Event>, more: seq<Event>, capacity: nat)
    requires Stuck(After(events, capacity).room)
    ensures var h, t := After(events, capacity), After(events + more, capacity);
            && ((exists k :: 0 <= k < |more| && UntrackedCall(more[k], h.room)) <==> t.room.armed > h.room.armed)
            && ((forall k :: 0 <= k < |more| ==> !UntrackedCall(more[k], h.room)) ==>
                  t.room == h.room && t.drains == h.drains && t.drained == h.drained)
    decreases |more|
  {
    hide Next, Stuck, After;
    if more == [] {
      assert events + more == events;
    } else {
      var n := |more| - 1;
      var h, before := After(events, capacity), After(events + more[..n], capacity);
      StuckUntilUntrackedCall(events, more[..n], capacity);
      assert events + more == events + more[..n] + [more[n]];
      AfterSnoc(events + more[..n], more[n], capacity);
      ArmedGrows(before, more[n], capacity);
      if exists k :: 0 <= k < n && UntrackedCall(more[k], h.room) {
        var k :| 0 <= k < n && UntrackedCall(more[k], h.room);
        assert UntrackedCall(more[..n][k], h.room);
      } else {
        assert forall k :: 0 <= k < n ==> more[..n][k] == more[k];
        StuckStep(before, more[n], capacity);
      }
    }
  }

  lemma CalledFiredDrained(h: History, userID: int, queued: nat, capacity: nat)
    requires Stuck(h.room) && userID !in h.room.typing.typers && !Shed(queued, capacity)
    ensures var t := Next(Next(Next(h, AddTyper(userID), capacity), TimerFires(h.room.armed, queued), capacity), Drain, capacity);
            && t.drains == h.drains + 1 && t.drained == h.drained + h.room.typing.total + 1
            && t.room.typing == EMPTY && t.room.pending == {}
  {
    var called := Next(h, AddTyper(userID), capacity);
    assert called.room.pending == {h.room.armed} && called.room.typing.total == h.room.typing.total + 1;
    var fired := Next(called, TimerFires(h.room.armed, queued), capacity);
    assert fired.room.underway == 1 && fired.room.pending == {};
  }

  /** And then one does: when the timer of that call fires with room in the queue, everything counted is drained. */
  lemma UntrackedCallFlushes(events: seq<Event>, userID: int, queued: nat, capacity: nat)
    requires var room := After(events, capacity).room;
             Stuck(room) && userID !in room.typing.typers && !Shed(queued, capacity)
    ensures var h := After(events, capacity);
            var t := After(events + [AddTyper(userID), TimerFires(h.room.armed, queued), Drain], capacity);
            && t.drains == h.drains + 1 && t.drained == h.drained + h.room.typing.total + 1
            && t.room.typing == EMPTY && t.room.pending == {}
  {
    hide Next, After;
    var h := After(events, capacity);
    var call, fires := AddTyper(userID), TimerFires(h.room.armed, queued);
    AfterSnoc(events, call, capacity);
    AfterSnoc(events + [call], fires, capacity);
    AfterSnoc(events + [call] + [fires], Drain, capacity);
    assert events + [call] + [fires] + [Drain] == events + [call, fires, Drain];
    CalledFiredDrained(h, userID, queued, capacity);
  }

  // ---- old timers are stopped ----

  /** Timers still pending that are not the field's. */
  function Forgotten(room: Room): (ids: set<nat>) {
    if room.timer.Some? then room.pending - {room.timer.value} else room.pending
  }

  lemma AllButOne(room: Room)
    ensures |Forgotten(room)| <= |room.pending| <= |Forgotten(room)| + 1
  {
    if room.timer.Some? && room.timer.value in room.pending {
      assert room.pending == Forgotten(room) + {room.timer.value};
    } else {
      assert Forgotten(room) == room.pending;
    }
  }

  lemma ForgottenGrows(h: History, event: Event, capacity: nat)
    requires (h.room.timer.Some? ==> h.room.timer.value < h.room.armed) && forall id :: id in h.room.pending ==> id < h.room.armed
    ensures var t := Next(h, event, capacity); |Forgotten(t.room)| <= |Forgotten(h.room)| + t.drains - h.drains
  {
    var t := Next(h, event, capacity);
    AllButOne(h.room);
    match event
    case AddTyper(u) => assert Forgotten(t.room) == Forgotten(h.room);
    case TimerFires(id, queued) => SubsetSize(Forgotten(t.room), Forgotten(h.room));
    case Drain =>
  }

  /** A new timer stops the old one: at most one is pending, and one more for every flush that forgot its own. */
  lemma {:induction false} OldTimersAreStopped(events: seq<Event>, capacity: nat)
    ensures var h := After(events, capacity); |h.room.pending| <= h.drains + 1
    ensures var h := After(events, capacity); |Forgotten(h.room)| <= h.drains
    decreases |events|
  {
    hide Next, Forgotten;
    if events == [] {
      NothingForgotten();
    } else {
      OldTimersAreStopped(events[..|events| - 1], capacity);
      TimerIsLostExactlyWhenShed(events[..|events| - 1], capacity);
      ForgottenGrows(After(events[..|events| - 1], capacity), events[|events| - 1], capacity);
    }
    AllButOne(After(events, capacity).room);
  }

  lemma NothingForgotten()
    ensures Forgotten(NEW_ROOM) == {}
  {
  }
}
