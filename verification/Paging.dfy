/**
 * Keyset paging: base/store/channelMessage/query.go (newest first) and base/store/server/query.go (oldest first).
 * A query is "keep the ids past the cursor, sort, take the first few"; a client follows the last id of each page.
 */
module Paging {
  import opened Common

  /** `a` comes before `b` in the chosen direction. */
  predicate Before(a: int, b: int, descending: bool) {
    if descending then a > b else a < b
  }

  predicate IsFirst(x: int, ids: set<int>, descending: bool) {
    x in ids && forall y :: y in ids && y != x ==> Before(x, y, descending)
  }

  lemma {:induction false} FirstExists(ids: set<int>, descending: bool)
    requires ids != {}
    ensures exists x :: IsFirst(x, ids, descending)
    decreases |ids|
  {
    var z := SomeMember(ids);
    var rest := ids - {z};
    assert ids == rest + {z};
    if rest == {} {
      assert IsFirst(z, ids, descending);
    } else {
      FirstExists(rest, descending);
      var x :| IsFirst(x, rest, descending);
      assert IsFirst(if Before(x, z, descending) then x else z, ids, descending);
    }
  }

  function First(ids: set<int>, descending: bool): (x: int)
    requires ids != {}
    ensures IsFirst(x, ids, descending)
  {
    FirstExists(ids, descending);
    var x :| IsFirst(x, ids, descending);
    x
  }

  function Sorted(ids: set<int>, descending: bool): (s: seq<int>)
    decreases |ids|
  {
    if ids == {} then []
    else
      var x := First(ids, descending);
      [x] + Sorted(ids - {x}, descending)
  }

  predicate Ordered(s: seq<int>, descending: bool) {
    forall i, j :: 0 <= i < j < |s| ==> Before(s[i], s[j], descending)
  }

  lemma OrderedCons(x: int, rest: seq<int>, descending: bool)
    requires Ordered(rest, descending) && forall y :: y in rest ==> Before(x, y, descending)
    ensures Ordered([x] + rest, descending)
  {
  }

  /** `Sorted` lists every id once, in strict order. */
  lemma {:induction false} SortedListsAll(ids: set<int>, descending: bool)
    ensures forall x :: x in Sorted(ids, descending) <==> x in ids
    ensures Ordered(Sorted(ids, descending), descending)
    ensures |Sorted(ids, descending)| == |ids|
    decreases |ids|
  {
    if ids != {} {
      var x := First(ids, descending);
      SortedListsAll(ids - {x}, descending);
      OrderedCons(x, Sorted(ids - {x}, descending), descending);
    }
  }

  /** The ids a cursor leaves. */
  function Past(ids: set<int>, after: Option<int>, descending: bool): (rest: set<int>) {
    set x | x in ids && (after.None? || Before(after.value, x, descending))
  }

  /** One page; a limit of None is unlimited. */
  function Query(ids: set<int>, limit: Option<nat>, after: Option<int>, descending: bool): (page: seq<int>) {
    var s := Sorted(Past(ids, after, descending), descending);
    if limit.None? || limit.value >= |s| then s else s[..limit.value]
  }

  lemma PastFirst(ids: set<int>, x: int, descending: bool)
    requires IsFirst(x, ids, descending)
    ensures Past(ids, Some(x), descending) == ids - {x}
    ensures forall y :: y in ids - {x} ==> Past(ids, Some(y), descending) == Past(ids - {x}, Some(y), descending)
  {
  }

  lemma SortedCons(ids: set<int>, descending: bool)
    requires ids != {}
    ensures var x := First(ids, descending);
            IsFirst(x, ids, descending) && Sorted(ids, descending) == [x] + Sorted(ids - {x}, descending)
  {
  }

  /** Cutting a sorted list after its n-th id leaves the sorted list of the ids past that id. */
  lemma {:induction false} SortedSplit(ids: set<int>, n: nat, descending: bool)
    requires 0 < n <= |Sorted(ids, descending)|
    ensures Sorted(Past(ids, Some(Sorted(ids, descending)[n - 1]), descending), descending) == Sorted(ids, descending)[n..]
    decreases n
  {
    hide Sorted, Past, IsFirst;
    SortedListsAll(ids, descending);
    SortedCons(ids, descending);
    var x := First(ids, descending);
    var rest := Sorted(ids - {x}, descending);
    PastFirst(ids, x, descending);
    if n == 1 {
      assert ([x] + rest)[1..] == rest;
    } else {
      SortedListsAll(ids - {x}, descending);
      SortedSplit(ids - {x}, n - 1, descending);
      assert rest[n - 2] in rest;
      assert ([x] + rest)[n - 1] == rest[n - 2] && ([x] + rest)[n..] == rest[n - 1..];
    }
  }

  lemma QueryKeepsToTheTable(ids: set<int>, limit: Option<nat>, after: Option<int>, descending: bool)
    ensures forall i :: 0 <= i < |Query(ids, limit, after, descending)| ==> Query(ids, limit, after, descending)[i] in ids
  {
    var s := Sorted(Past(ids, after, descending), descending);
    SortedListsAll(Past(ids, after, descending), descending);
    assert forall i :: 0 <= i < |s| ==> s[i] in s;
  }

  /** Rows may be added between two pages, but only ones the cursor has already gone past. */
  ghost predicate OnlyEarlierAdded(tables: nat -> set<int>, descending: bool) {
    forall k: nat ::
      tables(0) <= tables(k) && forall x, y :: x in tables(k) - tables(0) && y in tables(0) ==> Before(x, y, descending)
  }

  lemma PastIgnoresAdded(tables: nat -> set<int>, k: nat, after: int, descending: bool)
    requires OnlyEarlierAdded(tables, descending) && after in tables(0)
    ensures Past(tables(k), Some(after), descending) == Past(tables(0), Some(after), descending)
  {
    forall x ensures x in Past(tables(k), Some(after), descending) <==> x in Past(tables(0), Some(after), descending) {
      if x in tables(k) && x !in tables(0) {
        assert x in tables(k) - tables(0);
        assert Before(x, after, descending);
      }
    }
  }

  lemma PastPast(ids: set<int>, after: Option<int>, cursor: int, descending: bool)
    requires cursor in Past(ids, after, descending)
    ensures Past(Past(ids, after, descending), Some(cursor), descending) == Past(ids, Some(cursor), descending)
    ensures Past(ids, Some(cursor), descending) < Past(ids, after, descending)
  {
    assert cursor !in Past(ids, Some(cursor), descending);
  }

  /** A page is a non-empty prefix of the sorted rest; the ids past its last one are what remains. */
  lemma PageShrinksRest(ids: set<int>, limit: Option<nat>, after: Option<int>, descending: bool)
    requires limit.Some? ==> limit.value > 0
    requires Query(ids, limit, after, descending) != []
    ensures var page := Query(ids, limit, after, descending); var cursor := page[|page| - 1];
            && cursor in Past(ids, after, descending)
            && Past(ids, Some(cursor), descending) < Past(ids, after, descending)
            && page + Sorted(Past(ids, Some(cursor), descending), descending) == Sorted(Past(ids, after, descending), descending)
  {
    var page := Query(ids, limit, after, descending);
    var rest := Past(ids, after, descending);
    var s := Sorted(rest, descending);
    var cursor := page[|page| - 1];
    assert page == s[..|page|] && cursor == s[|page| - 1];
    assert cursor in rest by { SortedListsAll(rest, descending); }
    PastPast(ids, after, cursor, descending);
    SortedSplit(rest, |page|, descending);
    assert s[..|page|] + s[|page|..] == s;
  }

  lemma SmallerSet(a: set<int>, b: set<int>)
    requires a < b
    ensures |a| < |b|
  {
    assert b == a + (b - a);
    assert |b| == |a| + |b - a|;
  }

  /** What one page leaves to read, whatever was added to the table since the first page. */
  lemma PageLeavesRest(tables: nat -> set<int>, k: nat, limit: Option<nat>, after: Option<int>, descending: bool)
    requires limit.Some? ==> limit.value > 0
    requires OnlyEarlierAdded(tables, descending)
    requires if k == 0 then after.None? else after.Some? && after.value in tables(0)
    ensures var page := Query(tables(k), limit, after, descending); var all := Past(tables(0), after, descending);
            if page == [] then Sorted(all, descending) == []
            else
              var rest := Past(tables(0), Some(page[|page| - 1]), descending);
              && page[|page| - 1] in tables(0) && |rest| < |all|
              && page + Sorted(rest, descending) == Sorted(all, descending)
  {
    if k > 0 { PastIgnoresAdded(tables, k, after.value, descending); }
    var page := Query(tables(k), limit, after, descending);
    if page != [] {
      PageShrinksRest(tables(k), limit, after, descending);
      PastIgnoresAdded(tables, k, page[|page| - 1], descending);
      SmallerSet(Past(tables(0), Some(page[|page| - 1]), descending), Past(tables(0), after, descending));
    }
  }

  /** Everything a client reads: page k comes from the table as it is at that moment; it stops at an empty page. */
  ghost function ReadAll(tables: nat -> set<int>, k: nat, limit: Option<nat>, after: Option<int>, descending: bool): (ids: seq<int>)
    requires limit.Some? ==> limit.value > 0
    requires OnlyEarlierAdded(tables, descending)
    requires if k == 0 then after.None? else after.Some? && after.value in tables(0)
    decreases |Past(tables(0), after, descending)|
  {
    var page := Query(tables(k), limit, after, descending);
    if page == [] then []
    else
      PageLeavesRest(tables, k, limit, after, descending);
      page + ReadAll(tables, k + 1, limit, Some(page[|page| - 1]), descending)
  }

  lemma {:induction false} ReadRest(tables: nat -> set<int>, k: nat, limit: Option<nat>, after: Option<int>, descending: bool)
    requires limit.Some? ==> limit.value > 0
    requires OnlyEarlierAdded(tables, descending)
    requires if k == 0 then after.None? else after.Some? && after.value in tables(0)
    ensures ReadAll(tables, k, limit, after, descending) == Sorted(Past(tables(0), after, descending), descending)
    decreases |Past(tables(0), after, descending)|
  {
    hide Sorted, Past, Query, OnlyEarlierAdded;
    PageLeavesRest(tables, k, limit, after, descending);
    var page := Query(tables(k), limit, after, descending);
    if page != [] {
      ReadRest(tables, k + 1, limit, Some(page[|page| - 1]), descending);
    }
  }

  /** The page lists `n` of the ids, in strict order, and leaves none out before the last one it lists. */
  ghost predicate FirstOf(page: seq<int>, ids: set<int>, n: int, descending: bool) {
    && |page| == n
    && (forall x :: x in page ==> x in ids)
    && (forall i, j :: 0 <= i < j < |page| ==> if descending then page[i] > page[j] else page[i] < page[j])
    && (forall x, y :: x in ids && x !in page && y in page ==> if descending then x < y else x > y)
  }

  /** The ids the cursor leaves: older ones when paging back, newer ones when paging on. */
  function Eligible(ids: set<int>, after: Option<int>, descending: bool): (rest: set<int>) {
    set x | x in ids && (after == None || if descending then x < after.value else x > after.value)
  }

  /** One page: the first of the ids past the cursor, as many as there are up to the limit. */
  lemma WhatAPageHolds(ids: set<int>, limit: Option<nat>, after: Option<int>, descending: bool)
    ensures var eligible := Eligible(ids, after, descending);
            FirstOf(Query(ids, limit, after, descending), eligible,
                    if limit == None then |eligible| else Min(limit.value, |eligible|), descending)
  {
    hide Sorted;
    var eligible := Eligible(ids, after, descending);
    assert Past(ids, after, descending) == eligible;
    SortedListsAll(eligible, descending);
    var all, page := Sorted(eligible, descending), Query(ids, limit, after, descending);
    assert page == all[..|page|];
    assert forall k :: 0 <= k < |page| ==> page[k] == all[k];
    forall x, y | x in eligible && x !in page && y in page ensures if descending then x < y else x > y {
      assert x in all;
      var i :| 0 <= i < |all| && all[i] == x;
      var j :| 0 <= j < |page| && page[j] == y;
      assert i >= |page|;
    }
  }

  /**
   * Following the cursor to the end gives every id present at the first page exactly once, in strict order, for
   * every page size, whatever is added behind the cursor meanwhile.
   */
  lemma PagesListEverything(tables: nat -> set<int>, limit: Option<nat>, descending: bool)
    requires limit.Some? ==> limit.value > 0
    requires OnlyEarlierAdded(tables, descending)
    ensures var ids := ReadAll(tables, 0, limit, None, descending);
            && Ordered(ids, descending)
            && |ids| == |tables(0)|
            && (forall x :: x in ids <==> x in tables(0))
  {
    ReadRest(tables, 0, limit, None, descending);
    assert Past(tables(0), None, descending) == tables(0);
    SortedListsAll(tables(0), descending);
  }
}

/** base/store/channelMessage/query.go: the last messages of a channel. */
module ChannelMessageQuery {
  import opened Common
  import opened Paging

  datatype User = User(id: int, name: string)
  datatype Message = Message(id: int, channelID: int, deleted: bool, userID: int, user: Option<User>)

  type Collection = c: map<int, Message> | forall id :: id in c ==> c[id].id == id witness map[]

  /** The ids the filter document selects before the cursor is applied. */
  function Matching(collection: Collection, channelID: int): (ids: set<int>) {
    set id | id in collection && collection[id].channelID == channelID && !collection[id].deleted
  }

  /** The limit that reaches MongoDB: above 100 is cut, 0 means unlimited, a negative one counts by its size. */
  function EffectiveLimit(limit: int): (n: Option<nat>)
    ensures n.Some? ==> n.value > 0
  {
    var capped := if limit > 100 then 100 else limit;
    if capped == 0 then None
    else
      var size: int := if capped < 0 then -capped else capped;
      Some(size)
  }

  const MAX_USER_BATCH: nat := 100

  /** `GetUsersBatch` of the user store (base/store/user/query.go:16-48): refuses more than 100 ids, else queries once. */
  function GetUsersBatch(users: map<int, User>, ids: set<int>, queryFails: bool): (batch: Option<map<int, User>>) {
    if |ids| > MAX_USER_BATCH then None
    else if ids == {} then Some(map[])
    else if queryFails then None
    else Some(map id | id in ids && id in users :: users[id])
  }

  function Authors(messages: seq<Message>): (ids: set<int>) {
    set i | 0 <= i < |messages| :: messages[i].userID
  }

  lemma NoAuthors()
    ensures Authors([]) == {}
  {
  }

  lemma EveryAuthorIsListed(messages: seq<Message>)
    ensures forall i :: 0 <= i < |messages| ==> messages[i].userID in Authors(messages)
  {
  }

  lemma {:induction false} NoMoreAuthorsThanMessages(messages: seq<Message>)
    ensures |Authors(messages)| <= |messages|
  {
    hide Authors;
    if messages == [] {
      NoAuthors();
    } else {
      var n := |messages| - 1;
      NoMoreAuthorsThanMessages(messages[..n]);
      AuthorsSnoc(messages[..n], messages[n]);
      assert messages[..n] + [messages[n]] == messages;
    }
  }

  lemma AuthorsSnoc(messages: seq<Message>, m: Message)
    ensures Authors(messages + [m]) == Authors(messages) + {m.userID}
  {
    var longer := messages + [m];
    assert longer[|messages|].userID == m.userID;
    forall id | id in Authors(messages) ensures id in Authors(longer) {
      var i :| 0 <= i < |messages| && messages[i].userID == id;
      assert longer[i].userID == id;
    }
  }

  function Author(users: map<int, User>, m: Message): (author: Option<User>) {
    if m.userID in users then Some(users[m.userID]) else None
  }

  /** The rows of a page, as stored. */
  function Rows(collection: Collection, ids: seq<int>): (rows: seq<Message>)
    requires forall i :: 0 <= i < |ids| ==> ids[i] in collection
    ensures |rows| == |ids| && forall i :: 0 <= i < |ids| ==> rows[i] == collection[ids[i]]
  {
    seq(|ids|, i requires 0 <= i < |ids| => collection[ids[i]])
  }

  /**
   * The page, newest first. Every message gets its author, unless the user query fails or the page has more than 100
   * authors; a positive limit keeps it below that.
   */
  method GetServerChannelLastMessages(
    collection: Collection, channelID: int, limit: int, afterID: Option<int>, mongoUp: bool,
    users: map<int, User>, usersFail: bool)
    returns (err: bool, messages: seq<Message>)
    ensures err <==> !mongoUp
    ensures err ==> messages == []
    ensures !err ==>
            var page := Query(Matching(collection, channelID), EffectiveLimit(limit), afterID, true);
            && |messages| == |page|
            && (forall i :: 0 <= i < |page| ==> page[i] in collection)
            && var attached := !usersFail && |Authors(Rows(collection, page))| <= 100;
               forall i :: 0 <= i < |page| ==>
                 messages[i] == if attached then collection[page[i]].(user := Author(users, collection[page[i]]))
                                else collection[page[i]]
    ensures limit > 0 && !usersFail ==> forall i :: 0 <= i < |messages| ==> messages[i].user == Author(users, messages[i])
    ensures !err ==> FirstOf(IDs(messages), OlderMessages(collection, channelID, afterID),
                             HowMany(limit, |OlderMessages(collection, channelID, afterID)|), true)
  {
    if !mongoUp { return true, []; }
    err := false;
    var ids := Query(Matching(collection, channelID), EffectiveLimit(limit), afterID, true);
    QueryKeepsToTheTable(Matching(collection, channelID), EffectiveLimit(limit), afterID, true);
    PageOfAChannel(collection, channelID, limit, afterID);
    messages := Rows(collection, ids);
    assert IDs(messages) == ids;
    ghost var rows := messages;
    NoMoreAuthorsThanMessages(rows);
    EveryAuthorIsListed(rows);
    var userIDs := UserIDs(messages);
    var usersMap := GetUsersBatch(users, userIDs, usersFail);
    if usersMap.Some? {
      messages := WithUsers(messages, users, usersMap.value);
      assert IDs(messages) == ids;
    }
  }

  /** The messages of the channel that are not deleted and older than the cursor. */
  function OlderMessages(collection: Collection, channelID: int, afterID: Option<int>): (ids: set<int>) {
    set id | id in collection && collection[id].channelID == channelID && !collection[id].deleted
             && (afterID != None ==> id < afterID.value)
  }

  /** Of so many messages a page shows all for the limit 0, else at most 100 and at most as many as the limit counts. */
  function HowMany(limit: int, there: nat): (n: nat) {
    if limit == 0 then there else if limit > 100 then Min(100, there) else if limit > 0 then Min(limit, there) else Min(-limit, there)
  }

  function IDs(messages: seq<Message>): (ids: seq<int>)
    ensures |ids| == |messages| && forall i :: 0 <= i < |ids| ==> ids[i] == messages[i].id
  {
    seq(|messages|, i requires 0 <= i < |messages| => messages[i].id)
  }

  /** What the query of a channel selects, for every limit. */
  lemma PageOfAChannel(collection: Collection, channelID: int, limit: int, afterID: Option<int>)
    ensures var there := OlderMessages(collection, channelID, afterID);
            FirstOf(Query(Matching(collection, channelID), EffectiveLimit(limit), afterID, true), there, HowMany(limit, |there|), true)
  {
    hide Query, FirstOf;
    WhatAPageHolds(Matching(collection, channelID), EffectiveLimit(limit), afterID, true);
    assert OlderMessages(collection, channelID, afterID) == Eligible(Matching(collection, channelID), afterID, true);
  }

  /** The loop that collects the authors of a page. */
  method UserIDs(messages: seq<Message>) returns (userIDs: set<int>)
    ensures userIDs == Authors(messages)
  {
    userIDs := {};
    for i := 0 to |messages|
      invariant userIDs == Authors(messages[..i])
    {
      AuthorsSnoc(messages[..i], messages[i]);
      assert messages[..i + 1] == messages[..i] + [messages[i]];
      userIDs := userIDs + {messages[i].userID};
    }
    assert messages[..|messages|] == messages;
  }

  /** The loop that attaches them; an author missing from the map becomes nil. */
  method WithUsers(rows: seq<Message>, ghost users: map<int, User>, usersMap: map<int, User>) returns (messages: seq<Message>)
    requires usersMap == map id | id in Authors(rows) && id in users :: users[id]
    ensures |messages| == |rows| && forall i :: 0 <= i < |rows| ==> messages[i] == rows[i].(user := Author(users, rows[i]))
  {
    messages := rows;
    for i := 0 to |messages|
      invariant |messages| == |rows|
      invariant forall k :: i <= k < |rows| ==> messages[k] == rows[k]
      invariant forall k :: 0 <= k < i ==> messages[k] == rows[k].(user := Author(users, rows[k]))
    {
      var id := messages[i].userID;
      assert id in Authors(rows);
      messages := messages[i := messages[i].(user := if id in usersMap then Some(usersMap[id]) else None)];
    }
  }

  /** Messages inserted while a client pages have larger ids than those of the first page's snapshot. */
  ghost predicate OnlyNewerInserted(collections: nat -> Collection, channelID: int) {
    forall k: nat ::
      && Matching(collections(0), channelID) <= Matching(collections(k), channelID)
      && forall x, y | x in Matching(collections(k), channelID) - Matching(collections(0), channelID)
                       && y in Matching(collections(0), channelID) :: x > y
  }

  /** A client paging back through a channel reads each message of the first snapshot once, newest first. */
  lemma HistoryIsComplete(collections: nat -> Collection, channelID: int, limit: int)
    requires OnlyNewerInserted(collections, channelID)
    ensures var tables := (k: nat) => Matching(collections(k), channelID);
            && OnlyEarlierAdded(tables, true)
            && var ids := ReadAll(tables, 0, EffectiveLimit(limit), None, true);
               Ordered(ids, true) && |ids| == |tables(0)| && forall x :: x in ids <==> x in Matching(collections(0), channelID)
  {
    var tables := (k: nat) => Matching(collections(k), channelID);
    assert OnlyEarlierAdded(tables, true);
    PagesListEverything(tables, EffectiveLimit(limit), true);
  }
}

/** base/store/server/query.go: the members of a server. */
module ServerMemberQuery {
  import opened Common
  import opened Paging
  import opened ChannelMessageQuery

  datatype Member = Member(id: int, userID: int, serverID: int, user: Option<User>)

  type MemberTable = t: map<int, Member> | forall id :: id in t ==> t[id].id == id witness map[]

  /** The inner join: members of the server whose user row exists. */
  function Joined(members: MemberTable, users: map<int, User>, serverID: int): (ids: set<int>) {
    set id | id in members && members[id].serverID == serverID && members[id].userID in users
  }

  function EffectiveMemberLimit(limit: int): (n: nat)
    ensures 0 < n <= 200
  {
    var defaulted := if limit <= 0 then 100 else limit;
    if defaulted > 200 then 200 else defaulted
  }

  /** A cursor of 0 or less asks for the first page. */
  function Cursor(after: int): (c: Option<int>) {
    if after > 0 then Some(after) else None
  }

  method GetServerMembers(members: MemberTable, users: map<int, User>, serverID: int, limit: int, after: int, dbUp: bool)
    returns (err: bool, page: seq<Member>)
    ensures err <==> !dbUp
    ensures err ==> page == []
    ensures !err ==>
            var ids := Query(Joined(members, users, serverID), Some(EffectiveMemberLimit(limit)), Cursor(after), false);
            && |page| == |ids|
            && forall i :: 0 <= i < |ids| ==>
                 && ids[i] in Joined(members, users, serverID)
                 && page[i] == members[ids[i]].(user := if members[ids[i]].userID > 0 then Some(users[members[ids[i]].userID])
                                                        else members[ids[i]].user)
    ensures !err ==> FirstOf(MemberIDs(page), LaterMembers(members, users, serverID, after),
                             Min(if limit <= 0 then 100 else if limit > 200 then 200 else limit, |LaterMembers(members, users, serverID, after)|), false)
  {
    if !dbUp { return true, []; }
    err := false;
    var rows := Query(Joined(members, users, serverID), Some(EffectiveMemberLimit(limit)), Cursor(after), false);
    QueryKeepsToTheTable(Joined(members, users, serverID), Some(EffectiveMemberLimit(limit)), Cursor(after), false);
    PageOfMembers(members, users, serverID, limit, after);
    page := [];
    for i := 0 to |rows|
      invariant |page| == i
      invariant forall k :: 0 <= k < i ==>
                  page[k] == members[rows[k]].(user := if members[rows[k]].userID > 0 then Some(users[members[rows[k]].userID])
                                                       else members[rows[k]].user)
    {
      var member := members[rows[i]];
      if member.userID > 0 {
        member := member.(user := Some(users[member.userID]));
      }
      page := page + [member];
    }
    assert MemberIDs(page) == rows;
  }

  /** The members of the server that have a user and come after the cursor, if it is positive. */
  function LaterMembers(members: MemberTable, users: map<int, User>, serverID: int, after: int): (ids: set<int>) {
    set id | id in members && members[id].serverID == serverID && members[id].userID in users && (after > 0 ==> id > after)
  }

  function MemberIDs(page: seq<Member>): (ids: seq<int>)
    ensures |ids| == |page| && forall i :: 0 <= i < |ids| ==> ids[i] == page[i].id
  {
    seq(|page|, i requires 0 <= i < |page| => page[i].id)
  }

  /** What the query of a server selects, for every limit: 100 without one, and at most 200. */
  lemma PageOfMembers(members: MemberTable, users: map<int, User>, serverID: int, limit: int, after: int)
    ensures var there := LaterMembers(members, users, serverID, after);
            FirstOf(Query(Joined(members, users, serverID), Some(EffectiveMemberLimit(limit)), Cursor(after), false), there,
                    Min(if limit <= 0 then 100 else if limit > 200 then 200 else limit, |there|), false)
  {
    hide Query, FirstOf;
    WhatAPageHolds(Joined(members, users, serverID), Some(EffectiveMemberLimit(limit)), Cursor(after), false);
    assert LaterMembers(members, users, serverID, after) == Eligible(Joined(members, users, serverID), Cursor(after), false);
  }

  /** A client that asks for page after page, from 0 on, passing the last id it got, until a page is empty. */
  datatype Reading = Reading(listed: seq<int>, cursor: int, done: bool)

  /** The client after `requests` requests. */
  function ReadOn(ids: set<int>, limit: nat, requests: nat): (r: Reading) {
    if requests == 0 then Reading([], 0, false)
    else
      var r := ReadOn(ids, limit, requests - 1);
      var page := Query(ids, Some(limit), Cursor(r.cursor), false);
      if r.done then r
      else if page == [] then r.(done := true)
      else Reading(r.listed + page, page[|page| - 1], false)
  }

  /** The first page is empty, or ends in an id that the query takes for a cursor. */
  predicate FirstPageGoesOn(ids: set<int>, limit: nat) {
    var page := Query(ids, Some(limit), None, false);
    page == [] || page[|page| - 1] > 0
  }

  /** What is listed and what the cursor leaves are everything; every request that gets rows leaves fewer. */
  ghost predicate OnTrack(ids: set<int>, r: Reading, requests: nat) {
    var rest := Past(ids, Cursor(r.cursor), false);
    && r.listed + Sorted(rest, false) == Sorted(ids, false)
    && (if r.done then rest == {} else |rest| + requests <= |ids|)
    && (if r.cursor == 0 then r.listed == [] else r.cursor > 0)
  }

  lemma NextPage(ids: set<int>, limit: nat, r: Reading, requests: nat)
    requires limit > 0 && !r.done && OnTrack(ids, r, requests) && FirstPageGoesOn(ids, limit)
    ensures var page := Query(ids, Some(limit), Cursor(r.cursor), false);
            OnTrack(ids, if page == [] then r.(done := true) else Reading(r.listed + page, page[|page| - 1], false), requests + 1)
  {
    hide Sorted, First;
    var page, rest := Query(ids, Some(limit), Cursor(r.cursor), false), Past(ids, Cursor(r.cursor), false);
    if page == [] {
      SortedListsAll(rest, false);
    } else {
      PageShrinksRest(ids, Some(limit), Cursor(r.cursor), false);
      SmallerSet(Past(ids, Some(page[|page| - 1]), false), rest);
      assert r.listed + page + Sorted(Past(ids, Some(page[|page| - 1]), false), false) == r.listed + Sorted(rest, false);
    }
  }

  lemma {:induction false} StaysOnTrack(ids: set<int>, limit: nat, requests: nat)
    requires limit > 0 && FirstPageGoesOn(ids, limit)
    ensures OnTrack(ids, ReadOn(ids, limit, requests), requests)
    decreases requests
  {
    hide Sorted, First, Query;
    if requests == 0 {
      assert Past(ids, None, false) == ids;
    } else {
      StaysOnTrack(ids, limit, requests - 1);
      if !ReadOn(ids, limit, requests - 1).done { NextPage(ids, limit, ReadOn(ids, limit, requests - 1), requests - 1); }
    }
  }

  /** Otherwise the last id of the first page asks for the first page again, and so for ever. */
  lemma {:induction false} StartsAgain(ids: set<int>, limit: nat, requests: nat)
    requires !FirstPageGoesOn(ids, limit)
    ensures var r, page := ReadOn(ids, limit, requests), Query(ids, Some(limit), None, false);
            && !r.done && r.cursor <= 0 && |r.listed| == requests * |page|
            && ReadOn(ids, limit, requests + 1).listed == r.listed + page
    decreases requests
  {
    hide Sorted, First, Query;
    if requests > 0 { StartsAgain(ids, limit, requests - 1); }
  }

  /**
   * On a fixed table, for every requested limit: a client that follows the cursor comes to an end if and only if the
   * first page is empty or ends in a positive id, and then it has listed every member once, in ascending order.
   */
  lemma MemberPagingEndsExactly(members: MemberTable, users: map<int, User>, serverID: int, limit: int)
    ensures var ids, n := Joined(members, users, serverID), EffectiveMemberLimit(limit);
            && ((exists requests: nat :: ReadOn(ids, n, requests).done) <==> FirstPageGoesOn(ids, n))
            && forall requests: nat :: var r := ReadOn(ids, n, requests);
                 r.done ==> Ordered(r.listed, false) && |r.listed| == |ids| && forall x :: x in r.listed <==> x in ids
  {
    hide Sorted, First, Query, ReadOn, Joined;
    var ids, n := Joined(members, users, serverID), EffectiveMemberLimit(limit);
    if FirstPageGoesOn(ids, n) {
      StaysOnTrack(ids, n, |ids| + 1);
      assert ReadOn(ids, n, |ids| + 1).done;
    }
    forall requests: nat | ReadOn(ids, n, requests).done
      ensures FirstPageGoesOn(ids, n) && ReadOn(ids, n, requests).listed == Sorted(ids, false)
    {
      if !FirstPageGoesOn(ids, n) { StartsAgain(ids, n, requests); }
      StaysOnTrack(ids, n, requests);
      EmptyIsUnlisted();
    }
    SortedListsAll(ids, false);
  }

  lemma EmptyIsUnlisted()
    ensures Sorted({}, false) == []
  {
  }

  lemma MembersOfAPage(ids: set<int>, limit: nat)
    requires forall id :: id in ids ==> id > 0
    ensures FirstPageGoesOn(ids, limit)
  {
    QueryKeepsToTheTable(ids, Some(limit), None, false);
  }

  /** Member ids are positive, as the generator makes them: then paging lists every member, for every requested limit. */
  lemma MemberListIsComplete(members: MemberTable, users: map<int, User>, serverID: int, limit: int)
    requires forall id :: id in members ==> id > 0
    ensures var ids, n := Joined(members, users, serverID), EffectiveMemberLimit(limit);
            exists requests: nat :: var r := ReadOn(ids, n, requests);
              r.done && Ordered(r.listed, false) && |r.listed| == |ids| && forall x :: x in r.listed <==> x in ids
  {
    hide Sorted, First, Query, ReadOn;
    var ids, n := Joined(members, users, serverID), EffectiveMemberLimit(limit);
    MembersOfAPage(ids, n);
    MemberPagingEndsExactly(members, users, serverID, limit);
    var requests: nat :| ReadOn(ids, n, requests).done;
  }
}
