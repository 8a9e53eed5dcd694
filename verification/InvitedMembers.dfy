/**
 * internal/modules/core/services/kafka/serverMembers.go and `UseServerInvite` of base/store/server/mutation.go:
 * the change events of the members table are folded, batch by batch, into the `used_count` of each invite.
 */
module InvitedMembers {
  import opened Common

  /** A change event of the members table, or bytes that are not one. */
  datatype ChangeEvent =
    | RowCreated(inviteCode: Option<string>)
    | OtherChange
    | Unreadable

  predicate UsesInvite(event: ChangeEvent, code: string) {
    event.RowCreated? && event.inviteCode == Some(code) && code != ""
  }

  /** How many of the events are rows created with `code`. */
  function CreatedWith(events: seq<ChangeEvent>, code: string): (n: nat) {
    if events == [] then 0
    else CreatedWith(events[..|events| - 1], code) + (if UsesInvite(events[|events| - 1], code) then 1 else 0)
  }

  lemma {:induction false} CreatedWithConcat(a: seq<ChangeEvent>, b: seq<ChangeEvent>, code: string)
    ensures CreatedWith(a + b, code) == CreatedWith(a, code) + CreatedWith(b, code)
    decreases |b|
  {
    if b == [] {
      assert a + b == a;
    } else {
      CreatedWithConcat(a, b[..|b| - 1], code);
      assert (a + b)[..|a + b| - 1] == a + b[..|b| - 1];
    }
  }

  /** The positions of the events that create a row with the code; rows without a code, or with an empty one, do not count. */
  function RowsWith(events: seq<ChangeEvent>, code: string): (positions: set<nat>) {
    set i: nat | i < |events| && events[i] == RowCreated(Some(code)) && code != ""
  }

  lemma {:induction false} CreatedWithCountsRows(events: seq<ChangeEvent>, code: string)
    ensures CreatedWith(events, code) == |RowsWith(events, code)|
    decreases |events|
  {
    if events != [] {
      var n := |events| - 1;
      CreatedWithCountsRows(events[..n], code);
      var last := if events[n] == RowCreated(Some(code)) && code != "" then {n} else {};
      assert RowsWith(events, code) == RowsWith(events[..n], code) + last;
    }
  }

  type Counts = map<string, int>

  /** Every code's count after the events, for the codes that have a row. */
  function Folded(counts: Counts, events: seq<ChangeEvent>): (r: Counts) {
    map code | code in counts :: counts[code] + CreatedWith(events, code)
  }

  /** The rows of `server_invites`, as far as their counts go. */
  class InviteTable {
    var usedCount: Counts

    constructor (initial: Counts)
      ensures usedCount == initial
    {
      usedCount := initial;
    }

    /** `UseServerInvite`: an increment that is not positive, a database error or a missing row are errors. */
    method UseServerInvite(code: string, incrementBy: int, dbUp: bool) returns (ok: bool)
      modifies this
      ensures ok <==> incrementBy > 0 && dbUp && code in old(usedCount)
      ensures usedCount == if ok then old(usedCount)[code := old(usedCount)[code] + incrementBy] else old(usedCount)
    {
      if incrementBy <= 0 { return false; }
      if !dbUp { return false; }
      if code in usedCount {
        usedCount := usedCount[code := usedCount[code] + incrementBy];
        return true;
      }
      return false;
    }

    /**
     * The batch handler. The second loop takes the codes in an arbitrary order, as ranging over a Go map does, and
     * stops at the first failed update; `failing` are the codes whose update the database refuses.
     */
    method HandleInvitedMembers(events: seq<ChangeEvent>, failing: set<string>) returns (ok: bool, retry: seq<ChangeEvent>)
      modifies this
      ensures ok ==> retry == [] && usedCount == Folded(old(usedCount), events)
      ensures !ok ==> retry == events && usedCount.Keys == old(usedCount).Keys
                      && forall code :: code in usedCount ==>
                           usedCount[code] in {old(usedCount)[code], old(usedCount)[code] + CreatedWith(events, code)}
      ensures ok <==> forall code :: CreatedWith(events, code) > 0 ==> code in old(usedCount) && code !in failing
    {
      var inviteUsage := InviteUsage(events);
      ok := ApplyUsage(inviteUsage, events, failing);
      retry := if ok then [] else events;
    }

    /** The second loop of the handler, over the codes in an arbitrary order. */
    method ApplyUsage(inviteUsage: map<string, nat>, ghost events: seq<ChangeEvent>, failing: set<string>) returns (ok: bool)
      requires forall code :: code in inviteUsage <==> CreatedWith(events, code) > 0
      requires forall code :: code in inviteUsage ==> inviteUsage[code] == CreatedWith(events, code)
      modifies this
      ensures ok ==> usedCount == Folded(old(usedCount), events)
      ensures !ok ==> usedCount.Keys == old(usedCount).Keys
                      && forall code :: code in usedCount ==>
                           usedCount[code] in {old(usedCount)[code], old(usedCount)[code] + CreatedWith(events, code)}
      ensures ok <==> forall code :: code in inviteUsage ==> code in old(usedCount) && code !in failing
    {
      var left := inviteUsage.Keys;
      while left != {}
        invariant left <= inviteUsage.Keys
        invariant usedCount.Keys == old(usedCount).Keys
        invariant forall code :: code in usedCount ==>
                    usedCount[code] == old(usedCount)[code] + (if code in left then 0 else CreatedWith(events, code))
        invariant forall code :: code in inviteUsage && code !in left ==> code in usedCount && code !in failing
        decreases |left|
      {
        var code :| code in left;
        var done := UseServerInvite(code, inviteUsage[code], code !in failing);
        if !done {
          return false;
        }
        left := left - {code};
      }
      return true;
    }
  }

  /** The first loop of the handler: the rows created, counted by invite code. */
  method InviteUsage(events: seq<ChangeEvent>) returns (inviteUsage: map<string, nat>)
    ensures forall code :: code in inviteUsage <==> CreatedWith(events, code) > 0
    ensures forall code :: code in inviteUsage ==> inviteUsage[code] == CreatedWith(events, code)
  {
    inviteUsage := map[];
    for i := 0 to |events|
      invariant forall code :: code in inviteUsage <==> CreatedWith(events[..i], code) > 0
      invariant forall code :: code in inviteUsage ==> inviteUsage[code] == CreatedWith(events[..i], code)
    {
      assert events[..i + 1][..i] == events[..i];
      var event := events[i];
      if event.RowCreated? && event.inviteCode.Some? && event.inviteCode.value != "" {
        var code := event.inviteCode.value;
        inviteUsage := inviteUsage[code := (if code in inviteUsage then inviteUsage[code] else 0) + 1];
      }
    }
    assert events[..|events|] == events;
  }

  lemma FoldedConcat(counts: Counts, a: seq<ChangeEvent>, b: seq<ChangeEvent>)
    ensures Folded(counts, a + b) == Folded(Folded(counts, a), b)
  {
    forall code | code in counts ensures Folded(counts, a + b)[code] == Folded(Folded(counts, a), b)[code] {
      CreatedWithConcat(a, b, code);
    }
  }

  /** The counts after handling batches one after the other, each without an update error. */
  function FoldedBatches(counts: Counts, batches: seq<seq<ChangeEvent>>): (r: Counts)
    ensures r.Keys == counts.Keys
  {
    if batches == [] then counts
    else Folded(FoldedBatches(counts, batches[..|batches| - 1]), batches[|batches| - 1])
  }

  /** How the event stream is cut into batches does not matter. */
  lemma {:induction false} BatchSplittingIsIrrelevant(counts: Counts, batches: seq<seq<ChangeEvent>>)
    ensures FoldedBatches(counts, batches) == Folded(counts, Flatten(batches))
    decreases |batches|
  {
    if batches == [] {
      assert Folded(counts, []) == counts;
    } else {
      var n := |batches| - 1;
      BatchSplittingIsIrrelevant(counts, batches[..n]);
      FoldedConcat(counts, Flatten(batches[..n]), batches[n]);
    }
  }

  /** For every code, count plus events still to come equals the first count plus all rows ever created with it. */
  lemma CountsAreConserved(counts: Counts, batches: seq<seq<ChangeEvent>>, rest: seq<ChangeEvent>, code: string)
    requires code in counts
    ensures FoldedBatches(counts, batches)[code] + CreatedWith(rest, code)
            == counts[code] + CreatedWith(Flatten(batches) + rest, code)
  {
    BatchSplittingIsIrrelevant(counts, batches);
    CreatedWithConcat(Flatten(batches), rest, code);
  }
}
