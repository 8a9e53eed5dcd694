/**
 * base/store/channelMessage/mutation.go: `CreateChannelMessagesBulk` checks a batch of messages, inserts the valid
 * ones into MongoDB in one unordered bulk write, and reports the failures as positions of its input.
 */
module ChannelMessageStore {
  import opened Common

  datatype Doc = Doc(
    id: int, content: string, fileURL: Option<string>, userID: int, serverID: int, channelID: int,
    deleted: Option<bool>, createdAt: int)

  type Collection = map<int, Doc>

  predicate Complete(d: Doc) {
    d.id != 0 && !(d.content == "" && d.fileURL.None?) && d.serverID != 0 && d.channelID != 0 && d.userID != 0
  }

  // ---- what one bulk write does to the collection ----

  /**
   * Positions are tried in order. A position is stored if it holds a document, MongoDB has no other objection to it
   * (`bad`), and its `_id` is not in the collection yet.
   */
  function Persist(coll: Collection, docs: seq<Option<Doc>>, bad: set<nat>): (r: Collection) {
    if docs == [] then coll
    else
      var n := |docs| - 1;
      var c := Persist(coll, docs[..n], bad);
      if docs[n].Some? && n !in bad && docs[n].value.id !in c then c[docs[n].value.id := docs[n].value] else c
  }

  predicate IsStored(coll: Collection, docs: seq<Option<Doc>>, bad: set<nat>, i: nat)
    requires i < |docs|
  {
    docs[i].Some? && i !in bad && docs[i].value.id !in Persist(coll, docs[..i], bad)
  }

  /** The positions stored. */
  function StoredPositions(coll: Collection, docs: seq<Option<Doc>>, bad: set<nat>): (s: set<nat>)
    ensures forall i :: i in s ==> i < |docs| && docs[i].Some?
  {
    set i | 0 <= i < |docs| && IsStored(coll, docs, bad, i)
  }

  lemma {:induction false} PersistPrefix(coll: Collection, docs: seq<Option<Doc>>, bad: set<nat>, i: nat)
    requires i <= |docs|
    ensures forall id :: id in Persist(coll, docs[..i], bad) ==>
              id in Persist(coll, docs, bad) && Persist(coll, docs, bad)[id] == Persist(coll, docs[..i], bad)[id]
    decreases |docs|
  {
    if i == |docs| {
      assert docs[..i] == docs;
    } else {
      var n := |docs| - 1;
      PersistPrefix(coll, docs[..n], bad, i);
      assert docs[..n][..i] == docs[..i];
    }
  }

  lemma StoredAppears(coll: Collection, docs: seq<Option<Doc>>, bad: set<nat>, i: nat)
    requires i in StoredPositions(coll, docs, bad)
    ensures docs[i].value.id !in coll
    ensures docs[i].value.id in Persist(coll, docs[..i + 1], bad)
    ensures var after := Persist(coll, docs, bad); docs[i].value.id in after && after[docs[i].value.id] == docs[i].value
  {
    PersistPrefix(coll, docs[..i], bad, 0);
    assert docs[..i][..0] == [] && docs[..i + 1][..i] == docs[..i];
    PersistPrefix(coll, docs, bad, i + 1);
  }

  lemma StoredDiffer(coll: Collection, docs: seq<Option<Doc>>, bad: set<nat>, i: nat, j: nat)
    requires i in StoredPositions(coll, docs, bad) && j in StoredPositions(coll, docs, bad) && i < j
    ensures docs[i].value.id != docs[j].value.id
  {
    StoredAppears(coll, docs, bad, i);
    PersistPrefix(coll, docs[..j], bad, i + 1);
    assert docs[..j][..i + 1] == docs[..i + 1];
  }

  lemma {:induction false} GainedIsStored(coll: Collection, docs: seq<Option<Doc>>, bad: set<nat>, id: int) returns (i: nat)
    requires id in Persist(coll, docs, bad) && id !in coll
    ensures i in StoredPositions(coll, docs, bad) && docs[i].value.id == id
    decreases |docs|
  {
    var n := |docs| - 1;
    if id in Persist(coll, docs[..n], bad) {
      i := GainedIsStored(coll, docs[..n], bad, id);
      assert docs[..n][..i] == docs[..i];
    } else {
      i := n;
    }
  }

  /** Stored positions are exactly what the collection gains: old documents stay, and nothing else appears. */
  lemma StoredIsWhatIsGained(coll: Collection, docs: seq<Option<Doc>>, bad: set<nat>)
    ensures var after := Persist(coll, docs, bad); var stored := StoredPositions(coll, docs, bad);
            && (forall id :: id in coll ==> id in after && after[id] == coll[id])
            && (forall i :: i in stored ==> docs[i].value.id !in coll && docs[i].value.id in after
                                            && after[docs[i].value.id] == docs[i].value)
            && (forall i, j :: i in stored && j in stored && i != j ==> docs[i].value.id != docs[j].value.id)
            && (forall id :: id in after && id !in coll ==> exists i :: i in stored && docs[i].value.id == id)
  {
    var after, stored := Persist(coll, docs, bad), StoredPositions(coll, docs, bad);
    PersistPrefix(coll, docs, bad, 0);
    assert docs[..0] == [];
    forall i | i in stored
      ensures docs[i].value.id !in coll && docs[i].value.id in after && after[docs[i].value.id] == docs[i].value
    {
      StoredAppears(coll, docs, bad, i);
    }
    forall i, j | i in stored && j in stored && i != j ensures docs[i].value.id != docs[j].value.id {
      if i < j { StoredDiffer(coll, docs, bad, i, j); } else { StoredDiffer(coll, docs, bad, j, i); }
    }
    forall id | id in after && id !in coll ensures exists i :: i in stored && docs[i].value.id == id {
      var i := GainedIsStored(coll, docs, bad, id);
    }
  }

  /** Some position that MongoDB does not refuse holds a document of that id. */
  predicate Offers(docs: seq<Option<Doc>>, bad: set<nat>, id: int) {
    exists j :: 0 <= j < |docs| && docs[j].Some? && j !in bad && docs[j].value.id == id
  }

  lemma OffersSnoc(docs: seq<Option<Doc>>, bad: set<nat>, id: int)
    requires docs != []
    ensures var n := |docs| - 1;
            Offers(docs, bad, id) <==> Offers(docs[..n], bad, id) || (docs[n].Some? && n !in bad && docs[n].value.id == id)
  {
    var n := |docs| - 1;
    if Offers(docs[..n], bad, id) {
      var j :| 0 <= j < n && docs[..n][j].Some? && j !in bad && docs[..n][j].value.id == id;
      assert docs[j] == docs[..n][j];
    }
    if j :| 0 <= j < |docs| && docs[j].Some? && j !in bad && docs[j].value.id == id {
      assert j < n ==> docs[..n][j] == docs[j];
    }
  }

  /** The ids in the collection afterwards are the old ones and those offered. */
  lemma {:induction false} IdsAfterPersist(coll: Collection, docs: seq<Option<Doc>>, bad: set<nat>, id: int)
    ensures id in Persist(coll, docs, bad) <==> id in coll || Offers(docs, bad, id)
    decreases |docs|
  {
    if docs != [] {
      IdsAfterPersist(coll, docs[..|docs| - 1], bad, id);
      OffersSnoc(docs, bad, id);
    }
  }

  /** A position fails exactly when it holds no document, is refused, or its id is taken, by the collection or further up. */
  lemma FailsExactlyWhenTaken(coll: Collection, docs: seq<Option<Doc>>, bad: set<nat>, i: nat)
    requires i < |docs|
    ensures i !in StoredPositions(coll, docs, bad)
            <==> docs[i].None? || i in bad || docs[i].value.id in coll || Offers(docs[..i], bad, docs[i].value.id)
  {
    if docs[i].Some? { IdsAfterPersist(coll, docs[..i], bad, docs[i].value.id); }
  }

  lemma {:induction false} OnlyPositionsInRangeMatter(coll: Collection, docs: seq<Option<Doc>>, bad: set<nat>, other: set<nat>)
    requires forall i: nat :: i < |docs| ==> (i in bad <==> i in other)
    ensures Persist(coll, docs, bad) == Persist(coll, docs, other)
    decreases |docs|
  {
    if docs != [] {
      OnlyPositionsInRangeMatter(coll, docs[..|docs| - 1], bad, other);
    }
  }

  // ---- index arrays: `chosen[k]` is the position, in the longer list, of the k-th element of the shorter one ----

  predicate IndexArray(chosen: seq<nat>, length: nat) {
    StrictlyIncreasing(chosen) && forall k :: 0 <= k < |chosen| ==> chosen[k] < length
  }

  function Image(chosen: seq<nat>, indices: set<nat>): (positions: set<nat>) {
    set k | k in indices && k < |chosen| :: chosen[k]
  }

  function Select<T>(all: seq<T>, chosen: seq<nat>): (some: seq<T>)
    requires IndexArray(chosen, |all|)
    ensures |some| == |chosen| && forall k :: 0 <= k < |some| ==> some[k] == all[chosen[k]]
  {
    seq(|chosen|, k requires 0 <= k < |chosen| => all[chosen[k]])
  }

  function Composed(outer: seq<nat>, inner: seq<nat>): (c: seq<nat>)
    requires IndexArray(inner, |outer|)
  {
    Select(outer, inner)
  }

  /** Two index arrays, one after the other, are an index array again; so the composition is injective and in range. */
  lemma ComposedIsIndexArray(outer: seq<nat>, inner: seq<nat>, length: nat)
    requires IndexArray(outer, length) && IndexArray(inner, |outer|)
    ensures IndexArray(Composed(outer, inner), length)
    ensures NoDuplicates(Composed(outer, inner))
  {
  }

  /** One more chosen document at the end of the list. */
  lemma PersistSelectedLast(coll: Collection, docs: seq<Option<Doc>>, chosen: seq<nat>, bad: set<nat>)
    requires IndexArray(chosen, |docs|) && chosen != [] && chosen[|chosen| - 1] == |docs| - 1
    requires var n, fewer := |docs| - 1, chosen[..|chosen| - 1];
             Persist(coll, Select(docs[..n], fewer), bad) == Persist(coll, docs[..n], Image(fewer, bad))
    ensures Persist(coll, Select(docs, chosen), bad) == Persist(coll, docs, Image(chosen, bad))
  {
    var n, m := |docs| - 1, |chosen| - 1;
    var fewer, image := chosen[..m], Image(chosen, bad);
    assert Select(docs, chosen)[..m] == Select(docs[..n], fewer);
    ImageBelow(chosen, bad, m);
    OnlyPositionsInRangeMatter(coll, docs[..n], image, Image(fewer, bad));
  }

  /** Whatever is not chosen is no document. */
  predicate OthersAbsent(docs: seq<Option<Doc>>, chosen: seq<nat>) {
    forall i: nat :: i < |docs| && docs[i].Some? ==> i in chosen
  }

  /** Cutting the list at `p` cuts the index array before its first entry that is not below `p`. */
  lemma CutIndexArray(docs: seq<Option<Doc>>, chosen: seq<nat>, k: nat, p: nat)
    requires IndexArray(chosen, |docs|) && OthersAbsent(docs, chosen)
    requires k <= |chosen| && p <= |docs|
    requires k > 0 ==> chosen[k - 1] < p
    requires k < |chosen| ==> p <= chosen[k]
    ensures IndexArray(chosen[..k], p) && OthersAbsent(docs[..p], chosen[..k])
    ensures Select(docs, chosen)[..k] == Select(docs[..p], chosen[..k])
  {
    var below := chosen[..k];
    assert forall j :: 0 <= j < k ==> below[j] <= chosen[k - 1];
    forall i: nat | i < p && docs[..p][i].Some? ensures i in below {
      assert docs[i].Some?;
      var j :| 0 <= j < |chosen| && chosen[j] == i;
      assert below[j] == i;
    }
  }

  lemma LastNotChosen(docs: seq<Option<Doc>>, chosen: seq<nat>)
    requires IndexArray(chosen, |docs|) && OthersAbsent(docs, chosen) && docs != []
    requires chosen != [] ==> chosen[|chosen| - 1] < |docs| - 1
    ensures docs[|docs| - 1].None?
    ensures IndexArray(chosen, |docs| - 1) && OthersAbsent(docs[..|docs| - 1], chosen)
    ensures Select(docs, chosen) == Select(docs[..|docs| - 1], chosen)
  {
    assert chosen[..|chosen|] == chosen;
    CutIndexArray(docs, chosen, |chosen|, |docs| - 1);
    assert |docs| - 1 !in chosen;
  }

  /** Storing the chosen documents is storing the whole list, if the others are no documents. */
  lemma {:induction false} PersistSelected(
    coll: Collection, docs: seq<Option<Doc>>, chosen: seq<nat>, bad: set<nat>)
    requires IndexArray(chosen, |docs|) && OthersAbsent(docs, chosen)
    ensures Persist(coll, Select(docs, chosen), bad) == Persist(coll, docs, Image(chosen, bad))
    decreases |docs|
  {
    if docs == [] {
      assert chosen == [];
    } else {
      var n := |docs| - 1;
      var m := |chosen| - 1;
      if m >= 0 && chosen[m] == n {
        CutIndexArray(docs, chosen, m, n);
        PersistSelected(coll, docs[..n], chosen[..m], bad);
        PersistSelectedLast(coll, docs, chosen, bad);
      } else {
        LastNotChosen(docs, chosen);
        PersistSelected(coll, docs[..n], chosen, bad);
      }
    }
  }

  lemma StoredAt(coll: Collection, docs: seq<Option<Doc>>, chosen: seq<nat>, bad: set<nat>, k: nat)
    requires IndexArray(chosen, |docs|) && OthersAbsent(docs, chosen) && k < |chosen|
    ensures IsStored(coll, docs, Image(chosen, bad), chosen[k]) <==> IsStored(coll, Select(docs, chosen), bad, k)
  {
    var p := chosen[k];
    var below := chosen[..k];
    CutIndexArray(docs, chosen, k, p);
    PersistSelected(coll, docs[..p], below, bad);
    ImageBelow(chosen, bad, k);
    OnlyPositionsInRangeMatter(coll, docs[..p], Image(chosen, bad), Image(below, bad));
  }

  lemma ImageBelow(chosen: seq<nat>, bad: set<nat>, k: nat)
    requires StrictlyIncreasing(chosen) && k < |chosen|
    ensures chosen[k] in Image(chosen, bad) <==> k in bad
    ensures forall i: nat :: i < chosen[k] ==> (i in Image(chosen, bad) <==> i in Image(chosen[..k], bad))
  {
    if chosen[k] in Image(chosen, bad) {
      var j :| j in bad && j < |chosen| && chosen[j] == chosen[k];
      assert j == k;
    }
    forall i: nat | i < chosen[k] ensures i in Image(chosen, bad) <==> i in Image(chosen[..k], bad) {
      if i in Image(chosen, bad) {
        var j :| j in bad && j < |chosen| && chosen[j] == i;
        assert j < k && chosen[..k][j] == i;
      }
      if i in Image(chosen[..k], bad) {
        var j :| j in bad && j < k && chosen[..k][j] == i;
        assert chosen[j] == i;
      }
    }
  }

  /** A position of the long list is stored exactly when it is the image of a stored position of the short one. */
  lemma StoredSelected(coll: Collection, docs: seq<Option<Doc>>, chosen: seq<nat>, bad: set<nat>)
    requires IndexArray(chosen, |docs|) && OthersAbsent(docs, chosen)
    ensures StoredPositions(coll, docs, Image(chosen, bad)) == Image(chosen, StoredPositions(coll, Select(docs, chosen), bad))
  {
    var few := Select(docs, chosen);
    var image := Image(chosen, bad);
    forall k: nat | k < |chosen| ensures IsStored(coll, docs, image, chosen[k]) <==> IsStored(coll, few, bad, k) {
      StoredAt(coll, docs, chosen, bad, k);
    }
    forall i ensures i in StoredPositions(coll, docs, image) <==> i in Image(chosen, StoredPositions(coll, few, bad)) {
      if i in StoredPositions(coll, docs, image) {
        var k :| 0 <= k < |chosen| && chosen[k] == i;
        assert k in StoredPositions(coll, few, bad);
      }
    }
  }

  function Elements(s: seq<nat>): (t: set<nat>) {
    set x | x in s
  }

  lemma {:induction false} NoDuplicatesCount(s: seq<nat>)
    requires NoDuplicates(s)
    ensures |Elements(s)| == |s|
    decreases |s|
  {
    if s != [] {
      var n := |s| - 1;
      NoDuplicatesCount(s[..n]);
      assert Elements(s) == Elements(s[..n]) + {s[n]};
      assert s[n] !in s[..n];
    }
  }

  // ---- the code ----

  class ChannelMessage {
    const id: int
    const content: string
    const fileURL: Option<string>
    const userID: int
    const serverID: int
    const channelID: int
    const createdAt: int
    var deleted: Option<bool>

    constructor (id: int, content: string, fileURL: Option<string>, userID: int, serverID: int, channelID: int, createdAt: int)
      ensures ToDoc() == Doc(id, content, fileURL, userID, serverID, channelID, None, createdAt)
    {
      this.id, this.content, this.fileURL, this.userID := id, content, fileURL, userID;
      this.serverID, this.channelID, this.createdAt, this.deleted := serverID, channelID, createdAt, None;
    }

    /** The document the driver would write. */
    function ToDoc(): (d: Doc)
      reads this
    {
      Doc(id, content, fileURL, userID, serverID, channelID, deleted, createdAt)
    }
  }

  function Present(batch: seq<Doc>): (docs: seq<Option<Doc>>)
    ensures |docs| == |batch| && forall i :: 0 <= i < |docs| ==> docs[i] == Some(batch[i])
  {
    seq(|batch|, i requires 0 <= i < |batch| => Some(batch[i]))
  }

  class MessageCollection {
    var docs: Collection

    constructor ()
      ensures docs == map[]
    {
      docs := map[];
    }

    /**
     * MongoDB's unordered bulk insert. `objections` are the positions it refuses, or never reaches, for another
     * reason than a duplicate `_id`.
     */
    method InsertMany(batch: seq<Doc>, objections: set<nat>) returns (writeErrors: seq<nat>)
      modifies this
      ensures docs == Persist(old(docs), Present(batch), objections)
      ensures NoDuplicates(writeErrors)
      ensures forall e :: e in writeErrors <==>
                0 <= e < |batch| && e !in StoredPositions(old(docs), Present(batch), objections)
    {
      writeErrors := [];
      ghost var all := Present(batch);
      for i := 0 to |batch|
        invariant docs == Persist(old(docs), all[..i], objections)
        invariant forall k :: 0 <= k < |writeErrors| ==> writeErrors[k] < i
        invariant NoDuplicates(writeErrors)
        invariant forall e :: e in writeErrors <==> 0 <= e < i && !IsStored(old(docs), all, objections, e)
      {
        assert all[..i + 1][..i] == all[..i];
        if i in objections || batch[i].id in docs {
          writeErrors := writeErrors + [i];
        } else {
          docs := docs[batch[i].id := batch[i]];
        }
      }
      assert all[..|batch|] == all;
    }
  }

  /** What each message would store: nothing if a required field is missing. */
  function Checked(docs: seq<Doc>): (checked: seq<Option<Doc>>)
    ensures |checked| == |docs|
    ensures forall i :: 0 <= i < |docs| ==>
              checked[i] == if Complete(docs[i]) then Some(docs[i].(deleted := Some(false))) else None
  {
    seq(|docs|, i requires 0 <= i < |docs| => if Complete(docs[i]) then Some(docs[i].(deleted := Some(false))) else None)
  }

  ghost function Docs(msgs: seq<ChannelMessage>): (docs: seq<Doc>)
    reads msgs
    ensures |docs| == |msgs| && forall i :: 0 <= i < |docs| ==> docs[i] == msgs[i].ToDoc()
  {
    seq(|msgs|, i requires 0 <= i < |msgs| reads msgs => msgs[i].ToDoc())
  }

  /** The first loop: every message is marked as not deleted, then kept with its position or reported. */
  method CheckMessages(msgs: seq<ChannelMessage>)
    returns (validMsgs: seq<ChannelMessage>, validToOriginalIndex: seq<nat>, failed: seq<nat>)
    modifies msgs
    ensures forall i :: 0 <= i < |msgs| ==> msgs[i].deleted == Some(false)
    ensures IndexArray(validToOriginalIndex, |msgs|) && IndexArray(failed, |msgs|)
    ensures forall i :: i in validToOriginalIndex <==> 0 <= i < |msgs| && Complete(msgs[i].ToDoc())
    ensures forall i :: i in failed <==> 0 <= i < |msgs| && !Complete(msgs[i].ToDoc())
    ensures forall i :: i in failed <==>
              && 0 <= i < |msgs|
              && (msgs[i].id == 0 || msgs[i].serverID == 0 || msgs[i].channelID == 0 || msgs[i].userID == 0
                  || (msgs[i].content == "" && msgs[i].fileURL == None))
    ensures validMsgs == Select(msgs, validToOriginalIndex)
  {
    validMsgs, validToOriginalIndex, failed := [], [], [];
    for i := 0 to |msgs|
      invariant forall k :: 0 <= k < i ==> msgs[k].deleted == Some(false)
      invariant IndexArray(validToOriginalIndex, i) && IndexArray(failed, i)
      invariant forall k :: k in validToOriginalIndex <==> 0 <= k < i && Complete(msgs[k].ToDoc())
      invariant forall k :: k in failed <==> 0 <= k < i && !Complete(msgs[k].ToDoc())
      invariant |validMsgs| == |validToOriginalIndex|
      invariant forall k :: 0 <= k < |validMsgs| ==> validMsgs[k] == msgs[validToOriginalIndex[k]]
    {
      var msg := msgs[i];
      msg.deleted := Some(false);
      if msg.id == 0 || (msg.content == "" && msg.fileURL.None?) || msg.serverID == 0 || msg.channelID == 0 || msg.userID == 0 {
        failed := failed + [i];
      } else {
        validMsgs := validMsgs + [msg];
        validToOriginalIndex := validToOriginalIndex + [i];
      }
    }
  }

  /** The failures, as positions of the input: the incomplete messages, then the write errors mapped back. */
  ghost predicate FailuresAre(failed: seq<nat>, length: nat, stored: set<nat>) {
    && NoDuplicates(failed)
    && forall i :: i in failed <==> 0 <= i < length && i !in stored
  }

  function Mapped(chosen: seq<nat>, indices: seq<nat>): (positions: seq<nat>)
    requires forall e :: e in indices ==> e < |chosen|
    ensures |positions| == |indices|
    ensures forall k :: 0 <= k < |indices| ==> indices[k] < |chosen| && positions[k] == chosen[indices[k]]
  {
    assert forall k :: 0 <= k < |indices| ==> indices[k] in indices;
    seq(|indices|, k requires 0 <= k < |indices| => chosen[indices[k]])
  }

  /** The second loop: write errors are positions among the valid messages, and are mapped back to the input's. */
  method MapBack(validToOriginalIndex: seq<nat>, writeErrors: seq<nat>, incomplete: seq<nat>, ghost length: nat, ghost stored: set<nat>)
    returns (failed: seq<nat>)
    requires IndexArray(validToOriginalIndex, length) && IndexArray(incomplete, length)
    requires forall i: nat :: i < length ==> (i in incomplete <==> i !in validToOriginalIndex)
    requires NoDuplicates(writeErrors)
    requires forall e :: e in writeErrors <==> 0 <= e < |validToOriginalIndex| && e !in stored
    ensures FailuresAre(failed, length, Image(validToOriginalIndex, stored))
  {
    failed := incomplete;
    ghost var mapped := Mapped(validToOriginalIndex, writeErrors);
    for j := 0 to |writeErrors|
      invariant failed == incomplete + mapped[..j]
    {
      assert writeErrors[j] in writeErrors;
      failed := failed + [validToOriginalIndex[writeErrors[j]]];
    }
    assert mapped[..|writeErrors|] == mapped;
    FailuresMapped(validToOriginalIndex, writeErrors, incomplete, length, stored);
  }

  lemma FailuresMapped(chosen: seq<nat>, writeErrors: seq<nat>, incomplete: seq<nat>, length: nat, stored: set<nat>)
    requires IndexArray(chosen, length) && IndexArray(incomplete, length)
    requires forall i: nat :: i < length ==> (i in incomplete <==> i !in chosen)
    requires NoDuplicates(writeErrors)
    requires forall e :: e in writeErrors <==> 0 <= e < |chosen| && e !in stored
    ensures FailuresAre(incomplete + Mapped(chosen, writeErrors), length, Image(chosen, stored))
  {
    var mapped := Mapped(chosen, writeErrors);
    var failed := incomplete + mapped;
    assert forall k :: 0 <= k < |mapped| ==> mapped[k] in chosen;
    forall i, j | 0 <= i < j < |failed| ensures failed[i] != failed[j] {
      if |incomplete| <= i {
        assert writeErrors[i - |incomplete|] != writeErrors[j - |incomplete|];
      } else if |incomplete| <= j {
        assert failed[i] in incomplete && failed[j] in chosen;
      }
    }
    forall i ensures i in failed <==> 0 <= i < length && i !in Image(chosen, stored) {
      MappedIsNotStored(chosen, writeErrors, stored, i);
      assert i in failed <==> i in incomplete || i in mapped;
      assert i in Image(chosen, stored) ==> i in chosen;
    }
  }

  lemma MappedIsNotStored(chosen: seq<nat>, writeErrors: seq<nat>, stored: set<nat>, i: int)
    requires StrictlyIncreasing(chosen)
    requires forall e :: e in writeErrors <==> 0 <= e < |chosen| && e !in stored
    ensures i in Mapped(chosen, writeErrors) <==> i in chosen && i !in Image(chosen, stored)
  {
    var mapped := Mapped(chosen, writeErrors);
    if i in mapped {
      var k :| 0 <= k < |mapped| && mapped[k] == i;
      assert writeErrors[k] in writeErrors;
      forall m | m in stored && m < |chosen| ensures chosen[m] != i {
        assert m != writeErrors[k];
      }
    }
    if i in chosen {
      var m :| 0 <= m < |chosen| && chosen[m] == i;
      if m in writeErrors {
        var k :| 0 <= k < |writeErrors| && writeErrors[k] == m;
        assert mapped[k] == i;
      }
    }
  }

  /** The message says what it is, where it belongs and who sent it, and has a text or a file. */
  predicate Sound(d: Doc) {
    d.id != 0 && d.serverID != 0 && d.channelID != 0 && d.userID != 0 && (d.content != "" || d.fileURL != None)
  }

  /** A sound message further up has the same id. */
  predicate EarlierSound(docs: seq<Doc>, i: nat)
    requires i < |docs|
  {
    exists j :: 0 <= j < i && Sound(docs[j]) && docs[j].id == docs[i].id
  }

  /** Which messages the bulk insert names as failures when MongoDB objects to duplicate ids alone. */
  lemma FailuresWithoutObjections(coll: Collection, docs: seq<Doc>, failed: seq<nat>)
    requires FailuresAre(failed, |docs|, StoredPositions(coll, Checked(docs), {}))
    ensures forall i :: 0 <= i < |docs| ==> (i in failed <==> !Sound(docs[i]) || docs[i].id in coll || EarlierSound(docs, i))
  {
    forall i | 0 <= i < |docs| ensures i in failed <==> !Sound(docs[i]) || docs[i].id in coll || EarlierSound(docs, i) {
      FailsExactlyWhenTaken(coll, Checked(docs), {}, i);
      OffersSound(docs, i);
    }
  }

  lemma OffersSound(docs: seq<Doc>, i: nat)
    requires i < |docs|
    ensures Offers(Checked(docs)[..i], {}, docs[i].id) <==> EarlierSound(docs, i)
  {
    var above := Checked(docs)[..i];
    assert forall j :: 0 <= j < i ==> above[j] == Checked(docs)[j];
    if Offers(above, {}, docs[i].id) {
      var j :| 0 <= j < i && above[j].Some? && above[j].value.id == docs[i].id;
      assert Sound(docs[j]) && docs[j].id == docs[i].id;
    }
    if j :| 0 <= j < i && Sound(docs[j]) && docs[j].id == docs[i].id {
      assert above[j].Some? && above[j].value.id == docs[i].id;
    }
  }

  /** What is stored of a sound message that is not named: all of it, marked as not deleted. */
  lemma StoredAsSent(coll: Collection, docs: seq<Doc>, failed: seq<nat>, i: nat)
    requires FailuresAre(failed, |docs|, StoredPositions(coll, Checked(docs), {})) && i < |docs| && i !in failed
    ensures var d, after := docs[i], Persist(coll, Checked(docs), {});
            d.id in after && after[d.id] == Doc(d.id, d.content, d.fileURL, d.userID, d.serverID, d.channelID, Some(false), d.createdAt)
  {
    StoredAppears(coll, Checked(docs), {}, i);
  }

  /**
   * `CreateChannelMessagesBulk`. A connection that breaks (`fatal`) stores whatever `objections` leaves, and is the
   * only case in which an error is returned; then the failures named are the incomplete messages alone.
   */
  method CreateChannelMessagesBulk(coll: MessageCollection, msgs: seq<ChannelMessage>, objections: set<nat>, fatal: bool)
    returns (failedMsgIndices: seq<nat>, appErr: bool, ghost validToOriginalIndex: seq<nat>)
    modifies coll, msgs
    ensures forall i :: 0 <= i < |msgs| ==> msgs[i].deleted == Some(false)
    ensures IndexArray(validToOriginalIndex, |msgs|)
    ensures forall k :: k in validToOriginalIndex <==> 0 <= k < |msgs| && Complete(old(Docs(msgs))[k])
    ensures coll.docs == Persist(old(coll.docs), Checked(old(Docs(msgs))), Image(validToOriginalIndex, objections))
    ensures !appErr ==>
              FailuresAre(failedMsgIndices, |msgs|,
                          StoredPositions(old(coll.docs), Checked(old(Docs(msgs))), Image(validToOriginalIndex, objections)))
    ensures appErr ==> fatal && FailuresAre(failedMsgIndices, |msgs|, Elements(validToOriginalIndex))
  {
    ghost var checked := Checked(Docs(msgs));
    ghost var before := coll.docs;
    var validMsgs, valid, failed := CheckMessages(msgs);
    assert forall i :: 0 <= i < |msgs| ==> Complete(msgs[i].ToDoc()) == checked[i].Some?;
    assert OthersAbsent(checked, valid);
    var validDocuments := seq(|validMsgs|, i requires 0 <= i < |validMsgs| reads validMsgs => validMsgs[i].ToDoc());
    assert Present(validDocuments) == Select(checked, valid);
    PersistSelected(before, checked, valid, objections);
    StoredSelected(before, checked, valid, objections);
    if |validDocuments| == 0 {
      assert Persist(before, Select(checked, valid), objections) == before;
      return failed, false, valid;
    }
    var writeErrors := coll.InsertMany(validDocuments, objections);
    if fatal {
      return failed, true, valid;
    }
    failedMsgIndices := MapBack(valid, writeErrors, failed, |msgs|, StoredPositions(before, Present(validDocuments), objections));
    return failedMsgIndices, false, valid;
  }
}
