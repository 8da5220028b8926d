/** The moments of one merge (crates/clipsed/src/sync.rs, `apply`). The store is looked up, then written, in
    separate calls, and a tombstone is written in two; other users of the store may come in between. */
module MergeRaces {
  import opened Bytes
  import opened HybridClock
  import opened ContentHashes
  import Sorting
  import opened ClipTables
  import opened SyncSession
  import opened SessionStores
  import opened LiveRuns

  /** Merging `clip` when `first` happens between lookup and write, and `second` between pinning and deletion. */
  function RacedApply(t: Tables, clip: Clip, now: nat, first: seq<Op>, second: seq<Op>): (r: (Tables, Applied))
  {
    var local := Find(t, clip.hash);
    var t1 := RunFrom(t, first);
    match Merge(local, clip)
    case Reject => (t1, Refused)
    case Ignore => (t1, Refused)
    case InsertNew =>
      var (t2, outcome) := Insert(t1, clip);
      (t2, if outcome.ConstraintError? then Failed else Added(clip.id))
    case UpdateMetadata(pinned, deleted) =>
      var (t2, found) := SetPinned(t1, local.value.id, pinned, clip.hlc);
      if !found then (t2, Failed) else
      if !deleted then (t2, Updated) else
      var (t3, known) := Delete(RunFrom(t2, second), local.value.id, clip.hlc, now);
      (t3, if known then Updated else Failed)
  }

  lemma {:induction false} FoundHasId(t: Tables, h: ContentHash)
    ensures Find(t, h).Some? ==> HasId(t.rows, Find(t, h).value.id)
  {
    var i := LookupAny(t.rows, h);
    if i < |t.rows| { assert t.rows[i] in t.rows; }
  }

  lemma {:induction false} SameKeysSameIds(t: Tables, t': Tables, id: ClipId)
    requires SameKeys(t, t')
    ensures HasId(t.rows, id) <==> HasId(t'.rows, id)
  {
    var i, j := RowById(t.rows, id), RowById(t'.rows, id);
    if i < |t.rows| { assert t'.rows[i] in t'.rows; }
    if j < |t'.rows| { assert t.rows[j] in t.rows; }
  }

  /** With nothing in between it is the merge of the session model. */
  lemma {:induction false} UndisturbedIsApply(t: Tables, clip: Clip, now: nat)
    ensures RacedApply(t, clip, now, [], []) == Apply(t, clip, now)
  {
    hide HashMatches, Less, Insert, SetPinned, Delete, Find;
    FoundHasId(t, clip.hash);
    FailedInsertChangesNothing(t, clip);
    var local := Find(t, clip.hash);
    if Merge(local, clip).UpdateMetadata? {
      var t2 := SetPinned(t, local.value.id, clip.pinned, clip.hlc).0;
      PinSameKeys(t, local.value.id, clip.pinned, clip.hlc);
      SameKeysSameIds(t, t2, local.value.id);
      PinFoundIff(t, local.value.id, clip.pinned, clip.hlc);
      DeleteKnownIff(t2, local.value.id, clip.hlc, now);
    }
  }

  lemma {:induction false} FailedInsertChangesNothing(t: Tables, clip: Clip)
    ensures Insert(t, clip).1.ConstraintError? ==> Insert(t, clip).0 == t
  {
  }

  lemma {:induction false} PinFoundIff(t: Tables, id: ClipId, pinned: bool, hlc: Hlc)
    ensures SetPinned(t, id, pinned, hlc).1 <==> HasId(t.rows, id)
  {
  }

  lemma {:induction false} DeleteKnownIff(t: Tables, id: ClipId, hlc: Hlc, now: nat)
    ensures Delete(t, id, hlc, now).1 <==> HasId(t.rows, id)
  {
  }

  /** The moment a merge fails in: exactly when an insertion finds its id taken and its content not alive, or
      an update finds its row gone, at the first write or at the second. */
  lemma {:induction false} RacedApplyFailsIff(owner: Owner, t: Tables, clip: Clip, now: nat, first: seq<Op>, second: seq<Op>)
    requires Storable(owner, clip) && TablesOk(owner, RunFrom(t, first))
    ensures var local, t1 := Find(t, clip.hash), RunFrom(t, first);
      RacedApply(t, clip, now, first, second).1.Failed? <==>
        match Merge(local, clip)
        case InsertNew => HasId(t1.rows, clip.id) && forall r :: r in t1.rows && r.clip.hash == clip.hash ==> r.clip.deleted
        case UpdateMetadata(pinned, deleted) =>
          || !HasId(t1.rows, local.value.id)
          || (deleted && !HasId(RunFrom(SetPinned(t1, local.value.id, pinned, clip.hlc).0, second).rows, local.value.id))
        case _ => false
  {
    var local, t1 := Find(t, clip.hash), RunFrom(t, first);
    hide Find, Less, Insert, SetPinned, Delete, RunFrom, TablesOk, Storable, HasId;
    match Merge(local, clip)
    case Reject =>
    case Ignore =>
    case InsertNew =>
      RacedInsertFailsIff(owner, t1, clip);
      TakenIff(t1, clip.id);
    case UpdateMetadata(pinned, deleted) =>
      PinFoundIff(t1, local.value.id, pinned, clip.hlc);
      DeleteKnownIff(RunFrom(SetPinned(t1, local.value.id, pinned, clip.hlc).0, second), local.value.id, clip.hlc, now);
  }

  lemma {:induction false} TakenIff(t: Tables, id: ClipId)
    ensures HasId(t.rows, id) <==> exists r :: r in t.rows && r.clip.id == id
  {
    var i := RowById(t.rows, id);
    if i < |t.rows| { assert t.rows[i] in t.rows; }
  }

  // ---- what has to happen in between for that ------------------------------------

  predicate NoPurges(ops: seq<Op>)
  {
    forall i :: 0 <= i < |ops| ==> !ops[i].PurgeOp?
  }

  lemma {:induction false} StepKeepsId(t: Tables, op: Op, id: ClipId)
    requires HasId(t.rows, id) && !op.PurgeOp?
    ensures HasId(Step(t, op).rows, id)
  {
    hide HashMatches, DistinctLabels, BodyText, Sorting.Sort, Sorting.Filter, LiveRow;
    var i, t' := RowById(t.rows, id), Step(t, op);
    assert t'.rows[i].clip.id == id && t'.rows[i] in t'.rows;
  }

  lemma {:induction false} RunKeepsId(t: Tables, ops: seq<Op>, id: ClipId)
    requires HasId(t.rows, id) && NoPurges(ops)
    ensures HasId(RunFrom(t, ops).rows, id)
  {
    hide HasId, Step;
    if ops != [] {
      RunKeepsId(t, ops[..|ops| - 1], id);
      StepKeepsId(RunFrom(t, ops[..|ops| - 1]), ops[|ops| - 1], id);
    }
  }

  /** Unless something is purged in between, no update fails; and no insertion does unless its very clip is
      inserted in between. */
  lemma {:induction false} RacedApplySucceeds(owner: Owner, t: Tables, clip: Clip, now: nat, first: seq<Op>, second: seq<Op>)
    requires Storable(owner, clip) && TablesOk(owner, t) && TablesOk(owner, RunFrom(t, first))
    requires NoPurges(first) && NoPurges(second)
    requires forall i :: 0 <= i < |first| && first[i].InsertOp? ==> first[i].clip.id != clip.id
    ensures !RacedApply(t, clip, now, first, second).1.Failed?
  {
    var local, t1 := Find(t, clip.hash), RunFrom(t, first);
    RacedApplyFailsIff(owner, t, clip, now, first, second);
    FoundHasId(t, clip.hash);
    UnknownContentUnknownId(owner, t, clip);
    hide Find, Less, Insert, SetPinned, Delete, RunFrom, TablesOk, Storable, HasId, RacedApply;
    match Merge(local, clip)
    case Reject =>
    case Ignore =>
    case InsertNew =>
      RunAddsNoId(t, first, clip.id);
    case UpdateMetadata(pinned, deleted) =>
      var id := local.value.id;
      RunKeepsId(t, first, id);
      PinSameKeys(t1, id, pinned, clip.hlc);
      SameKeysSameIds(t1, SetPinned(t1, id, pinned, clip.hlc).0, id);
      RunKeepsId(SetPinned(t1, id, pinned, clip.hlc).0, second, id);
  }

  /** Ids are unique to their content. */
  lemma {:induction false} UnknownContentUnknownId(owner: Owner, t: Tables, clip: Clip)
    requires Storable(owner, clip) && TablesOk(owner, t)
    ensures Find(t, clip.hash).None? ==> !HasId(t.rows, clip.id)
  {
    hide ClipTables.Inv;
    var i := RowById(t.rows, clip.id);
    if i < |t.rows| { assert t.rows[i] in t.rows; }
  }

  lemma {:induction false} StepAddsNoId(t: Tables, op: Op, id: ClipId)
    requires !HasId(t.rows, id) && !op.PurgeOp? && (op.InsertOp? ==> op.clip.id != id)
    ensures !HasId(Step(t, op).rows, id)
  {
    hide HashMatches, DistinctLabels, BodyText, Sorting.Sort, Sorting.Filter, LiveRow;
    forall row | row in Step(t, op).rows ensures row.clip.id != id { }
  }

  lemma {:induction false} RunAddsNoId(t: Tables, ops: seq<Op>, id: ClipId)
    requires !HasId(t.rows, id) && NoPurges(ops) && forall i :: 0 <= i < |ops| && ops[i].InsertOp? ==> ops[i].clip.id != id
    ensures !HasId(RunFrom(t, ops).rows, id)
  {
    hide HasId, Step;
    if ops != [] {
      RunAddsNoId(t, ops[..|ops| - 1], id);
      StepAddsNoId(RunFrom(t, ops[..|ops| - 1]), ops[|ops| - 1], id);
    }
  }

  // ---- a lost update ---------------------------------------------------------------

  /** `set_pinned` compares no stamps. Where the row has been changed since the lookup, the merge ends as if it
      had been decided on the row as it now is exactly when that row is still older than the clip, or has its
      stamp and its pin; a newer stamp, or another pin under the same one, is overwritten by the clip's. */
  lemma {:induction false} LocalChangeSurvivesIff(t: Tables, clip: Clip, now: nat, first: seq<Op>)
    requires !clip.deleted && HashMatches(clip) && Find(t, clip.hash).Some? && Less(Find(t, clip.hash).value.hlc, clip.hlc)
    requires var t1 := RunFrom(t, first);
      ClipTables.Inv(t1) && Find(t1, clip.hash).Some? && Find(t1, clip.hash).value.id == Find(t, clip.hash).value.id
    ensures var t1 := RunFrom(t, first);
      var row, after := Find(t1, clip.hash).value, RacedApply(t, clip, now, first, []);
      && after.1 == Updated
      && after.0.rows[LookupAny(t1.rows, clip.hash)].clip == row.(hlc := clip.hlc, pinned := clip.pinned)
      && (after.0.rows == Apply(t1, clip, now).0.rows <==>
            Less(row.hlc, clip.hlc) || (row.hlc == clip.hlc && row.pinned == clip.pinned))
  {
    var t1 := RunFrom(t, first);
    var i, row := LookupAny(t1.rows, clip.hash), Find(t1, clip.hash).value;
    assert RowById(t1.rows, row.id) == i by { FoundAtItsId(t1, i); }
    hide ClipTables.Inv, Find, Less, RunFrom, HashMatches, LookupAny, RowById;
    var t2 := SetPinned(t1, row.id, clip.pinned, clip.hlc).0;
    assert RacedApply(t, clip, now, first, []) == (t2, Updated);
    assert t2.rows == t1.rows[i := t1.rows[i].(clip := row.(pinned := clip.pinned, hlc := clip.hlc))];
    StampOrderIsTotal(row.hlc, clip.hlc);
    if Less(row.hlc, clip.hlc) {
      assert Apply(t1, clip, now).0 == t2;
    } else {
      assert Apply(t1, clip, now).0 == t1;
      assert t2.rows[i].clip.hlc == clip.hlc && t2.rows[i].clip.pinned == clip.pinned;
      if row.hlc == clip.hlc && row.pinned == clip.pinned { assert t2.rows == t1.rows; }
    }
  }

  lemma {:induction false} FoundAtItsId(t: Tables, i: nat)
    requires ClipTables.Inv(t) && i < |t.rows|
    ensures RowById(t.rows, t.rows[i].clip.id) == i
  {
    assert t.rows[i] in t.rows;
    assert IdsDistinct(t.rows);
    hide ClipTables.Inv;
  }

  /** The witness: a pin made here in between, under a newer stamp, is gone. */
  lemma {:induction false} PinIsLost(t: Tables, clip: Clip, now: nat, pinned: bool, hlc: Hlc)
    requires ClipTables.Inv(t) && !clip.deleted && HashMatches(clip)
    requires Find(t, clip.hash).Some? && Less(Find(t, clip.hash).value.hlc, clip.hlc) && Less(clip.hlc, hlc) && pinned != clip.pinned
    ensures var id := Find(t, clip.hash).value.id;
      var t' := RacedApply(t, clip, now, [PinOp(id, pinned, hlc)], []).0;
      var i := RowById(t'.rows, id);
      i < |t'.rows| && t'.rows[i].clip.pinned != pinned && Less(t'.rows[i].clip.hlc, hlc)
  {
    var i, id := LookupAny(t.rows, clip.hash), Find(t, clip.hash).value.id;
    FoundAtItsId(t, i);
    hide ClipTables.Inv, Less, HashMatches, LookupAny, Find;
    var pin := PinOp(id, pinned, hlc);
    assert [pin][..0] == [] && [pin][0] == pin;
    var t1 := RunFrom(t, [pin]);
    assert t1 == Step(RunFrom(t, []), pin) == SetPinned(t, id, pinned, hlc).0;
    FoundHasId(t, clip.hash);
    PinSameKeys(t, id, pinned, hlc);
    SameKeysSameIds(t, t1, id);
    var t2 := SetPinned(t1, id, clip.pinned, clip.hlc).0;
    assert RacedApply(t, clip, now, [pin], []).0 == t2;
    PinSameKeys(t1, id, clip.pinned, clip.hlc);
    SameKeysSameIds(t1, t2, id);
    PinnedRow(t1, id, clip.pinned, clip.hlc);
  }

  lemma {:induction false} PinnedRow(t: Tables, id: ClipId, pinned: bool, hlc: Hlc)
    requires HasId(t.rows, id)
    ensures var t' := SetPinned(t, id, pinned, hlc).0;
      var i := RowById(t'.rows, id);
      i < |t'.rows| ==> t'.rows[i].clip.pinned == pinned && t'.rows[i].clip.hlc == hlc
  {
    var i, t' := RowById(t.rows, id), SetPinned(t, id, pinned, hlc).0;
    assert forall k :: 0 <= k < |t.rows| ==> t'.rows[k].clip.id == t.rows[k].clip.id;
    Sorting.FirstIndexIs(t'.rows, (r: Row) => r.clip.id == id, i);
  }
}
