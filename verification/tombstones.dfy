/** Which tombstones are ever purged (crates/clipse-store/src/store.rs). Only a row deleted here has a time of
    deletion; one that came by sync as a tombstone has none, and stays for good. */
module Tombstones {
  import opened Bytes
  import opened HybridClock
  import opened ContentHashes
  import opened Sorting
  import opened ClipTables

  /** Step `k` deleted the row of this id, which was live, at time `at`, and the row has stayed since. */
  ghost predicate DiedAt(ops: seq<Op>, id: ClipId, at: nat, k: nat)
  {
    && k < |ops| && ops[k].DeleteOp? && ops[k].id == id && ops[k].now == at
    && (var rows := Run(ops[..k]).rows; HasId(rows, id) && !rows[RowById(rows, id)].clip.deleted)
    && (forall j :: k < j <= |ops| ==> HasId(Run(ops[..j]).rows, id))
  }

  lemma {:induction false} FoundById(rows: seq<Row>, i: nat)
    requires IdsDistinct(rows) && i < |rows|
    ensures RowById(rows, rows[i].clip.id) == i
  {
    assert rows[i] in rows;
  }

  /** Rows keep their place and their id, except where a purge closes gaps. */
  lemma {:induction false} StepKeepsPlaces(t: Tables, op: Op)
    requires !op.PurgeOp?
    ensures var rows, rows' := t.rows, Step(t, op).rows;
      && |rows| <= |rows'| <= |rows| + 1
      && (forall i :: 0 <= i < |rows| ==> rows'[i].clip.id == rows[i].clip.id && (rows[i].clip.deleted ==> rows'[i].clip.deleted))
      && (|rows'| > |rows| ==> op.InsertOp? && rows'[|rows|].deletedAt.None? && RowById(rows, rows'[|rows|].clip.id) == |rows|)
      && (forall i :: 0 <= i < |rows| ==>
            rows'[i].deletedAt ==
              if op.DeleteOp? && i == RowById(rows, op.id) && !rows[i].clip.deleted then Some(op.now) else rows[i].deletedAt)
  {
    hide HashMatches, DistinctLabels, BodyText, Sort, Filter, LiveRow, RowById;
  }

  /** What one step does to the deletion time of a row that is there after it. */
  lemma {:induction false} StepDates(t: Tables, op: Op, i: nat)
    requires Inv(t) && i < |Step(t, op).rows|
    ensures var row := Step(t, op).rows[i];
      var k := RowById(t.rows, row.clip.id);
      if k == |t.rows| then op.InsertOp? && row.deletedAt.None?
      else row.deletedAt == if op.DeleteOp? && op.id == row.clip.id && !t.rows[k].clip.deleted then Some(op.now) else t.rows[k].deletedAt
  {
    var row := Step(t, op).rows[i];
    assert IdsDistinct(t.rows);
    hide Inv, IdsDistinct;
    if op.PurgeOp? {
      assert row in t.rows;
      var k :| 0 <= k < |t.rows| && t.rows[k] == row;
      FoundById(t.rows, k);
    } else {
      StepKeepsPlaces(t, op);
      hide Step, RowById;
      if i < |t.rows| { FoundById(t.rows, i); }
    }
  }

  lemma {:induction false} DiedEarlier(ops: seq<Op>, id: ClipId, at: nat, k: nat)
    requires ops != [] && k < |ops| - 1
    ensures DiedAt(ops, id, at, k) <==> DiedAt(ops[..|ops| - 1], id, at, k) && HasId(Run(ops).rows, id)
  {
    hide Run, HasId;
    var front := ops[..|ops| - 1];
    assert front[..k] == ops[..k] && ops[..|ops|] == ops;
    assert forall j :: 0 <= j <= |front| ==> front[..j] == ops[..j];
    if DiedAt(front, id, at, k) && HasId(Run(ops).rows, id) {
      forall j | k < j <= |ops| ensures HasId(Run(ops[..j]).rows, id) {
        if j <= |front| { assert HasId(Run(front[..j]).rows, id); }
      }
    }
    if DiedAt(ops, id, at, k) {
      forall j | k < j <= |front| ensures HasId(Run(front[..j]).rows, id) { assert HasId(Run(ops[..j]).rows, id); }
    }
  }

  lemma {:induction false} DiedLast(ops: seq<Op>, id: ClipId, at: nat)
    requires ops != []
    ensures DiedAt(ops, id, at, |ops| - 1) <==>
      var before, op := Run(ops[..|ops| - 1]).rows, ops[|ops| - 1];
      && op.DeleteOp? && op.id == id && op.now == at && HasId(before, id) && !before[RowById(before, id)].clip.deleted
      && HasId(Run(ops).rows, id)
  {
    hide Run, HasId;
    assert ops[..|ops|] == ops;
    if DiedAt(ops, id, at, |ops| - 1) { assert HasId(Run(ops[..|ops|]).rows, id); }
  }

  /** Over every run of the store, a row has a time of deletion exactly when a step of the run deleted it
      while it was live, and it is the time of that step. */
  lemma {:induction false} DatedIffDiedHere(ops: seq<Op>, i: nat, at: nat)
    requires i < |Run(ops).rows|
    ensures var row := Run(ops).rows[i];
      row.deletedAt == Some(at) <==> exists k: nat :: DiedAt(ops, row.clip.id, at, k)
  {
    hide Inv, Step, RowById, IdsDistinct, DiedAt;
    if ops != [] {
      var front, op := ops[..|ops| - 1], ops[|ops| - 1];
      var t, row := Run(front), Run(ops).rows[i];
      var id := row.clip.id;
      EveryRunKeepsInv(front);
      EveryRunKeepsInv(ops);
      IdsOf(Run(ops), i);
      StepDates(t, op, i);
      DiedLast(ops, id, at);
      var k0 := RowById(t.rows, id);
      if k0 < |t.rows| {
        IdsOf(t, k0);
        DatedIffDiedHere(front, k0, at);
        LiveIsUndated(t, k0);
        hide Run;
        if k: nat :| DiedAt(front, id, at, k) {
          DiedInTime(front, id, at, k);
          DiedEarlier(ops, id, at, k);
        }
        if k: nat :| DiedAt(ops, id, at, k) {
          DiedInTime(ops, id, at, k);
          if k < |ops| - 1 { DiedEarlier(ops, id, at, k); }
        }
      } else {
        if k: nat :| DiedAt(ops, id, at, k) {
          DiedInTime(ops, id, at, k);
          if k < |ops| - 1 {
            DiedEarlier(ops, id, at, k);
            StillThere(front, id, at, k);
          }
        }
      }
    }
  }

  lemma {:induction false} DiedInTime(ops: seq<Op>, id: ClipId, at: nat, k: nat)
    requires DiedAt(ops, id, at, k)
    ensures k < |ops|
  {
  }

  lemma {:induction false} StillThere(ops: seq<Op>, id: ClipId, at: nat, k: nat)
    requires DiedAt(ops, id, at, k)
    ensures HasId(Run(ops).rows, id)
  {
    assert ops[..|ops|] == ops;
  }

  lemma {:induction false} IdsOf(t: Tables, i: nat)
    requires Inv(t) && i < |t.rows|
    ensures RowById(t.rows, t.rows[i].clip.id) == i
  {
    FoundById(t.rows, i);
  }

  lemma {:induction false} LiveIsUndated(t: Tables, i: nat)
    requires Inv(t) && i < |t.rows|
    ensures !t.rows[i].clip.deleted ==> t.rows[i].deletedAt.None?
  {
    assert RowOk(t.rows[i]);
  }

  // ---- tombstones that came by sync ---------------------------------------------

  /** A row that is a tombstone without a time of deletion. */
  predicate Undated(t: Tables, id: ClipId)
  {
    var i := RowById(t.rows, id);
    i < |t.rows| && t.rows[i].clip.deleted && t.rows[i].deletedAt.None?
  }

  lemma {:induction false} StepKeepsUndated(t: Tables, op: Op, id: ClipId)
    requires Inv(t) && Undated(t, id)
    ensures Undated(Step(t, op), id)
  {
    var t', i := Step(t, op), RowById(t.rows, id);
    StepKeepsInv(t, op);
    assert IdsDistinct(t.rows) && IdsDistinct(t'.rows);
    hide Inv, IdsDistinct;
    if op.PurgeOp? {
      assert t.rows[i] in t'.rows;
      var k :| 0 <= k < |t'.rows| && t'.rows[k] == t.rows[i];
      FoundById(t'.rows, k);
    } else {
      StepKeepsPlaces(t, op);
      hide Step;
      FoundById(t'.rows, i);
    }
  }

  lemma {:induction false} RunKeepsUndated(t: Tables, ops: seq<Op>, id: ClipId)
    requires Inv(t) && Undated(t, id)
    ensures Inv(RunFrom(t, ops)) && Undated(RunFrom(t, ops), id)
  {
    hide Inv, Step, Undated;
    if ops != [] {
      var front := ops[..|ops| - 1];
      RunKeepsUndated(t, front, id);
      StepKeepsInv(RunFrom(t, front), ops[|ops| - 1]);
      StepKeepsUndated(RunFrom(t, front), ops[|ops| - 1], id);
    }
  }

  /** A tombstone that came as one is never purged, nor dated: whatever is done to the store afterwards, its
      row is still there, deleted and without a time of deletion. */
  lemma {:induction false} SyncedTombstoneStays(t: Tables, clip: Clip, ops: seq<Op>)
    requires Inv(t) && clip.deleted && Insert(t, clip).1.Inserted?
    ensures Undated(RunFrom(Insert(t, clip).0, ops), clip.id)
  {
    var t' := Insert(t, clip).0;
    StepKeepsInv(t, InsertOp(clip));
    assert t'.rows[|t.rows|].clip.id == clip.id && t'.rows[|t.rows|].clip.deleted && t'.rows[|t.rows|].deletedAt.None?;
    FoundById(t'.rows, |t.rows|);
    hide Inv, Insert;
    RunKeepsUndated(t', ops, clip.id);
  }
}
