/** What one turn does to the taker's tables. */
module SessionStores {
  import opened Bytes
  import opened HybridClock
  import opened ContentHashes
  import opened Sorting
  import opened ClipTables
  import opened SyncSession
  import opened SessionTurns

  /** A clip read back from these tables. */
  ghost predicate FromRows(t: Tables, c: Clip)
  {
    exists r :: r in t.rows && r.clip == c
  }

  /** Clip ids are unique to their content: two devices never use one id for two contents. */
  ghost predicate IdsAgree(a: Tables, b: Tables)
  {
    forall r, s :: r in a.rows && s in b.rows && r.clip.id == s.clip.id ==> r.clip.hash == s.clip.hash
  }

  /** Same rows up to metadata. */
  predicate SameKeys(a: Tables, b: Tables)
  {
    |a.rows| == |b.rows| && forall i :: 0 <= i < |a.rows| ==>
      a.rows[i].clip.id == b.rows[i].clip.id && a.rows[i].clip.hash == b.rows[i].clip.hash
      && a.rows[i].clip.payloads == b.rows[i].clip.payloads
  }

  lemma {:induction false} FindIsRow(t: Tables, hash: ContentHash)
    ensures Find(t, hash).Some? ==> FromRows(t, Find(t, hash).value)
  {
    var i := LookupAny(t.rows, hash);
    if i < |t.rows| { assert t.rows[i] in t.rows; }
  }

  // ---- everything asked for is served -------------------------------------

  lemma {:induction false} SummariesComeFromRows(t: Tables, k: nat)
    requires k < |Summaries(t)|
    ensures exists r :: r in t.rows && SummaryOf(r.clip) == Summaries(t)[k]
  {
    var rows := ChangesSince(t.rows, None, SUMMARY_LIMIT);
    var f := Filter(t.rows, PastCursor(None));
    hide Filter, Sort, SummaryOf;
    assert rows[k] == Sort(f, OldestFirst)[k];
    SortMembers(f, OldestFirst, rows[k]);
  }

  lemma {:induction false} WantedComesFromEntries(t: Tables, entries: seq<Summary>, k: nat)
    requires k < |Wanted(t, entries)|
    ensures exists i :: 0 <= i < |entries| && entries[i].hash == Wanted(t, entries)[k] && Takes(t, entries[i])
  {
    hide Takes;
    if Takes(t, entries[0]) {
      if k > 0 { WantedComesFromEntries(t, entries[1..], k - 1); }
    } else {
      WantedComesFromEntries(t, entries[1..], k);
    }
  }

  lemma {:induction false} ServeAll(t: Tables, hashes: seq<ContentHash>)
    requires forall i :: 0 <= i < |hashes| ==> Find(t, hashes[i]).Some?
    ensures |Serve(t, hashes)| == |hashes|
    ensures forall i :: 0 <= i < |hashes| ==> Serve(t, hashes)[i] == Find(t, hashes[i]).value
  {
    hide Find;
    if hashes != [] { ServeAll(t, hashes[1..]); }
  }

  /** Every clip asked for is there, so exactly as many pushes go out as the reader will wait for. */
  lemma {:induction false} ServedMatchesWanted(o: Tables, t: Tables)
    ensures |ServedFrom(o, t)| == |WantedFrom(o, t)|
    ensures forall i :: 0 <= i < |WantedFrom(o, t)| ==>
      Find(o, WantedFrom(o, t)[i]) == Some(ServedFrom(o, t)[i]) && FromRows(o, ServedFrom(o, t)[i])
  {
    hide Find, Wanted, Summaries, FromRows, Serve;
    var w := WantedFrom(o, t);
    forall i | 0 <= i < |w| ensures Find(o, w[i]).Some? && FromRows(o, Find(o, w[i]).value) {
      WantedComesFromEntries(t, Summaries(o), i);
      var k :| 0 <= k < |Summaries(o)| && Summaries(o)[k].hash == w[i];
      SummariesComeFromRows(o, k);
      FindIsRow(o, w[i]);
    }
    ServeAll(o, w);
  }

  // ---- the store never fails, and stays consistent ------------------------

  lemma {:induction false} SameKeysKeepIds(o: Tables, t: Tables, t': Tables)
    requires IdsAgree(o, t) && SameKeys(t, t')
    ensures IdsAgree(o, t')
  {
    forall r, s | r in o.rows && s in t'.rows && r.clip.id == s.clip.id ensures r.clip.hash == s.clip.hash {
      var i :| 0 <= i < |t'.rows| && t'.rows[i] == s;
      assert t.rows[i] in t.rows;
    }
  }

  lemma {:induction false} PinSameKeys(t: Tables, id: ClipId, pinned: bool, hlc: Hlc)
    ensures SameKeys(t, ClipTables.SetPinned(t, id, pinned, hlc).0)
  {
  }

  lemma {:induction false} DeleteSameKeys(t: Tables, id: ClipId, hlc: Hlc, now: nat)
    ensures SameKeys(t, ClipTables.Delete(t, id, hlc, now).0)
  {
  }

  lemma {:induction false} UpdateSameKeys(t: Tables, id: ClipId, pinned: bool, deleted: bool, hlc: Hlc, now: nat)
    requires ClipTables.Inv(t)
    ensures SameKeys(t, ApplyUpdate(t, id, pinned, deleted, hlc, now))
    ensures ClipTables.Inv(ApplyUpdate(t, id, pinned, deleted, hlc, now))
  {
    hide ClipTables.Inv, ClipTables.SetPinned, ClipTables.Delete;
    var t1 := ClipTables.SetPinned(t, id, pinned, hlc).0;
    PinSameKeys(t, id, pinned, hlc);
    DeleteSameKeys(t1, id, hlc, now);
    StepKeepsInv(t, PinOp(id, pinned, hlc));
    StepKeepsInv(t1, DeleteOp(id, hlc, now));
  }

  lemma {:induction false} InsertSucceeds(o: Tables, t: Tables, clip: Clip)
    requires ClipTables.Inv(o) && IdsAgree(o, t) && FromRows(o, clip)
    requires HashMatches(clip) && Find(t, clip.hash).None?
    ensures Insert(t, clip).1.Inserted?
    ensures Insert(t, clip).0 == Tables(t.rows + [Row(clip, None)], t.index + [Entry(clip.id, BodyText(clip))])
  {
    hide BodyText, Sort, Filter;
    var r :| r in o.rows && r.clip == clip;
    assert RowOk(r);
    StoredIsSorted(clip);
  }

  lemma {:induction false} InsertAgrees(o: Tables, t: Tables, clip: Clip)
    requires IdsDistinct(o.rows) && IdsAgree(o, t) && FromRows(o, clip)
    ensures IdsAgree(o, Tables(t.rows + [Row(clip, None)], t.index + [Entry(clip.id, BodyText(clip))]))
  {
    hide BodyText;
    var r :| r in o.rows && r.clip == clip;
    forall x, y | x in o.rows && y in t.rows + [Row(clip, None)] && x.clip.id == y.clip.id ensures x.clip.hash == y.clip.hash {
      if y !in t.rows {
        var i :| 0 <= i < |o.rows| && o.rows[i] == x;
        var j :| 0 <= j < |o.rows| && o.rows[j] == r;
      }
    }
  }

  lemma {:induction false} ApplyNeverFails(o: Tables, t: Tables, clip: Clip, now: nat)
    requires ClipTables.Inv(o) && ClipTables.Inv(t) && IdsAgree(o, t) && FromRows(o, clip)
    ensures !Apply(t, clip, now).1.Failed?
    ensures ClipTables.Inv(Apply(t, clip, now).0) && IdsAgree(o, Apply(t, clip, now).0)
  {
    assert IdsDistinct(o.rows);
    hide ClipTables.Inv, IdsDistinct, IdsAgree, FromRows, ApplyUpdate, Insert, Less, HashMatches;
    var local := Find(t, clip.hash);
    match Merge(local, clip)
    case Reject =>
    case Ignore =>
    case InsertNew =>
      InsertSucceeds(o, t, clip);
      InsertKeepsInv(t, clip);
      InsertAgrees(o, t, clip);
    case UpdateMetadata(pinned, deleted) =>
      UpdateSameKeys(t, local.value.id, pinned, deleted, clip.hlc, now);
      SameKeysKeepIds(o, t, ApplyUpdate(t, local.value.id, pinned, deleted, clip.hlc, now));
  }

  lemma {:induction false} SameHashesKnown(t: Tables, t': Tables, h: ContentHash)
    requires SameKeys(t, t')
    ensures Find(t, h).Some? <==> Find(t', h).Some?
  {
    if Find(t, h).Some? { var i := LookupAny(t.rows, h); assert t'.rows[i] in t'.rows; }
    if Find(t', h).Some? { var i := LookupAny(t'.rows, h); assert t.rows[i] in t.rows; }
  }

  /** What a store knows after a clip: what it knew, and the clip's content if it hashes to it. */
  lemma {:induction false} KnownAfterApply(t: Tables, clip: Clip, now: nat, h: ContentHash)
    requires !Apply(t, clip, now).1.Failed?
    ensures Find(Apply(t, clip, now).0, h).Some? <==> Find(t, h).Some? || (h == clip.hash && HashMatches(clip))
  {
    hide HashMatches, Less, Sort, BodyText, DistinctLabels;
    var local := Find(t, clip.hash);
    if HashMatches(clip) && local.Some? && Less(local.value.hlc, clip.hlc) {
      hide SetPinned, Delete, Find;
      var t1 := SetPinned(t, local.value.id, clip.pinned, clip.hlc).0;
      PinSameKeys(t, local.value.id, clip.pinned, clip.hlc);
      SameHashesKnown(t, t1, h);
      DeleteSameKeys(t1, local.value.id, clip.hlc, now);
      SameHashesKnown(t1, Delete(t1, local.value.id, clip.hlc, now).0, h);
    } else if HashMatches(clip) && local.None? {
      var t' := Apply(t, clip, now).0;
      assert t'.rows == t.rows + [Row(Stored(clip), None)];
      assert forall r :: r in t'.rows <==> r in t.rows || r == Row(Stored(clip), None);
    }
  }

  lemma {:induction false} RefusalChangesNothing(t: Tables, clip: Clip, now: nat)
    ensures Apply(t, clip, now).1.Refused? || Apply(t, clip, now).1.Failed? ==> Apply(t, clip, now).0 == t
  {
    hide Insert, ApplyUpdate, HashMatches, Less, Find;
  }

  lemma {:induction false} TakingNeverFails(cfg: Config, o: Tables, taken: Intake, clips: seq<Clip>)
    requires ClipTables.Inv(o) && ClipTables.Inv(taken.tables) && IdsAgree(o, taken.tables) && !taken.failed
    requires forall i :: 0 <= i < |clips| ==> FromRows(o, clips[i])
    ensures NeverFails(cfg, taken, clips)
    ensures var t' := ReceiveAll(cfg, taken, clips).tables; ClipTables.Inv(t') && IdsAgree(o, t')
    decreases |clips|
  {
    hide ClipTables.Inv, IdsAgree, FromRows, Apply, Less;
    if clips != [] {
      var now := cfg.clock(taken.received + taken.rejected);
      ApplyNeverFails(o, taken.tables, clips[0], now);
      TakingNeverFails(cfg, o, TakeIn(taken, clips[0], now), clips[1..]);
    }
  }

  /** Two consistent stores whose ids agree are ready for a turn, and ready for the next one after it. */
  lemma {:induction false} TurnIsReady(o: Endpoint, t: Endpoint)
    requires ClipTables.Inv(o.disk.tables) && ClipTables.Inv(t.disk.tables) && IdsAgree(o.disk.tables, t.disk.tables)
    ensures TurnReady(o, t)
    ensures var t' := Settled(t.cfg, o.disk.tables, t.disk.tables).tables;
      ClipTables.Inv(t') && IdsAgree(o.disk.tables, t') && IdsAgree(t', o.disk.tables)
  {
    hide ClipTables.Inv, FromRows, ReceiveAll, NeverFails, Find, Serve, Wanted, Summaries;
    ServedMatchesWanted(o.disk.tables, t.disk.tables);
    TakingNeverFails(t.cfg, o.disk.tables, Fresh(t.disk.tables), ServedFrom(o.disk.tables, t.disk.tables));
  }

  // ---- the whole session --------------------------------------------------

  /** A dialler and a responder that are who they say they are, over consistent stores. */
  ghost predicate Honest(d: Endpoint, r: Endpoint)
  {
    && d == Start(d.cfg, d.disk) && r == Start(r.cfg, r.disk)
    && d.cfg.role.Dialler? && r.cfg.role.Responder?
    && d.cfg.peer == r.cfg.device && r.cfg.peer == d.cfg.device
    && ClipTables.Inv(d.disk.tables) && ClipTables.Inv(r.disk.tables) && IdsAgree(d.disk.tables, r.disk.tables)
  }

  /** Both endpoints at the end: the dialler offers first, then the responder. */
  function SessionEnd(d: Endpoint, r: Endpoint): (e: Joint)
  {
    var (d1, r1) := TurnEnd(BeginOffer(d), BeginTake(r));
    var (r2, d2) := TurnEnd(r1, d1);
    Joint(d2, r2)
  }

  function SessionLength(d: Endpoint, r: Endpoint): (n: nat)
  {
    var (d1, r1) := TurnEnd(BeginOffer(d), BeginTake(r));
    2 + TurnLength(BeginOffer(d), BeginTake(r)) + TurnLength(r1, d1)
  }

  lemma {:induction false} HelloPhase(d: Endpoint, r: Endpoint)
    requires Honest(d, r)
    ensures Path(Joint(d, r), Joint(BeginOffer(d), BeginTake(r)), 2)
  {
    hide Iterate, Path, LockStep, Summaries, Pages, MaxHlc, ClipTables.Inv, IdsAgree;
    OneStep(true, d, r);
    var d1, r1 := Sent(d), Received(r, Next(d).msg);
    OneStep(false, r1, d1);
    Chain(Joint(d, r), Joint(d1, r1), Joint(BeginOffer(d), BeginTake(r)), 1, 1);
  }

  /** What a turn leaves behind, seen from the outside. */
  lemma {:induction false} TurnEndShape(o: Endpoint, t: Endpoint)
    requires !Settled(t.cfg, o.disk.tables, t.disk.tables).failed
    ensures var (o', t') := TurnEnd(o, t);
      && o'.cfg == o.cfg && t'.cfg == t.cfg
      && o'.disk.tables == o.disk.tables
      && t'.disk.tables == Settled(t.cfg, o.disk.tables, t.disk.tables).tables
      && (o.cfg.role.Dialler? ==> o' == BeginTake(o')) && (o.cfg.role.Responder? ==> o'.phase == Done)
      && (t.cfg.role.Dialler? ==> t'.phase == Done) && (t.cfg.role.Responder? ==> t' == BeginOffer(t'))
  {
    hide BlobsCrossed, Settled, ServedFrom, Needed, Summaries, Pages;
    var t1 := EnterTaking(t, 0, Settled(t.cfg, o.disk.tables, t.disk.tables));
    var newest := if t1.phase.SendBlobWant? then t1.phase.newest else None;
    BlobsCrossedEnd(SentClips(o, |ServedFrom(o.disk.tables, t.disk.tables)|), t1, OwedBlobs(t1), newest);
  }

  /** In lock step, an honest session always fits together and ends with both sides done. */
  lemma {:induction false} SessionCompletes(d: Endpoint, r: Endpoint)
    requires Honest(d, r)
    ensures Path(Joint(d, r), SessionEnd(d, r), SessionLength(d, r))
    ensures SessionEnd(d, r).d.phase == Done && SessionEnd(d, r).r.phase == Done
  {
    hide Iterate, Path, LockStep, ClipTables.Inv, IdsAgree, TurnEnd, TurnLength, Summaries, Pages, Settled, NeverFails, ReceiveAll, ServedFrom, WantedFrom;
    var o, t := BeginOffer(d), BeginTake(r);
    HelloPhase(d, r);
    TurnIsReady(o, t);
    NeverFailsAtEndOf(o, t);
    TurnCompletes(true, o, t);
    TurnEndShape(o, t);
    var (d1, r1) := TurnEnd(o, t);
    Chain(Joint(d, r), Joint(o, t), Joint(d1, r1), 2, TurnLength(o, t));
    TurnIsReady(r1, d1);
    NeverFailsAtEndOf(r1, d1);
    TurnCompletes(false, r1, d1);
    TurnEndShape(r1, d1);
    var (r2, d2) := TurnEnd(r1, d1);
    Chain(Joint(d, r), Joint(d1, r1), Joint(d2, r2), 2 + TurnLength(o, t), TurnLength(r1, d1));
  }

  lemma {:induction false} NeverFailsAtEndOf(o: Endpoint, t: Endpoint)
    requires TurnReady(o, t)
    ensures !Settled(t.cfg, o.disk.tables, t.disk.tables).failed
  {
    hide ReceiveAll, NeverFails;
    NeverFailsAtEnd(t.cfg, Fresh(t.disk.tables), ServedFrom(o.disk.tables, t.disk.tables));
  }
}
