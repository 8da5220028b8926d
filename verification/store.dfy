/** The store object: one history and one blob cache behind one connection
    (crates/clipse-store/src/store.rs, crates/clipse-store/src/blob.rs). Every method changes the
    tables in place; what it changes them to is the function of `ClipTables` or `BlobTables` it
    names, about which those modules prove what every run keeps. */
module StoreObject {
  import opened Bytes
  import opened HybridClock
  import opened ContentHashes
  import opened Sorting
  import T = ClipTables
  import B = BlobTables

  datatype QuotaReport = QuotaReport(bytesBefore: nat, bytesAfter: nat, blobsEvicted: nat, bytesEvicted: nat)

  /** Digests some payload of a live, pinned clip refers to. */
  function Protected(rows: seq<T.Row>): (r: set<ContentHash>)
  {
    set i, j | 0 <= i < |rows| && rows[i].clip.pinned && !rows[i].clip.deleted && 0 <= j < |rows[i].clip.payloads|
      :: rows[i].clip.payloads[j].digest
  }

  /** Digests any payload refers to. */
  function Referenced(rows: seq<T.Row>): (r: set<ContentHash>)
  {
    set i, j | 0 <= i < |rows| && 0 <= j < |rows[i].clip.payloads| :: rows[i].clip.payloads[j].digest
  }

  /** Some payload of the row has this digest. */
  predicate Names(r: T.Row, d: ContentHash)
  {
    exists j :: 0 <= j < |r.clip.payloads| && r.clip.payloads[j].digest == d
  }

  /** What a quota pass owes to the history: a blob of a live pinned clip stays; while the cache is over
      quota nothing else stays; what stays keeps its bytes and its row; and of two blobs of no such clip
      the one used longer ago goes first. */
  ghost predicate SparesPinned(rows: seq<T.Row>, before: B.Blobs, after: B.Blobs, quota: nat)
  {
    && (forall d :: d in after.files ==> d in before.files && after.files[d] == before.files[d])
    && (forall d, i :: d in before.files && 0 <= i < |rows| && rows[i].clip.pinned && !rows[i].clip.deleted && Names(rows[i], d) ==>
          d in after.files)
    && (B.Total(after.meta) > quota ==>
          forall d :: d in after.files ==> exists i :: 0 <= i < |rows| && rows[i].clip.pinned && !rows[i].clip.deleted && Names(rows[i], d))
    && (forall m :: m in after.meta ==> m in before.meta)
    && (forall x, y :: x in before.meta && x.digest !in after.files && y in after.meta ==>
          || x.usedSeq < y.usedSeq
          || exists i :: 0 <= i < |rows| && rows[i].clip.pinned && !rows[i].clip.deleted && Names(rows[i], y.digest))
    && (B.Total(before.meta) <= quota ==> after == before)
  }

  /** What an orphan pass does: a blob stays, as it was, exactly if a payload of some row has its digest. */
  ghost predicate KeepsReferenced(rows: seq<T.Row>, before: B.Blobs, after: B.Blobs)
  {
    && (forall d :: d in after.files <==> d in before.files && exists i :: 0 <= i < |rows| && Names(rows[i], d))
    && (forall d :: d in after.files ==> after.files[d] == before.files[d])
    && (forall m :: m in after.meta <==> m in before.meta && m.digest in after.files)
  }

  class Store {
    var rows: seq<T.Row>
    var index: seq<T.Entry>
    var meta: seq<B.Meta>
    var files: map<ContentHash, seq<Byte>>
    var usedSeq: nat
    const quota: nat

    function Tables(): T.Tables
      reads this
    {
      T.Tables(rows, index)
    }

    function Blobs(): B.Blobs
      reads this
    {
      B.Blobs(meta, files, usedSeq)
    }

    ghost predicate Valid()
      reads this
    {
      T.Inv(Tables()) && B.Inv(Blobs())
    }

    /** A new store. */
    constructor (quota: nat)
      ensures Valid() && Tables() == T.Tables([], []) && Blobs() == B.Blobs([], map[], 0) && this.quota == quota
    {
      rows, index, meta, files, usedSeq := [], [], [], map[], 0;
      this.quota := quota;
    }

    method Insert(clip: T.Clip) returns (r: T.InsertResult)
      requires Valid()
      modifies this
      ensures Valid() && Blobs() == old(Blobs())
      ensures (Tables(), r) == T.Insert(old(Tables()), clip)
    {
      T.InsertKeepsInv(Tables(), clip);
      hide T.Inv, B.Inv;
      if !T.HashMatches(clip) {
        return T.Rejected;
      }
      var i := T.LiveRow(rows, clip.hash);
      if i < |rows| {
        var bumped := rows[i].clip.(hlc := clip.hlc, createdAt := clip.createdAt, source := clip.source);
        rows := rows[i := rows[i].(clip := bumped)];
        return T.Deduplicated(rows[i].clip.id);
      }
      if T.RowById(rows, clip.id) < |rows| || !T.DistinctLabels(clip.payloads) {
        return T.ConstraintError;
      }
      rows := rows + [T.Row(T.Stored(clip), None)];
      index := index + [T.Entry(clip.id, T.BodyText(clip))];
      return T.Inserted(clip.id);
    }

    method SetPinned(id: T.ClipId, pinned: bool, hlc: Hlc) returns (found: bool)
      requires Valid()
      modifies this
      ensures Valid() && Blobs() == old(Blobs())
      ensures (Tables(), found) == T.SetPinned(old(Tables()), id, pinned, hlc)
    {
      T.StepKeepsInv(Tables(), T.PinOp(id, pinned, hlc));
      hide T.Inv, B.Inv;
      var i := T.RowById(rows, id);
      if i == |rows| {
        return false;
      }
      rows := rows[i := rows[i].(clip := rows[i].clip.(pinned := pinned, hlc := hlc))];
      return true;
    }

    method Delete(id: T.ClipId, hlc: Hlc, now: nat) returns (found: bool)
      requires Valid()
      modifies this
      ensures Valid() && Blobs() == old(Blobs())
      ensures (Tables(), found) == T.Delete(old(Tables()), id, hlc, now)
    {
      T.StepKeepsInv(Tables(), T.DeleteOp(id, hlc, now));
      hide T.Inv, B.Inv;
      var i := T.RowById(rows, id);
      if i == |rows| {
        return false;
      }
      if !rows[i].clip.deleted {
        rows := rows[i := T.Row(rows[i].clip.(deleted := true, hlc := hlc), Some(now))];
        index := Filter(index, (e: T.Entry) => e.id != id);
      }
      return true;
    }

    /** Physical removal of old tombstones, then of the blobs nothing refers to any more. */
    method PurgeTombstones(now: nat, olderThan: nat) returns (purged: nat)
      requires Valid()
      modifies this
      ensures Valid()
      ensures Tables() == T.Purge(old(Tables()), now, olderThan)
      ensures Blobs() == B.PruneOrphans(old(Blobs()), Referenced(rows))
      ensures KeepsReferenced(rows, old(Blobs()), Blobs())
      ensures purged == |old(rows)| - |rows|
    {
      T.PurgeKeepsInv(Tables(), now, olderThan);
      var cutoff := if now < olderThan then 0 else now - olderThan;
      var kept := Filter(rows, (r: T.Row) => !T.Purgeable(r, cutoff));
      purged := |rows| - |kept|;
      rows := kept;
      PruneOrphans();
    }

    method PruneOrphans()
      requires Valid()
      modifies this`meta, this`files
      ensures Valid()
      ensures Blobs() == B.PruneOrphans(old(Blobs()), Referenced(rows))
      ensures KeepsReferenced(rows, old(Blobs()), Blobs())
    {
      hide T.Inv, B.Inv, B.Drop, Filter, KeepsReferenced;
      ghost var before := Blobs();
      var referenced := Referenced(rows);
      var orphans := Filter(meta, B.Outside(referenced));
      B.PruneKeepsInv(before, referenced);
      B.DropNothing(before);
      B.NoDigests(orphans[..0]);
      for i := 0 to |orphans|
        invariant Tables() == old(Tables()) && usedSeq == old(usedSeq)
        invariant Blobs() == B.Drop(before, B.Digests(orphans[..i]))
      {
        B.DropTwice(before, B.Digests(orphans[..i]), orphans[i].digest);
        assert orphans[..i + 1] == orphans[..i] + [orphans[i]];
        B.DigestsSnoc(orphans[..i], orphans[i]);
        RemoveBlob(orphans[i].digest);
      }
      assert orphans[..|orphans|] == orphans;
      OrphanDigests(before.meta, referenced);
      OrphansGo(rows, before);
    }

    method RemoveBlob(digest: ContentHash)
      modifies this`meta, this`files
      ensures Blobs() == B.Drop(old(Blobs()), {digest})
    {
      files := files - {digest};
      meta := Filter(meta, B.Outside({digest}));
    }

    method PutBlob(digest: ContentHash, bytes: seq<Byte>)
      requires Valid()
      modifies this`meta, this`files, this`usedSeq
      ensures Valid()
      ensures Blobs() == B.PutBlob(old(Blobs()), digest, bytes)
    {
      hide T.Inv, B.Inv, B.Touch, B.MetaOf;
      B.PutKeepsInv(Blobs(), digest, bytes);
      if digest !in files {
        files := files[digest := bytes];
      }
      usedSeq := usedSeq + 1;
      if B.MetaOf(meta, digest) < |meta| {
        meta := B.Touch(meta, digest, usedSeq);
      } else {
        meta := meta + [B.Meta(digest, |bytes|, usedSeq)];
      }
    }

    method ReadBlob(digest: ContentHash) returns (bytes: Option<seq<Byte>>)
      requires Valid()
      modifies this`meta, this`usedSeq
      ensures Valid()
      ensures (Blobs(), bytes) == B.ReadBlob(old(Blobs()), digest)
    {
      hide T.Inv, B.Inv, B.Touch, B.MetaOf;
      B.ReadKeepsInv(Blobs(), digest);
      if digest !in files {
        return None;
      }
      usedSeq := usedSeq + 1;
      meta := B.Touch(meta, digest, usedSeq);
      return Some(files[digest]);
    }

    /** Evict least recently used blobs until the cache fits its quota or only protected ones remain. */
    method EnforceBlobQuota() returns (report: QuotaReport)
      requires Valid()
      modifies this`meta, this`files
      ensures Valid()
      ensures Blobs() == B.Enforce(old(Blobs()), Protected(rows), quota)
      ensures report.bytesBefore == B.Total(old(meta)) && report.bytesAfter == B.Total(meta)
      ensures report.bytesBefore == report.bytesAfter + report.bytesEvicted
      ensures report.blobsEvicted == B.EvictCount(B.Candidates(old(meta), Protected(rows)), report.bytesBefore, quota)
      ensures report.bytesAfter <= quota || forall m :: m in meta ==> m.digest in Protected(rows)
      ensures SparesPinned(rows, old(Blobs()), Blobs(), quota)
    {
      hide T.Inv, B.Inv, B.Drop, B.Candidates, B.Total, Protected, Filter, Sort, SparesPinned;
      ghost var before := Blobs();
      var protected := Protected(rows);
      B.QuotaPassIsShortestPrefix(before, protected, quota);
      B.EnforceKeepsInv(before, protected, quota);
      var bytesBefore := B.Total(meta);
      var used, evicted, bytesEvicted := bytesBefore, 0, 0;
      var cs := B.Candidates(meta, protected);
      CandidatesAreRows(before, protected);
      B.DropNothing(before);
      B.NoDigests(cs[..0]);
      assert cs[0..] == cs;
      while evicted < |cs| && used > quota
        invariant evicted <= |cs|
        invariant Tables() == old(Tables()) && usedSeq == old(usedSeq)
        invariant Blobs() == B.Drop(before, B.Digests(cs[..evicted]))
        invariant used == B.Total(meta) && bytesBefore == used + bytesEvicted
        invariant B.EvictCount(cs, bytesBefore, quota) == evicted + B.EvictCount(cs[evicted..], used, quota)
      {
        var c := cs[evicted];
        B.NewDigest(cs, evicted);
        B.DropOneMore(before, B.Digests(cs[..evicted]), c);
        B.DropTwice(before, B.Digests(cs[..evicted]), c.digest);
        assert cs[..evicted + 1] == cs[..evicted] + [c];
        B.DigestsSnoc(cs[..evicted], c);
        assert cs[evicted..][1..] == cs[evicted + 1..] && cs[evicted..][0] == c;
        RemoveBlob(c.digest);
        used := if c.size <= used then used - c.size else 0;
        bytesEvicted := bytesEvicted + c.size;
        evicted := evicted + 1;
      }
      report := QuotaReport(bytesBefore, used, evicted, bytesEvicted);
      QuotaSparesPinned(rows, before, quota);
    }

    /** Closing and opening again: the tables stay, the counter is seeded from them. */
    method Reopen()
      requires Valid()
      modifies this`usedSeq
      ensures Valid()
      ensures Blobs() == B.Reopen(old(Blobs()))
    {
      B.ReopenKeepsInv(Blobs());
      hide T.Inv, B.Inv;
      usedSeq := B.MaxSeq(meta);
    }
  }

  lemma {:induction false} ProtectedIff(rows: seq<T.Row>, d: ContentHash)
    ensures d in Protected(rows) <==> exists i :: 0 <= i < |rows| && rows[i].clip.pinned && !rows[i].clip.deleted && Names(rows[i], d)
  {
    if d in Protected(rows) {
      var i, j :| 0 <= i < |rows| && rows[i].clip.pinned && !rows[i].clip.deleted && 0 <= j < |rows[i].clip.payloads| && rows[i].clip.payloads[j].digest == d;
      assert Names(rows[i], d);
    }
  }

  lemma {:induction false} ReferencedIff(rows: seq<T.Row>, d: ContentHash)
    ensures d in Referenced(rows) <==> exists i :: 0 <= i < |rows| && Names(rows[i], d)
  {
    if d in Referenced(rows) {
      var i, j :| 0 <= i < |rows| && 0 <= j < |rows[i].clip.payloads| && rows[i].clip.payloads[j].digest == d;
      assert Names(rows[i], d);
    }
  }

  lemma {:induction false} OnDiskIffListed(b: B.Blobs, d: ContentHash)
    requires B.Inv(b)
    ensures d in b.files <==> exists m :: m in b.meta && m.digest == d
  {
    hide B.Inv;
    assert B.Digests(b.meta) == b.files.Keys by { DigestsAreFiles(b); }
    if d in b.files {
      var k :| 0 <= k < |b.meta| && b.meta[k].digest == d;
      assert b.meta[k] in b.meta;
    }
    if m :| m in b.meta && m.digest == d {
      var k :| 0 <= k < |b.meta| && b.meta[k] == m;
    }
  }

  lemma {:induction false} DigestsAreFiles(b: B.Blobs)
    requires B.Inv(b)
    ensures B.Digests(b.meta) == b.files.Keys
  {
  }

  /** Dropping a set of digests takes their files and their rows, and no others. */
  lemma {:induction false} DropTakesOnly(b: B.Blobs, gone: set<ContentHash>)
    ensures var r := B.Drop(b, gone);
      && (forall d :: d in r.files <==> d in b.files && d !in gone) && (forall d :: d in r.files ==> r.files[d] == b.files[d])
      && (forall m :: m in r.meta <==> m in b.meta && m.digest !in gone)
  {
    var r := B.Drop(b, gone);
    forall m | m in b.meta && m.digest !in gone ensures m in r.meta {
      var k :| 0 <= k < |b.meta| && b.meta[k] == m;
      assert B.Outside(gone)(b.meta[k]);
    }
    forall m | m in r.meta ensures m in b.meta && m.digest !in gone {
      var k :| 0 <= k < |r.meta| && r.meta[k] == m;
      assert B.Outside(gone)(r.meta[k]);
    }
  }

  lemma {:induction false} OrphansGo(rows: seq<T.Row>, b: B.Blobs)
    requires B.Inv(b)
    ensures KeepsReferenced(rows, b, B.PruneOrphans(b, Referenced(rows)))
  {
    var refs := Referenced(rows);
    DropTakesOnly(b, set m | m in b.meta && m.digest !in refs :: m.digest);
    var r := B.PruneOrphans(b, refs);
    hide B.Inv, B.Drop, Names, Referenced;
    forall d ensures d in r.files <==> d in b.files && exists i :: 0 <= i < |rows| && Names(rows[i], d) {
      OnDiskIffListed(b, d);
      ReferencedIff(rows, d);
    }
    forall m | m in b.meta ensures m.digest in b.files { OnDiskIffListed(b, m.digest); }
  }

  /** The same for any protected set, by digests. */
  ghost predicate Spares(protected: set<ContentHash>, before: B.Blobs, after: B.Blobs, quota: nat)
  {
    && (forall d :: d in after.files ==> d in before.files && after.files[d] == before.files[d])
    && (forall d :: d in before.files && d in protected ==> d in after.files)
    && (B.Total(after.meta) > quota ==> forall d :: d in after.files ==> d in protected)
    && (forall m :: m in after.meta ==> m in before.meta)
    && (forall x, y :: x in before.meta && x.digest !in after.files && y in after.meta ==> x.usedSeq < y.usedSeq || y.digest in protected)
    && (B.Total(before.meta) <= quota ==> after == before)
  }

  lemma {:induction false} PassSpares(b: B.Blobs, protected: set<ContentHash>, quota: nat)
    requires B.Inv(b)
    ensures Spares(protected, b, B.Enforce(b, protected, quota), quota)
  {
    hide B.Inv, B.Drop, B.Candidates, B.EvictCount, B.Total, B.Digests;
    var r := B.Enforce(b, protected, quota);
    var cs := B.Candidates(b.meta, protected);
    B.QuotaPassIsShortestPrefix(b, protected, quota);
    B.EnforceKeepsInv(b, protected, quota);
    DropTakesOnly(b, B.Digests(cs[..B.EvictCount(cs, B.Total(b.meta), quota)]));
    if B.Total(b.meta) <= quota { UnderQuotaStays(b, protected, quota); }
    hide B.Enforce;
    forall d | d in b.files && d in protected ensures d in r.files {
      OnDiskIffListed(b, d);
      var m :| m in b.meta && m.digest == d;
      OnDiskIffListed(r, d);
    }
    forall d | d in r.files ensures exists m :: m in r.meta && m.digest == d { OnDiskIffListed(r, d); }
    forall x | x in b.meta && x.digest !in r.files ensures x !in r.meta { OnDiskIffListed(r, x.digest); }
  }

  lemma {:induction false} UnderQuotaStays(b: B.Blobs, protected: set<ContentHash>, quota: nat)
    requires B.Total(b.meta) <= quota
    ensures B.Enforce(b, protected, quota) == b
  {
    hide B.Drop, B.Candidates;
    var cs := B.Candidates(b.meta, protected);
    B.NoDigests(cs[..0]);
    B.DropNothing(b);
  }

  /** A quota pass, by what the rows say. */
  lemma {:induction false} QuotaSparesPinned(rows: seq<T.Row>, b: B.Blobs, quota: nat)
    requires B.Inv(b)
    ensures SparesPinned(rows, b, B.Enforce(b, Protected(rows), quota), quota)
  {
    hide B.Inv, B.Enforce, B.Total, Names, Protected;
    PassSpares(b, Protected(rows), quota);
    forall d ensures d in Protected(rows) <==> exists i :: 0 <= i < |rows| && rows[i].clip.pinned && !rows[i].clip.deleted && Names(rows[i], d) {
      ProtectedIff(rows, d);
    }
  }

  lemma {:induction false} OrphanDigests(meta: seq<B.Meta>, referenced: set<ContentHash>)
    ensures B.Digests(Filter(meta, B.Outside(referenced))) == set m | m in meta && m.digest !in referenced :: m.digest
  {
    var f := Filter(meta, B.Outside(referenced));
    hide Filter;
    var gone := set m | m in meta && m.digest !in referenced :: m.digest;
    forall d | d in B.Digests(f) ensures d in gone {
      var k :| 0 <= k < |f| && f[k].digest == d;
      assert f[k] in meta && B.Outside(referenced)(f[k]);
    }
    forall d | d in gone ensures d in B.Digests(f) {
      var m :| m in meta && m.digest !in referenced && m.digest == d;
      var k :| 0 <= k < |meta| && meta[k] == m;
      assert B.Outside(referenced)(meta[k]);
    }
  }

  lemma {:induction false} CandidatesAreRows(b: B.Blobs, protected: set<ContentHash>)
    requires B.Inv(b)
    ensures var cs := B.Candidates(b.meta, protected);
      B.DigestsDistinct(cs) && forall i :: 0 <= i < |cs| ==> cs[i] in b.meta
  {
    hide B.Candidates, B.Inv;
    B.CandidateOrder(b, protected);
    var cs := B.Candidates(b.meta, protected);
    forall i | 0 <= i < |cs| ensures cs[i] in b.meta { B.CandidateMembers(b, protected, cs[i]); }
  }
}
