/** The content-addressed blob cache and its LRU quota (crates/clipse-store/src/blob.rs). */
module BlobTables {
  import opened Bytes
  import opened ContentHashes
  import opened Sorting

  /** A `blob_meta` row. */
  datatype Meta = Meta(digest: ContentHash, size: nat, usedSeq: nat)

  /** The bookkeeping table, the files on disk, and the counter behind LRU order. */
  datatype Blobs = Blobs(meta: seq<Meta>, files: map<ContentHash, seq<Byte>>, seqNo: nat)

  function MetaOf(meta: seq<Meta>, digest: ContentHash): (i: nat)
    ensures i <= |meta|
    ensures i < |meta| ==> meta[i].digest == digest
    ensures i == |meta| ==> forall m :: m in meta ==> m.digest != digest
  {
    FirstIndex(meta, (m: Meta) => m.digest == digest)
  }

  function Digests(ms: seq<Meta>): (r: set<ContentHash>)
    ensures forall k :: 0 <= k < |ms| ==> ms[k].digest in r
    ensures forall d :: d in r ==> exists k :: 0 <= k < |ms| && ms[k].digest == d
  {
    set k | 0 <= k < |ms| :: ms[k].digest
  }

  function Touch(meta: seq<Meta>, digest: ContentHash, usedSeq: nat): (r: seq<Meta>)
  {
    var i := MetaOf(meta, digest);
    if i < |meta| then meta[i := meta[i].(usedSeq := usedSeq)] else meta
  }

  function PutBlob(b: Blobs, digest: ContentHash, bytes: seq<Byte>): (r: Blobs)
  {
    var files := if digest in b.files then b.files else b.files[digest := bytes];
    var next := b.seqNo + 1;
    if MetaOf(b.meta, digest) < |b.meta| then Blobs(Touch(b.meta, digest, next), files, next)
    else Blobs(b.meta + [Meta(digest, |bytes|, next)], files, next)
  }

  /** A read that finds nothing leaves the counter alone. */
  function ReadBlob(b: Blobs, digest: ContentHash): (r: (Blobs, Option<seq<Byte>>))
  {
    if digest !in b.files then (b, None)
    else (Blobs(Touch(b.meta, digest, b.seqNo + 1), b.files, b.seqNo + 1), Some(b.files[digest]))
  }

  function Outside(digests: set<ContentHash>): Meta -> bool
  {
    (m: Meta) => m.digest !in digests
  }

  /** Remove the rows and the files of a set of digests. */
  function Drop(b: Blobs, gone: set<ContentHash>): (r: Blobs)
  {
    Blobs(Filter(b.meta, Outside(gone)), b.files - gone, b.seqNo)
  }

  function PruneOrphans(b: Blobs, referenced: set<ContentHash>): (r: Blobs)
  {
    Drop(b, set m | m in b.meta && m.digest !in referenced :: m.digest)
  }

  function MaxSeq(meta: seq<Meta>): (r: nat)
    ensures forall m :: m in meta ==> m.usedSeq <= r
  {
    if meta == [] then 0 else
      var rest := MaxSeq(meta[1..]);
      assert meta == [meta[0]] + meta[1..];
      if meta[0].usedSeq > rest then meta[0].usedSeq else rest
  }

  /** Opening a store again seeds the counter from the table. */
  function Reopen(b: Blobs): (r: Blobs)
  {
    b.(seqNo := MaxSeq(b.meta))
  }

  // ---- eviction -----------------------------------------------------------

  function Total(meta: seq<Meta>): (r: nat)
  {
    if meta == [] then 0 else meta[0].size + Total(meta[1..])
  }

  predicate OlderUse(a: Meta, b: Meta) { a.usedSeq <= b.usedSeq }

  /** What may be evicted, least recently used first. */
  function Candidates(meta: seq<Meta>, protected: set<ContentHash>): (r: seq<Meta>)
  {
    Sort(Filter(meta, Outside(protected)), OlderUse)
  }

  /** How many candidates go before the total is at or under the quota. */
  function EvictCount(candidates: seq<Meta>, used: nat, quota: nat): (k: nat)
    ensures k <= |candidates|
  {
    if candidates == [] || used <= quota then 0
    else 1 + EvictCount(candidates[1..], if candidates[0].size <= used then used - candidates[0].size else 0, quota)
  }

  function Enforce(b: Blobs, protected: set<ContentHash>, quota: nat): (r: Blobs)
  {
    var cs := Candidates(b.meta, protected);
    Drop(b, Digests(cs[..EvictCount(cs, Total(b.meta), quota)]))
  }

  // ---- what every run keeps -----------------------------------------------

  ghost predicate DigestsDistinct(meta: seq<Meta>)
  {
    forall i, j :: 0 <= i < j < |meta| ==> meta[i].digest != meta[j].digest
  }

  ghost predicate SeqsDistinct(meta: seq<Meta>)
  {
    forall i, j :: 0 <= i < j < |meta| ==> meta[i].usedSeq != meta[j].usedSeq
  }

  predicate MetaOk(b: Blobs, m: Meta)
  {
    m.usedSeq <= b.seqNo && m.digest in b.files && m.size == |b.files[m.digest]|
  }

  ghost predicate AllOk(b: Blobs)
  {
    forall k :: 0 <= k < |b.meta| ==> MetaOk(b, b.meta[k])
  }

  /** Rows and files match one to one, sizes are true, and no two rows share a use number. */
  ghost predicate Inv(b: Blobs)
  {
    && DigestsDistinct(b.meta) && SeqsDistinct(b.meta)
    && AllOk(b)
    && Digests(b.meta) == b.files.Keys
  }

  datatype Op =
    | PutOp(digest: ContentHash, bytes: seq<Byte>)
    | ReadOp(digest: ContentHash)
    | EnforceOp(protected: set<ContentHash>, quota: nat)
    | PruneOp(referenced: set<ContentHash>)
    | ReopenOp

  function Step(b: Blobs, op: Op): (r: Blobs)
  {
    match op
    case PutOp(d, bytes) => PutBlob(b, d, bytes)
    case ReadOp(d) => ReadBlob(b, d).0
    case EnforceOp(p, q) => Enforce(b, p, q)
    case PruneOp(refs) => PruneOrphans(b, refs)
    case ReopenOp => Reopen(b)
  }

  function Run(ops: seq<Op>): (r: Blobs)
  {
    if ops == [] then Blobs([], map[], 0) else Step(Run(ops[..|ops| - 1]), ops[|ops| - 1])
  }

  lemma {:induction false} TouchKeepsInv(b: Blobs, digest: ContentHash)
    requires Inv(b)
    ensures Inv(Blobs(Touch(b.meta, digest, b.seqNo + 1), b.files, b.seqNo + 1))
  {
    TouchKeepsDigests(b.meta, digest, b.seqNo + 1);
    TouchKeepsOk(b, digest);
    hide Touch, Digests, AllOk, DigestsDistinct, SeqsDistinct;
  }

  lemma {:induction false} TouchKeepsDigests(meta: seq<Meta>, digest: ContentHash, usedSeq: nat)
    ensures Digests(Touch(meta, digest, usedSeq)) == Digests(meta)
    ensures DigestsDistinct(meta) ==> DigestsDistinct(Touch(meta, digest, usedSeq))
  {
    hide Digests;
    var meta' := Touch(meta, digest, usedSeq);
    assert |meta'| == |meta| && forall k :: 0 <= k < |meta| ==> meta'[k].digest == meta[k].digest;
    SameDigests(meta, meta');
  }

  lemma {:induction false} TouchKeepsOk(b: Blobs, digest: ContentHash)
    requires SeqsDistinct(b.meta) && AllOk(b)
    ensures SeqsDistinct(Touch(b.meta, digest, b.seqNo + 1))
    ensures AllOk(Blobs(Touch(b.meta, digest, b.seqNo + 1), b.files, b.seqNo + 1))
  {
    var meta' := Touch(b.meta, digest, b.seqNo + 1);
    forall k | 0 <= k < |meta'| ensures MetaOk(Blobs(meta', b.files, b.seqNo + 1), meta'[k]) {
      assert MetaOk(b, b.meta[k]);
    }
    forall i, j | 0 <= i < j < |meta'| ensures meta'[i].usedSeq != meta'[j].usedSeq {
      assert MetaOk(b, b.meta[i]) && MetaOk(b, b.meta[j]);
    }
  }

  lemma {:induction false} SameDigests(a: seq<Meta>, b: seq<Meta>)
    requires |a| == |b| && forall k :: 0 <= k < |a| ==> a[k].digest == b[k].digest
    ensures Digests(a) == Digests(b)
  {
    forall d ensures d in Digests(a) <==> d in Digests(b) {
      if d in Digests(a) { var k :| 0 <= k < |a| && a[k].digest == d; assert b[k].digest == d; }
      if d in Digests(b) { var k :| 0 <= k < |b| && b[k].digest == d; assert a[k].digest == d; }
    }
  }

  lemma {:induction false} PutKeepsInv(b: Blobs, digest: ContentHash, bytes: seq<Byte>)
    requires Inv(b)
    ensures Inv(PutBlob(b, digest, bytes))
  {
    hide Inv, Touch;
    var i := MetaOf(b.meta, digest);
    if i < |b.meta| {
      KnownDigest(b, i);
      TouchKeepsInv(b, digest);
    } else {
      PutNewKeepsInv(b, digest, bytes);
    }
  }

  lemma {:induction false} KnownDigest(b: Blobs, i: nat)
    requires Inv(b) && i < |b.meta|
    ensures b.meta[i].digest in b.files
  {
    assert MetaOk(b, b.meta[i]);
  }

  lemma {:induction false} PutNewKeepsInv(b: Blobs, digest: ContentHash, bytes: seq<Byte>)
    requires Inv(b) && forall m :: m in b.meta ==> m.digest != digest
    ensures digest !in b.files
    ensures Inv(Blobs(b.meta + [Meta(digest, |bytes|, b.seqNo + 1)], b.files[digest := bytes], b.seqNo + 1))
  {
    hide Digests, AllOk, DigestsDistinct, SeqsDistinct;
    UnknownDigest(b, digest);
    PutNewKeepsRows(b, digest, bytes);
    DigestsSnoc(b.meta, Meta(digest, |bytes|, b.seqNo + 1));
  }

  lemma {:induction false} UnknownDigest(b: Blobs, digest: ContentHash)
    requires Digests(b.meta) == b.files.Keys
    requires forall m :: m in b.meta ==> m.digest != digest
    ensures digest !in b.files && digest !in Digests(b.meta)
  {
  }

  lemma {:induction false} PutNewKeepsRows(b: Blobs, digest: ContentHash, bytes: seq<Byte>)
    requires DigestsDistinct(b.meta) && SeqsDistinct(b.meta) && AllOk(b)
    requires digest !in b.files && forall m :: m in b.meta ==> m.digest != digest
    ensures var r := Blobs(b.meta + [Meta(digest, |bytes|, b.seqNo + 1)], b.files[digest := bytes], b.seqNo + 1);
      DigestsDistinct(r.meta) && SeqsDistinct(r.meta) && AllOk(r)
  {
    var r := Blobs(b.meta + [Meta(digest, |bytes|, b.seqNo + 1)], b.files[digest := bytes], b.seqNo + 1);
    forall k | 0 <= k < |r.meta|
      ensures MetaOk(r, r.meta[k])
      ensures k < |b.meta| ==> r.meta[k].usedSeq <= b.seqNo && r.meta[k].digest != digest
    {
      if k < |b.meta| { assert MetaOk(b, b.meta[k]) && b.meta[k] in b.meta; }
    }
  }

  lemma {:induction false} DigestsSnoc(ms: seq<Meta>, m: Meta)
    ensures Digests(ms + [m]) == Digests(ms) + {m.digest}
  {
    forall d ensures d in Digests(ms + [m]) <==> d in Digests(ms) + {m.digest} {
      if d in Digests(ms) {
        var k :| 0 <= k < |ms| && ms[k].digest == d;
        assert (ms + [m])[k].digest == d;
      }
      assert (ms + [m])[|ms|] == m;
    }
  }

  lemma {:induction false} DropDigests(meta: seq<Meta>, gone: set<ContentHash>)
    ensures Digests(Filter(meta, Outside(gone))) == Digests(meta) - gone
  {
    var f := Filter(meta, Outside(gone));
    hide Filter;
    forall d | d in Digests(f) ensures d in Digests(meta) - gone {
      var k :| 0 <= k < |f| && f[k].digest == d;
      assert f[k] in meta;
    }
    forall d | d in Digests(meta) - gone ensures d in Digests(f) {
      var i :| 0 <= i < |meta| && meta[i].digest == d;
      assert meta[i] in f;
    }
  }

  lemma {:induction false} DropKeepsInv(b: Blobs, gone: set<ContentHash>)
    requires Inv(b)
    ensures Inv(Drop(b, gone))
  {
    DropKeepsRows(b, gone);
    DropDigests(b.meta, gone);
    hide Digests, AllOk, DigestsDistinct, SeqsDistinct, Filter;
  }

  lemma {:induction false} DropKeepsRows(b: Blobs, gone: set<ContentHash>)
    requires DigestsDistinct(b.meta) && SeqsDistinct(b.meta) && AllOk(b)
    ensures var r := Drop(b, gone); DigestsDistinct(r.meta) && SeqsDistinct(r.meta) && AllOk(r)
  {
    FilterPairwise(b.meta, Outside(gone), (x: Meta, y: Meta) => x.digest != y.digest);
    FilterPairwise(b.meta, Outside(gone), (x: Meta, y: Meta) => x.usedSeq != y.usedSeq);
    var r := Drop(b, gone);
    forall k | 0 <= k < |r.meta| ensures MetaOk(r, r.meta[k]) {
      assert r.meta[k] in b.meta && Outside(gone)(r.meta[k]);
      var i :| 0 <= i < |b.meta| && b.meta[i] == r.meta[k];
      assert MetaOk(b, b.meta[i]);
    }
  }

  lemma {:induction false} ReopenKeepsInv(b: Blobs)
    requires Inv(b)
    ensures Inv(Reopen(b))
  {
    forall k | 0 <= k < |b.meta| ensures MetaOk(Reopen(b), b.meta[k]) {
      assert MetaOk(b, b.meta[k]) && b.meta[k] in b.meta;
    }
  }

  /** Every run of puts, reads, quota passes, prunes and reopens keeps use numbers distinct and rows
      matched one to one with files. */
  lemma {:induction false} EveryRunKeepsInv(ops: seq<Op>)
    ensures Inv(Run(ops))
  {
    if ops != [] {
      EveryRunKeepsInv(ops[..|ops| - 1]);
      StepKeepsInv(Run(ops[..|ops| - 1]), ops[|ops| - 1]);
    }
  }

  lemma {:induction false} ReadKeepsInv(b: Blobs, digest: ContentHash)
    requires Inv(b)
    ensures Inv(ReadBlob(b, digest).0)
  {
    hide Inv;
    if digest in b.files { TouchKeepsInv(b, digest); }
  }

  lemma {:induction false} EnforceKeepsInv(b: Blobs, protected: set<ContentHash>, quota: nat)
    requires Inv(b)
    ensures Inv(Enforce(b, protected, quota))
  {
    hide Inv, Drop, Candidates, EvictCount, Total;
    var cs := Candidates(b.meta, protected);
    DropKeepsInv(b, Digests(cs[..EvictCount(cs, Total(b.meta), quota)]));
  }

  lemma {:induction false} PruneKeepsInv(b: Blobs, referenced: set<ContentHash>)
    requires Inv(b)
    ensures Inv(PruneOrphans(b, referenced))
  {
    hide Inv, Drop;
    DropKeepsInv(b, set m | m in b.meta && m.digest !in referenced :: m.digest);
  }

  lemma {:induction false} StepKeepsInv(b: Blobs, op: Op)
    requires Inv(b)
    ensures Inv(Step(b, op))
  {
    hide Inv, PutBlob, ReadBlob, Enforce, PruneOrphans, Reopen;
    match op
    case PutOp(d, bytes) => PutKeepsInv(b, d, bytes);
    case ReadOp(d) => ReadKeepsInv(b, d);
    case EnforceOp(p, q) => EnforceKeepsInv(b, p, q);
    case PruneOp(refs) => PruneKeepsInv(b, refs);
    case ReopenOp => ReopenKeepsInv(b);
  }

  // ---- what one quota pass does -------------------------------------------

  lemma {:induction false} TotalWithout(meta: seq<Meta>, i: nat, others: Meta -> bool)
    requires DigestsDistinct(meta) && i < |meta|
    requires forall m: Meta :: others(m) <==> m.digest != meta[i].digest
    ensures Total(meta) == Total(Filter(meta, others)) + meta[i].size
  {
    var rest := meta[1..];
    if i == 0 {
      FilterAll(rest, others);
    } else {
      TotalWithout(rest, i - 1, others);
      assert ([meta[0]] + Filter(rest, others))[1..] == Filter(rest, others);
    }
  }

  lemma {:induction false} DropTwice(b: Blobs, gone: set<ContentHash>, digest: ContentHash)
    ensures Drop(Drop(b, gone), {digest}) == Drop(b, gone + {digest})
  {
    hide Filter;
    FilterTwice(b.meta, Outside(gone), Outside({digest}), Outside(gone + {digest}));
    assert b.files - gone - {digest} == b.files - (gone + {digest});
  }

  /** Dropping one more digest frees exactly that blob's size. */
  lemma {:induction false} DropOneMore(b: Blobs, gone: set<ContentHash>, m: Meta)
    requires Inv(b) && m in b.meta && m.digest !in gone
    ensures Total(Drop(b, gone).meta) == Total(Drop(b, gone + {m.digest}).meta) + m.size
  {
    hide Inv, Filter;
    DropKeepsInv(b, gone);
    DropTwice(b, gone, m.digest);
    DropOne(Drop(b, gone), m);
  }

  lemma {:induction false} DropOne(b: Blobs, m: Meta)
    requires Inv(b) && m in b.meta
    ensures Total(b.meta) == Total(Drop(b, {m.digest}).meta) + m.size
  {
    hide Filter, Total;
    var i :| 0 <= i < |b.meta| && b.meta[i] == m;
    TotalWithout(b.meta, i, Outside({m.digest}));
  }

  lemma {:induction false} CandidateMembers(b: Blobs, protected: set<ContentHash>, m: Meta)
    ensures m in Candidates(b.meta, protected) <==> m in b.meta && m.digest !in protected
  {
    SortMembers(Filter(b.meta, Outside(protected)), OlderUse, m);
  }

  lemma {:induction false} OlderUseIsTotal()
    ensures TotalPreorder(OlderUse)
  {
  }

  lemma {:induction false} DistinctMetas(meta: seq<Meta>, x: Meta, y: Meta)
    requires DigestsDistinct(meta) && SeqsDistinct(meta) && x in meta && y in meta && x != y
    ensures x.digest != y.digest && x.usedSeq != y.usedSeq
  {
    var i :| 0 <= i < |meta| && meta[i] == x;
    var j :| 0 <= j < |meta| && meta[j] == y;
  }

  lemma {:induction false} CandidatesDistinct(b: Blobs, protected: set<ContentHash>)
    requires DigestsDistinct(b.meta)
    ensures Distinct(Candidates(b.meta, protected))
  {
    hide Sort, Filter;
    var f := Filter(b.meta, Outside(protected));
    FilterPairwise(b.meta, Outside(protected), (x: Meta, y: Meta) => x.digest != y.digest);
    assert Distinct(f);
    SortPermutes(f, OlderUse);
    DistinctFromMultiset(f, Candidates(b.meta, protected));
  }

  /** Candidates are in strict order of last use. */
  lemma {:induction false} CandidateOrder(b: Blobs, protected: set<ContentHash>)
    requires Inv(b)
    ensures var cs := Candidates(b.meta, protected);
      && DigestsDistinct(cs)
      && forall i, j :: 0 <= i < j < |cs| ==> cs[i].usedSeq < cs[j].usedSeq
  {
    hide Sort, Filter;
    var cs := Candidates(b.meta, protected);
    CandidatesDistinct(b, protected);
    OlderUseIsTotal();
    SortSorts(Filter(b.meta, Outside(protected)), OlderUse);
    forall i, j | 0 <= i < j < |cs| ensures cs[i].usedSeq < cs[j].usedSeq && cs[i].digest != cs[j].digest {
      CandidateMembers(b, protected, cs[i]);
      CandidateMembers(b, protected, cs[j]);
      DistinctMetas(b.meta, cs[i], cs[j]);
    }
  }

  lemma {:induction false} TotalSnoc(s: seq<Meta>, m: Meta)
    ensures Total(s + [m]) == Total(s) + m.size
  {
    if s == [] {
      assert s + [m] == [m];
    } else {
      assert (s + [m])[1..] == s[1..] + [m];
      TotalSnoc(s[1..], m);
    }
  }

  lemma {:induction false} DropNothing(b: Blobs)
    ensures Drop(b, {}) == b
  {
    FilterAll(b.meta, Outside({}));
    assert b.files - {} == b.files;
  }

  lemma {:induction false} NoDigests(ms: seq<Meta>)
    requires ms == []
    ensures Digests(ms) == {}
  {
  }

  lemma {:induction false} NewDigest(ms: seq<Meta>, k: nat)
    requires DigestsDistinct(ms) && k < |ms|
    ensures ms[k].digest !in Digests(ms[..k])
  {
  }

  /** After evicting the first `k` candidates, the total is the old total less their sizes. */
  lemma {:induction false} EvictedBytes(b: Blobs, cs: seq<Meta>, k: nat)
    requires Inv(b) && DigestsDistinct(cs) && k <= |cs|
    requires forall i :: 0 <= i < |cs| ==> cs[i] in b.meta
    ensures Total(b.meta) == Total(Drop(b, Digests(cs[..k])).meta) + Total(cs[..k])
  {
    hide Drop, Inv, Digests;
    if k == 0 {
      NoDigests(cs[..0]);
      DropNothing(b);
    } else {
      EvictedBytes(b, cs, k - 1);
      assert cs[..k] == cs[..k - 1] + [cs[k - 1]];
      TotalSnoc(cs[..k - 1], cs[k - 1]);
      DigestsSnoc(cs[..k - 1], cs[k - 1]);
      NewDigest(cs, k - 1);
      DropOneMore(b, Digests(cs[..k - 1]), cs[k - 1]);
    }
  }

  /** The count is the first point at which the quota is met, or all of the candidates. */
  lemma {:induction false} EvictCountIsMinimal(cs: seq<Meta>, used: nat, quota: nat)
    requires Total(cs) <= used
    ensures var k := EvictCount(cs, used, quota);
      && Total(cs[..k]) <= used
      && (used - Total(cs[..k]) <= quota || k == |cs|)
      && forall j :: 0 <= j < k ==> used - Total(cs[..j]) > quota
  {
    var k := EvictCount(cs, used, quota);
    if cs != [] && used > quota {
      EvictCountIsMinimal(cs[1..], used - cs[0].size, quota);
      forall j | 0 < j <= |cs| ensures Total(cs[..j]) == cs[0].size + Total(cs[1..][..j - 1]) {
        assert cs[..j][1..] == cs[1..][..j - 1];
      }
    }
  }

  /** A blob that survives unprotected comes after every evicted one. */
  lemma {:induction false} SurvivorIsLater(b: Blobs, protected: set<ContentHash>, k: nat, m: Meta)
    requires Inv(b) && k <= |Candidates(b.meta, protected)|
    requires m in Drop(b, Digests(Candidates(b.meta, protected)[..k])).meta && m.digest !in protected
    ensures exists j :: k <= j < |Candidates(b.meta, protected)| && Candidates(b.meta, protected)[j] == m
  {
    CandidateMembers(b, protected, m);
    hide Candidates;
    var cs := Candidates(b.meta, protected);
    var j :| 0 <= j < |cs| && cs[j] == m;
    forall i | 0 <= i < k ensures cs[i] != m { assert cs[..k][i] == cs[i]; }
  }

  /** An evicted blob is one of the first `k` candidates. */
  lemma {:induction false} EvictedIsEarly(b: Blobs, protected: set<ContentHash>, k: nat, m: Meta)
    requires Inv(b) && k <= |Candidates(b.meta, protected)|
    requires m in b.meta && m !in Drop(b, Digests(Candidates(b.meta, protected)[..k])).meta
    ensures exists i :: 0 <= i < k && Candidates(b.meta, protected)[i] == m
  {
    var cs := Candidates(b.meta, protected);
    hide Candidates;
    assert m.digest in Digests(cs[..k]);
    var i :| 0 <= i < k && cs[..k][i].digest == m.digest;
    CandidateMembers(b, protected, cs[i]);
    if cs[i] != m { DistinctMetas(b.meta, cs[i], m); }
  }

  /** One quota pass: a shortest prefix of the unprotected blobs in order of last use goes, bytes are
      conserved, no protected blob goes, and the result is under quota or holds protected blobs only. */
  lemma {:induction false} QuotaPassIsShortestPrefix(b: Blobs, protected: set<ContentHash>, quota: nat)
    requires Inv(b)
    ensures var cs := Candidates(b.meta, protected);
      var k := EvictCount(cs, Total(b.meta), quota);
      var r := Enforce(b, protected, quota);
      && Total(b.meta) == Total(r.meta) + Total(cs[..k])
      && (Total(r.meta) <= quota || forall m :: m in r.meta ==> m.digest in protected)
      && (forall j :: 0 <= j < k ==> Total(b.meta) - Total(cs[..j]) > quota)
      && (forall m :: m in b.meta && m.digest in protected ==> m in r.meta)
      && (forall x, y :: x in b.meta && x !in r.meta && y in r.meta && y.digest !in protected ==> x.usedSeq < y.usedSeq)
  {
    hide Drop, Candidates, EvictCount, Total;
    var cs := Candidates(b.meta, protected);
    var k := EvictCount(cs, Total(b.meta), quota);
    var r := Drop(b, Digests(cs[..k]));
    CandidateOrder(b, protected);
    forall i | 0 <= i < |cs| ensures cs[i] in b.meta && cs[i].digest !in protected { CandidateMembers(b, protected, cs[i]); }
    EvictedBytes(b, cs, |cs|);
    assert cs[..|cs|] == cs;
    EvictCountIsMinimal(cs, Total(b.meta), quota);
    EvictedBytes(b, cs, k);
    forall m | m in r.meta && m.digest !in protected ensures k < |cs| { SurvivorIsLater(b, protected, k, m); }
    forall m | m in b.meta && m.digest in protected ensures m in r.meta {
      if m !in r.meta { EvictedIsEarly(b, protected, k, m); }
    }
    forall x, y | x in b.meta && x !in r.meta && y in r.meta && y.digest !in protected ensures x.usedSeq < y.usedSeq {
      EvictedIsEarly(b, protected, k, x);
      SurvivorIsLater(b, protected, k, y);
    }
  }

  function Sizes(b: Blobs): (r: seq<nat>)
  {
    seq(|b.meta|, i requires 0 <= i < |b.meta| => if b.meta[i].digest in b.files then |b.files[b.meta[i].digest]| else 0)
  }

  lemma {:induction false} TotalIsSum(meta: seq<Meta>, sizes: seq<nat>)
    requires |sizes| == |meta| && forall i :: 0 <= i < |meta| ==> sizes[i] == meta[i].size
    ensures Total(meta) == Sum(sizes)
  {
    if meta != [] { TotalIsSum(meta[1..], sizes[1..]); }
  }

  /** What is held against the quota is the bytes on disk. */
  lemma {:induction false} TotalIsBytesOnDisk(b: Blobs)
    requires Inv(b)
    ensures Total(b.meta) == Sum(Sizes(b))
  {
    forall i | 0 <= i < |b.meta| ensures Sizes(b)[i] == b.meta[i].size { assert MetaOk(b, b.meta[i]); }
    hide Inv, Sizes;
    TotalIsSum(b.meta, Sizes(b));
  }

  // ---- what a put and a read do ---------------------------------------------

  /** The row of `digest` comes after every other row in eviction order. */
  ghost predicate MostRecent(meta: seq<Meta>, digest: ContentHash)
  {
    forall i, j :: 0 <= i < |meta| && 0 <= j < |meta| && meta[i].digest == digest && meta[j].digest != digest
      ==> meta[j].usedSeq < meta[i].usedSeq
  }

  lemma {:induction false} TouchMakesMostRecent(meta: seq<Meta>, digest: ContentHash, next: nat)
    requires DigestsDistinct(meta) && forall k :: 0 <= k < |meta| ==> meta[k].usedSeq < next
    ensures MostRecent(Touch(meta, digest, next), digest)
    ensures (forall k :: 0 <= k < |meta| ==> meta[k].digest != digest) ==> forall size :: MostRecent(meta + [Meta(digest, size, next)], digest)
  {
    var i := MetaOf(meta, digest);
    if i == |meta| { assert forall k :: 0 <= k < |meta| ==> meta[k] in meta; }
  }

  /** The first bytes put for a digest are the ones every later read gives, and putting or reading it
      makes it the last to be evicted. */
  lemma {:induction false} UsedBlobIsLastToGo(b: Blobs, digest: ContentHash, bytes: seq<Byte>)
    requires Inv(b)
    ensures var p := PutBlob(b, digest, bytes);
      && ReadBlob(p, digest).1 == Some(if digest in b.files then b.files[digest] else bytes)
      && MostRecent(p.meta, digest)
    ensures digest in b.files ==> MostRecent(ReadBlob(b, digest).0.meta, digest)
  {
    hide Touch, Digests, DigestsDistinct, SeqsDistinct, MostRecent;
    assert forall k :: 0 <= k < |b.meta| ==> MetaOk(b, b.meta[k]);
    TouchMakesMostRecent(b.meta, digest, b.seqNo + 1);
    if MetaOf(b.meta, digest) == |b.meta| {
      UnknownDigest(b, digest);
      assert forall k :: 0 <= k < |b.meta| ==> b.meta[k] in b.meta;
    }
  }
}
