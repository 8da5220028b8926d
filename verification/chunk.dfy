/** Offer-and-chunk transfer of large payloads (crates/clipse-sync/src/chunk.rs). */
module ChunkTransfer {
  import opened Bytes
  import opened ContentHashes
  import opened Sorting

  const MAX_BLOB_BYTES: nat := 512 * 1024 * 1024

  datatype ChunkError =
    | BlobTooLarge(size: nat)
    | ZeroChunkSize
    | OutOfRange(index: nat, total: nat)
    | WrongLength(index: nat, got: nat, expected: nat)
    | Incomplete(missing: nat)
    | DigestMismatch

  datatype Result<+T> = Ok(value: T) | Err(error: ChunkError)

  datatype Span = Span(start: nat, end: nat)

  // ---- the sender's arithmetic --------------------------------------------------

  datatype Source = Source(size: nat, chunkBytes: nat)

  function NewSource(size: nat, chunkBytes: nat): (r: Result<Source>)
    ensures r.Ok? <==> chunkBytes != 0 && size <= 512 * 1024 * 1024
    ensures r.Ok? ==> r.value.size == size && r.value.chunkBytes == chunkBytes
    ensures r.Err? ==> (r.error == ZeroChunkSize <==> chunkBytes == 0)
  {
    if chunkBytes == 0 then Err(ZeroChunkSize)
    else if size > MAX_BLOB_BYTES then Err(BlobTooLarge(size))
    else Ok(Source(size, chunkBytes))
  }

  /** A source the constructor accepts. */
  predicate Accepted(s: Source)
  {
    s.chunkBytes > 0 && s.size <= MAX_BLOB_BYTES
  }

  /** `div_ceil`. */
  function CeilDiv(n: nat, c: nat): (r: nat)
    requires c > 0
  {
    n / c + if n % c > 0 then 1 else 0
  }

  /** The quotient rounded up, then cast to 32 bits. */
  function TotalChunks(s: Source): (r: nat)
    requires Accepted(s)
  {
    if s.size == 0 then 0
    else CeilDiv(s.size, s.chunkBytes) % U32_LIMIT
  }

  function Range(s: Source, index: nat): (r: Option<Span>)
    requires Accepted(s)
  {
    if index >= TotalChunks(s) then None else
      var start := index * s.chunkBytes;
      Some(Span(start, if start + s.chunkBytes < s.size then start + s.chunkBytes else s.size))
  }

  lemma {:induction false} FloorBounds(p: nat, c: nat)
    requires c > 0
    ensures (p / c) * c <= p < (p / c + 1) * c && p == (p / c) * c + p % c
  {
  }

  lemma {:induction false} FloorUnique(p: nat, c: nat, i: nat)
    requires c > 0 && i * c <= p < (i + 1) * c
    ensures p / c == i
  {
    FloorBounds(p, c);
    var q := p / c;
    if q < i { Scale(q + 1, i, c); }
    if q > i { Scale(i + 1, q, c); }
  }

  lemma {:induction false} Scale(a: nat, b: nat, c: nat)
    requires a <= b
    ensures a * c <= b * c
  {
  }

  /** An index is inside the transfer exactly when its chunk starts before the end; the 32-bit cast
      loses nothing. */
  lemma {:induction false} IndexInRange(s: Source, index: nat)
    requires Accepted(s)
    ensures index < TotalChunks(s) <==> index * s.chunkBytes < s.size
    ensures TotalChunks(s) <= s.size
  {
    if s.size > 0 {
      CeilingInRange(s.size, s.chunkBytes, index);
    }
  }

  lemma {:induction false} CeilingInRange(size: nat, c: nat, index: nat)
    requires c > 0 && size > 0
    ensures index < CeilDiv(size, c) <==> index * c < size
    ensures CeilDiv(size, c) <= size
  {
    hide CeilDiv;
    var q, rem := Divide(size, c);
    CeilingParts(size, c, q, rem, index);
  }

  lemma {:induction false} Divide(n: nat, c: nat) returns (q: nat, rem: nat)
    requires c > 0
    ensures n == q * c + rem && rem < c
    ensures CeilDiv(n, c) == q + if rem > 0 then 1 else 0
  {
    q, rem := n / c, n % c;
    assert CeilDiv(n, c) == q + if rem > 0 then 1 else 0;
    hide CeilDiv;
    assert n == q * c + rem && rem < c by { FloorBounds(n, c); }
  }

  lemma {:induction false} CeilingParts(size: nat, c: nat, q: nat, rem: nat, index: nat)
    requires size == q * c + rem && rem < c
    ensures index < q + (if rem > 0 then 1 else 0) <==> index * c < size
    ensures q + (if rem > 0 then 1 else 0) <= size
  {
    Scale(1, c, q);
    if index < q { Scale(index + 1, q, c); }
    if index > q { Scale(q + 1, index, c); }
  }

  /** The ranges tile the blob: they are non-empty, the first starts at 0, each starts where the one
      before it ended, the last ends at the size; and computing them stays inside a machine word
      whenever the chunk size does. */
  lemma {:induction false} RangesTile(s: Source, index: nat)
    requires Accepted(s) && index < TotalChunks(s)
    ensures Range(s, index).Some?
    ensures var Span(a, b) := Range(s, index).value;
      && a < b <= s.size
      && (index == 0 <==> a == 0)
      && (index > 0 ==> Range(s, index - 1) == Some(Span(a - s.chunkBytes, a)))
      && (index == TotalChunks(s) - 1 <==> b == s.size)
      && a + s.chunkBytes <= Larger(s.chunkBytes, 2 * MAX_BLOB_BYTES)
  {
    var c := s.chunkBytes;
    IndexInRange(s, index);
    IndexInRange(s, index + 1);
    assert (index + 1) * c == index * c + c;
    if index > 0 {
      IndexInRange(s, index - 1);
      assert (index - 1) * c == index * c - c;
      Scale(1, index, c);
    }
  }

  function Larger(a: nat, b: nat): nat { if a < b then b else a }

  predicate Within(p: nat, span: Span)
  {
    span.start <= p < span.end
  }

  /** Every byte of the blob is in exactly one range. */
  lemma {:induction false} EveryByteInOneRange(s: Source, p: nat, i: nat)
    requires Accepted(s) && p < s.size && i < TotalChunks(s)
    ensures p / s.chunkBytes < TotalChunks(s)
    ensures Range(s, i).Some? && (Within(p, Range(s, i).value) <==> i == p / s.chunkBytes)
  {
    var q := p / s.chunkBytes;
    FloorBounds(p, s.chunkBytes);
    IndexInRange(s, q);
    assert (i + 1) * s.chunkBytes == i * s.chunkBytes + s.chunkBytes;
    if Within(p, Range(s, i).value) { FloorUnique(p, s.chunkBytes, i); }
  }

  // ---- the receiver -----------------------------------------------------------------

  /** What a receiver holds. */
  datatype Parcel = Parcel(buffer: seq<Byte>, received: seq<bool>)

  predicate Shaped(s: Source, p: Parcel)
    requires Accepted(s)
  {
    |p.buffer| == s.size && |p.received| == TotalChunks(s)
  }

  /** Replace the bytes of a span. */
  function Patch(buffer: seq<Byte>, span: Span, bytes: seq<Byte>): (r: seq<Byte>)
    requires span.start <= span.end <= |buffer| && |bytes| == span.end - span.start
    ensures |r| == |buffer|
  {
    buffer[..span.start] + bytes + buffer[span.end..]
  }

  function Take(s: Source, p: Parcel, index: nat, bytes: seq<Byte>): (r: (Parcel, Result<()>))
    requires Accepted(s) && Shaped(s, p)
    ensures Shaped(s, r.0)
  {
    match Range(s, index)
    case None => (p, Err(OutOfRange(index, TotalChunks(s))))
    case Some(span) =>
      RangesTile(s, index);
      if |bytes| != span.end - span.start then (p, Err(WrongLength(index, |bytes|, span.end - span.start)))
      else (Parcel(Patch(p.buffer, span, bytes), p.received[index := true]), Ok(()))
  }

  function Missing(received: seq<bool>): (r: nat)
    ensures r == 0 <==> forall i :: 0 <= i < |received| ==> received[i]
  {
    if received == [] then 0 else
      var rest := Missing(received[1..]);
      assert received == [received[0]] + received[1..];
      assert forall i :: 1 <= i < |received| ==> received[i] == received[1..][i - 1];
      rest + if received[0] then 0 else 1
  }

  lemma {:induction false} MissingSnoc(received: seq<bool>, i: nat)
    requires i < |received|
    ensures Missing(received[..i + 1]) == Missing(received[..i]) + if received[i] then 0 else 1
  {
    if i == 0 {
      assert received[..1][1..] == [] && received[..0] == [];
    } else {
      assert received[..i + 1][1..] == received[1..][..i] && received[..i][1..] == received[1..][..i - 1];
      MissingSnoc(received[1..], i - 1);
    }
  }

  /** The count is the number of indexes without their chunk. */
  lemma {:induction false} MissingCounts(received: seq<bool>, n: nat)
    requires n <= |received|
    ensures Missing(received[..n]) == |set i: nat | i < n && !received[i]|
  {
    if n > 0 {
      MissingCounts(received, n - 1);
      MissingSnoc(received, n - 1);
      var before := set i: nat | i < n - 1 && !received[i];
      var after := set i: nat | i < n && !received[i];
      if received[n - 1] { assert after == before; } else { assert after == before + {n - 1}; }
    }
  }

  function Finished(digest: ContentHash, p: Parcel): (r: Result<seq<Byte>>)
  {
    if Missing(p.received) > 0 then Err(Incomplete(Missing(p.received)))
    else if OfBytes(p.buffer) != digest then Err(DigestMismatch)
    else Ok(p.buffer)
  }

  class ChunkReceiver {
    const digest: ContentHash
    const source: Source
    const buffer: array<Byte>
    const received: array<bool>

    ghost predicate Valid()
      reads this, buffer, received
    {
      Accepted(source) && Shaped(source, Held())
    }

    function Held(): Parcel
      reads this, buffer, received
    {
      Parcel(buffer[..], received[..])
    }

    constructor (digest: ContentHash, source: Source)
      requires Accepted(source)
      ensures Valid() && fresh(buffer) && fresh(received)
      ensures this.digest == digest && this.source == source && Held() == Empty(source)
    {
      this.digest, this.source := digest, source;
      buffer := new Byte[source.size](_ => 0);
      received := new bool[TotalChunks(source)](_ => false);
      new;
      assert buffer[..] == Empty(source).buffer && received[..] == Empty(source).received;
    }

    method Accept(index: nat, bytes: seq<Byte>) returns (r: Result<()>)
      requires Valid()
      modifies buffer, received
      ensures Valid()
      ensures (Held(), r) == Take(source, old(Held()), index, bytes)
    {
      var range := Range(source, index);
      if range.None? {
        return Err(OutOfRange(index, TotalChunks(source)));
      }
      var Span(start, end) := range.value;
      RangesTile(source, index);
      if |bytes| != end - start {
        return Err(WrongLength(index, |bytes|, end - start));
      }
      forall k | start <= k < end { buffer[k] := bytes[k - start]; }
      received[index] := true;
      assert buffer[..] == Patch(old(buffer[..]), Span(start, end), bytes);
      assert received[..] == old(received[..])[index := true];
      return Ok(());
    }

    /** The first chunk still missing, or the number of chunks. */
    method ResumeFrom() returns (index: nat)
      requires Valid()
      ensures index == FirstIndex(Held().received, IsMissing)
      ensures index <= received.Length
      ensures index < received.Length ==> !received[index]
      ensures forall i :: 0 <= i < index ==> received[i]
    {
      index := 0;
      while index < received.Length && received[index]
        invariant index <= received.Length
        invariant forall i :: 0 <= i < index ==> received[i]
      {
        index := index + 1;
      }
      if index < received.Length { FirstIndexIs(received[..], IsMissing, index); }
    }

    method Finish() returns (r: Result<seq<Byte>>)
      requires Valid()
      ensures r == Finished(digest, Held())
    {
      var missing := 0;
      for i := 0 to received.Length
        invariant missing == Missing(received[..][..i])
      {
        MissingSnoc(received[..], i);
        missing := missing + if received[i] then 0 else 1;
      }
      assert received[..][..received.Length] == received[..];
      if missing > 0 {
        return Err(Incomplete(missing));
      }
      if OfBytes(buffer[..]) != digest {
        return Err(DigestMismatch);
      }
      return Ok(buffer[..]);
    }
  }

  function IsMissing(got: bool): bool { !got }

  function Empty(s: Source): (r: Parcel)
    requires Accepted(s)
    ensures Shaped(s, r)
  {
    Parcel(seq(s.size, _ => 0), seq(TotalChunks(s), _ => false))
  }

  // ---- every run of a receiver ------------------------------------------------------

  datatype Delivery = Delivery(index: nat, bytes: seq<Byte>)

  function Collect(s: Source, ds: seq<Delivery>): (r: Parcel)
    requires Accepted(s)
    ensures Shaped(s, r)
  {
    if ds == [] then Empty(s) else
      var last := ds[|ds| - 1];
      Take(s, Collect(s, ds[..|ds| - 1]), last.index, last.bytes).0
  }

  /** A delivery the receiver stores: the index exists and the length is the range's. */
  predicate Fits(s: Source, d: Delivery)
    requires Accepted(s)
  {
    Range(s, d.index).Some? && |d.bytes| == (var Span(a, b) := Range(s, d.index).value; if b < a then 0 else b - a)
  }

  ghost predicate Covered(s: Source, ds: seq<Delivery>, index: nat)
    requires Accepted(s)
  {
    exists k :: 0 <= k < |ds| && ds[k].index == index && Fits(s, ds[k])
  }

  /** A stored delivery carries the blob's own bytes. */
  ghost predicate Right(s: Source, blob: seq<Byte>, d: Delivery)
    requires Accepted(s) && |blob| == s.size
  {
    Fits(s, d) ==> var Span(a, b) := Range(s, d.index).value;
      a <= b <= |blob| && d.bytes == blob[a..b]
  }

  lemma {:induction false} ReceivedIsCovered(s: Source, ds: seq<Delivery>, i: nat)
    requires Accepted(s) && i < TotalChunks(s)
    ensures Collect(s, ds).received[i] <==> Covered(s, ds, i)
  {
    hide Range, TotalChunks, Patch;
    if ds != [] {
      var front, last := ds[..|ds| - 1], ds[|ds| - 1];
      ReceivedIsCovered(s, front, i);
      assert ds == front + [last];
      if last.index < TotalChunks(s) { RangesTile(s, last.index); }
      if Covered(s, front, i) {
        var k :| 0 <= k < |front| && front[k].index == i && Fits(s, front[k]);
        assert ds[k] == front[k];
      }
      if Covered(s, ds, i) && !(last.index == i && Fits(s, last)) {
        var k :| 0 <= k < |ds| && ds[k].index == i && Fits(s, ds[k]);
        assert front[k] == ds[k];
      }
    }
  }

  /** A byte whose chunk has arrived is the blob's byte. */
  lemma {:induction false} ReceivedBytesAreRight(s: Source, blob: seq<Byte>, ds: seq<Delivery>, p: nat)
    requires Accepted(s) && |blob| == s.size && p < s.size
    requires forall k :: 0 <= k < |ds| ==> Right(s, blob, ds[k])
    ensures p / s.chunkBytes < TotalChunks(s)
    ensures Collect(s, ds).received[p / s.chunkBytes] ==> Collect(s, ds).buffer[p] == blob[p]
  {
    EveryByteInOneRange(s, p, 0);
    if ds != [] {
      var front, last := ds[..|ds| - 1], ds[|ds| - 1];
      ReceivedBytesAreRight(s, blob, front, p);
      if last.index < TotalChunks(s) {
        RangesTile(s, last.index);
        EveryByteInOneRange(s, p, last.index);
        TakeByte(s, blob, Collect(s, front), last, p);
      }
    }
  }

  lemma {:induction false} TakeByte(s: Source, blob: seq<Byte>, parcel: Parcel, d: Delivery, p: nat)
    requires Accepted(s) && |blob| == s.size && p < s.size && Shaped(s, parcel)
    requires d.index < TotalChunks(s) && Right(s, blob, d)
    requires p / s.chunkBytes < TotalChunks(s)
    ensures var q := Take(s, parcel, d.index, d.bytes).0;
      && (d.index == p / s.chunkBytes && Fits(s, d) ==> q.buffer[p] == blob[p])
      && (d.index != p / s.chunkBytes || !Fits(s, d) ==>
            q.buffer[p] == parcel.buffer[p] && q.received[p / s.chunkBytes] == parcel.received[p / s.chunkBytes])
  {
    hide Range, TotalChunks;
    RangesTile(s, d.index);
    EveryByteInOneRange(s, p, d.index);
  }

  /** Chunks in any order with any repeats, refused ones included: `finish` gives exactly the blob once
      every index is covered, and otherwise counts what is missing. */
  lemma {:induction false} TransferCompletes(s: Source, blob: seq<Byte>, ds: seq<Delivery>)
    requires Accepted(s) && |blob| == s.size
    requires forall k :: 0 <= k < |ds| ==> Right(s, blob, ds[k])
    ensures var done := Finished(OfBytes(blob), Collect(s, ds));
      if forall i :: 0 <= i < TotalChunks(s) ==> Covered(s, ds, i) then done == Ok(blob)
      else done == Err(Incomplete(|set i: nat | i < TotalChunks(s) && !Covered(s, ds, i)|))
  {
    hide Collect, Take, Fits, Right, Range, TotalChunks, Covered;
    var parcel := Collect(s, ds);
    forall i | 0 <= i < TotalChunks(s) ensures parcel.received[i] <==> Covered(s, ds, i) {
      ReceivedIsCovered(s, ds, i);
    }
    if forall i :: 0 <= i < TotalChunks(s) ==> Covered(s, ds, i) {
      forall p | 0 <= p < s.size ensures parcel.buffer[p] == blob[p] { ReceivedBytesAreRight(s, blob, ds, p); }
      assert parcel.buffer == blob;
    } else {
      MissingCounts(parcel.received, TotalChunks(s));
      assert parcel.received[..TotalChunks(s)] == parcel.received;
      assert (set i: nat | i < TotalChunks(s) && !parcel.received[i])
          == set i: nat | i < TotalChunks(s) && !Covered(s, ds, i);
    }
  }

  /** Whatever arrives, from whoever sends it, only the promised bytes come out. */
  lemma {:induction false} OnlyThePromisedBytes(s: Source, blob: seq<Byte>, ds: seq<Delivery>)
    requires Accepted(s)
    ensures var done := Finished(OfBytes(blob), Collect(s, ds));
      done.Ok? ==> done.value == blob && forall i :: 0 <= i < TotalChunks(s) ==> Covered(s, ds, i)
  {
    forall i | 0 <= i < TotalChunks(s) ensures Collect(s, ds).received[i] <==> Covered(s, ds, i) {
      ReceivedIsCovered(s, ds, i);
    }
  }

  /** The index to resume from is the first one no stored delivery covers. */
  lemma {:induction false} ResumeIsFirstUncovered(s: Source, ds: seq<Delivery>)
    requires Accepted(s)
    ensures var r := FirstIndex(Collect(s, ds).received, IsMissing);
      && (r < TotalChunks(s) ==> !Covered(s, ds, r))
      && (forall i :: 0 <= i < r ==> Covered(s, ds, i))
  {
    forall i | 0 <= i < TotalChunks(s) ensures Collect(s, ds).received[i] <==> Covered(s, ds, i) {
      ReceivedIsCovered(s, ds, i);
    }
  }
}
