/** Content identity (crates/clipse-core/src/hash.rs, crates/clipse-core/src/clip.rs).

    BLAKE3 is symbolic: a digest is the term that was hashed, so equal digests mean equal inputs.
    `OfParts` stands for hashing the length-prefixed encoding of the parts; `PartsEncodingInjective`
    is what makes the list of parts, rather than its encoding, a sound thing to remember. */
module ContentHashes {
  import opened Bytes

  datatype ContentHash = OfBytes(bytes: seq<Byte>) | OfParts(parts: seq<(string, ContentHash)>)

  /** A list of byte strings as `transcript_hash` and `of_parts` feed it to the hasher:
      each one behind its own 64-bit little-endian length. */
  function EncodeParts(parts: seq<seq<Byte>>): (r: seq<Byte>)
  {
    if parts == [] then [] else LeBytes(|parts[0]|, 8) + parts[0] + EncodeParts(parts[1..])
  }

  predicate Encodable(parts: seq<seq<Byte>>)
  {
    forall i :: 0 <= i < |parts| ==> |parts[i]| < U64_LIMIT
  }

  /** The same encoding the way the source computes it: one loop updating a running hash input. */
  method HashInput(parts: seq<seq<Byte>>) returns (input: seq<Byte>)
    ensures input == EncodeParts(parts)
  {
    input := [];
    for i := 0 to |parts|
      invariant EncodeParts(parts) == input + EncodeParts(parts[i..])
    {
      assert parts[i..][1..] == parts[i + 1..];
      var part := LeBytes(|parts[i]|, 8) + parts[i];
      assert EncodeParts(parts[i..]) == part + EncodeParts(parts[i + 1..]);
      assert input + (part + EncodeParts(parts[i + 1..])) == (input + part) + EncodeParts(parts[i + 1..]);
      input := input + part;
    }
  }

  lemma {:induction false} PrefixesAgree<T>(a: seq<T>, x: seq<T>, b: seq<T>, y: seq<T>)
    requires a + x == b + y && |a| == |b|
    ensures a == b && x == y
  {
    assert a == (a + x)[..|a|] && b == (b + y)[..|b|];
    assert x == (a + x)[|a|..] && y == (b + y)[|b|..];
  }

  lemma {:induction false} LengthFieldInjective(m: nat, n: nat)
    requires m < U64_LIMIT && n < U64_LIMIT && LeBytes(m, 8) == LeBytes(n, 8)
    ensures m == n
  {
    Pow256Values();
    LeRoundTrip(m, 8);
    LeRoundTrip(n, 8);
  }

  lemma {:induction false} PrefixedAgree(la: seq<Byte>, a: seq<Byte>, x: seq<Byte>,
                                         lb: seq<Byte>, b: seq<Byte>, y: seq<Byte>)
    requires |la| == |lb| && (la == lb ==> |a| == |b|)
    requires la + a + x == lb + b + y
    ensures a == b && x == y
  {
    assert la + a + x == la + (a + x) && lb + b + y == lb + (b + y);
    PrefixesAgree(la, a + x, lb, b + y);
    PrefixesAgree(a, x, b, y);
  }

  lemma {:induction false} HeadPartAgrees(a: seq<Byte>, x: seq<Byte>, b: seq<Byte>, y: seq<Byte>)
    requires |a| < U64_LIMIT && |b| < U64_LIMIT
    requires LeBytes(|a|, 8) + a + x == LeBytes(|b|, 8) + b + y
    ensures a == b && x == y
  {
    if LeBytes(|a|, 8) == LeBytes(|b|, 8) { LengthFieldInjective(|a|, |b|); }
    PrefixedAgree(LeBytes(|a|, 8), a, x, LeBytes(|b|, 8), b, y);
  }

  /** Two lists of parts with the same encoding are the same list, whatever their lengths. */
  lemma {:induction false} PartsEncodingInjective(p: seq<seq<Byte>>, q: seq<seq<Byte>>)
    requires Encodable(p) && Encodable(q)
    requires EncodeParts(p) == EncodeParts(q)
    ensures p == q
  {
    if p != [] && q != [] {
      HeadPartAgrees(p[0], EncodeParts(p[1..]), q[0], EncodeParts(q[1..]));
      PartsEncodingInjective(p[1..], q[1..]);
      assert p == [p[0]] + p[1..] && q == [q[0]] + q[1..];
    }
  }

  /** `of_parts` walks (label, bytes) pairs, which is the encoding of the flattened list. */
  function Flatten(pairs: seq<(seq<Byte>, seq<Byte>)>): (r: seq<seq<Byte>>)
    ensures |r| == 2 * |pairs|
  {
    if pairs == [] then [] else [pairs[0].0, pairs[0].1] + Flatten(pairs[1..])
  }

  lemma {:induction false} FlattenInjective(p: seq<(seq<Byte>, seq<Byte>)>, q: seq<(seq<Byte>, seq<Byte>)>)
    requires Flatten(p) == Flatten(q)
    ensures p == q
  {
    if p != [] && q != [] {
      PrefixesAgree([p[0].0, p[0].1], Flatten(p[1..]), [q[0].0, q[0].1], Flatten(q[1..]));
      assert p[0].0 == [p[0].0, p[0].1][0] == q[0].0 && p[0].1 == [p[0].0, p[0].1][1] == q[0].1;
      FlattenInjective(p[1..], q[1..]);
      assert p == [p[0]] + p[1..] && q == [q[0]] + q[1..];
    }
  }

  /** Moving bytes between a label and its payload, or between neighbouring parts, always changes
      what is hashed. */
  lemma {:induction false} MultiPartIdentityInjective(p: seq<(seq<Byte>, seq<Byte>)>, q: seq<(seq<Byte>, seq<Byte>)>)
    requires Encodable(Flatten(p)) && Encodable(Flatten(q))
    requires EncodeParts(Flatten(p)) == EncodeParts(Flatten(q))
    ensures p == q
  {
    PartsEncodingInjective(Flatten(p), Flatten(q));
    FlattenInjective(p, q);
  }
}
