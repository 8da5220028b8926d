/** CRC-32 and PNG chunks (apps/clipse-app/src/lib/image-encode.ts), after sections 3.2 and 3.4 of
    RFC 2083. Words are 32-bit vectors and bytes 8-bit ones, as in the typed arrays. */
module PngChunks {
  import opened Bytes

  // ---- words ----------------------------------------------------------------------------

  const POLYNOMIAL: bv32 := 0xedb88320
  const ONES: bv32 := 0xffffffff

  function Xor(a: bv32, b: bv32): (r: bv32) { a ^ b }
  function Half(c: bv32): (r: bv32) { c >> 1 }
  predicate Odd(c: bv32) { c & 1 == 1 }
  function LastBit(c: bv32): (r: bv32) { c & 1 }
  function LowByte(c: bv32): (r: bv32) { c & 0xff }
  function Down8(c: bv32): (r: bv32) { c >> 8 }

  lemma {:induction false} XorLaws(a: bv32, b: bv32, c: bv32)
    ensures Xor(Xor(a, b), c) == Xor(a, Xor(b, c)) && Xor(a, b) == Xor(b, a)
    ensures Xor(a, Xor(a, b)) == b && Xor(a, 0) == a
  {
  }

  lemma {:induction false} XorRegroup(p: bv32, a: bv32, b: bv32)
    ensures Xor(Xor(p, a), Xor(p, b)) == Xor(a, b)
    ensures Xor(Xor(p, a), b) == Xor(p, Xor(a, b)) == Xor(a, Xor(p, b))
  {
    hide Xor;
    XorLaws(p, a, Xor(p, b));
    XorLaws(a, p, b);
    XorLaws(p, a, b);
    XorLaws(p, Xor(a, b), b);
  }

  lemma {:induction false} HalfXor(a: bv32, b: bv32)
    ensures Half(Xor(a, b)) == Xor(Half(a), Half(b))
    ensures Odd(Xor(a, b)) <==> Odd(a) != Odd(b)
  {
    OddCases(a);
    OddCases(b);
    assert (a ^ b) & 1 == (a & 1) ^ (b & 1);
  }

  lemma {:induction false} OddCases(a: bv32)
    ensures a & 1 == 0 || a & 1 == 1
  {
  }

  lemma {:induction false} HalfAndLastBit(a: bv32, b: bv32)
    requires Half(a) == Half(b) && Odd(a) == Odd(b)
    ensures a == b
  {
    OddCases(a);
    OddCases(b);
    assert a == ((a >> 1) << 1) | (a & 1) && b == ((b >> 1) << 1) | (b & 1);
  }

  // ---- the bit-at-a-time definition ---------------------------------------------------

  /** One shift of the register, with the reflected polynomial. */
  function Shift(c: bv32): (r: bv32)
  {
    if Odd(c) then Xor(POLYNOMIAL, Half(c)) else Half(c)
  }

  function Shifts(c: bv32, n: nat): (r: bv32)
    decreases n
  {
    if n == 0 then c else Shifts(Shift(c), n - 1)
  }

  /** Divide in the `n` low bits of `bits`, least significant first, one bit at a time. */
  function DivideBits(c: bv32, bits: bv32, n: nat): (r: bv32)
    decreases n
  {
    if n == 0 then c else DivideBits(Shift(Xor(c, LastBit(bits))), Half(bits), n - 1)
  }

  /** The register after a byte string. */
  function Divide(c: bv32, data: seq<bv8>): (r: bv32)
    decreases |data|
  {
    if data == [] then c
    else DivideBits(Divide(c, data[..|data| - 1]), data[|data| - 1] as bv32, 8)
  }

  /** The check value: ones in, complemented out. */
  function Crc(data: seq<bv8>): (r: bv32)
  {
    Xor(Divide(ONES, data), ONES)
  }

  /** Reference values of the standard check: nothing gives 0, one zero byte 0xd202ef8d. */
  lemma {:induction false} ReferenceValues()
    ensures Crc([]) == 0 && Crc([0]) == 0xd202ef8d
  {
    assert Crc([]) == 0;
    var c := [0xffffffff, 0x92477cdf, 0xa49b3d4f, 0xbff51d87, 0xb2420de3, 0xb49985d1, 0xb7f441c8, 0x5bfa20e4, 0x2dfd1072];
    assert Half(0) == 0 && LastBit(0) == 0 && (0 as bv8) as bv32 == 0;
    assert forall x: bv32 {:trigger Xor(x, 0)} :: Xor(x, 0) == x;
    assert Shift(c[0]) == c[1] && Shift(c[1]) == c[2] && Shift(c[2]) == c[3] && Shift(c[3]) == c[4];
    assert Shift(c[4]) == c[5] && Shift(c[5]) == c[6] && Shift(c[6]) == c[7] && Shift(c[7]) == c[8];
    assert [0 as bv8][..0] == [];
    assert Divide(ONES, [0]) == DivideBits(ONES, 0, 8);
    hide Shift, Xor, Half, LastBit;
    assert DivideBits(c[7], 0, 1) == DivideBits(Shift(Xor(c[7], LastBit(0))), Half(0), 0) == c[8];
    assert DivideBits(c[6], 0, 2) == DivideBits(c[7], 0, 1);
    assert DivideBits(c[5], 0, 3) == DivideBits(c[6], 0, 2);
    assert DivideBits(c[4], 0, 4) == DivideBits(c[5], 0, 3);
    assert DivideBits(c[3], 0, 5) == DivideBits(c[4], 0, 4);
    assert DivideBits(c[2], 0, 6) == DivideBits(c[3], 0, 5);
    assert DivideBits(c[1], 0, 7) == DivideBits(c[2], 0, 6);
    assert DivideBits(c[0], 0, 8) == DivideBits(c[1], 0, 7);
  }

  // ---- the division is linear ------------------------------------------------------------

  lemma {:induction false} ShiftLinear(x: bv32, y: bv32)
    ensures Shift(Xor(x, y)) == Xor(Shift(x), Shift(y))
  {
    hide Xor, Half, Odd;
    var p, a, b := POLYNOMIAL, Half(x), Half(y);
    HalfXor(x, y);
    XorRegroup(p, a, b);
  }

  lemma {:induction false} ShiftsLinear(x: bv32, y: bv32, n: nat)
    ensures Shifts(Xor(x, y), n) == Xor(Shifts(x, n), Shifts(y, n))
    decreases n
  {
    hide Xor, Shift;
    if n > 0 {
      ShiftLinear(x, y);
      ShiftsLinear(Shift(x), Shift(y), n - 1);
    }
  }

  function Halve(b: bv32, n: nat): (r: bv32)
    decreases n
  {
    if n == 0 then b else Halve(Half(b), n - 1)
  }

  /** The low `n` bits are clear. */
  predicate Clear(b: bv32, n: nat)
    decreases n
  {
    n > 0 ==> !Odd(b) && Clear(Half(b), n - 1)
  }

  lemma {:induction false} ShiftsOfClear(y: bv32, n: nat)
    requires Clear(y, n)
    ensures Shifts(y, n) == Halve(y, n)
    decreases n
  {
    hide Odd, Half, Xor;
    if n > 0 { ShiftsOfClear(Half(y), n - 1); }
  }

  lemma {:induction false} EightHalves(w: bv32)
    ensures Half(Half(Half(Half(Half(Half(Half(Half(w)))))))) == Down8(w)
  {
  }

  lemma {:induction false} HalveEight(w: bv32)
    ensures Halve(w, 8) == Down8(w)
  {
    hide Half, Down8;
    EightHalves(w);
    var a := Half(Half(w));
    var b := Half(Half(a));
    var c := Half(Half(b));
    assert Halve(w, 8) == Halve(a, 6);
    assert Halve(a, 6) == Halve(b, 4);
    assert Halve(b, 4) == Halve(c, 2);
  }

  function HighPart(c: bv32): (r: bv32) { c & 0xffffff00 }

  lemma {:induction false} HighBits(w: bv32)
    ensures var y := w & 0xffffff00;
      && y & 1 == 0 && (y >> 1) & 1 == 0 && ((y >> 1) >> 1) & 1 == 0 && (((y >> 1) >> 1) >> 1) & 1 == 0
      && ((((y >> 1) >> 1) >> 1) >> 1) & 1 == 0 && (((((y >> 1) >> 1) >> 1) >> 1) >> 1) & 1 == 0
      && ((((((y >> 1) >> 1) >> 1) >> 1) >> 1) >> 1) & 1 == 0
      && (((((((y >> 1) >> 1) >> 1) >> 1) >> 1) >> 1) >> 1) & 1 == 0
  {
  }

  lemma {:induction false} HighBitsClear(w: bv32)
    ensures Clear(HighPart(w), 8)
  {
    var y := HighPart(w);
    var y1 := Half(y); var y2 := Half(y1); var y3 := Half(y2); var y4 := Half(y3);
    var y5 := Half(y4); var y6 := Half(y5); var y7 := Half(y6);
    assert !Odd(y) && !Odd(y1) && !Odd(y2) && !Odd(y3) && !Odd(y4) && !Odd(y5) && !Odd(y6) && !Odd(y7) by {
      HighBits(w);
    }
    hide Odd, Half;
    assert Clear(y6, 2);
    assert Clear(y4, 4);
    assert Clear(y2, 6);
  }

  /** Eight shifts of a word: those of its low byte, and the rest moved down. */
  lemma {:induction false} EightShifts(x: bv32)
    ensures Shifts(x, 8) == Xor(Shifts(LowByte(x), 8), Down8(x))
  {
    hide Xor, LowByte, HighPart, Down8, Shifts, Halve, Clear;
    SplitWord(x);
    ShiftsLinear(LowByte(x), HighPart(x), 8);
    HighBitsClear(x);
    ShiftsOfClear(HighPart(x), 8);
    HalveEight(HighPart(x));
  }

  lemma {:induction false} SplitWord(x: bv32)
    ensures x == Xor(LowByte(x), HighPart(x)) && Down8(HighPart(x)) == Down8(x)
  {
  }

  function EvenPart(b: bv32): (r: bv32) { b & 0xfffffffe }

  lemma {:induction false} SplitLastBit(b: bv32)
    ensures b == Xor(LastBit(b), EvenPart(b)) && !Odd(EvenPart(b)) && Half(EvenPart(b)) == Half(b)
  {
    hide Xor, LastBit, EvenPart, Odd, Half;
    SplitBits(b);
    EvenPartIsEven(b);
    HalfOfEvenPart(b);
  }

  lemma {:induction false} SplitBits(b: bv32)
    ensures b == Xor(LastBit(b), EvenPart(b))
  {
  }

  lemma {:induction false} EvenPartIsEven(b: bv32)
    ensures !Odd(EvenPart(b))
  {
  }

  lemma {:induction false} HalfOfEvenPart(b: bv32)
    ensures Half(EvenPart(b)) == Half(b)
  {
  }

  /** Folding the message in bit by bit or all at once makes no difference, up to the bits not yet used. */
  lemma {:induction false} BitsAtOnce(c: bv32, b: bv32, n: nat)
    ensures Xor(DivideBits(c, b, n), Halve(b, n)) == Shifts(Xor(c, b), n)
    decreases n
  {
    hide Xor, Half, Odd, LastBit, EvenPart;
    if n > 0 {
      SplitLastBit(b);
      XorLaws(c, LastBit(b), EvenPart(b));
      ShiftLinear(Xor(c, LastBit(b)), EvenPart(b));
      BitsAtOnce(Shift(Xor(c, LastBit(b))), Half(b), n - 1);
    }
  }

  lemma {:induction false} ByteFits(b: bv8)
    ensures Down8(b as bv32) == 0
  {
  }

  /** Eight single-bit steps are eight shifts of the register with the byte folded in. */
  lemma {:induction false} ByteAtOnce(c: bv32, b: bv8)
    ensures DivideBits(c, b as bv32, 8) == Shifts(Xor(c, b as bv32), 8)
  {
    hide Shifts, DivideBits, Halve, Xor, Down8;
    var w := b as bv32;
    BitsAtOnce(c, w, 8);
    HalveEight(w);
    ByteFits(b);
    XorLaws(DivideBits(c, w, 8), w, w);
  }

  lemma {:induction false} ByteLeavesHigh(c: bv32, b: bv8)
    ensures Down8(Xor(c, b as bv32)) == Down8(c)
  {
  }

  /** One table lookup does the work of eight single-bit steps. */
  lemma {:induction false} TableStep(c: bv32, b: bv8)
    ensures DivideBits(c, b as bv32, 8) == Xor(Shifts(LowByte(Xor(c, b as bv32)), 8), Down8(c))
  {
    hide Shifts, DivideBits, LowByte, Xor, Down8;
    ByteLeavesHigh(c, b);
    ByteAtOnce(c, b);
    EightShifts(Xor(c, b as bv32));
  }

  // ---- the table-driven form ---------------------------------------------------------------

  function Entry(n: bv8): (r: bv32)
  {
    Shifts(n as bv32, 8)
  }

  lemma {:induction false} ShiftsSnoc(c: bv32, n: nat)
    ensures Shifts(c, n + 1) == Shift(Shifts(c, n))
    decreases n
  {
    hide Shift;
    if n > 0 { ShiftsSnoc(Shift(c), n - 1); }
  }

  method BuildTable() returns (table: array<bv32>)
    ensures fresh(table) && table.Length == 256
    ensures forall n :: 0 <= n < 256 ==> table[n] == Entry(n as bv8)
  {
    hide Xor, Half, Odd, Shifts;
    table := new bv32[256];
    for n := 0 to 256
      invariant forall m :: 0 <= m < n ==> table[m] == Entry(m as bv8)
    {
      var start := (n as bv8) as bv32;
      var c := start;
      NoShifts(start);
      for k := 0 to 8
        invariant c == Shifts(start, k)
        invariant forall m :: 0 <= m < n ==> table[m] == Entry(m as bv8)
      {
        ShiftsSnoc(start, k);
        c := if Odd(c) then Xor(POLYNOMIAL, Half(c)) else Half(c);
      }
      table[n] := c;
    }
  }

  lemma {:induction false} NoShifts(c: bv32)
    ensures Shifts(c, 0) == c
  {
  }

  lemma {:induction false} IndexRoundTrip(i: bv8)
    ensures 0 <= i as int < 256 && (i as int) as bv8 == i
  {
  }

  /** The low byte of a word as a table index. */
  function Index(x: bv32): (r: bv8)
  {
    (x & 0xff) as bv8
  }

  lemma {:induction false} IndexIsLowByte(x: bv32)
    ensures Index(x) as bv32 == LowByte(x)
  {
  }

  lemma {:induction false} DivideNothing(c: bv32)
    ensures Divide(c, []) == c
  {
  }

  lemma {:induction false} DivideSnoc(c: bv32, data: seq<bv8>, i: nat)
    requires i < |data|
    ensures Divide(c, data[..i + 1]) == DivideBits(Divide(c, data[..i]), data[i] as bv32, 8)
  {
    hide DivideBits;
    var d := data[..i + 1];
    assert d[..|d| - 1] == data[..i] && d[|d| - 1] == data[i];
  }

  /** The table-driven loop computes the bit-at-a-time division of every byte string. */
  method Crc32(data: seq<bv8>) returns (r: bv32)
    ensures r == Crc(data)
  {
    hide Shifts, DivideBits, Divide, Xor, Down8, LowByte, Index;
    var table := BuildTable();
    var c: bv32 := ONES;
    assert data[..0] == [] && Divide(ONES, []) == ONES by { DivideNothing(ONES); }
    for i := 0 to |data|
      invariant c == Divide(ONES, data[..i])
      invariant forall n :: 0 <= n < 256 ==> table[n] == Entry(n as bv8)
    {
      DivideSnoc(ONES, data, i);
      TableStep(c, data[i]);
      var x := Xor(c, data[i] as bv32);
      IndexIsLowByte(x);
      IndexRoundTrip(Index(x));
      assert table[Index(x) as int] == Entry(Index(x));
      c := Xor(table[Index(x) as int], Down8(c));
    }
    assert data[..|data|] == data;
    r := Xor(c, ONES);
  }

  // ---- a changed byte never goes unnoticed ------------------------------------------------------

  lemma {:induction false} TopBit(x: bv32, y: bv32)
    ensures Xor(POLYNOMIAL, Half(x)) != Half(y)
  {
    assert (x >> 1) & 0x80000000 == 0 && (y >> 1) & 0x80000000 == 0;
    assert (0xedb88320 ^ (x >> 1)) & 0x80000000 == 0x80000000;
  }

  lemma {:induction false} ShiftInjective(x: bv32, y: bv32)
    requires Shift(x) == Shift(y)
    ensures x == y
  {
    hide Xor, Half, Odd;
    TopBit(x, y);
    TopBit(y, x);
    XorLaws(POLYNOMIAL, Half(x), x);
    XorLaws(POLYNOMIAL, Half(y), y);
    HalfAndLastBit(x, y);
  }

  lemma {:induction false} ShiftsInjective(x: bv32, y: bv32, n: nat)
    requires Shifts(x, n) == Shifts(y, n)
    ensures x == y
    decreases n
  {
    hide Shift;
    if n > 0 {
      ShiftsInjective(Shift(x), Shift(y), n - 1);
      ShiftInjective(x, y);
    }
  }

  lemma {:induction false} XorCancels(c: bv32, d: bv32, w: bv32)
    requires Xor(c, w) == Xor(d, w) || Xor(w, c) == Xor(w, d)
    ensures c == d
  {
    hide Xor;
    XorLaws(w, c, c);
    XorLaws(w, d, d);
  }

  /** From different registers the same bytes lead to different registers. */
  lemma {:induction false} DivideInjective(c: bv32, d: bv32, data: seq<bv8>)
    requires Divide(c, data) == Divide(d, data)
    ensures c == d
    decreases |data|
  {
    hide Shifts, DivideBits, Xor;
    if data != [] {
      var front, b := data[..|data| - 1], data[|data| - 1];
      var c', d' := Divide(c, front), Divide(d, front);
      ByteAtOnce(c', b);
      ByteAtOnce(d', b);
      ShiftsInjective(Xor(c', b as bv32), Xor(d', b as bv32), 8);
      XorCancels(c', d', b as bv32);
      DivideInjective(c, d, front);
    }
  }

  lemma {:induction false} DivideConcat(c: bv32, s: seq<bv8>, t: seq<bv8>)
    ensures Divide(c, s + t) == Divide(Divide(c, s), t)
    decreases |t|
  {
    hide DivideBits;
    if t == [] {
      assert s + t == s;
    } else {
      assert (s + t)[..|s + t| - 1] == s + t[..|t| - 1];
      DivideConcat(c, s, t[..|t| - 1]);
    }
  }

  lemma {:induction false} SingleByte(c: bv32, b: bv8)
    ensures Divide(c, [b]) == Shifts(Xor(c, b as bv32), 8)
  {
    hide Shifts, DivideBits, Xor;
    ByteAtOnce(c, b);
    assert [b][..0] == [] && Divide(c, []) == c;
  }

  lemma {:induction false} WidenInjective(a: bv8, b: bv8)
    requires a as bv32 == b as bv32
    ensures a == b
  {
  }

  lemma {:induction false} DivideConcat3(c: bv32, front: seq<bv8>, b: bv8, back: seq<bv8>)
    ensures Divide(c, front + [b] + back) == Divide(Divide(Divide(c, front), [b]), back)
  {
    hide Divide;
    DivideConcat(c, front + [b], back);
    DivideConcat(c, front, [b]);
  }

  /** Changing one byte, wherever it is, changes the check value. */
  lemma {:induction false} OneByteChangeIsDetected(front: seq<bv8>, a: bv8, b: bv8, back: seq<bv8>)
    requires a != b
    ensures Crc(front + [a] + back) != Crc(front + [b] + back)
  {
    hide Divide, Shifts, DivideBits, Xor;
    var c := Divide(ONES, front);
    DivideConcat3(ONES, front, a, back);
    DivideConcat3(ONES, front, b, back);
    if Crc(front + [a] + back) == Crc(front + [b] + back) {
      XorCancels(Divide(Divide(c, [a]), back), Divide(Divide(c, [b]), back), ONES);
      DivideInjective(Divide(c, [a]), Divide(c, [b]), back);
      SingleByte(c, a);
      SingleByte(c, b);
      ShiftsInjective(Xor(c, a as bv32), Xor(c, b as bv32), 8);
      XorCancels(a as bv32, b as bv32, c);
      WidenInjective(a, b);
      assert false;
    }
  }

  // ---- chunks -------------------------------------------------------------------------------------

  type Octets = seq<bv8>

  /** `setUint32(_, n, false)`: four bytes, most significant first, modulo 2^32. */
  function Be32(n: nat): (r: Octets)
    ensures |r| == 4
  {
    var bytes := BeBytes(n, 4);
    seq(4, i requires 0 <= i < 4 => bytes[i] as bv8)
  }

  function FromBe32(s: Octets): (r: nat)
    requires |s| == 4
  {
    FromBe([OctetValue(s[0]), OctetValue(s[1]), OctetValue(s[2]), OctetValue(s[3])])
  }

  function OctetValue(b: bv8): (r: Byte)
  {
    IndexRoundTrip(b);
    b as int
  }

  lemma {:induction false} OctetRoundTrip(n: Byte)
    ensures OctetValue(n as bv8) == n
  {
  }

  lemma {:induction false} Be32RoundTrip(n: nat)
    ensures FromBe32(Be32(n)) == n % U32_LIMIT
  {
    hide FromBe, BeBytes, OctetValue;
    var bytes := BeBytes(n, 4);
    OctetRoundTrip(bytes[0]);
    OctetRoundTrip(bytes[1]);
    OctetRoundTrip(bytes[2]);
    OctetRoundTrip(bytes[3]);
    assert [bytes[0], bytes[1], bytes[2], bytes[3]] == bytes;
    BeBytesWrap(n, 4);
    Pow256Values();
    BeRoundTrip(n % U32_LIMIT, 4);
  }

  lemma {:induction false} BeBytesWrap(n: nat, width: nat)
    ensures BeBytes(n, width) == BeBytes(n % Pow256(width), width)
  {
    if width > 0 {
      var p := Pow256(width - 1);
      WrapDigit(n, p);
      BeBytesWrap(n / 256, width - 1);
    }
  }

  lemma {:induction false} WrapDigit(n: nat, p: nat)
    requires p > 0
    ensures (n % (256 * p)) % 256 == n % 256 && (n % (256 * p)) / 256 == (n / 256) % p
  {
    var q, rest := n / 256 / p, n / 256 % p;
    assert n / 256 == p * q + rest;
    assert n == 256 * (n / 256) + n % 256;
    var m := 256 * rest + n % 256;
    assert n == (256 * p) * q + m by { assert 256 * (p * q) == (256 * p) * q; }
    assert m < 256 * p by { assert 256 * rest <= 256 * (p - 1); }
    RemainderIs(n, 256 * p, q, m);
  }

  lemma {:induction false} RemainderIs(n: nat, d: nat, q: nat, m: nat)
    requires d > 0 && n == d * q + m && m < d
    ensures n % d == m
  {
    var q', m' := n / d, n % d;
    assert d * q + m == d * q' + m';
    assert q < q' ==> d * q' >= d * (q + 1);
    assert q > q' ==> d * q >= d * (q' + 1);
  }

  /** The same for a word. */
  function WordBytes(c: bv32): (r: Octets)
    ensures |r| == 4
  {
    [(c >> 24) as bv8, ((c >> 16) & 0xff) as bv8, ((c >> 8) & 0xff) as bv8, (c & 0xff) as bv8]
  }

  function FromOctets(a: bv8, b: bv8, c: bv8, d: bv8): (r: bv32)
  {
    (((a as bv32) << 24) | ((b as bv32) << 16)) | (((c as bv32) << 8) | (d as bv32))
  }

  lemma {:induction false} WordRoundTrip(c: bv32)
    ensures var s := WordBytes(c); FromOctets(s[0], s[1], s[2], s[3]) == c
  {
  }

  /** `charCodeAt` stored in a byte; a character that is not there stores zero. */
  function TypeOctet(kind: string, i: nat): (r: bv8)
  {
    if i < |kind| then (kind[i] as int % 256) as bv8 else 0
  }

  function TypeOctets(kind: string): (r: Octets)
    ensures |r| == 4
  {
    seq(4, i requires 0 <= i < 4 => TypeOctet(kind, i))
  }

  /** Length, type, body, check value over type and body. */
  function ChunkBytes(kind: Octets, body: Octets): (r: Octets)
    ensures |r| == 8 + |kind| + |body|
  {
    Be32(|body|) + (kind + body) + WordBytes(Crc(kind + body))
  }

  method MakeChunk(kind: string, body: Octets) returns (out: array<bv8>)
    ensures fresh(out)
    ensures out[..] == ChunkBytes(TypeOctets(kind), body)
  {
    hide Crc, Be32, WordBytes, TypeOctet;
    out := new bv8[12 + |body|];
    var size := Be32(|body|);
    forall i | 0 <= i < 4 { out[i] := size[i]; }
    for i := 0 to 4
      invariant out[..4] == size
      invariant forall k :: 0 <= k < i ==> out[4 + k] == TypeOctet(kind, k)
    {
      out[4 + i] := TypeOctet(kind, i);
    }
    forall i | 0 <= i < |body| { out[8 + i] := body[i]; }
    ghost var middle := TypeOctets(kind) + body;
    forall k | 0 <= k < 4 + |body| ensures out[4..8 + |body|][k] == middle[k] {
      if k < 4 { assert out[4 + k] == TypeOctet(kind, k) == TypeOctets(kind)[k]; } else { assert out[8 + (k - 4)] == body[k - 4]; }
    }
    assert out[4..8 + |body|] == middle;
    var check := Crc32(out[4..8 + |body|]);
    var tail := WordBytes(check);
    forall i | 0 <= i < 4 { out[8 + |body| + i] := tail[i]; }
    assert out[..] == size + (TypeOctets(kind) + body) + tail;
  }

  /** What a reader makes of a stream: the next chunk and what follows it. */
  datatype Parsed = Parsed(kind: Octets, body: Octets, rest: Octets)

  function ParseChunk(s: Octets): (r: Option<Parsed>)
    ensures r.Some? ==> |r.value.rest| < |s|
  {
    if |s| < 12 then None else
      var n := FromBe32(s[..4]);
      if |s| < 12 + n then None
      else if s[8 + n..12 + n] != WordBytes(Crc(s[4..8 + n])) then None
      else Some(Parsed(s[4..8], s[8..8 + n], s[12 + n..]))
  }

  /** A payload framed with its true length is read up to its end. */
  lemma {:induction false} FramedPayload(payload: Octets, tail: Octets, rest: Octets)
    requires 4 <= |payload| < 4 + U32_LIMIT && |tail| == 4
    ensures ParseChunk(Be32(|payload| - 4) + payload + tail + rest) ==
      if tail == WordBytes(Crc(payload)) then Some(Parsed(payload[..4], payload[4..], rest)) else None
  {
    hide Be32, FromBe32, WordBytes, Crc;
    var n := |payload| - 4;
    Be32RoundTrip(n);
    var s := Be32(n) + payload + tail + rest;
    assert s[..4] == Be32(n);
    assert s[4..8 + n] == payload && s[4..8] == payload[..4] && s[8..8 + n] == payload[4..];
    assert s[8 + n..12 + n] == tail && s[12 + n..] == rest;
  }

  lemma {:induction false} ChunkAsPayload(kind: Octets, body: Octets, rest: Octets)
    ensures ChunkBytes(kind, body) + rest == Be32(|body|) + (kind + body) + WordBytes(Crc(kind + body)) + rest
  {
  }

  /** A chunk, whatever follows it, is read back as its type and body exactly when the body's length
      fits the length field. */
  lemma {:induction false} ChunkParsesBackIff(kind: Octets, body: Octets, rest: Octets)
    requires |kind| == 4
    ensures ParseChunk(ChunkBytes(kind, body) + rest) == Some(Parsed(kind, body, rest)) <==> |body| < U32_LIMIT
  {
    hide Be32, FromBe32, WordBytes, Crc;
    if |body| < U32_LIMIT {
      FramedPayload(kind + body, WordBytes(Crc(kind + body)), rest);
      assert (kind + body)[..4] == kind && (kind + body)[4..] == body;
      ChunkAsPayload(kind, body, rest);
    } else {
      var s := ChunkBytes(kind, body) + rest;
      assert s[..4] == Be32(|body|);
      Be32RoundTrip(|body|);
      assert ParseChunk(s).Some? ==> |ParseChunk(s).value.body| == |body| % U32_LIMIT;
    }
  }

  /** A chunk with one byte of its type or body altered is never accepted. */
  lemma {:induction false} AlteredChunkIsRejected(kind: Octets, body: Octets, k: nat, b: bv8, rest: Octets)
    requires |kind| == 4 && |body| < U32_LIMIT && k < 4 + |body| && (kind + body)[k] != b
    ensures ParseChunk(Be32(|body|) + (kind + body)[k := b] + WordBytes(Crc(kind + body)) + rest) == None
  {
    hide Be32, FromBe32, WordBytes, Crc, ParseChunk;
    var p := kind + body;
    var front, back := p[..k], p[k + 1..];
    assert p == front + [p[k]] + back && p[k := b] == front + [b] + back;
    OneByteChangeIsDetected(front, p[k], b, back);
    WordRoundTrip(Crc(p));
    WordRoundTrip(Crc(p[k := b]));
    FramedPayload(p[k := b], WordBytes(Crc(p)), rest);
  }

  /** A file's chunks one after another, and reading them all back. */
  function Chunks(list: seq<(Octets, Octets)>): (r: Octets)
  {
    if list == [] then [] else ChunkBytes(list[0].0, list[0].1) + Chunks(list[1..])
  }

  function ParseAll(s: Octets): (r: Option<seq<(Octets, Octets)>>)
    decreases |s|
  {
    if s == [] then Some([])
    else match ParseChunk(s)
      case None => None
      case Some(Parsed(kind, body, rest)) =>
        match ParseAll(rest) case None => None case Some(more) => Some([(kind, body)] + more)
  }

  lemma {:induction false} ChunksParseBack(list: seq<(Octets, Octets)>)
    requires forall i :: 0 <= i < |list| ==> |list[i].0| == 4 && |list[i].1| < U32_LIMIT
    ensures ParseAll(Chunks(list)) == Some(list)
  {
    hide ParseChunk, ChunkBytes;
    if list != [] {
      var (kind, body) := list[0];
      ChunkParsesBackIff(kind, body, Chunks(list[1..]));
      ChunksParseBack(list[1..]);
      assert list == [list[0]] + list[1..];
    }
  }
}
