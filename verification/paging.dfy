/** The sync cursor: paging a store with `changes_since` (crates/clipse-store/src/store.rs). */
module Paging {
  import opened Bytes
  import opened HybridClock
  import opened Sorting
  import opened ClipTables

  // ---- text order of ids is byte order ------------------------------------

  lemma {:induction false} HexPairOrder(x: Byte, y: Byte, s: seq<int>, t: seq<int>)
    requires x != y
    ensures LexLess(HexPair(x) + s, HexPair(y) + t) <==> x < y
  {
    var a, b := HexPair(x) + s, HexPair(y) + t;
    assert a[0] == HexCode(x / 16) && b[0] == HexCode(y / 16);
    assert a[1..][0] == HexCode(x % 16) && b[1..][0] == HexCode(y % 16);
    assert x == 16 * (x / 16) + x % 16 && y == 16 * (y / 16) + y % 16;
  }

  lemma {:induction false} ByteTextOrder(sep: seq<int>, x: Byte, y: Byte, s: seq<int>, t: seq<int>)
    ensures LexLess(sep + HexPair(x) + s, sep + HexPair(y) + t) <==> (if x == y then LexLess(s, t) else x < y)
  {
    assert sep + HexPair(x) + s == sep + (HexPair(x) + s);
    assert sep + HexPair(y) + t == sep + (HexPair(y) + t);
    LexCommonPrefix(sep, HexPair(x) + s, HexPair(y) + t);
    if x == y {
      LexCommonPrefix(HexPair(x), s, t);
    } else {
      HexPairOrder(x, y, s, t);
    }
  }

  lemma {:induction false} LexStep(a: seq<int>, b: seq<int>, i: nat)
    requires i < |a| == |b|
    ensures LexLess(a[i..], b[i..]) <==> (if a[i] == b[i] then LexLess(a[i + 1..], b[i + 1..]) else a[i] < b[i])
  {
    assert a[i..][1..] == a[i + 1..] && b[i..][1..] == b[i + 1..];
  }

  lemma {:induction false} TextOrderFrom(a: DeviceId, b: DeviceId, i: nat)
    requires i <= 16
    ensures LexLess(UuidTextFrom(a, i), UuidTextFrom(b, i)) <==> LexLess(a[i..], b[i..])
    decreases 16 - i
  {
    if i < 16 {
      ByteTextOrder(Separator(i), a[i], b[i], UuidTextFrom(a, i + 1), UuidTextFrom(b, i + 1));
      LexStep(a, b, i);
      TextOrderFrom(a, b, i + 1);
    }
  }

  /** Hyphenated lowercase hex sorts as text exactly as the id sorts as bytes. */
  lemma {:induction false} TextOrderIsByteOrder(a: DeviceId, b: DeviceId)
    ensures LexLess(UuidText(a), UuidText(b)) <==> LexLess(a, b)
  {
    TextOrderFrom(a, b, 0);
    assert a[0..] == a && b[0..] == b;
  }

  /** SQLite orders two stamps as the clock does exactly when their wall times fall on the same side
      of 2^63, where the signed column wraps. */
  lemma {:induction false} SqlOrderIsStampOrder(a: Hlc, b: Hlc)
    ensures (SqlLess(a, b) == Less(a, b) && SqlLess(b, a) == Less(b, a))
       <==> (a.wall < 0x8000_0000_0000_0000 <==> b.wall < 0x8000_0000_0000_0000)
  {
    TextOrderIsByteOrder(a.device, b.device);
    TextOrderIsByteOrder(b.device, a.device);
  }

  lemma {:induction false} SqlTotal(a: Hlc, b: Hlc)
    ensures SqlLess(a, b) || SqlLess(b, a) || a == b
    ensures !(SqlLess(a, b) && SqlLess(b, a)) && !SqlLess(a, a)
  {
    TextOrderIsByteOrder(a.device, b.device);
    TextOrderIsByteOrder(b.device, a.device);
    LexTrichotomy(a.device, b.device);
    LexTrichotomy(UuidText(a.device), UuidText(a.device));
  }

  lemma {:induction false} SqlTransitive(a: Hlc, b: Hlc, c: Hlc)
    requires SqlLess(a, b) && SqlLess(b, c)
    ensures SqlLess(a, c)
  {
    if AsI64(a.wall) == AsI64(c.wall) && a.counter == c.counter {
      LexTransitive(UuidText(a.device), UuidText(b.device), UuidText(c.device));
    }
  }

  lemma {:induction false} OldestFirstIsTotal()
    ensures TotalPreorder(OldestFirst)
  {
    forall a, b ensures OldestFirst(a, b) || OldestFirst(b, a) {
      SqlTotal(a.clip.hlc, b.clip.hlc);
    }
    forall a, b, c | OldestFirst(a, b) && OldestFirst(b, c) ensures OldestFirst(a, c) {
      var x, y, z := a.clip.hlc, b.clip.hlc, c.clip.hlc;
      SqlTotal(x, y);
      SqlTotal(y, z);
      SqlTotal(x, z);
      if SqlLess(x, y) && SqlLess(y, z) { SqlTransitive(x, y, z); }
    }
  }

  // ---- paging -------------------------------------------------------------

  function Ordered(rows: seq<Row>): (r: seq<Row>)
    ensures |r| == |rows|
  {
    Sort(rows, OldestFirst)
  }

  ghost predicate DistinctStamps(rows: seq<Row>)
  {
    forall i, j :: 0 <= i < j < |rows| ==> rows[i].clip.hlc != rows[j].clip.hlc
  }

  ghost predicate StrictlyAscending(rows: seq<Row>)
  {
    forall i, j :: 0 <= i < j < |rows| ==> SqlLess(rows[i].clip.hlc, rows[j].clip.hlc)
  }

  /** What a caller sees in `calls` calls, each time passing back the last stamp it received. */
  function Visit(rows: seq<Row>, cursor: Option<Hlc>, limit: nat, calls: nat): (r: seq<Row>)
    decreases calls
  {
    var page := ChangesSince(rows, cursor, limit);
    if calls == 0 || page == [] then []
    else page + Visit(rows, Some(page[|page| - 1].clip.hlc), limit, calls - 1)
  }

  /** With pages of `limit` rows, the caller sees the whole history in stamp order. */
  predicate PagesThrough(rows: seq<Row>, limit: nat)
  {
    Visit(rows, None, limit, |rows|) == Ordered(rows)
  }

  lemma {:induction false} OrderedIsSorted(rows: seq<Row>)
    ensures forall i, j :: 0 <= i < j < |rows| ==> OldestFirst(Ordered(rows)[i], Ordered(rows)[j])
  {
    OldestFirstIsTotal();
    SortSorts(rows, OldestFirst);
  }

  lemma {:induction false} OrderedFilter(rows: seq<Row>, p: Row -> bool)
    ensures Sort(Filter(rows, p), OldestFirst) == Filter(Ordered(rows), p)
  {
    OldestFirstIsTotal();
    SortFilterCommute(rows, OldestFirst, p);
  }

  lemma {:induction false} AscendingIsDistinct(s: seq<Row>)
    requires StrictlyAscending(s)
    ensures DistinctStamps(s)
  {
    forall i, j | 0 <= i < j < |s| ensures s[i].clip.hlc != s[j].clip.hlc {
      SqlTotal(s[i].clip.hlc, s[j].clip.hlc);
    }
  }

  lemma {:induction false} DistinctCarriesOver(s: seq<Row>, t: seq<Row>)
    requires multiset(s) == multiset(t) && DistinctStamps(s)
    ensures DistinctStamps(t)
  {
    assert Distinct(s);
    DistinctFromMultiset(s, t);
    forall i, j | 0 <= i < j < |t| ensures t[i].clip.hlc != t[j].clip.hlc {
      assert t[i] in multiset(s) && t[j] in multiset(s);
    }
  }

  lemma {:induction false} StampsOfOrdered(rows: seq<Row>)
    ensures DistinctStamps(rows) <==> StrictlyAscending(Ordered(rows))
  {
    var s := Ordered(rows);
    SortPermutes(rows, OldestFirst);
    if DistinctStamps(rows) {
      DistinctCarriesOver(rows, s);
      OrderedIsSorted(rows);
      forall i, j | 0 <= i < j < |s| ensures SqlLess(s[i].clip.hlc, s[j].clip.hlc) {
        SqlTotal(s[i].clip.hlc, s[j].clip.hlc);
      }
    }
    if StrictlyAscending(s) {
      AscendingIsDistinct(s);
      DistinctCarriesOver(s, rows);
    }
  }

  /** The cursor after the first `k` rows of `s`. */
  function CursorAt(s: seq<Row>, k: nat): (r: Option<Hlc>)
    requires k <= |s|
  {
    if k == 0 then None else Some(s[k - 1].clip.hlc)
  }

  lemma {:induction false} CursorSplits(s: seq<Row>, k: nat)
    requires StrictlyAscending(s) && k <= |s|
    ensures forall i :: 0 <= i < |s| ==> (PastCursor(CursorAt(s, k))(s[i]) <==> k <= i)
  {
    forall i | 0 <= i < |s| ensures PastCursor(CursorAt(s, k))(s[i]) <==> k <= i {
      if 0 < k { SqlTotal(s[i].clip.hlc, s[k - 1].clip.hlc); }
    }
  }

  lemma {:induction false} FilterSplit<T(!new)>(s: seq<T>, k: nat, p: T -> bool)
    requires k <= |s| && forall i :: 0 <= i < |s| ==> (p(s[i]) <==> k <= i)
    ensures Filter(s, p) == s[k..]
  {
    assert s == s[..k] + s[k..];
    FilterConcat(s[..k], s[k..], p);
    FilterAll(s[k..], p);
    FilterNone(s[..k], p);
  }

  /** Once the first `k` rows have been seen, the next page starts at row `k`. */
  lemma {:induction false} NextPage(rows: seq<Row>, k: nat, limit: nat)
    requires StrictlyAscending(Ordered(rows)) && k <= |rows|
    ensures ChangesSince(rows, CursorAt(Ordered(rows), k), limit) == Take(Ordered(rows)[k..], limit)
  {
    var s := Ordered(rows);
    var past := PastCursor(CursorAt(s, k));
    CursorSplits(s, k);
    FilterSplit(s, k, past);
    OrderedFilter(rows, past);
  }

  /** Paging as seen from outside: after `k` rows of `s`, the next page is the next `limit` rows. */
  predicate PageAt(rows: seq<Row>, s: seq<Row>, k: nat, limit: nat)
    requires k <= |s|
  {
    ChangesSince(rows, CursorAt(s, k), limit) == Take(s[k..], limit)
  }

  lemma {:induction false} VisitFrom(rows: seq<Row>, s: seq<Row>, k: nat, limit: nat, calls: nat)
    requires k <= |s| && limit > 0 && calls >= |s| - k
    requires forall i: nat :: i <= |s| ==> PageAt(rows, s, i, limit)
    ensures Visit(rows, CursorAt(s, k), limit, calls) == s[k..]
    decreases calls
  {
    hide ChangesSince;
    assert PageAt(rows, s, k, limit);
    if k < |s| {
      var n := if limit < |s| - k then limit else |s| - k;
      assert Take(s[k..], limit) == s[k..k + n];
      assert s[k..k + n][n - 1] == s[k + n - 1];
      VisitFrom(rows, s, k + n, limit, calls - 1);
      assert s[k..] == s[k..k + n] + s[k + n..];
    }
  }

  lemma {:induction false} PageIsPastCursor(rows: seq<Row>, cursor: Option<Hlc>, limit: nat)
    ensures forall i :: 0 <= i < |ChangesSince(rows, cursor, limit)| ==> PastCursor(cursor)(ChangesSince(rows, cursor, limit)[i])
  {
    var f := Filter(rows, PastCursor(cursor));
    var page := ChangesSince(rows, cursor, limit);
    forall i | 0 <= i < |page| ensures PastCursor(cursor)(page[i]) {
      assert page[i] == Sort(f, OldestFirst)[i];
      SortMembers(f, OldestFirst, page[i]);
    }
  }

  ghost predicate AscendsPast(v: seq<Row>, cursor: Option<Hlc>)
  {
    StrictlyAscending(v) && forall i :: 0 <= i < |v| ==> PastCursor(cursor)(v[i])
  }

  lemma {:induction false} AscendCons(x: Row, v: seq<Row>, cursor: Option<Hlc>)
    requires PastCursor(cursor)(x) && AscendsPast(v, Some(x.clip.hlc))
    ensures AscendsPast([x] + v, cursor)
  {
    forall i | 0 <= i < |v| ensures PastCursor(cursor)(v[i]) {
      assert PastCursor(Some(x.clip.hlc))(v[i]);
      if cursor.Some? { SqlTransitive(cursor.value, x.clip.hlc, v[i].clip.hlc); }
    }
  }

  /** One row at a time, no stamp is ever delivered twice. */
  lemma {:induction false} SingleStepsAscend(rows: seq<Row>, cursor: Option<Hlc>, calls: nat)
    ensures AscendsPast(Visit(rows, cursor, 1, calls), cursor)
    decreases calls
  {
    var page := ChangesSince(rows, cursor, 1);
    if calls > 0 && page != [] {
      PageIsPastCursor(rows, cursor, 1);
      assert page == [page[0]];
      SingleStepsAscend(rows, Some(page[0].clip.hlc), calls - 1);
      AscendCons(page[0], Visit(rows, Some(page[0].clip.hlc), 1, calls - 1), cursor);
    }
  }

  /** Paging an unchanging store visits every row exactly once, oldest first, for every positive page
      size - exactly when no two rows carry the same stamp. */
  lemma {:induction false} PagingIsCompleteIff(rows: seq<Row>)
    ensures (forall limit: nat :: limit > 0 ==> PagesThrough(rows, limit)) <==> DistinctStamps(rows)
    ensures multiset(Ordered(rows)) == multiset(rows)
  {
    SortPermutes(rows, OldestFirst);
    StampsOfOrdered(rows);
    var s := Ordered(rows);
    if DistinctStamps(rows) {
      forall limit: nat | limit > 0 ensures PagesThrough(rows, limit) {
        forall i: nat | i <= |s| ensures PageAt(rows, s, i, limit) { NextPage(rows, i, limit); }
        VisitFrom(rows, s, 0, limit, |rows|);
        assert s[0..] == s;
      }
    } else if PagesThrough(rows, 1) {
      SingleStepsAscend(rows, None, |rows|);
    }
  }

  /** And for wall times below 2^63 that order is the clock's own. */
  lemma {:induction false} OrderedIsStampOrder(rows: seq<Row>)
    requires DistinctStamps(rows)
    requires forall r :: r in rows ==> r.clip.hlc.wall < 0x8000_0000_0000_0000
    ensures var s := Ordered(rows); forall i, j :: 0 <= i < j < |s| ==> Less(s[i].clip.hlc, s[j].clip.hlc)
  {
    var s := Ordered(rows);
    StampsOfOrdered(rows);
    forall i, j | 0 <= i < j < |s| ensures Less(s[i].clip.hlc, s[j].clip.hlc) {
      SortMembers(rows, OldestFirst, s[i]);
      SortMembers(rows, OldestFirst, s[j]);
      SqlOrderIsStampOrder(s[i].clip.hlc, s[j].clip.hlc);
    }
  }
}
