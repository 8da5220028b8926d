/** What a search of the history finds (crates/clipse-store/src/store.rs, crates/clipse-store/src/fts.rs): in
    terms of what a clip shows and says, over every run of the store. */
module HistorySearch {
  import opened Bytes
  import opened HybridClock
  import opened ContentHashes
  import opened Sorting
  import opened ClipTables
  import Paging

  /** One of the clip's payloads is plain text, kept inline and valid UTF-8, and this is the text. */
  ghost predicate PlainText(c: Clip, text: string)
  {
    exists k :: 0 <= k < |c.payloads| && TextAt(c, text, k)
  }

  predicate TextAt(c: Clip, text: string, k: nat)
    requires k < |c.payloads|
  {
    var p := c.payloads[k];
    p.format == "text/plain" && p.body.Inline? && p.body.utf8 == Some(text)
  }

  /** The search text matches the preview and the plain text behind it, or the preview where there is no other
      text. */
  ghost predicate Says(c: Clip, matches: string -> bool)
  {
    || (exists text :: PlainText(c, text) && text != c.preview && matches(c.preview + "\n" + text))
    || ((forall text :: PlainText(c, text) ==> text == c.preview) && matches(c.preview))
  }

  /** A query that asks for everything. */
  predicate Unpaged(t: Tables, q: Query)
  {
    q.offset == 0 && q.limit >= |t.rows|
  }

  lemma {:induction false} TextIsThePlainText(c: Clip, text: string)
    requires DistinctLabels(c.payloads)
    ensures TextOf(c.payloads) == Some(text) <==> PlainText(c, text)
  {
    var isText := (p: Payload) => p.format == "text/plain";
    var i := FirstIndex(c.payloads, isText);
    if i < |c.payloads| {
      assert isText(c.payloads[i]);
      assert TextOf(c.payloads) == Some(text) ==> TextAt(c, text, i);
      forall k | 0 <= k < |c.payloads| && TextAt(c, text, k) ensures k == i { }
    }
  }

  lemma {:induction false} BodySays(c: Clip, matches: string -> bool)
    requires DistinctLabels(c.payloads)
    ensures matches(BodyText(c)) <==> Says(c, matches)
  {
    hide TextOf, PlainText, DistinctLabels;
    forall text ensures TextOf(c.payloads) == Some(text) <==> PlainText(c, text) { TextIsThePlainText(c, text); }
    if TextOf(c.payloads).Some? { assert PlainText(c, TextOf(c.payloads).value); }
  }

  lemma {:induction false} FilterKeepsOnly<T(!new)>(s: seq<T>, p: T -> bool, x: T)
    ensures x in Filter(s, p) <==> x in s && p(x)
  {
    if x in s { var i :| 0 <= i < |s| && s[i] == x; }
  }

  lemma {:induction false} UnpagedIsSorted(rows: seq<Row>, q: Query)
    requires q.offset == 0 && q.limit >= |rows|
    ensures Page(rows, q) == Sort(rows, NewestFirst)
  {
    hide Sort;
  }

  lemma {:induction false} WellLabelled(t: Tables, r: Row)
    requires Inv(t) && r in t.rows
    ensures DistinctLabels(r.clip.payloads)
  {
    assert RowOk(r);
  }

  /** After any run of the store a search returns exactly the live rows of the kind asked for, pinned if that
      was asked for, whose preview and plain text the search text matches. */
  lemma {:induction false} SearchFindsExactly(ops: seq<Op>, matches: string -> bool, q: Query, r: Row)
    requires Unpaged(Run(ops), q)
    ensures r in Search(Run(ops), Some(matches), q) <==>
      && r in Run(ops).rows && !r.clip.deleted
      && (q.kind.Some? ==> r.clip.kind == q.kind.value) && (q.pinnedOnly ==> r.clip.pinned)
      && Says(r.clip, matches)
  {
    var t := Run(ops);
    EveryRunKeepsInv(ops);
    SearchIsScan(t, Some(matches), q);
    var has := (x: Row) => Selected(x, q) && matches(BodyText(x.clip));
    var hits := Filter(t.rows, has);
    assert Scan(t, Some(matches), q) == Page(hits, q);
    hide Run, Inv, Search, Scan, BodyText, Says, Filter, Sort, Page, NewestFirst;
    UnpagedIsSorted(hits, q);
    SortMembers(hits, NewestFirst, r);
    FilterKeepsOnly(t.rows, has, r);
    if r in t.rows {
      WellLabelled(t, r);
      BodySays(r.clip, matches);
    }
  }

  /** Text that matches still matches with more around it. */
  ghost predicate Monotone(matches: string -> bool)
  {
    forall a: string, s: string, b: string :: matches(s) ==> matches(a + s + b)
  }

  /** So a clip is found by what its preview shows and by what its plain text says, also past the end of the
      preview, and by nothing else. */
  lemma {:induction false} FoundByPreviewAndText(ops: seq<Op>, matches: string -> bool, q: Query, r: Row)
    requires Unpaged(Run(ops), q) && Monotone(matches)
    requires r in Run(ops).rows && !r.clip.deleted && (q.kind.Some? ==> r.clip.kind == q.kind.value) && (q.pinnedOnly ==> r.clip.pinned)
    ensures var found := r in Search(Run(ops), Some(matches), q);
      && (matches(r.clip.preview) ==> found)
      && (forall text :: PlainText(r.clip, text) && matches(text) ==> found)
      && (found ==>
            || matches(r.clip.preview)
            || exists text :: PlainText(r.clip, text) && matches(r.clip.preview + "\n" + text))
  {
    hide Run, Search, PlainText;
    SearchFindsExactly(ops, matches, q, r);
    var c := r.clip;
    if matches(c.preview) {
      forall text | PlainText(c, text) ensures matches(c.preview + "\n" + text) {
        assert [] + c.preview + ("\n" + text) == c.preview + "\n" + text;
      }
    }
    forall text | PlainText(c, text) && matches(text) ensures Says(c, matches) {
      assert (c.preview + "\n") + text + [] == c.preview + "\n" + text;
      if text == c.preview {
        assert forall u :: PlainText(c, u) && u != c.preview ==> matches(c.preview + "\n" + u) by {
          forall u | PlainText(c, u) ensures matches(c.preview + "\n" + u) { assert [] + c.preview + ("\n" + u) == c.preview + "\n" + u; }
        }
      }
    }
  }

  /** Pages are consecutive slices of one list, which is newest first and has no row twice; and an empty
      search text finds nothing. */
  lemma {:induction false} SearchIsPaged(ops: seq<Op>, matches: string -> bool, q: Query)
    ensures var t := Run(ops);
      var all := Search(t, Some(matches), q.(offset := 0, limit := |t.rows|));
      var from := if q.offset < |all| then q.offset else |all|;
      var to := if q.offset + q.limit < |all| then q.offset + q.limit else |all|;
      && Search(t, Some(matches), q) == all[from..to]
      && Distinct(all)
      && (forall i, j :: 0 <= i < j < |all| ==> !SqlLess(all[i].clip.hlc, all[j].clip.hlc))
      && Search(t, None, q) == []
  {
    var t := Run(ops);
    EveryRunKeepsInv(ops);
    hide Run, Inv, Search, Sort, SqlLess, NewestFirst;
    var q' := q.(offset := 0, limit := |t.rows|);
    var hits := Hits(t, matches, q);
    UnpagedIsSorted(hits, q');
    SortedHits(hits);
    assert Search(t, None, q) == [] by { EmptySearch(t, q); }
  }

  lemma {:induction false} EmptySearch(t: Tables, q: Query)
    ensures Search(t, None, q) == []
  {
  }

  /** The rows that a search pages through. */
  lemma {:induction false} Hits(t: Tables, matches: string -> bool, q: Query) returns (hits: seq<Row>)
    requires Inv(t)
    ensures |hits| <= |t.rows| && Distinct(hits)
    ensures forall from, size :: var q' := q.(offset := from, limit := size); Search(t, Some(matches), q') == Page(hits, q')
    ensures Search(t, Some(matches), q) == Page(hits, q)
  {
    RowsAreDistinct(t);
    hide Inv, Page, Filter, IndexHit;
    var hit := (x: Row) => Selected(x, q) && IndexHit(t.index, x.clip.id, matches);
    hits := Filter(t.rows, hit);
    FilterKeepsDistinct(t.rows, hit);
    forall from, size ensures var q' := q.(offset := from, limit := size); Search(t, Some(matches), q') == Page(hits, q') {
      var q' := q.(offset := from, limit := size);
      var hit' := (x: Row) => Selected(x, q') && IndexHit(t.index, x.clip.id, matches);
      FilterCongruent(t.rows, hit, hit');
    }
    assert q == q.(offset := q.offset, limit := q.limit);
  }

  lemma {:induction false} SortedHits(hits: seq<Row>)
    requires Distinct(hits)
    ensures var all := Sort(hits, NewestFirst);
      Distinct(all) && forall i, j :: 0 <= i < j < |all| ==> !SqlLess(all[i].clip.hlc, all[j].clip.hlc)
  {
    hide Sort, SqlLess;
    SortPermutes(hits, NewestFirst);
    DistinctFromMultiset(hits, Sort(hits, NewestFirst));
    NewestFirstIsTotal();
    SortSorts(hits, NewestFirst);
    var all := Sort(hits, NewestFirst);
    forall i, j | 0 <= i < j < |all| ensures !SqlLess(all[i].clip.hlc, all[j].clip.hlc) { assert NewestFirst(all[i], all[j]); }
  }

  lemma {:induction false} FilterKeepsDistinct<T(!new)>(s: seq<T>, p: T -> bool)
    requires Distinct(s)
    ensures Distinct(Filter(s, p))
  {
    hide Filter;
    FilterPairwise(s, p, (x, y) => x != y);
  }

  lemma {:induction false} RowsAreDistinct(t: Tables)
    requires Inv(t)
    ensures Distinct(t.rows)
  {
    assert IdsDistinct(t.rows);
    hide Inv;
  }

  lemma {:induction false} NewestFirstIsTotal()
    ensures TotalPreorder(NewestFirst)
  {
    hide SqlLess;
    forall a: Row, b: Row ensures NewestFirst(a, b) || NewestFirst(b, a) { Paging.SqlTotal(a.clip.hlc, b.clip.hlc); }
    forall a: Row, b: Row, c: Row | NewestFirst(a, b) && NewestFirst(b, c) ensures NewestFirst(a, c) {
      Paging.SqlTotal(a.clip.hlc, b.clip.hlc);
      Paging.SqlTotal(b.clip.hlc, c.clip.hlc);
      Paging.SqlTotal(a.clip.hlc, c.clip.hlc);
      if SqlLess(b.clip.hlc, a.clip.hlc) && SqlLess(c.clip.hlc, b.clip.hlc) { Paging.SqlTransitive(c.clip.hlc, b.clip.hlc, a.clip.hlc); }
    }
  }
}
