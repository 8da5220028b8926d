/** A local change and the next session together: which pins, deletions and copies reach the peer
    (crates/clipse-store/src/store.rs, crates/clipsed/src/sync.rs). */
module LocalChanges {
  import opened Bytes
  import opened HybridClock
  import opened ContentHashes
  import Sorting
  import opened ClipTables
  import opened SyncSession
  import opened SessionTurns
  import opened SessionStores
  import opened Histories
  import opened Convergence

  /** The store that made the change and its peer's, of a pair of endpoints. */
  function Mine(d: Endpoint, r: Endpoint, dials: bool): Tables { if dials then d.disk.tables else r.disk.tables }
  function Theirs(d: Endpoint, r: Endpoint, dials: bool): Tables { Mine(d, r, !dials) }

  /** One content after a session, from either end. Where the change was buried by a newer tombstone of the
      peer, both have it deleted and the peer's stamp is no older than it was. */
  lemma {:induction false} AfterSession(d: Endpoint, r: Endpoint, dials: bool, h: ContentHash)
    requires Comparable(d, r)
    ensures var e := SessionEnd(d, r);
      var s, s' := Held(Mine(d, r, dials).rows, h), Held(Theirs(d, r, dials).rows, h);
      var a, b := See(Mine(d, r, dials), h), See(Theirs(d, r, dials), h);
      var mine, theirs := Look(Mine(e.d, e.r, dials), h), Look(Theirs(e.d, e.r, dials), h);
      && (!Buries(s, s') && !Buries(s', s) ==> mine == FlagsIn(AbsorbAny(a, b)) && theirs == FlagsIn(AbsorbAny(b, a)))
      && (Buries(s, s') || Buries(s', s) ==> mine.Some? && mine.value.deleted && theirs.Some? && theirs.value.deleted)
      && (Buries(s, s') ==> b.Some? && !Less(theirs.value.hlc, b.value.flags.hlc))
  {
    var D, R, e := d.disk.tables, r.disk.tables, SessionEnd(d, r);
    SessionEffect(d, r);
    assert ClipTables.Inv(D) && ClipTables.Inv(R);
    hide Comparable, SessionEnd, See, Look, Held, ClipTables.Inv, Buries, AbsorbAny, Less, Room, RespondersRows, DiallersRows, IdsAgree;
    OneLiveHeld(D, h);
    OneLiveHeld(R, h);
    RowsFromEitherEnd(Held(D.rows, h), Held(R.rows, h));
    SeesTheAnswer(D, h);
    SeesTheAnswer(R, h);
    SeesTheAnswer(e.d.disk.tables, h);
    SeesTheAnswer(e.r.disk.tables, h);
    SeeingIsLooking(e.d.disk.tables, h);
    SeeingIsLooking(e.r.disk.tables, h);
  }

  lemma {:induction false} RowsFromEitherEnd(d: seq<Sight>, r: seq<Sight>)
    requires AtMostOneLive(d) && AtMostOneLive(r)
    ensures var x, y := Answer(DiallersRows(d, r)), Answer(RespondersRows(d, r));
      && (!Buries(d, r) && !Buries(r, d) ==> x == AbsorbAny(Answer(d), Answer(r)) && y == AbsorbAny(Answer(r), Answer(d)))
      && (Buries(d, r) || Buries(r, d) ==> x.Some? && x.value.flags.deleted && y.Some? && y.value.flags.deleted)
      && (Buries(d, r) ==> !Less(y.value.flags.hlc, Answer(r).value.flags.hlc))
      && (Buries(r, d) ==> !Less(x.value.flags.hlc, Answer(d).value.flags.hlc))
  {
    hide DiallersRows, RespondersRows;
    if Buries(r, d) {
      BuriedAtResponder(d, r);
      var a, y := Answer(d).value, Unearthed(r, d);
      hide Unearthed, Buries;
      StampOrderIsTotal(a.flags.hlc, a.flags.hlc);
      StampOrderIsTotal(a.flags.hlc, y.flags.hlc);
      StampOrderIsTotal(y.flags.hlc, y.flags.hlc);
    } else if Buries(d, r) {
      BuriedAtDialler(d, r);
      var b := Answer(r).value;
      StampOrderIsTotal(b.flags.hlc, b.flags.hlc);
    } else {
      NeitherBuried(d, r);
      WhoDialsDoesNotMatter(Answer(d), Answer(r));
    }
  }

  /** What a store says of a content whose live row has just been deleted: its first row of it, which is the
      deleted one unless the content had been deleted and copied again before. */
  lemma {:induction false} DeletedView(before: Tables, id: ClipId, hlc: Hlc, now: nat)
    requires ClipTables.Inv(before)
    requires var i := RowById(before.rows, id); i < |before.rows| && !before.rows[i].clip.deleted
    ensures var i, t := RowById(before.rows, id), Delete(before, id, hlc, now).0;
      var c := before.rows[i].clip;
      var first := FirstOf(before.rows, c.hash);
      && first <= i && (first < i ==> before.rows[first].clip.deleted)
      && See(t, c.hash) == Some(if first == i then Sight(Flags(hlc, c.pinned, true), HashMatches(c)) else SightOf(before.rows[first].clip))
  {
    var i, t := RowById(before.rows, id), Delete(before, id, hlc, now).0;
    var c := before.rows[i].clip;
    assert OneLiveRowPerHash(before.rows);
    hide ClipTables.Inv, Sorting.Filter, HashMatches, RowById;
    assert t.rows == before.rows[i := Row(c.(deleted := true, hlc := hlc), Some(now))];
    hide Delete;
    var first := FirstOf(before.rows, c.hash);
    assert forall k :: 0 <= k < |t.rows| ==> t.rows[k].clip.hash == before.rows[k].clip.hash;
    assert LiveRow(t.rows, c.hash) == |t.rows|;
    Sorting.FirstIndexIs(t.rows, (r: Row) => r.clip.hash == c.hash, first);
    MetadataKeepsSoundness(c, hlc, c.pinned, true);
  }

  /** The first row of a content. */
  function FirstOf(rows: seq<Row>, h: ContentHash): (i: nat)
    ensures i <= |rows| && (i < |rows| ==> rows[i].clip.hash == h) && forall k :: 0 <= k < i ==> rows[k].clip.hash != h
  {
    Sorting.FirstIndex(rows, (r: Row) => r.clip.hash == h)
  }

  /** A content all of whose rows are tombstones is never buried. */
  lemma {:induction false} DeadIsNotBuried(t: Tables, h: ContentHash, s: seq<Sight>)
    requires See(t, h).Some? && See(t, h).value.flags.deleted
    ensures !Buries(Held(t.rows, h), s)
  {
    hide See, Held;
    SeesTheAnswer(t, h);
  }

  lemma {:induction false} LiveBuriesNothing(t: Tables, h: ContentHash, s: seq<Sight>)
    requires See(t, h).Some? && !See(t, h).value.flags.deleted
    ensures !Buries(s, Held(t.rows, h))
  {
    hide See, Held;
    SeesTheAnswer(t, h);
  }

  lemma {:induction false} BuriedByNewer(t: Tables, t': Tables, h: ContentHash)
    requires Buries(Held(t.rows, h), Held(t'.rows, h))
    ensures Entombs(See(t, h), See(t', h))
  {
    hide See, Held, Entombs;
    SeesTheAnswer(t, h);
    SeesTheAnswer(t', h);
  }

  /** A deletion reaches the peer exactly when the peer has the clip deleted anyway, or can take over what the
      store now says of it: that row is sound, and what the peer has is nothing or older. That row is the
      deleted one with its new stamp, unless the clip had been deleted and copied again before: then it is
      the first tombstone with its old stamp. Here the clip stays deleted. */
  lemma {:induction false} DeletionReachesPeerIff(d: Endpoint, r: Endpoint, dials: bool, before: Tables, id: ClipId, hlc: Hlc, now: nat)
    requires Comparable(d, r) && Mine(d, r, dials) == Delete(before, id, hlc, now).0
    requires ClipTables.Inv(before) && var i := RowById(before.rows, id); i < |before.rows| && !before.rows[i].clip.deleted
    ensures var i := RowById(before.rows, id);
      var c := before.rows[i].clip;
      var first := before.rows[FirstOf(before.rows, c.hash)].clip;
      var a := if FirstOf(before.rows, c.hash) == i then Sight(Flags(hlc, c.pinned, true), HashMatches(c)) else SightOf(first);
      var e, b := SessionEnd(d, r), See(Theirs(d, r, dials), c.hash);
      var mine, theirs := Look(Mine(e.d, e.r, dials), c.hash), Look(Theirs(e.d, e.r, dials), c.hash);
      && mine.Some? && mine.value.deleted
      && (theirs.Some? && theirs.value.deleted <==>
            || (b.Some? && b.value.flags.deleted)
            || (a.sound && (b.None? || Less(b.value.flags.hlc, a.flags.hlc))))
  {
    hide Comparable, SessionEnd, Look, See, Held, Delete, Less, HashMatches, ClipTables.Inv, RowById, FirstOf;
    DeletedView(before, id, hlc, now);
    var h := before.rows[RowById(before.rows, id)].clip.hash;
    DeadIsNotBuried(Mine(d, r, dials), h, Held(Theirs(d, r, dials).rows, h));
    AfterSession(d, r, dials, h);
    var s, s' := Held(Mine(d, r, dials).rows, h), Held(Theirs(d, r, dials).rows, h);
    if Buries(s', s) { BuriedByNewer(Theirs(d, r, dials), Mine(d, r, dials), h); }
    hide Buries;
  }

  /** So deleting, copying again and deleting again is lost on a peer that holds the clip alive and no older
      than the first deletion: one of the two has it alive and the other deleted, after this session and
      after the next, whoever dials it. */
  lemma {:induction false} SecondDeletionIsLost(d: Endpoint, r: Endpoint, dials: bool, before: Tables, id: ClipId, hlc: Hlc, now: nat, d2: Endpoint, r2: Endpoint)
    requires Comparable(d, r) && Mine(d, r, dials) == Delete(before, id, hlc, now).0
    requires ClipTables.Inv(before) && var i := RowById(before.rows, id); i < |before.rows| && !before.rows[i].clip.deleted
    requires var i := RowById(before.rows, id);
      var first, b := FirstOf(before.rows, before.rows[i].clip.hash), See(Theirs(d, r, dials), before.rows[i].clip.hash);
      && first < i && b.Some? && !b.value.flags.deleted && !Less(b.value.flags.hlc, before.rows[first].clip.hlc)
    requires Honest(d2, r2) && Follows(SessionEnd(d, r), d2, r2)
    ensures var e, e2, h := SessionEnd(d, r), SessionEnd(d2, r2), before.rows[RowById(before.rows, id)].clip.hash;
      && LeftAlive(Look(Mine(e.d, e.r, dials), h), Look(Theirs(e.d, e.r, dials), h))
      && (LeftAlive(Look(e2.d.disk.tables, h), Look(e2.r.disk.tables, h)) || LeftAlive(Look(e2.r.disk.tables, h), Look(e2.d.disk.tables, h)))
  {
    hide Comparable, Honest, SessionEnd, See, Look, Held, Delete, Less, HashMatches, ClipTables.Inv, RowById, FirstOf, Buries, Entombs;
    var h := before.rows[RowById(before.rows, id)].clip.hash;
    var mine, theirs := Mine(d, r, dials), Theirs(d, r, dials);
    DeletionReachesPeerIff(d, r, dials, before, id, hlc, now);
    DeletedView(before, id, hlc, now);
    PeerKeeps(d, r, dials, h);
    DeadIsNotBuried(mine, h, Held(theirs.rows, h));
    OlderBuriesNothing(theirs, mine, h);
    NextSessionSaysTheSame(d, r, d2, r2, h);
    SeeingIsLooking(d2.disk.tables, h);
    SeeingIsLooking(r2.disk.tables, h);
    SeeingIsLooking(SessionEnd(d2, r2).d.disk.tables, h);
    SeeingIsLooking(SessionEnd(d2, r2).r.disk.tables, h);
  }

  /** One store has a content deleted, the other alive. */
  predicate LeftAlive(a: Option<Flags>, b: Option<Flags>)
  {
    a.Some? && a.value.deleted && b.Some? && !b.value.deleted
  }

  lemma {:induction false} OlderBuriesNothing(t: Tables, t': Tables, h: ContentHash)
    requires See(t, h).Some? && See(t', h).Some? && !Less(See(t, h).value.flags.hlc, See(t', h).value.flags.hlc)
    ensures !Buries(Held(t.rows, h), Held(t'.rows, h))
  {
    hide See, Held, Less;
    SeesTheAnswer(t, h);
    SeesTheAnswer(t', h);
  }

  /** A session makes no content unknown. */
  lemma {:induction false} PeerKeeps(d: Endpoint, r: Endpoint, dials: bool, h: ContentHash)
    requires Comparable(d, r)
    ensures See(Theirs(d, r, dials), h).Some? ==>
      var e := SessionEnd(d, r); Look(Theirs(e.d, e.r, dials), h).Some?
  {
    hide Comparable, SessionEnd, See, Look, Held, Buries, Agrees;
    SessionViews(d, r, h);
    SeeingIsLooking(SessionEnd(d, r).d.disk.tables, h);
    SeeingIsLooking(SessionEnd(d, r).r.disk.tables, h);
  }

  lemma {:induction false} PinnedView(before: Tables, id: ClipId, pinned: bool, hlc: Hlc)
    requires RowById(before.rows, id) < |before.rows|
    requires var i := RowById(before.rows, id); LookupAny(before.rows, before.rows[i].clip.hash) == i
    ensures var c := before.rows[RowById(before.rows, id)].clip;
      See(SetPinned(before, id, pinned, hlc).0, c.hash) == Some(Sight(Flags(hlc, pinned, c.deleted), HashMatches(c)))
  {
    var i, t := RowById(before.rows, id), SetPinned(before, id, pinned, hlc).0;
    var c := before.rows[i].clip;
    hide HashMatches, RowById;
    assert t.rows == before.rows[i := before.rows[i].(clip := c.(pinned := pinned, hlc := hlc))];
    hide SetPinned;
    assert forall k :: 0 <= k < |t.rows| ==> t.rows[k].clip.hash == before.rows[k].clip.hash && t.rows[k].clip.deleted == before.rows[k].clip.deleted;
    SameLookup(before.rows, t.rows, c.hash);
    MetadataKeepsSoundness(c, hlc, pinned, c.deleted);
  }

  lemma {:induction false} SameLookup(a: seq<Row>, b: seq<Row>, h: ContentHash)
    requires |a| == |b| && forall k :: 0 <= k < |a| ==> a[k].clip.hash == b[k].clip.hash && a[k].clip.deleted == b[k].clip.deleted
    ensures LookupAny(a, h) == LookupAny(b, h)
  {
    var live := LiveRow(a, h);
    if live < |a| {
      Sorting.FirstIndexIs(b, (r: Row) => r.clip.hash == h && !r.clip.deleted, live);
    } else {
      assert LiveRow(b, h) == |b| by { forall r | r in b ensures !(r.clip.hash == h && !r.clip.deleted) { var k :| 0 <= k < |b| && b[k] == r; assert a[k] in a; } }
      var first := Sorting.FirstIndex(a, (r: Row) => r.clip.hash == h);
      if first < |a| { Sorting.FirstIndexIs(b, (r: Row) => r.clip.hash == h, first); }
    }
  }

  /** A pin or an unpin of the row that answers for its content, as every live row does, reaches the peer
      under its own stamp exactly when the row is sound and the peer has nothing or an older stamp, or the
      peer has that very stamp with the same pin. It never brings a deleted clip back. (A pinned tombstone
      must not bury a live clip of the peer, which a live one cannot.) */
  lemma {:induction false} PinReachesPeerIff(d: Endpoint, r: Endpoint, dials: bool, before: Tables, id: ClipId, pinned: bool, hlc: Hlc)
    requires Comparable(d, r) && Mine(d, r, dials) == SetPinned(before, id, pinned, hlc).0
    requires RowById(before.rows, id) < |before.rows|
    requires var c := before.rows[RowById(before.rows, id)].clip;
      && LookupAny(before.rows, c.hash) == RowById(before.rows, id)
      && (c.deleted ==> !Buries(Held(Theirs(d, r, dials).rows, c.hash), Held(Mine(d, r, dials).rows, c.hash)))
    ensures var c := before.rows[RowById(before.rows, id)].clip;
      var e, b := SessionEnd(d, r), See(Theirs(d, r, dials), c.hash);
      var theirs := Look(Theirs(e.d, e.r, dials), c.hash);
      && (theirs.Some? && theirs.value.hlc == hlc && theirs.value.pinned == pinned <==>
            || (HashMatches(c) && (b.None? || Less(b.value.flags.hlc, hlc)))
            || (b.Some? && b.value.flags.hlc == hlc && b.value.flags.pinned == pinned))
      && (b.Some? && b.value.flags.deleted ==> theirs.Some? && theirs.value.deleted)
  {
    hide Comparable, SessionEnd, Look, See, Held, SetPinned, Less, HashMatches, RowById, LookupAny, Buries;
    PinnedView(before, id, pinned, hlc);
    var c := before.rows[RowById(before.rows, id)].clip;
    var mine, theirs := Mine(d, r, dials), Theirs(d, r, dials);
    AfterSession(d, r, dials, c.hash);
    if !c.deleted { LiveBuriesNothing(mine, c.hash, Held(theirs.rows, c.hash)); }
    StampOrderIsTotal(hlc, hlc);
    if Buries(Held(mine.rows, c.hash), Held(theirs.rows, c.hash)) {
      BuriedByNewer(mine, theirs, c.hash);
      var b := See(theirs, c.hash);
      StampOrderIsTotal(hlc, b.value.flags.hlc);
    }
  }

  /** A copy, new or repeated, also beside the device's own tombstone of that content, is alive at the peer
      after the session exactly when the peer held it alive, or had nothing and the row is sound: however
      new the copy, a deletion there is not undone. */
  lemma {:induction false} CopyReachesPeerIff(d: Endpoint, r: Endpoint, dials: bool, before: Tables, clip: Clip)
    requires Comparable(d, r) && Mine(d, r, dials) == Insert(before, clip).0
    requires ClipTables.Inv(before) && !clip.deleted
    requires Insert(before, clip).1.Inserted? || Insert(before, clip).1.Deduplicated?
    ensures var e, a, b := SessionEnd(d, r), See(Mine(d, r, dials), clip.hash), See(Theirs(d, r, dials), clip.hash);
      var theirs := Look(Theirs(e.d, e.r, dials), clip.hash);
      && a.Some?
      && (theirs.Some? && !theirs.value.deleted <==> if b.Some? then !b.value.flags.deleted else a.value.sound)
      && (a.value.sound && (b.None? || Less(b.value.flags.hlc, clip.hlc)) ==> theirs.Some? && theirs.value.hlc == clip.hlc)
  {
    hide Comparable, SessionEnd, See, Look, Insert, Less, ClipTables.Inv;
    CopiedView(before, clip);
    LiveReachesPeerIff(d, r, dials, clip.hash);
  }

  /** Any live clip, by what the two said of it before. */
  lemma {:induction false} LiveReachesPeerIff(d: Endpoint, r: Endpoint, dials: bool, h: ContentHash)
    requires Comparable(d, r)
    requires var a := See(Mine(d, r, dials), h); a.Some? && !a.value.flags.deleted
    ensures var e, a, b := SessionEnd(d, r), See(Mine(d, r, dials), h), See(Theirs(d, r, dials), h);
      var theirs := Look(Theirs(e.d, e.r, dials), h);
      && (theirs.Some? && !theirs.value.deleted <==> if b.Some? then !b.value.flags.deleted else a.value.sound)
      && (a.value.sound && (b.None? || Less(b.value.flags.hlc, a.value.flags.hlc)) ==> theirs.Some? && theirs.value.hlc == a.value.flags.hlc)
  {
    hide Comparable, SessionEnd, See, Look, Held, Less, Buries;
    var mine, theirs := Mine(d, r, dials), Theirs(d, r, dials);
    AfterSession(d, r, dials, h);
    LiveBuriesNothing(mine, h, Held(theirs.rows, h));
    if Buries(Held(mine.rows, h), Held(theirs.rows, h)) {
      BuriedByNewer(mine, theirs, h);
      StampOrderIsTotal(See(mine, h).value.flags.hlc, See(theirs, h).value.flags.hlc);
    }
  }

  lemma {:induction false} CopiedView(before: Tables, clip: Clip)
    requires ClipTables.Inv(before) && !clip.deleted
    requires Insert(before, clip).1.Inserted? || Insert(before, clip).1.Deduplicated?
    ensures var a := See(Insert(before, clip).0, clip.hash); a.Some? && !a.value.flags.deleted && a.value.flags.hlc == clip.hlc
  {
    hide Insert, ClipTables.Inv, HashMatches;
    InsertIsFound(before, clip);
  }
}
