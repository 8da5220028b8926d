/** What a session leaves in the two stores: when they converge, and what later sessions do. */
module Convergence {
  import opened Bytes
  import opened HybridClock
  import opened ContentHashes
  import opened Sorting
  import opened ClipTables
  import opened SyncSession
  import opened SessionTurns
  import opened SessionStores
  import opened Histories

  // ---- one content, one turn ----------------------------------------------

  /** A live clip faces a newer tombstone that its store will take. */
  predicate Entombs(ours: Option<Sight>, theirs: Option<Sight>)
  {
    && ours.Some? && theirs.Some? && !ours.value.flags.deleted
    && theirs.value.flags.deleted && theirs.value.sound && Less(ours.value.flags.hlc, theirs.value.flags.hlc)
  }

  /** The same, where an older tombstone of the content comes before the live row: the live row is
      entombed, and the older tombstone answers in its place. */
  predicate Buries(ours: seq<Sight>, theirs: seq<Sight>)
  {
    ours != [] && Answering(ours) > 0 && Entombs(Answer(ours), Answer(theirs))
  }

  /** What answers then: the first row, which has itself absorbed the peer's if that was sent twice. */
  function Unearthed(ours: seq<Sight>, theirs: seq<Sight>): (r: Sight)
    requires Buries(ours, theirs)
  {
    if Fresher(theirs, Answer(ours)) < 2 then ours[0]
    else Sight(Absorb(ours[0].flags, theirs[Answering(theirs)].flags), ours[0].sound)
  }

  lemma {:induction false} AnsweringIs(s: seq<Sight>, p: nat)
    requires p < |s| && AtMostOneLive(s)
    requires if s[p].flags.deleted then p == 0 && forall k :: 0 <= k < |s| ==> s[k].flags.deleted else true
    ensures Answering(s) == p && Answer(s) == Some(s[p])
  {
  }

  lemma {:induction false} AbsorbedAnswer(s: seq<Sight>, c: Sight)
    requires AtMostOneLive(s)
    ensures AtMostOneLive(Absorbed(s, c))
    ensures Answer(Absorbed(s, c)) ==
      if s != [] && Answering(s) > 0 && c.sound && c.flags.deleted && Less(s[Answering(s)].flags.hlc, c.flags.hlc) then Some(s[0])
      else AbsorbAny(Answer(s), Some(c))
  {
    hide Less;
    var s' := Absorbed(s, c);
    if s == [] {
      if c.sound { AnsweringIs(s', 0); }
    } else if c.sound {
      var p := Answering(s);
      assert forall k :: 0 <= k < |s| && k != p ==> s'[k] == s[k] && s[k].flags.deleted;
      AnsweringIs(s', if s'[p].flags.deleted then 0 else p);
    }
  }

  /** A clip taken in a second time changes something only where the first time buried a row. */
  lemma {:induction false} AbsorbedTwice(s: seq<Sight>, c: Sight)
    requires AtMostOneLive(s)
    ensures Answer(Absorbed(s, c)) == AbsorbAny(Answer(s), Some(c)) ==> Absorbed(Absorbed(s, c), c) == Absorbed(s, c)
  {
    var s' := Absorbed(s, c);
    AbsorbedAnswer(s, c);
    StampOrderIsTotal(c.flags.hlc, c.flags.hlc);
    if s == [] {
      if c.sound { assert s'[Answering(s') := s'[Answering(s')]] == s'; }
    } else if c.sound && Answer(s') == AbsorbAny(Answer(s), Some(c)) {
      assert s'[Answering(s') := s'[Answering(s')]] == s';
    }
  }

  lemma {:induction false} TimesFixed(s: seq<Sight>, c: Sight, n: nat)
    requires Absorbed(s, c) == s
    ensures Times(s, Some(c), n) == s
    decreases n
  {
    hide Absorbed;
    if n > 0 { TimesFixed(s, c, n - 1); }
  }

  lemma {:induction false} FreshIfNewer(theirs: seq<Sight>, ours: Option<Sight>, k: nat)
    requires k < |theirs| && (ours.None? || Less(ours.value.flags.hlc, theirs[k].flags.hlc))
    ensures Fresher(theirs, ours) > 0
  {
    hide Less;
    if k < |theirs| - 1 { FreshIfNewer(theirs[..|theirs| - 1], ours, k); }
  }

  lemma {:induction false} UnchangedUnlessNewer(s: seq<Sight>, c: Sight)
    requires s != [] && !Less(s[Answering(s)].flags.hlc, c.flags.hlc)
    ensures Absorbed(s, c) == s
  {
    assert s[Answering(s) := s[Answering(s)]] == s;
  }

  /** A turn, seen from outside. */
  lemma {:induction false} LearnedAnswer(ours: seq<Sight>, theirs: seq<Sight>)
    requires AtMostOneLive(ours)
    ensures AtMostOneLive(Learned(ours, theirs))
    ensures Answer(Learned(ours, theirs)) ==
      if Buries(ours, theirs) then Some(Unearthed(ours, theirs)) else AbsorbAny(Answer(ours), Answer(theirs))
  {
    hide Less, Absorbed, Absorb, AbsorbAny;
    var n := Fresher(theirs, Answer(ours));
    if theirs == [] {
      NothingAbsorbed(Answer(ours));
    } else {
      var c := theirs[Answering(theirs)];
      if ours != [] && !Less(ours[Answering(ours)].flags.hlc, c.flags.hlc) {
        UnchangedUnlessNewer(ours, c);
        TimesFixed(ours, c, n);
        AbsorbedAnswer(ours, c);
      } else {
        FreshIfNewer(theirs, Answer(ours), Answering(theirs));
        AbsorbedAnswer(ours, c);
        var once := Absorbed(ours, c);
        assert Times(ours, Some(c), n) == Times(once, Some(c), n - 1);
        if Buries(ours, theirs) {
          BuriedAnswer(ours, theirs);
        } else {
          AbsorbedTwice(ours, c);
          TimesFixed(once, c, n - 1);
        }
      }
    }
  }

  lemma {:induction false} NothingAbsorbed(v: Option<Sight>)
    ensures AbsorbAny(v, None) == v
  {
  }

  lemma {:induction false} BuriedAnswer(ours: seq<Sight>, theirs: seq<Sight>)
    requires AtMostOneLive(ours) && Buries(ours, theirs)
    ensures Fresher(theirs, Answer(ours)) > 0
    ensures AtMostOneLive(Learned(ours, theirs)) && Answer(Learned(ours, theirs)) == Some(Unearthed(ours, theirs))
  {
    hide Less;
    var c, n := theirs[Answering(theirs)], Fresher(theirs, Answer(ours));
    FreshIfNewer(theirs, Answer(ours), Answering(theirs));
    AbsorbedAnswer(ours, c);
    var once := Absorbed(ours, c);
    assert forall k :: 0 <= k < |once| ==> once[k].flags.deleted;
    assert Answering(once) == 0 && once[0] == ours[0];
    assert Learned(ours, theirs) == Times(once, Some(c), n - 1);
    if n > 1 {
      AbsorbedAnswer(once, c);
      var twice := Absorbed(once, c);
      AbsorbedTwice(once, c);
      TimesFixed(twice, c, n - 2);
      assert Times(once, Some(c), n - 1) == twice;
      hide Times, Absorbed;
    }
  }

  // ---- one content, one session ---------------------------------------------

  /** The newer of two rows of one hash can be taken over: it is sound, or there is nothing to take. */
  predicate Carried(a: Option<Sight>, b: Option<Sight>)
  {
    if a.None? || b.None? then (a.Some? ==> a.value.sound) && (b.Some? ==> b.value.sound)
    else
      || a.value.flags.hlc == b.value.flags.hlc
      || (Less(a.value.flags.hlc, b.value.flags.hlc) && b.value.sound)
      || (Less(b.value.flags.hlc, a.value.flags.hlc) && a.value.sound)
  }

  /** Two views that do not conflict: equal stamps come with equal flags, and no tombstone faces a newer
      live clip. */
  predicate Unopposed(a: Option<Sight>, b: Option<Sight>)
  {
    a.Some? && b.Some? ==>
      var x, y := a.value.flags, b.value.flags;
      && (x.hlc == y.hlc ==> x == y)
      && (Less(x.hlc, y.hlc) ==> !(x.deleted && !y.deleted))
      && (Less(y.hlc, x.hlc) ==> !(y.deleted && !x.deleted))
  }

  /** What two stores say of one hash, such that a session makes them say the same: the newer row can be
      taken over, and they do not conflict. */
  predicate Settles(a: Option<Sight>, b: Option<Sight>)
  {
    Carried(a, b) && Unopposed(a, b)
  }

  /** Last writer wins. */
  function Newer(a: Option<Sight>, b: Option<Sight>): (r: Option<Flags>)
  {
    if a.None? then FlagsIn(b)
    else if b.None? || Less(b.value.flags.hlc, a.value.flags.hlc) then FlagsIn(a)
    else FlagsIn(b)
  }

  /** The dialler's and the responder's view of one hash after a session. */
  function RespondersView(a: Option<Sight>, b: Option<Sight>): Option<Sight> { AbsorbAny(b, a) }
  function DiallersView(a: Option<Sight>, b: Option<Sight>): Option<Sight> { AbsorbAny(a, RespondersView(a, b)) }

  predicate SameStamp(a: Option<Sight>, b: Option<Sight>)
  {
    (a.None? <==> b.None?) && (a.Some? ==> a.value.flags.hlc == b.value.flags.hlc)
  }

  /** After a session the stamps agree exactly when the newer row could be taken over, and the flags
      exactly when the two views settle, and then they are those of the newer row. Where an older tombstone
      met a newer live clip, one side keeps the tombstone under the live clip's stamp. A second session
      would change nothing. */
  lemma {:induction false} ViewsAfterSession(a: Option<Sight>, b: Option<Sight>)
    ensures var x, y := DiallersView(a, b), RespondersView(a, b);
      && (a.Some? ==> x.Some?) && (b.Some? ==> y.Some?) && (x.Some? || y.Some? ==> a.Some? || b.Some?)
      && (SameStamp(x, y) <==> Carried(a, b))
      && (FlagsIn(x) == FlagsIn(y) <==> Settles(a, b))
      && (Settles(a, b) ==> FlagsIn(x) == FlagsIn(y) == Newer(a, b))
      && RespondersView(x, y) == y && DiallersView(x, y) == x
  {
    if a.Some? && b.Some? {
      StampOrderIsTotal(a.value.flags.hlc, b.value.flags.hlc);
      StampOrderIsTotal(b.value.flags.hlc, b.value.flags.hlc);
    }
    if a.Some? { StampOrderIsTotal(a.value.flags.hlc, a.value.flags.hlc); }
    if b.Some? { StampOrderIsTotal(b.value.flags.hlc, b.value.flags.hlc); }
  }

  /** Each side ends with what it said before and what the other said, absorbed; the responder's turn
      to offer, with what it has just taken in, brings the dialler nothing but the responder's own. */
  lemma {:induction false} WhoDialsDoesNotMatter(a: Option<Sight>, b: Option<Sight>)
    ensures DiallersView(a, b) == AbsorbAny(a, b) && RespondersView(a, b) == AbsorbAny(b, a)
  {
    if a.Some? && b.Some? { StampOrderIsTotal(a.value.flags.hlc, b.value.flags.hlc); }
    if a.Some? { StampOrderIsTotal(a.value.flags.hlc, a.value.flags.hlc); }
  }

  /** The tombstone that stays: it takes the stamp and the pin of the newer live clip. */
  lemma {:induction false} TombstoneStays(a: Option<Sight>, b: Option<Sight>)
    requires a.Some? && b.Some? && a.value.flags.deleted && !b.value.flags.deleted && b.value.sound
    requires Less(a.value.flags.hlc, b.value.flags.hlc)
    ensures FlagsIn(DiallersView(a, b)) == FlagsIn(RespondersView(b, a)) == Some(b.value.flags.(deleted := true))
    ensures RespondersView(a, b) == DiallersView(b, a) == b
  {
    StampOrderIsTotal(a.value.flags.hlc, b.value.flags.hlc);
    StampOrderIsTotal(b.value.flags.hlc, b.value.flags.hlc);
  }

  /** The responder's and the dialler's rows of one content after a session. */
  function RespondersRows(d: seq<Sight>, r: seq<Sight>): seq<Sight> { Learned(r, d) }
  function DiallersRows(d: seq<Sight>, r: seq<Sight>): seq<Sight> { Learned(d, RespondersRows(d, r)) }

  /** Exactly when a session makes the two say the same. Where neither buries a row: when what they say
      settles. Where one does: when the tombstone that then answers is the newest row after all, or
      becomes so, or says the same as the peer's. */
  predicate Agrees(d: seq<Sight>, r: seq<Sight>)
  {
    if Buries(r, d) then
      var a, first := d[Answering(d)], r[0];
      || (Less(first.flags.hlc, a.flags.hlc) && Fresher(d, Answer(r)) >= 2)
      || (first.flags.hlc == a.flags.hlc && first.flags.pinned == a.flags.pinned)
      || (Less(a.flags.hlc, first.flags.hlc) && first.sound)
    else if Buries(d, r) then
      var b, first := r[Answering(r)], d[0];
      || (Less(first.flags.hlc, b.flags.hlc) && Fresher(r, Answer(d)) >= 2)
      || first.flags == b.flags
    else Settles(Answer(d), Answer(r))
  }

  /** After a session no tombstone is newer than a live clip and can be taken. */
  lemma {:induction false} NothingLeftToEntomb(a: Option<Sight>, b: Option<Sight>)
    ensures !Entombs(DiallersView(a, b), RespondersView(a, b)) && !Entombs(RespondersView(a, b), DiallersView(a, b))
    ensures Entombs(a, RespondersView(a, b)) ==> Entombs(a, b) && RespondersView(a, b) == b
  {
    if a.Some? && b.Some? { StampOrderIsTotal(a.value.flags.hlc, b.value.flags.hlc); }
    if a.Some? { StampOrderIsTotal(a.value.flags.hlc, a.value.flags.hlc); }
    if b.Some? { StampOrderIsTotal(b.value.flags.hlc, b.value.flags.hlc); }
  }

  lemma {:induction false} NeitherBuried(d: seq<Sight>, r: seq<Sight>)
    requires AtMostOneLive(d) && AtMostOneLive(r) && !Buries(d, r) && !Buries(r, d)
    ensures Answer(RespondersRows(d, r)) == RespondersView(Answer(d), Answer(r))
    ensures Answer(DiallersRows(d, r)) == DiallersView(Answer(d), Answer(r))
  {
    hide Learned, Entombs, AbsorbAny;
    LearnedAnswer(r, d);
    LearnedAnswer(d, RespondersRows(d, r));
    NothingLeftToEntomb(Answer(d), Answer(r));
  }

  lemma {:induction false} BuriedAtResponder(d: seq<Sight>, r: seq<Sight>)
    requires AtMostOneLive(d) && AtMostOneLive(r) && Buries(r, d)
    ensures var d', r', y := DiallersRows(d, r), RespondersRows(d, r), Unearthed(r, d);
      && Answer(r') == Some(y) && Answer(d') == AbsorbAny(Answer(d), Some(y)) && y.flags.deleted
      && (FlagsIn(Answer(d')) == FlagsIn(Answer(r')) <==> Agrees(d, r))
  {
    hide Learned, Fresher;
    LearnedAnswer(r, d);
    LearnedAnswer(d, RespondersRows(d, r));
    StampOrderIsTotal(r[0].flags.hlc, d[Answering(d)].flags.hlc);
    StampOrderIsTotal(d[Answering(d)].flags.hlc, d[Answering(d)].flags.hlc);
  }

  lemma {:induction false} BuriedAtDialler(d: seq<Sight>, r: seq<Sight>)
    requires AtMostOneLive(d) && AtMostOneLive(r) && Buries(d, r)
    ensures RespondersRows(d, r) == r && Answer(DiallersRows(d, r)) == Some(Unearthed(d, r)) && Unearthed(d, r).flags.deleted
    ensures FlagsIn(Some(Unearthed(d, r))) == FlagsIn(Answer(r)) <==> Agrees(d, r)
  {
    hide Fresher;
    var a, b := d[Answering(d)], r[Answering(r)];
    StampOrderIsTotal(a.flags.hlc, b.flags.hlc);
    UnchangedUnlessNewer(r, a);
    TimesFixed(r, a, Fresher(d, Answer(r)));
    hide Times, Absorbed;
    assert RespondersRows(d, r) == r;
    LearnedAnswer(d, r);
    StampOrderIsTotal(d[0].flags.hlc, b.flags.hlc);
    StampOrderIsTotal(b.flags.hlc, b.flags.hlc);
    assert !Buries(r, d);
  }

  /** What the two say of one content after a session. Nothing is left to be buried. */
  lemma {:induction false} RowsAfterSession(d: seq<Sight>, r: seq<Sight>)
    requires AtMostOneLive(d) && AtMostOneLive(r)
    ensures var d', r', a, b := DiallersRows(d, r), RespondersRows(d, r), Answer(d), Answer(r);
      && AtMostOneLive(d') && AtMostOneLive(r') && !Buries(d', r') && !Buries(r', d')
      && (d != [] ==> d' != []) && (r != [] ==> r' != []) && (d' != [] || r' != [] ==> d != [] || r != [])
      && (FlagsIn(Answer(d')) == FlagsIn(Answer(r')) <==> Agrees(d, r))
      && (!Buries(d, r) && !Buries(r, d) ==> Answer(d') == DiallersView(a, b) && Answer(r') == RespondersView(a, b))
  {
    hide Learned, Less;
    LearnedAnswer(r, d);
    LearnedAnswer(d, RespondersRows(d, r));
    if Buries(r, d) {
      BuriedAtResponder(d, r);
    } else if Buries(d, r) {
      BuriedAtDialler(d, r);
    } else {
      NeitherBuried(d, r);
      NothingLeftToEntomb(Answer(d), Answer(r));
      ViewsAfterSession(Answer(d), Answer(r));
    }
  }

  // ---- one session --------------------------------------------------------

  /** The contents two stores know between them. */
  function AllHashes(a: Tables, b: Tables): (r: set<ContentHash>) { HashesOf(a.rows) + HashesOf(b.rows) }

  /** Neither store could come to more rows than one summary carries by taking over what only the other
      knows. */
  predicate Room(a: Tables, b: Tables)
  {
    && Surplus(a.rows) + |AllHashes(a, b)| <= SUMMARY_LIMIT
    && Surplus(b.rows) + |AllHashes(a, b)| <= SUMMARY_LIMIT
  }

  /** Two honest endpoints over stores small enough for one summary. */
  ghost predicate Comparable(d: Endpoint, r: Endpoint)
  {
    Honest(d, r) && Room(d.disk.tables, r.disk.tables)
  }

  /** A store with room for a set of contents that knows no others is summarised whole. */
  lemma {:induction false} FitsSummary(t: Tables, hashes: set<ContentHash>)
    requires HashesOf(t.rows) <= hashes && Surplus(t.rows) + |hashes| <= SUMMARY_LIMIT
    ensures |t.rows| <= SUMMARY_LIMIT
  {
    SubsetSize(HashesOf(t.rows), hashes);
  }

  lemma {:induction false} TurnTables(o: Endpoint, t: Endpoint)
    requires ClipTables.Inv(o.disk.tables) && ClipTables.Inv(t.disk.tables) && IdsAgree(o.disk.tables, t.disk.tables)
    ensures var (o', t') := TurnEnd(o, t);
      o'.cfg == o.cfg && t'.cfg == t.cfg
      && o'.disk.tables == o.disk.tables && t'.disk.tables == Settled(t.cfg, o.disk.tables, t.disk.tables).tables
  {
    hide ClipTables.Inv, IdsAgree, TurnEnd, Settled, TurnReady;
    TurnIsReady(o, t);
    NeverFailsAtEndOf(o, t);
    TurnEndShape(o, t);
  }

  lemma {:induction false} LearnedFromEither(ours: seq<Sight>, theirs: seq<Sight>)
    requires AtMostOneLive(ours)
    ensures ours != [] ==> Learned(ours, theirs) != []
    ensures Learned(ours, theirs) != [] ==> ours != [] || theirs != []
  {
    hide Learned, AbsorbAny, Less;
    LearnedAnswer(ours, theirs);
    AbsorbAnyOf(Answer(ours), Answer(theirs));
  }

  lemma {:induction false} AbsorbAnyOf(a: Option<Sight>, b: Option<Sight>)
    ensures (a.Some? ==> AbsorbAny(a, b).Some?) && (AbsorbAny(a, b).Some? ==> a.Some? || b.Some?)
  {
  }

  /** A turn between stores with room: every content is learned about, and no other appears. */
  lemma {:induction false} TurnLearns(o: Endpoint, t: Endpoint, hashes: set<ContentHash>)
    requires Ready(o.disk.tables, t.disk.tables) && AllHashes(o.disk.tables, t.disk.tables) <= hashes
    requires Surplus(o.disk.tables.rows) + |hashes| <= SUMMARY_LIMIT
    ensures var (o', t') := TurnEnd(o, t);
      && o'.cfg == o.cfg && t'.cfg == t.cfg && o'.disk.tables == o.disk.tables
      && Ready(t'.disk.tables, o'.disk.tables) && Surplus(t'.disk.tables.rows) == Surplus(t.disk.tables.rows)
      && AllHashes(o'.disk.tables, t'.disk.tables) <= hashes
      && forall h :: Held(t'.disk.tables.rows, h) == Learned(Held(t.disk.tables.rows, h), Held(o.disk.tables.rows, h))
  {
    hide ClipTables.Inv, TurnEnd, Settled, See, Held, Learned, Surplus, HashesOf, AtMostOneLive;
    var O, T := o.disk.tables, t.disk.tables;
    FitsSummary(O, hashes);
    TurnTables(o, t);
    TurnEffect(t.cfg, O, T);
    var T' := TurnEnd(o, t).1.disk.tables;
    forall h | h in HashesOf(T'.rows) ensures h in hashes {
      KnownHashes(O, h);
      KnownHashes(T, h);
      KnownHashes(T', h);
      OneLiveHeld(T, h);
      LearnedFromEither(Held(T.rows, h), Held(O.rows, h));
    }
  }

  /** A session as a function of the rows the two stores hold of each content. */
  lemma {:induction false} SessionEffect(d: Endpoint, r: Endpoint)
    requires Comparable(d, r)
    ensures var D, R, x, y := d.disk.tables, r.disk.tables, SessionEnd(d, r).d.disk.tables, SessionEnd(d, r).r.disk.tables;
      && Room(x, y) && ClipTables.Inv(x) && ClipTables.Inv(y) && AllHashes(x, y) <= AllHashes(D, R)
      && forall h :: Held(x.rows, h) == DiallersRows(Held(D.rows, h), Held(R.rows, h))
                     && Held(y.rows, h) == RespondersRows(Held(D.rows, h), Held(R.rows, h))
  {
    hide ClipTables.Inv, TurnEnd, Held, Learned, IdsAgree, Surplus, HashesOf, Summaries, Pages;
    var hashes := AllHashes(d.disk.tables, r.disk.tables);
    var o, t := BeginOffer(d), BeginTake(r);
    TurnLearns(o, t, hashes);
    var (d1, r1) := TurnEnd(o, t);
    TurnLearns(r1, d1, hashes);
    var (r2, d2) := TurnEnd(r1, d1);
    SubsetSize(AllHashes(d2.disk.tables, r2.disk.tables), hashes);
  }

  /** No content of the two has a live row that the session would bury under an older tombstone. Stores with
      one row a content have none. */
  ghost predicate Unburied(a: Tables, b: Tables)
  {
    forall h :: !Buries(Held(a.rows, h), Held(b.rows, h)) && !Buries(Held(b.rows, h), Held(a.rows, h))
  }

  /** The same by what the two say of each content. */
  lemma {:induction false} SessionViews(d: Endpoint, r: Endpoint, h: ContentHash)
    requires Comparable(d, r)
    ensures var D, R, x, y := d.disk.tables, r.disk.tables, SessionEnd(d, r).d.disk.tables, SessionEnd(d, r).r.disk.tables;
      && !Buries(Held(x.rows, h), Held(y.rows, h)) && !Buries(Held(y.rows, h), Held(x.rows, h))
      && (See(D, h).Some? ==> See(x, h).Some?) && (See(R, h).Some? ==> See(y, h).Some?)
      && (FlagsIn(See(x, h)) == FlagsIn(See(y, h)) <==> Agrees(Held(D.rows, h), Held(R.rows, h)))
      && (!Buries(Held(D.rows, h), Held(R.rows, h)) && !Buries(Held(R.rows, h), Held(D.rows, h)) ==>
            See(x, h) == DiallersView(See(D, h), See(R, h)) && See(y, h) == RespondersView(See(D, h), See(R, h)))
  {
    SessionEffect(d, r);
    var D, R, x, y := d.disk.tables, r.disk.tables, SessionEnd(d, r).d.disk.tables, SessionEnd(d, r).r.disk.tables;
    assert ClipTables.Inv(D) && ClipTables.Inv(R);
    hide Comparable, SessionEnd, ClipTables.Inv, Held, See, Agrees, Buries, DiallersRows, RespondersRows, DiallersView, RespondersView, AtMostOneLive, IdsAgree, Room;
    OneLiveHeld(D, h);
    OneLiveHeld(R, h);
    RowsAfterSession(Held(D.rows, h), Held(R.rows, h));
    SeesTheAnswer(D, h);
    SeesTheAnswer(R, h);
    SeesTheAnswer(x, h);
    SeesTheAnswer(y, h);
  }

  /** Whether the two stores say the same of one content afterwards, and what. */
  lemma {:induction false} ConvergesAt(d: Endpoint, r: Endpoint, h: ContentHash)
    requires Comparable(d, r)
    ensures var D, R, x, y := d.disk.tables, r.disk.tables, SessionEnd(d, r).d.disk.tables, SessionEnd(d, r).r.disk.tables;
      && (Look(x, h) == Look(y, h) <==> Agrees(Held(D.rows, h), Held(R.rows, h)))
      && (h in HashesOf(D.rows) ==> h in HashesOf(x.rows)) && (h in HashesOf(R.rows) ==> h in HashesOf(y.rows))
      && (Look(x, h) == Look(y, h) ==> (h in HashesOf(x.rows) <==> h in HashesOf(y.rows)))
      && (!Buries(Held(D.rows, h), Held(R.rows, h)) && !Buries(Held(R.rows, h), Held(D.rows, h)) ==>
            && (Agrees(Held(D.rows, h), Held(R.rows, h)) <==> Settles(See(D, h), See(R, h)))
            && (Settles(See(D, h), See(R, h)) ==> Look(x, h) == Look(y, h) == Newer(See(D, h), See(R, h))))
  {
    hide Comparable, SessionEnd, See, Held, HashesOf, DiallersView, RespondersView, Newer, Settles, Buries, Look, Agrees;
    var D, R, x, y := d.disk.tables, r.disk.tables, SessionEnd(d, r).d.disk.tables, SessionEnd(d, r).r.disk.tables;
    SeeingIsLooking(x, h);
    SeeingIsLooking(y, h);
    SessionViews(d, r, h);
    ViewsAfterSession(See(D, h), See(R, h));
    KnownHashes(D, h);
    KnownHashes(R, h);
    KnownHashes(x, h);
    KnownHashes(y, h);
  }

  /** Two stores say the same of every content. */
  ghost predicate SaySame(a: Tables, b: Tables)
  {
    forall h :: Look(a, h) == Look(b, h)
  }

  /** Two stores hold rows of every content that a session makes agree. */
  ghost predicate AllAgree(d: Tables, r: Tables)
  {
    forall h :: Agrees(Held(d.rows, h), Held(r.rows, h))
  }

  /** Convergence. The two stores end up saying the same of every content exactly when the rows they hold of
      every content agree. Where nothing is buried that is when, for every hash, the newer row is sound (or
      stamps are equal), equal stamps came with equal flags, and no tombstone faced a newer live clip; and
      what they then say is the row with the higher stamp. */
  lemma {:induction false} SessionConvergesIff(d: Endpoint, r: Endpoint)
    requires Comparable(d, r)
    ensures var D, R, x, y := d.disk.tables, r.disk.tables, SessionEnd(d, r).d.disk.tables, SessionEnd(d, r).r.disk.tables;
      && (SaySame(x, y) <==> AllAgree(D, R))
      && (SaySame(x, y) ==> HashesOf(x.rows) == HashesOf(y.rows) == AllHashes(D, R))
      && (Unburied(D, R) ==> (AllAgree(D, R) <==> forall h :: Settles(See(D, h), See(R, h))))
      && (Unburied(D, R) ==> forall h :: Settles(See(D, h), See(R, h)) ==> Look(x, h) == Look(y, h) == Newer(See(D, h), See(R, h)))
  {
    hide Comparable, SessionEnd, See, Held, HashesOf, Newer, Settles, Buries, Look, Agrees, AllHashes;
    SameHashes(d, r);
    forall h ensures Look(SessionEnd(d, r).d.disk.tables, h) == Look(SessionEnd(d, r).r.disk.tables, h) <==>
        Agrees(Held(d.disk.tables.rows, h), Held(r.disk.tables.rows, h)) {
      ConvergesAt(d, r, h);
    }
    if Unburied(d.disk.tables, r.disk.tables) {
      forall h { ConvergesAt(d, r, h); }
    }
  }

  lemma {:induction false} SameHashes(d: Endpoint, r: Endpoint)
    requires Comparable(d, r)
    ensures var D, R, x, y := d.disk.tables, r.disk.tables, SessionEnd(d, r).d.disk.tables, SessionEnd(d, r).r.disk.tables;
      SaySame(x, y) ==> HashesOf(x.rows) == HashesOf(y.rows) == AllHashes(D, R)
  {
    var D, R, x, y := d.disk.tables, r.disk.tables, SessionEnd(d, r).d.disk.tables, SessionEnd(d, r).r.disk.tables;
    assert AllHashes(x, y) <= AllHashes(D, R) by { SessionEffect(d, r); }
    hide Comparable, SessionEnd, See, Held, HashesOf, Newer, Settles, Buries, Look, Agrees;
    if SaySame(x, y) {
      forall h ensures h in HashesOf(D.rows) ==> h in HashesOf(x.rows)
        ensures h in HashesOf(R.rows) ==> h in HashesOf(y.rows)
        ensures h in HashesOf(x.rows) <==> h in HashesOf(y.rows)
      {
        ConvergesAt(d, r, h);
      }
    }
  }

  // ---- stores with one row a content ------------------------------------------

  ghost predicate OneRowPerHash(t: Tables)
  {
    forall i, j :: 0 <= i < j < |t.rows| ==> t.rows[i].clip.hash != t.rows[j].clip.hash
  }

  lemma {:induction false} FindUnique(t: Tables, i: nat)
    requires OneRowPerHash(t) && i < |t.rows|
    ensures Find(t, t.rows[i].clip.hash) == Some(t.rows[i].clip)
  {
    var k := LookupAny(t.rows, t.rows[i].clip.hash);
    assert t.rows[i] in t.rows;
    assert k == i;
  }

  lemma {:induction false} HeldOnce(t: Tables)
    ensures OneRowPerHash(t) <==> forall h :: |Held(t.rows, h)| <= 1
  {
    hide Held, SightOf;
    if OneRowPerHash(t) {
      forall h ensures |Held(t.rows, h)| <= 1 {
        if |Held(t.rows, h)| > 1 {
          var i := HeldFrom(t.rows, h, 0);
          var j := HeldFrom(t.rows, h, 1);
        }
      }
    } else {
      var i, j :| 0 <= i < j < |t.rows| && t.rows[i].clip.hash == t.rows[j].clip.hash;
      var h := t.rows[i].clip.hash;
      HeldAround(t.rows, j, h);
      HeldAround(t.rows[..j], i, h);
    }
  }

  lemma {:induction false} HeldAtMostOnce(t: Tables, h: ContentHash)
    requires OneRowPerHash(t)
    ensures |Held(t.rows, h)| <= 1
  {
    hide Held, OneRowPerHash;
    HeldOnce(t);
  }

  lemma {:induction false} NoSurplus(t: Tables)
    requires OneRowPerHash(t)
    ensures Surplus(t.rows) == 0
  {
    RowCount(t, |t.rows|);
    assert t.rows[..|t.rows|] == t.rows;
  }

  lemma {:induction false} RowCount(t: Tables, n: nat)
    requires OneRowPerHash(t) && n <= |t.rows|
    ensures |HashesOf(t.rows[..n])| == n
  {
    if n > 0 {
      RowCount(t, n - 1);
      assert HashesOf(t.rows[..n]) == HashesOf(t.rows[..n - 1]) + {t.rows[n - 1].clip.hash};
      assert t.rows[n - 1].clip.hash !in HashesOf(t.rows[..n - 1]);
    }
  }

  lemma {:induction false} LearnsAtMostOne(s: seq<Sight>, c: Option<Sight>, n: nat)
    requires |s| <= 1
    ensures |Times(s, c, n)| <= 1
    decreases n
  {
    if c.Some? && n > 0 { LearnsAtMostOne(Absorbed(s, c.value), c, n - 1); }
  }

  /** Such stores bury nothing, and stay so. */
  lemma {:induction false} OneRowSession(d: Endpoint, r: Endpoint)
    requires Comparable(d, r) && OneRowPerHash(d.disk.tables) && OneRowPerHash(r.disk.tables)
    ensures Unburied(d.disk.tables, r.disk.tables)
    ensures OneRowPerHash(SessionEnd(d, r).d.disk.tables) && OneRowPerHash(SessionEnd(d, r).r.disk.tables)
  {
    hide Comparable, SessionEnd, Held, OneRowPerHash, Room, ClipTables.Inv;
    SessionEffect(d, r);
    var D, R, x, y := d.disk.tables, r.disk.tables, SessionEnd(d, r).d.disk.tables, SessionEnd(d, r).r.disk.tables;
    forall h ensures |Held(D.rows, h)| <= 1 && |Held(R.rows, h)| <= 1 && |Held(x.rows, h)| <= 1 && |Held(y.rows, h)| <= 1 {
      HeldAtMostOnce(D, h);
      HeldAtMostOnce(R, h);
      var s, s' := Held(D.rows, h), Held(R.rows, h);
      LearnsAtMostOne(s', Answer(s), Fresher(s, Answer(s')));
      var s'' := RespondersRows(s, s');
      LearnsAtMostOne(s, Answer(s''), Fresher(s'', Answer(s)));
    }
    HeldOnce(x);
    HeldOnce(y);
  }

  // ---- later sessions -------------------------------------------------------

  /** The two stores know the same hashes, each with the same stamp. */
  ghost predicate SameStamps(a: Tables, b: Tables)
  {
    forall h :: SameStamp(See(a, h), See(b, h))
  }

  /** The taker would take nothing from the offerer. */
  ghost predicate Stable(o: Tables, t: Tables)
  {
    forall h :: AbsorbAny(See(t, h), See(o, h)) == See(t, h)
  }

  /** No row of the offerer is newer than what the taker says of its content, or of unknown content. */
  ghost predicate NoNews(o: Tables, t: Tables)
  {
    forall h :: Fresher(Held(o.rows, h), See(t, h)) == 0
  }

  /** A session that buries nothing leaves stores that can learn nothing more from each other, with equal
      stamps exactly when every newer row could be taken over. */
  lemma {:induction false} SessionSettles(d: Endpoint, r: Endpoint)
    requires Comparable(d, r) && Unburied(d.disk.tables, r.disk.tables)
    ensures var D, R, x, y := d.disk.tables, r.disk.tables, SessionEnd(d, r).d.disk.tables, SessionEnd(d, r).r.disk.tables;
      && Stable(x, y) && Stable(y, x) && Room(x, y)
      && (SameStamps(x, y) <==> forall h :: Carried(See(D, h), See(R, h)))
  {
    hide Comparable, SessionEnd, See, Held, Buries, Carried, SameStamp, AbsorbAny, Room;
    SessionEffect(d, r);
    var D, R, x, y := d.disk.tables, r.disk.tables, SessionEnd(d, r).d.disk.tables, SessionEnd(d, r).r.disk.tables;
    forall h ensures SameStamp(See(x, h), See(y, h)) <==> Carried(See(D, h), See(R, h))
      ensures AbsorbAny(See(y, h), See(x, h)) == See(y, h) && AbsorbAny(See(x, h), See(y, h)) == See(x, h)
    {
      SessionViews(d, r, h);
      ViewsAfterSession(See(D, h), See(R, h));
    }
  }

  lemma {:induction false} NothingCounted(hashes: seq<ContentHash>)
    ensures hashes == [] <==> forall h :: CountOf(hashes, h) == 0
  {
    if hashes != [] { assert CountOf(hashes, hashes[0]) > 0; }
  }

  /** Nothing is asked for exactly when there is no news. */
  lemma {:induction false} NothingWantedIff(o: Tables, t: Tables)
    requires |o.rows| <= SUMMARY_LIMIT
    ensures WantedFrom(o, t) == [] <==> NoNews(o, t)
  {
    hide WantedFrom, Held, See, Fresher, CountOf;
    NothingCounted(WantedFrom(o, t));
    if NoNews(o, t) {
      forall h ensures CountOf(WantedFrom(o, t), h) == 0 { AskedPerRow(o, t, h); }
    } else {
      var h :| Fresher(Held(o.rows, h), See(t, h)) != 0;
      AskedPerRow(o, t, h);
    }
  }

  lemma {:induction false} RoomIsEnough(a: Tables, b: Tables)
    requires Room(a, b)
    ensures |a.rows| <= SUMMARY_LIMIT && |b.rows| <= SUMMARY_LIMIT
  {
    hide HashesOf;
    FitsSummary(a, AllHashes(a, b));
    FitsSummary(b, AllHashes(a, b));
  }

  lemma {:induction false} NoNewsAt(a: Tables, b: Tables, h: ContentHash)
    requires OneRowPerHash(a) && OneRowPerHash(b)
    ensures Fresher(Held(a.rows, h), See(b, h)) == 0 && Fresher(Held(b.rows, h), See(a, h)) == 0 <==> SameStamp(See(a, h), See(b, h))
  {
    hide OneRowPerHash, Held, See, Fresher;
    HeldAtMostOnce(a, h);
    HeldAtMostOnce(b, h);
    SeesTheAnswer(a, h);
    SeesTheAnswer(b, h);
    FresherOne(Held(a.rows, h), See(b, h));
    FresherOne(Held(b.rows, h), See(a, h));
    if See(a, h).Some? && See(b, h).Some? { StampOrderIsTotal(See(a, h).value.flags.hlc, See(b, h).value.flags.hlc); }
  }

  /** With one row a content there is no news either way exactly when the stamps are equal. */
  lemma {:induction false} NoNewsIff(a: Tables, b: Tables)
    requires OneRowPerHash(a) && OneRowPerHash(b)
    ensures NoNews(a, b) && NoNews(b, a) <==> SameStamps(a, b)
  {
    hide OneRowPerHash, Held, See, Fresher, SameStamp;
    forall h ensures Fresher(Held(a.rows, h), See(b, h)) == 0 && Fresher(Held(b.rows, h), See(a, h)) == 0 <==> SameStamp(See(a, h), See(b, h)) {
      NoNewsAt(a, b, h);
    }
    if NoNews(a, b) && NoNews(b, a) {
      forall h ensures SameStamp(See(a, h), See(b, h)) {
        assert Fresher(Held(a.rows, h), See(b, h)) == 0 && Fresher(Held(b.rows, h), See(a, h)) == 0;
      }
    }
  }

  lemma {:induction false} FresherOne(s: seq<Sight>, v: Option<Sight>)
    requires |s| <= 1
    ensures Fresher(s, v) > 0 <==> Answer(s).Some? && (v.None? || Less(v.value.flags.hlc, Answer(s).value.flags.hlc))
  {
    hide Less;
    if s != [] { assert s[..0] == []; }
  }

  /** What is asked for between stable stores is refused: it is unsound, or not newer after all. */
  lemma {:induction false} RefusedBetweenStable(o: Tables, t: Tables, clip: Clip, now: nat)
    requires Stable(o, t) && Find(o, clip.hash) == Some(clip)
    ensures Apply(t, clip, now) == (t, Refused)
  {
    hide HashMatches, Find;
    assert AbsorbAny(See(t, clip.hash), See(o, clip.hash)) == See(t, clip.hash);
    var local := Find(t, clip.hash);
    if local.Some? { StampOrderIsTotal(clip.hlc, clip.hlc); }
  }

  lemma {:induction false} AllRefused(cfg: Config, o: Tables, taken: Intake, clips: seq<Clip>)
    requires Stable(o, taken.tables) && forall i :: 0 <= i < |clips| ==> Find(o, clips[i].hash) == Some(clips[i])
    ensures ReceiveAll(cfg, taken, clips) == taken.(rejected := taken.rejected + |clips|)
    decreases |clips|
  {
    hide Apply, Find, Stable;
    if clips != [] {
      var now := cfg.clock(taken.received + taken.rejected);
      RefusedBetweenStable(o, taken.tables, clips[0], now);
      var next := TakeIn(taken, clips[0], now);
      assert next == taken.(rejected := taken.rejected + 1);
      AllRefused(cfg, o, next, clips[1..]);
    }
  }

  /** A turn between stable stores leaves both disks as they were and says so in the counts. */
  lemma {:induction false} RefusedTurn(o: Endpoint, t: Endpoint)
    requires Stable(o.disk.tables, t.disk.tables) && t.outcome.newest == None
    ensures var (o', t') := TurnEnd(o, t);
      var n := |WantedFrom(o.disk.tables, t.disk.tables)|;
      && o'.cfg == o.cfg && o'.disk == o.disk && o'.outcome == o.outcome.(sent := o.outcome.sent + n)
      && t'.cfg == t.cfg && t'.disk == t.disk && t'.outcome == t.outcome.(rejected := t.outcome.rejected + n)
  {
    hide ServedFrom, WantedFrom, Summaries, Pages, ReceiveAll, Find, Stable;
    var O, T := o.disk.tables, t.disk.tables;
    ServedMatchesWanted(O, T);
    var clips, n := ServedFrom(O, T), |WantedFrom(O, T)|;
    forall i | 0 <= i < |clips| ensures Find(O, clips[i].hash) == Some(clips[i]) { FoundUnderItsHash(O, WantedFrom(O, T)[i], clips[i]); }
    AllRefused(t.cfg, O, Fresh(T), clips);
    var taken := Settled(t.cfg, O, T);
    assert taken == Fresh(T).(rejected := n);
    var t1 := EnterTaking(t, 0, taken);
    assert t1.phase == SendBlobWant([], None);
    assert OwedBlobs(t1) == [];
  }

  lemma {:induction false} FoundUnderItsHash(t: Tables, h: ContentHash, c: Clip)
    requires Find(t, h) == Some(c)
    ensures Find(t, c.hash) == Some(c)
  {
  }

  /** Between stable stores a session changes nothing: it moves what is refused, and only that. */
  lemma {:induction false} StableSession(d: Endpoint, r: Endpoint)
    requires Honest(d, r) && Stable(d.disk.tables, r.disk.tables) && Stable(r.disk.tables, d.disk.tables)
    ensures var e := SessionEnd(d, r);
      var n, m := |WantedFrom(d.disk.tables, r.disk.tables)|, |WantedFrom(r.disk.tables, d.disk.tables)|;
      && e.d.disk == d.disk && e.r.disk == r.disk
      && e.d.outcome == NO_OUTCOME.(sent := n, rejected := m) && e.r.outcome == NO_OUTCOME.(sent := m, rejected := n)
  {
    hide TurnEnd, See, WantedFrom, Stable, ClipTables.Inv, IdsAgree, Summaries, Pages;
    var o, t := BeginOffer(d), BeginTake(r);
    RefusedTurn(o, t);
    var (d1, r1) := TurnEnd(o, t);
    RefusedTurn(r1, d1);
  }

  lemma {:induction false} NoNewsIsStable(o: Tables, t: Tables)
    requires NoNews(o, t)
    ensures Stable(o, t)
  {
    hide See, Held, Fresher, AbsorbAny;
    forall h ensures AbsorbAny(See(t, h), See(o, h)) == See(t, h) {
      SeesTheAnswer(o, h);
      OldNews(Held(o.rows, h), See(t, h));
    }
  }

  lemma {:induction false} OldNews(s: seq<Sight>, v: Option<Sight>)
    requires Fresher(s, v) == 0
    ensures AbsorbAny(v, Answer(s)) == v
  {
    hide Less;
    if s != [] && (v.None? || Less(v.value.flags.hlc, s[Answering(s)].flags.hlc)) { FreshIfNewer(s, v, Answering(s)); }
  }

  lemma {:induction false} NewsIfWanted(o: Tables, t: Tables)
    requires NoNews(o, t)
    ensures WantedFrom(o, t) == []
  {
    hide Summaries, Wanted, Held, See, Fresher, SightOf;
    if WantedFrom(o, t) != [] {
      WantedComesFromEntries(t, Summaries(o), 0);
      var k :| 0 <= k < |Summaries(o)| && Summaries(o)[k].hash == WantedFrom(o, t)[0] && Takes(t, Summaries(o)[k]);
      SummariesComeFromRows(o, k);
      var row :| row in o.rows && SummaryOf(row.clip) == Summaries(o)[k];
      var i :| 0 <= i < |o.rows| && o.rows[i] == row;
      var h := row.clip.hash;
      HeldAround(o.rows, i, h);
      SightIsFlags(row.clip);
      TakesBySight(t, row.clip);
      FreshIfNewer(Held(o.rows, h), See(t, h), |Held(o.rows[..i], h)|);
    }
  }

  lemma {:induction false} TakesBySight(t: Tables, c: Clip)
    ensures Takes(t, SummaryOf(c)) <==> See(t, c.hash).None? || Less(See(t, c.hash).value.flags.hlc, c.hlc)
  {
    hide Find, Less, HashMatches;
  }

  /** Where there is no news either way a session asks for nothing, moves nothing and changes nothing,
      whoever dials. */
  lemma {:induction false} SettledSessionIsIdle(d: Endpoint, r: Endpoint)
    requires Honest(d, r) && NoNews(d.disk.tables, r.disk.tables) && NoNews(r.disk.tables, d.disk.tables)
    ensures WantedFrom(d.disk.tables, r.disk.tables) == [] && WantedFrom(r.disk.tables, d.disk.tables) == []
    ensures var e := SessionEnd(d, r);
      && e.d.disk == d.disk && e.r.disk == r.disk
      && e.d.outcome == NO_OUTCOME && e.r.outcome == NO_OUTCOME
  {
    hide Honest, SessionEnd, NoNews, Stable, WantedFrom;
    NoNewsIsStable(d.disk.tables, r.disk.tables);
    NoNewsIsStable(r.disk.tables, d.disk.tables);
    NewsIfWanted(d.disk.tables, r.disk.tables);
    NewsIfWanted(r.disk.tables, d.disk.tables);
    StableSession(d, r);
  }

  /** The disks of a session's end, dialled again by either. */
  predicate Follows(e: Joint, d: Endpoint, r: Endpoint)
  {
    (d.disk == e.d.disk && r.disk == e.r.disk) || (d.disk == e.r.disk && r.disk == e.d.disk)
  }

  /** Idempotence. After a session that buries nothing no later one between the same stores, whoever dials,
      changes anything in either; it asks for nothing exactly when there is no news, which with one row a
      content means that, for every hash, the newer row could be taken over. A row that every peer refuses
      is asked for, sent and refused again in every session. */
  lemma {:induction false} LaterSessionsChangeNothing(d: Endpoint, r: Endpoint, d2: Endpoint, r2: Endpoint)
    requires Comparable(d, r) && Unburied(d.disk.tables, r.disk.tables) && Honest(d2, r2) && Follows(SessionEnd(d, r), d2, r2)
    ensures var e2, x, y := SessionEnd(d2, r2), d2.disk.tables, r2.disk.tables;
      var n, m := |WantedFrom(x, y)|, |WantedFrom(y, x)|;
      && e2.d.disk == d2.disk && e2.r.disk == r2.disk
      && e2.d.outcome == NO_OUTCOME.(sent := n, rejected := m) && e2.r.outcome == NO_OUTCOME.(sent := m, rejected := n)
      && (n == 0 && m == 0 <==> NoNews(x, y) && NoNews(y, x))
      && (OneRowPerHash(d.disk.tables) && OneRowPerHash(r.disk.tables) ==>
            (n == 0 && m == 0 <==> forall h :: Carried(See(d.disk.tables, h), See(r.disk.tables, h))))
  {
    hide Comparable, Honest, SessionEnd, See, OneRowPerHash, Carried, Stable, WantedFrom, SameStamp, Unburied, NoNews, Room;
    SessionSettles(d, r);
    StableSession(d2, r2);
    var x, y := SessionEnd(d, r).d.disk.tables, SessionEnd(d, r).r.disk.tables;
    RoomIsEnough(x, y);
    NothingWantedIff(x, y);
    NothingWantedIff(y, x);
    if OneRowPerHash(d.disk.tables) && OneRowPerHash(r.disk.tables) {
      OneRowSession(d, r);
      NoNewsIff(x, y);
    }
  }

  /** Content by content: what is said after a session that buries nothing of it is said after the next. */
  lemma {:induction false} NextSessionSaysTheSame(d: Endpoint, r: Endpoint, d2: Endpoint, r2: Endpoint, h: ContentHash)
    requires Comparable(d, r) && Honest(d2, r2) && Follows(SessionEnd(d, r), d2, r2)
    requires var s, s' := Held(d.disk.tables.rows, h), Held(r.disk.tables.rows, h); !Buries(s, s') && !Buries(s', s)
    ensures var e2 := SessionEnd(d2, r2);
      See(e2.d.disk.tables, h) == See(d2.disk.tables, h) && See(e2.r.disk.tables, h) == See(r2.disk.tables, h)
  {
    hide Honest, SessionEnd, See, Held, Buries, HashesOf, Agrees, AbsorbAny;
    SessionEffect(d, r);
    SessionViews(d, r, h);
    var x, y := SessionEnd(d, r).d.disk.tables, SessionEnd(d, r).r.disk.tables;
    assert AllHashes(x, y) == AllHashes(y, x);
    SessionViews(d2, r2, h);
    ViewsAfterSession(See(d.disk.tables, h), See(r.disk.tables, h));
    WhoDialsDoesNotMatter(See(x, h), See(y, h));
    WhoDialsDoesNotMatter(See(y, h), See(x, h));
  }

  /** Any session leaves nothing to bury, so after two nothing changes any more, whatever the stores hold. */
  lemma {:induction false} TwoSessionsSettle(d: Endpoint, r: Endpoint, d2: Endpoint, r2: Endpoint, d3: Endpoint, r3: Endpoint)
    requires Comparable(d, r) && Honest(d2, r2) && Follows(SessionEnd(d, r), d2, r2)
    requires Honest(d3, r3) && Follows(SessionEnd(d2, r2), d3, r3)
    ensures Unburied(d2.disk.tables, r2.disk.tables) && Comparable(d2, r2)
    ensures var e3 := SessionEnd(d3, r3); e3.d.disk == d3.disk && e3.r.disk == r3.disk
  {
    hide Honest, SessionEnd, See, Held, Buries, WantedFrom, NoNews, HashesOf;
    SessionEffect(d, r);
    var x, y := SessionEnd(d, r).d.disk.tables, SessionEnd(d, r).r.disk.tables;
    forall h ensures !Buries(Held(x.rows, h), Held(y.rows, h)) && !Buries(Held(y.rows, h), Held(x.rows, h)) {
      SessionViews(d, r, h);
    }
    assert AllHashes(x, y) == AllHashes(y, x);
    hide Unburied, Comparable;
    LaterSessionsChangeNothing(d2, r2, d3, r3);
  }

  // ---- clips that every peer refuses ----------------------------------------

  /** Every row is sound. */
  ghost predicate AllSound(t: Tables)
  {
    forall i :: 0 <= i < |t.rows| ==> HashMatches(t.rows[i].clip)
  }

  /** A copied clip has its payloads in label order, as `Clip::new` leaves them. */
  ghost predicate Canonical(ops: seq<Op>)
  {
    forall i :: 0 <= i < |ops| && ops[i].InsertOp? ==> SortedBy(ops[i].clip.payloads, LabelLe)
  }

  lemma {:induction false} CanonicalInsertIsSound(t: Tables, clip: Clip)
    requires AllSound(t) && SortedBy(clip.payloads, LabelLe)
    ensures AllSound(Insert(t, clip).0)
  {
    StoredIsSorted(clip);
    hide Sort, LabelLe, BodyText, PartsOf;
  }

  lemma {:induction false} StepKeepsSound(t: Tables, op: Op)
    requires AllSound(t) && (op.InsertOp? ==> SortedBy(op.clip.payloads, LabelLe))
    ensures AllSound(Step(t, op))
  {
    hide Sort, LabelLe, BodyText, PartsOf;
    match op
    case InsertOp(clip) => CanonicalInsertIsSound(t, clip);
    case PinOp(_, _, _) =>
    case DeleteOp(_, _, _) => hide Filter;
    case PurgeOp(now, olderThan) =>
      var t' := Purge(t, now, olderThan);
      forall i | 0 <= i < |t'.rows| ensures HashMatches(t'.rows[i].clip) {
        assert t'.rows[i] in t.rows;
        var k :| 0 <= k < |t.rows| && t.rows[k] == t'.rows[i];
      }
  }

  /** A history of clips made by `Clip::new` is sound, over every run of the store. */
  lemma {:induction false} CanonicalRunsAreSound(ops: seq<Op>)
    requires Canonical(ops)
    ensures AllSound(ClipTables.Run(ops))
  {
    hide AllSound, Step;
    if ops == [] {
      assert AllSound(Tables([], [])) by { NoRowsSound(); }
    } else {
      CanonicalRunsAreSound(ops[..|ops| - 1]);
      StepKeepsSound(ClipTables.Run(ops[..|ops| - 1]), ops[|ops| - 1]);
    }
  }

  lemma {:induction false} NoRowsSound()
    ensures AllSound(Tables([], []))
  {
  }

  /** So are all rows of one content. */
  predicate SoundRows(s: seq<Sight>)
  {
    forall k :: 0 <= k < |s| ==> s[k].sound
  }

  lemma {:induction false} HeldSound(t: Tables)
    ensures AllSound(t) <==> forall h :: SoundRows(Held(t.rows, h))
  {
    hide Held, HashMatches;
    if AllSound(t) {
      forall h ensures SoundRows(Held(t.rows, h)) {
        forall k | 0 <= k < |Held(t.rows, h)| ensures Held(t.rows, h)[k].sound { var i := HeldFrom(t.rows, h, k); }
      }
    } else {
      var i :| 0 <= i < |t.rows| && !HashMatches(t.rows[i].clip);
      var h := t.rows[i].clip.hash;
      HeldAround(t.rows, i, h);
      assert !Held(t.rows, h)[|Held(t.rows[..i], h)|].sound;
    }
  }

  lemma {:induction false} SoundHeld(t: Tables, h: ContentHash)
    requires AllSound(t)
    ensures SoundRows(Held(t.rows, h))
  {
    hide AllSound, SoundRows, Held;
    HeldSound(t);
  }

  lemma {:induction false} TakingKeepsSound(cfg: Config, o: Tables, taken: Intake, clips: seq<Clip>)
    requires Ready(o, taken.tables) && !taken.failed && AllSound(taken.tables)
    requires forall i :: 0 <= i < |clips| ==> FromRows(o, clips[i])
    ensures AllSound(ReceiveAll(cfg, taken, clips).tables)
    decreases |clips|
  {
    hide Ready, FromRows, SightOf, Apply, Absorbed, Held, Surplus, AllSound, SoundRows;
    if clips != [] {
      var now := cfg.clock(taken.received + taken.rejected);
      var next := TakeIn(taken, clips[0], now);
      ApplyEffect(o, taken.tables, clips[0], now);
      assert next.tables == Apply(taken.tables, clips[0], now).0 && !next.failed;
      forall h ensures SoundRows(Held(next.tables.rows, h)) {
        SoundHeld(taken.tables, h);
        AbsorbedKeepsSound(Held(taken.tables.rows, h), SightOf(clips[0]));
      }
      HeldSound(next.tables);
      TakingKeepsSound(cfg, o, next, clips[1..]);
    }
  }

  lemma {:induction false} AbsorbedKeepsSound(s: seq<Sight>, c: Sight)
    requires SoundRows(s)
    ensures SoundRows(Absorbed(s, c))
  {
  }

  lemma {:induction false} TurnKeepsSound(o: Endpoint, t: Endpoint)
    requires Ready(o.disk.tables, t.disk.tables)
    ensures var (o', t') := TurnEnd(o, t); Ready(t'.disk.tables, o'.disk.tables) && o'.disk.tables == o.disk.tables
    ensures AllSound(t.disk.tables) ==> AllSound(TurnEnd(o, t).1.disk.tables)
  {
    hide ClipTables.Inv, IdsAgree, AllSound, ServedFrom, WantedFrom, ReceiveAll, FromRows, TurnEnd;
    TurnTables(o, t);
    TurnIsReady(o, t);
    ServedMatchesWanted(o.disk.tables, t.disk.tables);
    if AllSound(t.disk.tables) {
      TakingKeepsSound(t.cfg, o.disk.tables, Fresh(t.disk.tables), ServedFrom(o.disk.tables, t.disk.tables));
    }
  }

  /** And no session makes a sound history unsound, whatever the peer holds. */
  lemma {:induction false} SessionsKeepSound(d: Endpoint, r: Endpoint)
    requires Honest(d, r)
    ensures AllSound(d.disk.tables) ==> AllSound(SessionEnd(d, r).d.disk.tables)
    ensures AllSound(r.disk.tables) ==> AllSound(SessionEnd(d, r).r.disk.tables)
  {
    hide ClipTables.Inv, IdsAgree, AllSound, TurnEnd, Summaries, Pages;
    var o, t := BeginOffer(d), BeginTake(r);
    TurnKeepsSound(o, t);
    var (d1, r1) := TurnEnd(o, t);
    TurnKeepsSound(r1, d1);
  }

  /** Where the store accepts what no peer will: a clip received with its payloads in another order than
      that of their labels. It is stored, and found; and it hashes to something else from then on. */
  lemma {:induction false} ReorderedClipIsUnsound(clip: Clip)
    requires HashMatches(clip) && DistinctLabels(clip.payloads)
    ensures Insert(Tables([], []), clip).1.Inserted?
    ensures See(Insert(Tables([], []), clip).0, clip.hash).Some?
    ensures See(Insert(Tables([], []), clip).0, clip.hash).value.sound <==> SortedBy(clip.payloads, LabelLe)
  {
    var t := Insert(Tables([], []), clip).0;
    assert t.rows == [Row(Stored(clip), None)];
    FindUnique(t, 0);
    StoredIsSorted(clip);
    if HashMatches(Stored(clip)) { SameLabelsSameOrder(clip.payloads, Stored(clip).payloads); }
  }

  /** Equal parts have equal labels in equal order. */
  lemma {:induction false} SameLabelsSameOrder(a: seq<Payload>, b: seq<Payload>)
    requires PartsOf(a) == PartsOf(b) && SortedBy(b, LabelLe)
    ensures SortedBy(a, LabelLe)
  {
    assert |PartsOf(a)| == |a| && |PartsOf(b)| == |b|;
    forall i | 0 <= i < |a| ensures a[i].format == b[i].format { assert PartsOf(a)[i] == PartsOf(b)[i]; }
  }

  /** So a peer with nothing never gets it: the stores stay apart, and every session asks again. */
  lemma {:induction false} ReorderedClipNeverConverges(d: Endpoint, r: Endpoint, clip: Clip)
    requires Comparable(d, r) && HashMatches(clip) && DistinctLabels(clip.payloads) && !SortedBy(clip.payloads, LabelLe)
    requires d.disk.tables == Insert(Tables([], []), clip).0 && r.disk.tables == Tables([], [])
    ensures var e := SessionEnd(d, r);
      && Look(e.d.disk.tables, clip.hash).Some? && Look(e.r.disk.tables, clip.hash).None?
      && !Carried(See(d.disk.tables, clip.hash), See(r.disk.tables, clip.hash))
  {
    hide Comparable, SessionEnd, Insert, See, Held, HashMatches, LabelLe;
    ReorderedClipIsUnsound(clip);
    SessionViews(d, r, clip.hash);
    EmptySees(clip.hash);
    UnsoundBuriesNothing(d.disk.tables, r.disk.tables, clip.hash);
    SeeingIsLooking(SessionEnd(d, r).d.disk.tables, clip.hash);
    SeeingIsLooking(SessionEnd(d, r).r.disk.tables, clip.hash);
  }

  lemma {:induction false} UnsoundBuriesNothing(a: Tables, b: Tables, h: ContentHash)
    requires See(a, h).Some? && !See(a, h).value.sound && See(b, h).None?
    ensures !Buries(Held(a.rows, h), Held(b.rows, h)) && !Buries(Held(b.rows, h), Held(a.rows, h))
  {
    hide See, Held;
    SeesTheAnswer(a, h);
    SeesTheAnswer(b, h);
  }

  lemma {:induction false} EmptySees(h: ContentHash)
    ensures See(Tables([], []), h).None?
  {
  }

  // ---- a live row beside a tombstone of the same content ----------------------

  /** What burying is in the tables: where a clip was deleted and copied again, a newer deletion from a peer
      entombs the live row under the peer's stamp, and the store then answers with its older tombstone,
      under its older stamp; so the next session asks again. */
  lemma {:induction false} OldTombstoneAnswers(t: Tables, i: nat, j: nat, clip: Clip, now: nat)
    requires ClipTables.Inv(t) && i < j < |t.rows| && t.rows[i].clip.hash == t.rows[j].clip.hash == clip.hash
    requires t.rows[i].clip.deleted && !t.rows[j].clip.deleted && forall k :: 0 <= k < i ==> t.rows[k].clip.hash != clip.hash
    requires HashMatches(clip) && clip.deleted && Less(t.rows[j].clip.hlc, clip.hlc)
    ensures var t' := Apply(t, clip, now).0;
      && |t'.rows| == |t.rows| && t'.rows[j].clip.deleted && t'.rows[j].clip.hlc == clip.hlc
      && Find(t', clip.hash) == Some(t.rows[i].clip)
  {
    LiveRowIsFound(t, j);
    assert IdsDistinct(t.rows);
    hide ClipTables.Inv, IdsDistinct, HashMatches, Less, ApplyUpdate;
    UpdateEffectOnRows(t, j, clip.pinned, clip.deleted, clip.hlc, now);
    var t' := Apply(t, clip, now).0;
    assert t'.rows[i] == t.rows[i] && t'.rows[i] in t'.rows;
    FirstTombstone(t, t', i, j);
  }

  lemma {:induction false} LiveRowIsFound(t: Tables, j: nat)
    requires ClipTables.Inv(t) && j < |t.rows| && !t.rows[j].clip.deleted
    ensures Find(t, t.rows[j].clip.hash) == Some(t.rows[j].clip)
  {
    assert t.rows[j] in t.rows;
    var k := LiveRow(t.rows, t.rows[j].clip.hash);
    assert k == j;
  }

  lemma {:induction false} FirstTombstone(t: Tables, t': Tables, i: nat, j: nat)
    requires OneLiveRowPerHash(t.rows) && i < j < |t.rows| == |t'.rows| && t.rows[i].clip.hash == t.rows[j].clip.hash && !t.rows[j].clip.deleted
    requires t'.rows[j].clip.deleted && (forall k :: 0 <= k < |t.rows| && k != j ==> t'.rows[k] == t.rows[k])
    requires forall k :: 0 <= k < i ==> t.rows[k].clip.hash != t.rows[i].clip.hash
    ensures Find(t', t.rows[i].clip.hash) == Some(t.rows[i].clip)
  {
    var h := t.rows[i].clip.hash;
    var live := LiveRow(t'.rows, h);
    assert live == |t'.rows|;
    assert t'.rows[i] == t.rows[i];
    assert FirstIndex(t'.rows, (r: Row) => r.clip.hash == h) == i;
  }
}
