/** What a store holds of one content, row by row, and what one turn of a session does to it
    (crates/clipsed/src/sync.rs over crates/clipse-store/src/store.rs).

    There may be several rows: a clip that was deleted and copied again leaves its tombstone behind. At
    most one of them is live. The store answers with the live one, and else with the first. */
module Histories {
  import opened Bytes
  import opened HybridClock
  import opened ContentHashes
  import opened Sorting
  import opened ClipTables
  import opened SyncSession
  import opened SessionTurns
  import opened SessionStores

  /** The replicated part of a row. */
  datatype Flags = Flags(hlc: Hlc, pinned: bool, deleted: bool)

  function FlagsOf(c: Clip): Flags { Flags(c.hlc, c.pinned, c.deleted) }

  /** What a store says about a content hash. */
  function Look(t: Tables, hash: ContentHash): (r: Option<Flags>)
  {
    var c := Find(t, hash);
    if c.None? then None else Some(FlagsOf(c.value))
  }

  /** The same, and whether the row is sound: it hashes to its payloads in label order, the order it is
      sent in. A clip whose hash was taken over another order is stored all the same, and every peer then
      refuses it. */
  datatype Sight = Sight(flags: Flags, sound: bool)

  function SightOf(c: Clip): Sight { Sight(FlagsOf(c), HashMatches(c)) }

  function See(t: Tables, hash: ContentHash): (r: Option<Sight>)
  {
    var c := Find(t, hash);
    if c.None? then None else Some(SightOf(c.value))
  }

  function FlagsIn(v: Option<Sight>): Option<Flags> { if v.None? then None else Some(v.value.flags) }

  lemma {:induction false} SeeingIsLooking(t: Tables, h: ContentHash)
    ensures Look(t, h) == FlagsIn(See(t, h))
  {
    hide Find, HashMatches;
  }

  /** Taking in `theirs` on top of `ours`: the newer stamp wins, except that a tombstone stays one. */
  function Absorb(ours: Flags, theirs: Flags): (r: Flags)
  {
    if Less(ours.hlc, theirs.hlc) then Flags(theirs.hlc, theirs.pinned, ours.deleted || theirs.deleted) else ours
  }

  /** An unsound row is refused; a row of ours keeps its payloads, and with them its soundness. */
  function AbsorbAny(ours: Option<Sight>, theirs: Option<Sight>): (r: Option<Sight>)
  {
    if theirs.None? || !theirs.value.sound then ours
    else if ours.None? then theirs
    else Some(Sight(Absorb(ours.value.flags, theirs.value.flags), ours.value.sound))
  }

  // ---- the rows of one content ----------------------------------------------

  /** The rows of one content, in the order of the store. */
  function Held(rows: seq<Row>, h: ContentHash): (r: seq<Sight>)
  {
    if rows == [] then [] else
      var front, last := rows[..|rows| - 1], rows[|rows| - 1].clip;
      Held(front, h) + if last.hash == h then [SightOf(last)] else []
  }

  /** Which of them answers. */
  function Answering(s: seq<Sight>): (p: nat)
    requires s != []
    ensures p < |s| && (s[p].flags.deleted ==> p == 0) && forall k :: 0 <= k < p ==> s[k].flags.deleted
    ensures s[p].flags.deleted ==> forall k :: 0 <= k < |s| ==> s[k].flags.deleted
  {
    var live := FirstIndex(s, (v: Sight) => !v.flags.deleted);
    if live < |s| then live else 0
  }

  function Answer(s: seq<Sight>): (r: Option<Sight>)
  {
    if s == [] then None else Some(s[Answering(s)])
  }

  predicate AtMostOneLive(s: seq<Sight>)
  {
    forall i, j :: 0 <= i < j < |s| ==> s[i].flags.deleted || s[j].flags.deleted
  }

  lemma {:induction false} HeldConcat(a: seq<Row>, b: seq<Row>, h: ContentHash)
    ensures Held(a + b, h) == Held(a, h) + Held(b, h)
  {
    hide SightOf;
    if b == [] {
      assert a + b == a;
    } else {
      var front := b[..|b| - 1];
      assert (a + b)[..|a + b| - 1] == a + front;
      HeldConcat(a, front, h);
    }
  }

  lemma {:induction false} HeldOne(row: Row, h: ContentHash)
    ensures Held([row], h) == if row.clip.hash == h then [SightOf(row.clip)] else []
  {
    assert [row][..0] == [];
    assert Held([], h) == [];
    hide SightOf;
  }

  /** The rows before row `i`, row `i`, and those behind it. */
  lemma {:induction false} HeldAround(rows: seq<Row>, i: nat, h: ContentHash)
    requires i < |rows|
    ensures Held(rows, h) == Held(rows[..i], h) + (if rows[i].clip.hash == h then [SightOf(rows[i].clip)] else []) + Held(rows[i + 1..], h)
  {
    hide Held, SightOf;
    assert rows == rows[..i] + ([rows[i]] + rows[i + 1..]);
    HeldConcat(rows[..i], [rows[i]] + rows[i + 1..], h);
    HeldConcat([rows[i]], rows[i + 1..], h);
    HeldOne(rows[i], h);
  }

  lemma {:induction false} HeldUpdated(rows: seq<Row>, i: nat, row: Row, h: ContentHash)
    requires i < |rows| && row.clip.hash == rows[i].clip.hash
    ensures var p := |Held(rows[..i], h)|;
      if rows[i].clip.hash == h then p < |Held(rows, h)| && Held(rows[i := row], h) == Held(rows, h)[p := SightOf(row.clip)]
      else Held(rows[i := row], h) == Held(rows, h)
  {
    hide Held, SightOf;
    var rows' := rows[i := row];
    assert rows'[..i] == rows[..i] && rows'[i + 1..] == rows[i + 1..];
    HeldAround(rows, i, h);
    HeldAround(rows', i, h);
  }

  /** Every sight is that of a row. */
  lemma {:induction false} HeldFrom(rows: seq<Row>, h: ContentHash, k: nat) returns (i: nat)
    requires k < |Held(rows, h)|
    ensures i < |rows| && rows[i].clip.hash == h && SightOf(rows[i].clip) == Held(rows, h)[k] && |Held(rows[..i], h)| == k
  {
    hide SightOf;
    var front := rows[..|rows| - 1];
    if k < |Held(front, h)| {
      i := HeldFrom(front, h, k);
      assert rows[..i] == front[..i];
    } else {
      i := |front|;
    }
  }

  lemma {:induction false} NothingHeld(rows: seq<Row>, h: ContentHash)
    ensures Held(rows, h) == [] <==> forall i :: 0 <= i < |rows| ==> rows[i].clip.hash != h
  {
    hide Held, SightOf;
    if Held(rows, h) != [] { var i := HeldFrom(rows, h, 0); }
    forall i | 0 <= i < |rows| && rows[i].clip.hash == h ensures Held(rows, h) != [] { HeldAround(rows, i, h); }
  }

  /** What the store says is what the answering row says. */
  lemma {:induction false} SeesTheAnswer(t: Tables, h: ContentHash)
    ensures See(t, h) == Answer(Held(t.rows, h))
    ensures var i := LookupAny(t.rows, h); i < |t.rows| ==> Held(t.rows, h) != [] && |Held(t.rows[..i], h)| == Answering(Held(t.rows, h))
  {
    hide Held, SightOf;
    var i, s := LookupAny(t.rows, h), Held(t.rows, h);
    NothingHeld(t.rows, h);
    if i < |t.rows| {
      HeldAround(t.rows, i, h);
      var p := |Held(t.rows[..i], h)|;
      assert s[p] == SightOf(t.rows[i].clip);
      forall k | 0 <= k < p ensures s[k].flags.deleted { EarlierIsDead(t.rows, h, k); }
      if t.rows[i].clip.deleted { FirstIsDead(t.rows, h); }
      assert s[p].flags.deleted == t.rows[i].clip.deleted by { SightIsFlags(t.rows[i].clip); }
    }
  }

  lemma {:induction false} SightIsFlags(c: Clip)
    ensures SightOf(c).flags == Flags(c.hlc, c.pinned, c.deleted) && SightOf(c).sound == HashMatches(c)
  {
    hide HashMatches;
  }

  /** Rows before the one that answers are tombstones. */
  lemma {:induction false} EarlierIsDead(rows: seq<Row>, h: ContentHash, k: nat)
    requires LookupAny(rows, h) < |rows| && k < |Held(rows[..LookupAny(rows, h)], h)|
    ensures k < |Held(rows, h)| && Held(rows, h)[k].flags.deleted
  {
    var i := LookupAny(rows, h);
    HeldAround(rows, i, h);
    hide Held, SightOf;
    var j := HeldFrom(rows[..i], h, k);
    assert rows[..i][j] == rows[j] && rows[j] in rows;
    SightIsFlags(rows[j].clip);
  }

  /** Where a tombstone answers it is the first row, and all are tombstones. */
  lemma {:induction false} FirstIsDead(rows: seq<Row>, h: ContentHash)
    requires LookupAny(rows, h) < |rows| && rows[LookupAny(rows, h)].clip.deleted
    ensures Held(rows[..LookupAny(rows, h)], h) == [] && forall k :: 0 <= k < |Held(rows, h)| ==> Held(rows, h)[k].flags.deleted
  {
    hide Held, SightOf;
    NothingHeld(rows[..LookupAny(rows, h)], h);
    forall k | 0 <= k < |Held(rows, h)| ensures Held(rows, h)[k].flags.deleted {
      var j := HeldFrom(rows, h, k);
      assert rows[j] in rows;
      SightIsFlags(rows[j].clip);
    }
  }

  lemma {:induction false} OneLiveHeld(t: Tables, h: ContentHash)
    requires ClipTables.Inv(t)
    ensures AtMostOneLive(Held(t.rows, h))
  {
    assert OneLiveRowPerHash(t.rows);
    hide ClipTables.Inv, Held, SightOf, OneLiveRowPerHash;
    var s := Held(t.rows, h);
    forall i, j | 0 <= i < j < |s| ensures s[i].flags.deleted || s[j].flags.deleted {
      var x := HeldFrom(t.rows, h, i);
      var y := HeldFrom(t.rows, h, j);
      SightIsFlags(t.rows[x].clip);
      SightIsFlags(t.rows[y].clip);
      OneOfTwoIsDead(t.rows, x, y);
    }
  }

  lemma {:induction false} OneOfTwoIsDead(rows: seq<Row>, x: nat, y: nat)
    requires OneLiveRowPerHash(rows) && x < |rows| && y < |rows| && x != y && rows[x].clip.hash == rows[y].clip.hash
    ensures rows[x].clip.deleted || rows[y].clip.deleted
  {
  }

  // ---- one clip -----------------------------------------------------------------

  /** Taking in a clip: refused if it does not hash to its payloads, added if the content is unknown, and
      else absorbed by the row that answers. */
  function Absorbed(s: seq<Sight>, c: Sight): (r: seq<Sight>)
  {
    if !c.sound then s
    else if s == [] then [c]
    else
      var p := Answering(s);
      s[p := Sight(Absorb(s[p].flags, c.flags), s[p].sound)]
  }

  /** The tables a turn works with. */
  ghost predicate Ready(o: Tables, t: Tables)
  {
    ClipTables.Inv(o) && ClipTables.Inv(t) && IdsAgree(o, t)
  }

  function HashesOf(rows: seq<Row>): (r: set<ContentHash>)
  {
    set i | 0 <= i < |rows| :: rows[i].clip.hash
  }

  lemma {:induction false} KnownHashes(t: Tables, h: ContentHash)
    ensures h in HashesOf(t.rows) <==> See(t, h).Some?
    ensures h in HashesOf(t.rows) <==> Held(t.rows, h) != []
  {
    hide Held, See;
    SeesTheAnswer(t, h);
    NothingHeld(t.rows, h);
  }

  /** How many rows there are beyond one per content. */
  function Surplus(rows: seq<Row>): (r: int) { |rows| - |HashesOf(rows)| }

  /** What the two statements of a metadata update do to the row they address. */
  lemma {:induction false} UpdateEffectOnRows(t: Tables, i: nat, pinned: bool, deleted: bool, hlc: Hlc, now: nat)
    requires IdsDistinct(t.rows) && i < |t.rows|
    ensures var t' := ApplyUpdate(t, t.rows[i].clip.id, pinned, deleted, hlc, now);
      && |t'.rows| == |t.rows|
      && t'.rows[i].clip == t.rows[i].clip.(pinned := pinned, hlc := hlc, deleted := t.rows[i].clip.deleted || deleted)
      && forall k :: 0 <= k < |t.rows| && k != i ==> t'.rows[k] == t.rows[k]
  {
    var id := t.rows[i].clip.id;
    assert RowById(t.rows, id) == i by { assert t.rows[i] in t.rows; }
    var t1 := ClipTables.SetPinned(t, id, pinned, hlc).0;
    assert RowById(t1.rows, id) == i by {
      assert t1.rows[i] in t1.rows;
      assert forall k :: 0 <= k < |t1.rows| ==> t1.rows[k].clip.id == t.rows[k].clip.id;
    }
  }

  lemma {:induction false} MetadataKeepsSoundness(c: Clip, hlc: Hlc, pinned: bool, deleted: bool)
    ensures HashMatches(c.(hlc := hlc, pinned := pinned, deleted := deleted)) == HashMatches(c)
  {
  }

  lemma {:induction false} AddedRow(rows: seq<Row>, clip: Clip)
    requires clip.hash !in HashesOf(rows)
    ensures var rows' := rows + [Row(clip, None)];
      && Surplus(rows') == Surplus(rows)
      && forall h :: Held(rows', h) == Held(rows, h) + if h == clip.hash then [SightOf(clip)] else []
  {
    hide Held, SightOf;
    var rows' := rows + [Row(clip, None)];
    assert HashesOf(rows') == HashesOf(rows) + {clip.hash} by {
      assert forall k :: 0 <= k < |rows| ==> rows'[k] == rows[k];
      assert rows'[|rows|].clip.hash == clip.hash;
    }
    forall h ensures Held(rows', h) == Held(rows, h) + if h == clip.hash then [SightOf(clip)] else [] {
      HeldConcat(rows, [Row(clip, None)], h);
      HeldOne(Row(clip, None), h);
    }
  }

  lemma {:induction false} ChangedRow(rows: seq<Row>, i: nat, row: Row)
    requires i < |rows| && row.clip.hash == rows[i].clip.hash
    ensures Surplus(rows[i := row]) == Surplus(rows)
  {
    var rows' := rows[i := row];
    assert forall k :: 0 <= k < |rows| ==> rows'[k].clip.hash == rows[k].clip.hash;
    assert HashesOf(rows') == HashesOf(rows);
  }

  lemma {:induction false} ApplyAdds(o: Tables, t: Tables, clip: Clip, now: nat)
    requires Ready(o, t) && FromRows(o, clip) && HashMatches(clip) && Find(t, clip.hash).None?
    ensures var t' := Apply(t, clip, now).0;
      && Surplus(t'.rows) == Surplus(t.rows)
      && forall h :: Held(t'.rows, h) == Held(t.rows, h) + if h == clip.hash then [SightOf(clip)] else []
  {
    hide ClipTables.Inv, FromRows, IdsAgree, HashMatches, Insert, ApplyUpdate, Held, SightOf;
    InsertSucceeds(o, t, clip);
    forall i | 0 <= i < |t.rows| ensures t.rows[i].clip.hash != clip.hash { assert t.rows[i] in t.rows; }
    hide Find;
    AddedRow(t.rows, clip);
  }

  lemma {:induction false} ApplyChanges(t: Tables, clip: Clip, now: nat)
    requires ClipTables.Inv(t) && HashMatches(clip)
    requires Find(t, clip.hash).Some? && Less(Find(t, clip.hash).value.hlc, clip.hlc)
    ensures var t' := Apply(t, clip, now).0;
      && Surplus(t'.rows) == Surplus(t.rows) && Held(t.rows, clip.hash) != []
      && forall h :: Held(t'.rows, h) ==
           if h == clip.hash then
             var s := Held(t.rows, h);
             var p := Answering(s);
             s[p := Sight(Flags(clip.hlc, clip.pinned, s[p].flags.deleted || clip.deleted), s[p].sound)]
           else Held(t.rows, h)
  {
    assert IdsDistinct(t.rows);
    hide ClipTables.Inv, IdsDistinct, Less, HashMatches, ApplyUpdate, Insert, Held, SightOf;
    var i := LookupAny(t.rows, clip.hash);
    var c, t' := t.rows[i].clip, Apply(t, clip, now).0;
    SeesTheAnswer(t, clip.hash);
    hide LookupAny;
    UpdateEffectOnRows(t, i, clip.pinned, clip.deleted, clip.hlc, now);
    var row := t'.rows[i];
    assert t'.rows == t.rows[i := row];
    hide Apply;
    ChangedRow(t.rows, i, row);
    UpdatedSight(c, clip.hlc, clip.pinned, c.deleted || clip.deleted);
    HeldAround(t.rows, i, clip.hash);
    hide Answering;
    forall h ensures Held(t'.rows, h) ==
        if h == clip.hash then
          var s := Held(t.rows, h);
          var p := Answering(s);
          s[p := Sight(Flags(clip.hlc, clip.pinned, s[p].flags.deleted || clip.deleted), s[p].sound)]
        else Held(t.rows, h)
    {
      HeldUpdated(t.rows, i, row, h);
    }
  }

  lemma {:induction false} UpdatedSight(c: Clip, hlc: Hlc, pinned: bool, deleted: bool)
    ensures SightOf(c.(hlc := hlc, pinned := pinned, deleted := deleted)) == Sight(Flags(hlc, pinned, deleted), SightOf(c).sound)
    ensures SightOf(c).flags.deleted == c.deleted && SightOf(c).flags.hlc == c.hlc
  {
    hide HashMatches;
    MetadataKeepsSoundness(c, hlc, pinned, deleted);
  }

  /** Applying a clip of the peer: the rows of its own content absorb it, no other content changes. */
  lemma {:induction false} ApplyEffect(o: Tables, t: Tables, clip: Clip, now: nat)
    requires Ready(o, t) && FromRows(o, clip)
    ensures var (t', applied) := Apply(t, clip, now);
      && Ready(o, t') && Surplus(t'.rows) == Surplus(t.rows)
      && !applied.Failed? && (applied.Refused? ==> t' == t)
      && forall h :: Held(t'.rows, h) == if h == clip.hash then Absorbed(Held(t.rows, h), SightOf(clip)) else Held(t.rows, h)
  {
    hide ClipTables.Inv, FromRows, IdsAgree, Less, HashMatches, Held, Find, SightOf;
    ApplyNeverFails(o, t, clip, now);
    RefusalChangesNothing(t, clip, now);
    var local := Find(t, clip.hash);
    SeesTheAnswer(t, clip.hash);
    SightIsFlags(clip);
    if local.Some? { SightIsFlags(local.value); }
    if !HashMatches(clip) {
    } else if local.None? {
      ApplyAdds(o, t, clip, now);
      hide Apply;
    } else if Less(local.value.hlc, clip.hlc) {
      ApplyChanges(t, clip, now);
      hide Apply;
    } else {
      assert Apply(t, clip, now).0 == t;
      var s := Held(t.rows, clip.hash);
      assert s[Answering(s) := s[Answering(s)]] == s;
    }
  }

  /** No other content changes in what the store says. */
  lemma {:induction false} ApplySees(o: Tables, t: Tables, clip: Clip, now: nat)
    requires Ready(o, t) && FromRows(o, clip)
    ensures forall h :: h != clip.hash ==> See(Apply(t, clip, now).0, h) == See(t, h)
  {
    hide Ready, FromRows, SightOf, Apply, Held, See, Answer, Surplus;
    ApplyEffect(o, t, clip, now);
    forall h | h != clip.hash ensures See(Apply(t, clip, now).0, h) == See(t, h) {
      SeesTheAnswer(t, h);
      SeesTheAnswer(Apply(t, clip, now).0, h);
    }
  }

  // ---- one turn -------------------------------------------------------------------

  /** Taking in the same clip a number of times. */
  function Times(s: seq<Sight>, c: Option<Sight>, n: nat): (r: seq<Sight>)
    decreases n
  {
    if c.None? || n == 0 then s else Times(Absorbed(s, c.value), c, n - 1)
  }

  /** How many of the peer's rows are newer than what this store says. */
  function Fresher(theirs: seq<Sight>, ours: Option<Sight>): (r: nat)
    ensures r <= |theirs|
  {
    if theirs == [] then 0 else
      Fresher(theirs[..|theirs| - 1], ours) + if ours.None? || Less(ours.value.flags.hlc, theirs[|theirs| - 1].flags.hlc) then 1 else 0
  }

  /** What a turn makes of the rows of one content: each newer row of the peer has its content asked for,
      and each time the peer's answer is sent. */
  function Learned(ours: seq<Sight>, theirs: seq<Sight>): (r: seq<Sight>)
  {
    Times(ours, Answer(theirs), Fresher(theirs, Answer(ours)))
  }

  function CountOf(hashes: seq<ContentHash>, h: ContentHash): (r: nat)
  {
    if hashes == [] then 0 else (if hashes[0] == h then 1 else 0) + CountOf(hashes[1..], h)
  }

  lemma {:induction false} CountedIsThere(hashes: seq<ContentHash>, h: ContentHash)
    ensures CountOf(hashes, h) > 0 <==> h in hashes
  {
    if hashes != [] {
      CountedIsThere(hashes[1..], h);
      assert hashes == [hashes[0]] + hashes[1..];
    }
  }

  /** Taking in what the offerer answers with, as often as it was asked for. */
  lemma {:induction false} TakingEffect(cfg: Config, o: Tables, taken: Intake, clips: seq<Clip>, asked: seq<ContentHash>)
    requires Ready(o, taken.tables) && !taken.failed && |clips| == |asked|
    requires forall i :: 0 <= i < |clips| ==> FromRows(o, clips[i]) && Find(o, asked[i]) == Some(clips[i])
    ensures var t' := ReceiveAll(cfg, taken, clips).tables;
      && Ready(o, t') && Surplus(t'.rows) == Surplus(taken.tables.rows)
      && forall h :: Held(t'.rows, h) == Times(Held(taken.tables.rows, h), Answer(Held(o.rows, h)), CountOf(asked, h))
    decreases |clips|
  {
    hide Ready, FromRows, SightOf, Apply, Absorbed, Held, Answer, Find, Surplus;
    if clips != [] {
      var now := cfg.clock(taken.received + taken.rejected);
      var next := TakeIn(taken, clips[0], now);
      ApplyEffect(o, taken.tables, clips[0], now);
      assert next.tables == Apply(taken.tables, clips[0], now).0 && !next.failed;
      TakingEffect(cfg, o, next, clips[1..], asked[1..]);
      FoundIsAnswer(o, asked[0], clips[0]);
    }
  }

  lemma {:induction false} FoundIsAnswer(t: Tables, h: ContentHash, c: Clip)
    requires Find(t, h) == Some(c)
    ensures c.hash == h && Answer(Held(t.rows, h)) == Some(SightOf(c))
  {
    hide SightOf, Held;
    SeesTheAnswer(t, h);
  }

  /** A row of this content that a store which says `ours` of it asks for. */
  function IsFresh(h: ContentHash, ours: Option<Sight>): Row -> bool
  {
    (r: Row) => r.clip.hash == h && (ours.None? || Less(ours.value.flags.hlc, r.clip.hlc))
  }

  lemma {:induction false} WantedCount(t: Tables, rows: seq<Row>, h: ContentHash)
    ensures CountOf(Wanted(t, SummariesOf(rows)), h) == |Filter(rows, IsFresh(h, See(t, h)))|
  {
    hide Find, HashMatches, Less;
    if rows != [] {
      var entries := SummariesOf(rows);
      assert entries[1..] == SummariesOf(rows[1..]);
      WantedCount(t, rows[1..], h);
      assert Takes(t, entries[0]) <==> See(t, rows[0].clip.hash).None? || Less(See(t, rows[0].clip.hash).value.flags.hlc, rows[0].clip.hlc);
      hide See, Takes;
      assert ([entries[0].hash] + Wanted(t, entries[1..]))[1..] == Wanted(t, entries[1..]);
    }
  }

  lemma {:induction false} InsertKeepsCount<T(!new)>(x: T, s: seq<T>, le: (T, T) -> bool, p: T -> bool)
    ensures |Filter(InsertSorted(x, s, le), p)| == |Filter(s, p)| + if p(x) then 1 else 0
  {
    if s == [] || le(x, s[0]) {
      FilterHead(x, s, p);
      assert s == [] ==> [x] + s == [x];
    } else {
      InsertKeepsCount(x, s[1..], le, p);
      FilterHead(s[0], InsertSorted(x, s[1..], le), p);
      FilterHead(s[0], s[1..], p);
      assert s == [s[0]] + s[1..];
    }
  }

  lemma {:induction false} SortKeepsCount<T(!new)>(s: seq<T>, le: (T, T) -> bool, p: T -> bool)
    ensures |Filter(Sort(s, le), p)| == |Filter(s, p)|
  {
    if s != [] {
      SortKeepsCount(s[1..], le, p);
      InsertKeepsCount(s[0], Sort(s[1..], le), le, p);
    }
  }

  lemma {:induction false} FreshCount(rows: seq<Row>, h: ContentHash, ours: Option<Sight>)
    ensures |Filter(rows, IsFresh(h, ours))| == Fresher(Held(rows, h), ours)
  {
    if rows != [] {
      var front, last := rows[..|rows| - 1], rows[|rows| - 1];
      assert rows == front + [last];
      FreshCount(front, h, ours);
      FilterConcat(front, [last], IsFresh(h, ours));
      FilterHead(last, [], IsFresh(h, ours));
      assert [last] + [] == [last];
      SightIsFlags(last.clip);
      hide SightOf, Filter, Less;
      if last.clip.hash == h {
        assert Held(rows, h) == Held(front, h) + [SightOf(last.clip)];
        assert Held(rows, h)[..|Held(rows, h)| - 1] == Held(front, h);
      } else {
        assert Held(rows, h) == Held(front, h);
      }
    }
  }

  /** How often a content is asked for: once for every row of the peer's that is newer. */
  lemma {:induction false} AskedPerRow(o: Tables, t: Tables, h: ContentHash)
    requires |o.rows| <= SUMMARY_LIMIT
    ensures CountOf(WantedFrom(o, t), h) == Fresher(Held(o.rows, h), See(t, h))
  {
    hide Sort, Filter, Held, See, Wanted, Fresher, IsFresh;
    var rows := Sort(o.rows, OldestFirst);
    assert ChangesSince(o.rows, None, SUMMARY_LIMIT) == rows by { FilterAll(o.rows, PastCursor(None)); }
    WantedCount(t, rows, h);
    SortKeepsCount(o.rows, OldestFirst, IsFresh(h, See(t, h)));
    FreshCount(o.rows, h, See(t, h));
  }

  /** A turn, content by content. */
  lemma {:induction false} TurnEffect(cfg: Config, o: Tables, t: Tables)
    requires Ready(o, t) && |o.rows| <= SUMMARY_LIMIT
    ensures var t' := Settled(cfg, o, t).tables;
      && Ready(o, t') && Surplus(t'.rows) == Surplus(t.rows)
      && forall h :: Held(t'.rows, h) == Learned(Held(t.rows, h), Held(o.rows, h))
  {
    hide Ready, FromRows, ReceiveAll, ServedFrom, WantedFrom, Find, Held, See, Answer, Times, Fresher, Surplus;
    ServedMatchesWanted(o, t);
    TakingEffect(cfg, o, Fresh(t), ServedFrom(o, t), WantedFrom(o, t));
    forall h ensures CountOf(WantedFrom(o, t), h) == Fresher(Held(o.rows, h), Answer(Held(t.rows, h))) {
      AskedPerRow(o, t, h);
      SeesTheAnswer(t, h);
    }
  }
}
