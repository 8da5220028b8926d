/** The clip history as SQL tables (crates/clipse-store/src/store.rs, fts.rs, row.rs, schema.rs).

    A row carries its payload rows, which the schema deletes with it. Payloads are kept sorted by
    format label, the only order in which `load_payloads` ever returns them. */
module ClipTables {
  import opened Bytes
  import opened HybridClock
  import opened ContentHashes
  import opened Sorting

  type ClipId = nat

  datatype Kind = TextKind | HtmlKind | RtfKind | ImageKind | FilesKind | OtherKind

  /** Inline bytes come with the text they decode to, if they are valid UTF-8. */
  datatype Body = Inline(bytes: seq<Byte>, utf8: Option<string>) | Blob
  datatype Payload = Payload(format: string, digest: ContentHash, size: nat, body: Body)
  datatype Source = Source(device: DeviceId, deviceLabel: string, app: Option<string>)
  datatype Clip = Clip(id: ClipId, hash: ContentHash, kind: Kind, payloads: seq<Payload>, preview: string,
                       source: Source, hlc: Hlc, createdAt: nat, pinned: bool, deleted: bool)

  function PartsOf(payloads: seq<Payload>): (r: seq<(string, ContentHash)>)
    ensures |r| == |payloads|
  {
    seq(|payloads|, i requires 0 <= i < |payloads| => (payloads[i].format, payloads[i].digest))
  }

  predicate HashMatches(clip: Clip)
  {
    clip.hash == OfParts(PartsOf(clip.payloads))
  }

  predicate DistinctLabels(payloads: seq<Payload>)
  {
    forall i, j :: 0 <= i < j < |payloads| ==> payloads[i].format != payloads[j].format
  }

  predicate LabelLe(a: Payload, b: Payload)
  {
    !LexLess(Codes(b.format), Codes(a.format))
  }

  function TextOf(payloads: seq<Payload>): (r: Option<string>)
  {
    var i := FirstIndex(payloads, (p: Payload) => p.format == "text/plain");
    if i < |payloads| && payloads[i].body.Inline? then payloads[i].body.utf8 else None
  }

  /** The searchable text of a clip: its preview, and its plain text where that says more. */
  function BodyText(clip: Clip): (r: string)
  {
    match TextOf(clip.payloads)
    case Some(text) => if text != clip.preview then clip.preview + "\n" + text else clip.preview
    case None => clip.preview
  }

  // ---- the tables ---------------------------------------------------------

  /** `deletedAt` is the nullable column `deleted_at_ms`. */
  datatype Row = Row(clip: Clip, deletedAt: Option<nat>)
  datatype Entry = Entry(id: ClipId, body: string)
  datatype Tables = Tables(rows: seq<Row>, index: seq<Entry>)

  datatype InsertResult = Inserted(id: ClipId) | Deduplicated(id: ClipId) | Rejected | ConstraintError

  function LiveRow(rows: seq<Row>, hash: ContentHash): (i: nat)
    ensures i <= |rows|
    ensures i < |rows| ==> rows[i].clip.hash == hash && !rows[i].clip.deleted
    ensures i == |rows| ==> forall r :: r in rows ==> !(r.clip.hash == hash && !r.clip.deleted)
  {
    FirstIndex(rows, (r: Row) => r.clip.hash == hash && !r.clip.deleted)
  }

  function RowById(rows: seq<Row>, id: ClipId): (i: nat)
    ensures i <= |rows|
    ensures i < |rows| ==> rows[i].clip.id == id
    ensures i == |rows| ==> forall r :: r in rows ==> r.clip.id != id
  {
    FirstIndex(rows, (r: Row) => r.clip.id == id)
  }

  predicate HasId(rows: seq<Row>, id: ClipId) { RowById(rows, id) < |rows| }

  /** `lookup_by_hash(hash, true)`: a live row if there is one, else a tombstone. */
  function LookupAny(rows: seq<Row>, hash: ContentHash): (i: nat)
    ensures i <= |rows|
    ensures i < |rows| ==> rows[i].clip.hash == hash
    ensures i < |rows| && rows[i].clip.deleted ==>
      forall r :: r in rows && r.clip.hash == hash ==> r.clip.deleted
    ensures i == |rows| ==> forall r :: r in rows ==> r.clip.hash != hash
  {
    var live := LiveRow(rows, hash);
    if live < |rows| then live else FirstIndex(rows, (r: Row) => r.clip.hash == hash)
  }

  function Find(t: Tables, hash: ContentHash): (r: Option<Clip>)
    ensures r.Some? ==> r.value.hash == hash
    ensures r.None? <==> forall row :: row in t.rows ==> row.clip.hash != hash
  {
    var i := LookupAny(t.rows, hash);
    if i < |t.rows| then Some(t.rows[i].clip) else None
  }

  function Stored(clip: Clip): (r: Clip)
  {
    clip.(payloads := Sort(clip.payloads, LabelLe))
  }

  function Insert(t: Tables, clip: Clip): (r: (Tables, InsertResult))
  {
    if !HashMatches(clip) then (t, Rejected) else
    var i := LiveRow(t.rows, clip.hash);
    if i < |t.rows| then
      var prior := t.rows[i];
      var bumped := prior.clip.(hlc := clip.hlc, createdAt := clip.createdAt, source := clip.source);
      (t.(rows := t.rows[i := prior.(clip := bumped)]), Deduplicated(prior.clip.id))
    else if RowById(t.rows, clip.id) < |t.rows| || !DistinctLabels(clip.payloads) then
      (t, ConstraintError)
    else
      (Tables(t.rows + [Row(Stored(clip), None)], t.index + [Entry(clip.id, BodyText(clip))]), Inserted(clip.id))
  }

  /** The flag is false when the id is unknown (`Error::NotFound`). */
  function SetPinned(t: Tables, id: ClipId, pinned: bool, hlc: Hlc): (r: (Tables, bool))
  {
    var i := RowById(t.rows, id);
    if i == |t.rows| then (t, false) else
    var prior := t.rows[i];
    (t.(rows := t.rows[i := prior.(clip := prior.clip.(pinned := pinned, hlc := hlc))]), true)
  }

  function Delete(t: Tables, id: ClipId, hlc: Hlc, now: nat): (r: (Tables, bool))
  {
    var i := RowById(t.rows, id);
    if i == |t.rows| then (t, false)
    else if t.rows[i].clip.deleted then (t, true)
    else
      var tomb := Row(t.rows[i].clip.(deleted := true, hlc := hlc), Some(now));
      (Tables(t.rows[i := tomb], Filter(t.index, (e: Entry) => e.id != id)), true)
  }

  predicate Purgeable(r: Row, cutoff: nat)
  {
    r.clip.deleted && r.deletedAt.Some? && r.deletedAt.value <= cutoff
  }

  function Purge(t: Tables, now: nat, olderThan: nat): (r: Tables)
  {
    var cutoff := if now < olderThan then 0 else now - olderThan;
    t.(rows := Filter(t.rows, (r: Row) => !Purgeable(r, cutoff)))
  }

  // ---- what every run keeps -----------------------------------------------

  /** An index entry says what the row it points at would say if scanned. */
  predicate Backs(r: Row, e: Entry)
  {
    r.clip.id == e.id && r.deletedAt.None? && e.body == BodyText(r.clip)
  }

  ghost predicate RowOk(r: Row)
  {
    (r.deletedAt.Some? ==> r.clip.deleted) && DistinctLabels(r.clip.payloads) && SortedBy(r.clip.payloads, LabelLe)
  }

  ghost predicate IdsDistinct(rows: seq<Row>)
  {
    forall i, j :: 0 <= i < j < |rows| ==> rows[i].clip.id != rows[j].clip.id
  }

  /** At most one live row per content hash. */
  ghost predicate OneLiveRowPerHash(rows: seq<Row>)
  {
    forall i, j :: 0 <= i < j < |rows| && !rows[i].clip.deleted && !rows[j].clip.deleted
      ==> rows[i].clip.hash != rows[j].clip.hash
  }

  ghost predicate EntriesDistinct(index: seq<Entry>)
  {
    forall i, j :: 0 <= i < j < |index| ==> index[i].id != index[j].id
  }

  ghost predicate EntriesBacked(rows: seq<Row>, index: seq<Entry>)
  {
    forall e :: e in index ==> exists r :: r in rows && Backs(r, e)
  }

  ghost predicate LiveRowsIndexed(rows: seq<Row>, index: seq<Entry>)
  {
    forall r :: r in rows && !r.clip.deleted ==> exists e :: e in index && Backs(r, e)
  }

  /** Every entry is backed by a row, every live row has an entry, and no id is indexed twice. */
  ghost predicate IndexAgrees(t: Tables)
  {
    EntriesDistinct(t.index) && EntriesBacked(t.rows, t.index) && LiveRowsIndexed(t.rows, t.index)
  }

  ghost predicate Inv(t: Tables)
  {
    && IdsDistinct(t.rows)
    && OneLiveRowPerHash(t.rows)
    && (forall r :: r in t.rows ==> RowOk(r))
    && IndexAgrees(t)
  }

  datatype Op =
    | InsertOp(clip: Clip)
    | PinOp(id: ClipId, pinned: bool, hlc: Hlc)
    | DeleteOp(id: ClipId, hlc: Hlc, now: nat)
    | PurgeOp(now: nat, olderThan: nat)

  function Step(t: Tables, op: Op): (r: Tables)
  {
    match op
    case InsertOp(clip) => Insert(t, clip).0
    case PinOp(id, pinned, hlc) => SetPinned(t, id, pinned, hlc).0
    case DeleteOp(id, hlc, now) => Delete(t, id, hlc, now).0
    case PurgeOp(now, olderThan) => Purge(t, now, olderThan)
  }

  function Run(ops: seq<Op>): (r: Tables)
  {
    if ops == [] then Tables([], []) else Step(Run(ops[..|ops| - 1]), ops[|ops| - 1])
  }

  /** The same from tables in use. */
  function RunFrom(t: Tables, ops: seq<Op>): (r: Tables)
  {
    if ops == [] then t else Step(RunFrom(t, ops[..|ops| - 1]), ops[|ops| - 1])
  }

  lemma {:induction false} SortedPayloadsDistinct(ps: seq<Payload>)
    requires DistinctLabels(ps)
    ensures DistinctLabels(Sort(ps, LabelLe))
  {
    var s := Sort(ps, LabelLe);
    assert Distinct(ps);
    SortPermutes(ps, LabelLe);
    DistinctFromMultiset(ps, s);
    forall i, j | 0 <= i < j < |s| ensures s[i].format != s[j].format {
      SortMembers(ps, LabelLe, s[i]);
      SortMembers(ps, LabelLe, s[j]);
    }
  }

  lemma {:induction false} LabelLeIsTotal()
    ensures TotalPreorder(LabelLe)
  {
    forall a, b ensures LabelLe(a, b) || LabelLe(b, a) {
      LexTrichotomy(Codes(a.format), Codes(b.format));
    }
    forall a, b, c | LabelLe(a, b) && LabelLe(b, c) ensures LabelLe(a, c) {
      var x, y, z := Codes(a.format), Codes(b.format), Codes(c.format);
      LexTrichotomy(x, y);
      LexTrichotomy(y, z);
      LexTrichotomy(x, z);
      if LexLess(x, y) && LexLess(y, z) { LexTransitive(x, y, z); }
    }
  }

  lemma {:induction false} StoredIsSorted(clip: Clip)
    ensures SortedBy(Stored(clip).payloads, LabelLe)
    ensures SortedBy(clip.payloads, LabelLe) ==> Stored(clip) == clip
  {
    hide LabelLe, Sort;
    LabelLeIsTotal();
    SortSorts(clip.payloads, LabelLe);
    if SortedBy(clip.payloads, LabelLe) { SortOfSorted(clip.payloads, LabelLe); }
  }

  /** Sorting the payloads by label changes neither the set of labels nor the text found. */
  lemma {:induction false} StoredKeepsBody(clip: Clip)
    requires DistinctLabels(clip.payloads)
    ensures DistinctLabels(Stored(clip).payloads)
    ensures BodyText(Stored(clip)) == BodyText(clip)
  {
    var ps := clip.payloads;
    SortedPayloadsDistinct(ps);
    var s := Sort(ps, LabelLe);
    var a := FirstIndex(ps, (p: Payload) => p.format == "text/plain");
    var b := FirstIndex(s, (p: Payload) => p.format == "text/plain");
    if a < |ps| { SortMembers(ps, LabelLe, ps[a]); }
    if b < |s| { SortMembers(ps, LabelLe, s[b]); }
    assert TextOf(s) == TextOf(ps);
  }

  /** The parts of a row that a metadata change leaves alone. */
  predicate SameContent(a: Row, b: Row)
  {
    && a.clip.id == b.clip.id && a.clip.hash == b.clip.hash
    && a.clip.payloads == b.clip.payloads && a.clip.preview == b.clip.preview
    && a.clip.deleted == b.clip.deleted && a.deletedAt == b.deletedAt
  }

  lemma {:induction false} UpdateKeepsBacked(rows: seq<Row>, index: seq<Entry>, i: nat, row: Row)
    requires EntriesBacked(rows, index) && i < |rows| && SameContent(rows[i], row)
    ensures EntriesBacked(rows[i := row], index)
  {
    var rows' := rows[i := row];
    forall e | e in index ensures exists r :: r in rows' && Backs(r, e) {
      var r :| r in rows && Backs(r, e);
      var k :| 0 <= k < |rows| && rows[k] == r;
      assert Backs(rows'[k], e);
    }
  }

  lemma {:induction false} UpdateKeepsIndexed(rows: seq<Row>, index: seq<Entry>, i: nat, row: Row)
    requires LiveRowsIndexed(rows, index) && i < |rows| && SameContent(rows[i], row)
    ensures LiveRowsIndexed(rows[i := row], index)
  {
    var rows' := rows[i := row];
    forall r | r in rows' && !r.clip.deleted ensures exists e :: e in index && Backs(r, e) {
      var k :| 0 <= k < |rows'| && rows'[k] == r;
      assert rows[k] in rows;
      var e :| e in index && Backs(rows[k], e);
      assert Backs(r, e);
    }
  }

  /** Changing a row in place keeps the tables consistent if its identity, text and liveness stay. */
  lemma {:induction false} UpdateKeepsInv(t: Tables, i: nat, row: Row)
    requires Inv(t) && i < |t.rows| && SameContent(t.rows[i], row)
    ensures Inv(t.(rows := t.rows[i := row]))
  {
    UpdateKeepsBacked(t.rows, t.index, i, row);
    UpdateKeepsIndexed(t.rows, t.index, i, row);
    assert RowOk(t.rows[i]);
  }

  lemma {:induction false} InsertKeepsInv(t: Tables, clip: Clip)
    requires Inv(t)
    ensures Inv(Insert(t, clip).0)
  {
    var i := LiveRow(t.rows, clip.hash);
    if !HashMatches(clip) {
    } else if i < |t.rows| {
      var bumped := t.rows[i].clip.(hlc := clip.hlc, createdAt := clip.createdAt, source := clip.source);
      UpdateKeepsInv(t, i, t.rows[i].(clip := bumped));
    } else if RowById(t.rows, clip.id) == |t.rows| && DistinctLabels(clip.payloads) {
      AppendKeepsInv(t, clip);
    }
  }

  lemma {:induction false} AppendKeepsBacked(rows: seq<Row>, index: seq<Entry>, row: Row, entry: Entry)
    requires EntriesBacked(rows, index) && Backs(row, entry)
    ensures EntriesBacked(rows + [row], index + [entry])
  {
    forall e | e in index + [entry] ensures exists r :: r in rows + [row] && Backs(r, e) {
      if e in index {
        var r :| r in rows && Backs(r, e);
        assert r in rows + [row];
      } else {
        assert row in rows + [row];
      }
    }
  }

  lemma {:induction false} AppendKeepsIndexed(rows: seq<Row>, index: seq<Entry>, row: Row, entry: Entry)
    requires LiveRowsIndexed(rows, index) && Backs(row, entry)
    ensures LiveRowsIndexed(rows + [row], index + [entry])
  {
    forall r | r in rows + [row] && !r.clip.deleted ensures exists e :: e in index + [entry] && Backs(r, e) {
      if r in rows {
        var e :| e in index && Backs(r, e);
        assert e in index + [entry];
      } else {
        assert entry in index + [entry];
      }
    }
  }

  lemma {:induction false} UnknownIdNotIndexed(rows: seq<Row>, index: seq<Entry>, id: ClipId)
    requires EntriesBacked(rows, index) && forall r :: r in rows ==> r.clip.id != id
    ensures forall e :: e in index ==> e.id != id
  {
    forall e | e in index ensures e.id != id {
      var r :| r in rows && Backs(r, e);
    }
  }

  lemma {:induction false} AppendKeepsInv(t: Tables, clip: Clip)
    requires Inv(t) && DistinctLabels(clip.payloads)
    requires forall r :: r in t.rows ==> r.clip.id != clip.id
    requires forall r :: r in t.rows ==> !(r.clip.hash == clip.hash && !r.clip.deleted)
    ensures Inv(Tables(t.rows + [Row(Stored(clip), None)], t.index + [Entry(clip.id, BodyText(clip))]))
  {
    StoredKeepsBody(clip);
    StoredIsSorted(clip);
    hide Sort;
    var row, entry := Row(Stored(clip), None), Entry(clip.id, BodyText(clip));
    UnknownIdNotIndexed(t.rows, t.index, clip.id);
    AppendKeepsBacked(t.rows, t.index, row, entry);
    AppendKeepsIndexed(t.rows, t.index, row, entry);
    AppendKeepsRows(t.rows, row);
  }

  lemma {:induction false} AppendKeepsRows(rows: seq<Row>, row: Row)
    requires IdsDistinct(rows) && OneLiveRowPerHash(rows) && RowOk(row)
    requires forall r :: r in rows ==> RowOk(r)
    requires forall r :: r in rows ==> r.clip.id != row.clip.id
    requires forall r :: r in rows ==> !(r.clip.hash == row.clip.hash && !r.clip.deleted)
    ensures IdsDistinct(rows + [row]) && OneLiveRowPerHash(rows + [row])
    ensures forall r :: r in rows + [row] ==> RowOk(r)
  {
  }

  lemma {:induction false} DeleteKeepsInv(t: Tables, id: ClipId, hlc: Hlc, now: nat)
    requires Inv(t)
    ensures Inv(Delete(t, id, hlc, now).0)
  {
    var i := RowById(t.rows, id);
    if i < |t.rows| && !t.rows[i].clip.deleted {
      var tomb := Row(t.rows[i].clip.(deleted := true, hlc := hlc), Some(now));
      assert RowOk(t.rows[i]) && RowOk(tomb);
      var others := (e: Entry) => e.id != id;
      FilterKeepsDistinctIds(t.index, others);
      EntombKeepsBacked(t.rows, t.index, i, tomb, others);
      EntombKeepsIndexed(t.rows, t.index, i, tomb, others);
    }
  }

  /** Entombing row `i` and dropping its entry leaves every other entry with its row. */
  lemma {:induction false} EntombKeepsBacked(rows: seq<Row>, index: seq<Entry>, i: nat, tomb: Row, others: Entry -> bool)
    requires EntriesBacked(rows, index) && i < |rows| && tomb.clip.id == rows[i].clip.id
    requires forall e :: others(e) ==> e.id != tomb.clip.id
    ensures EntriesBacked(rows[i := tomb], Filter(index, others))
  {
    var rows' := rows[i := tomb];
    forall e | e in Filter(index, others) ensures exists r :: r in rows' && Backs(r, e) {
      var r :| r in rows && Backs(r, e);
      var k :| 0 <= k < |rows| && rows[k] == r;
      assert rows'[k] == r;
    }
  }

  /** And every other live row with its entry. */
  lemma {:induction false} EntombKeepsIndexed(rows: seq<Row>, index: seq<Entry>, i: nat, tomb: Row, others: Entry -> bool)
    requires LiveRowsIndexed(rows, index) && IdsDistinct(rows)
    requires i < |rows| && tomb.clip.id == rows[i].clip.id && tomb.clip.deleted
    requires forall e: Entry :: e.id != tomb.clip.id ==> others(e)
    ensures LiveRowsIndexed(rows[i := tomb], Filter(index, others))
  {
    var rows' := rows[i := tomb];
    forall r | r in rows' && !r.clip.deleted ensures exists e :: e in Filter(index, others) && Backs(r, e) {
      var k :| 0 <= k < |rows'| && rows'[k] == r;
      assert k != i && rows[k] == r;
      var e :| e in index && Backs(r, e);
      assert others(e);
    }
  }

  lemma {:induction false} FilterKeepsDistinctIds(index: seq<Entry>, p: Entry -> bool)
    requires EntriesDistinct(index)
    ensures EntriesDistinct(Filter(index, p))
  {
    FilterPairwise(index, p, (a: Entry, b: Entry) => a.id != b.id);
  }

  lemma {:induction false} FilterKeepsRows(rows: seq<Row>, p: Row -> bool)
    requires IdsDistinct(rows) && OneLiveRowPerHash(rows)
    ensures IdsDistinct(Filter(rows, p)) && OneLiveRowPerHash(Filter(rows, p))
  {
    FilterPairwise(rows, p, (a: Row, b: Row) => a.clip.id != b.clip.id);
    FilterPairwise(rows, p, (a: Row, b: Row) => !a.clip.deleted && !b.clip.deleted ==> a.clip.hash != b.clip.hash);
  }

  lemma {:induction false} PurgeKeepsInv(t: Tables, now: nat, olderThan: nat)
    requires Inv(t)
    ensures Inv(Purge(t, now, olderThan))
  {
    var cutoff := if now < olderThan then 0 else now - olderThan;
    var rows' := Filter(t.rows, (r: Row) => !Purgeable(r, cutoff));
    FilterKeepsRows(t.rows, (r: Row) => !Purgeable(r, cutoff));
    forall e | e in t.index ensures exists r :: r in rows' && Backs(r, e) {
      var r :| r in t.rows && Backs(r, e);
      assert r in rows';
    }
  }

  lemma {:induction false} StepKeepsInv(t: Tables, op: Op)
    requires Inv(t)
    ensures Inv(Step(t, op))
  {
    match op
    case InsertOp(clip) => InsertKeepsInv(t, clip);
    case PinOp(id, pinned, hlc) =>
      var i := RowById(t.rows, id);
      if i < |t.rows| {
        UpdateKeepsInv(t, i, t.rows[i].(clip := t.rows[i].clip.(pinned := pinned, hlc := hlc)));
      }
    case DeleteOp(id, hlc, now) => DeleteKeepsInv(t, id, hlc, now);
    case PurgeOp(now, olderThan) => PurgeKeepsInv(t, now, olderThan);
  }

  /** Over every run of insert, set_pinned, delete and purge: one live row per hash, and exactly one
      index entry, holding the clip's text, for each live row. */
  lemma {:induction false} EveryRunKeepsInv(ops: seq<Op>)
    ensures Inv(Run(ops))
  {
    if ops != [] {
      EveryRunKeepsInv(ops[..|ops| - 1]);
      StepKeepsInv(Run(ops[..|ops| - 1]), ops[|ops| - 1]);
    }
  }

  // ---- search -------------------------------------------------------------

  datatype Query = Query(limit: nat, offset: nat, kind: Option<Kind>, pinnedOnly: bool)

  predicate Selected(r: Row, q: Query)
  {
    !r.clip.deleted && (q.kind.None? || q.kind.value == r.clip.kind) && (!q.pinnedOnly || r.clip.pinned)
  }

  function Page(rows: seq<Row>, q: Query): (r: seq<Row>)
  {
    var sorted := Sort(rows, NewestFirst);
    var from := if q.offset < |sorted| then q.offset else |sorted|;
    var to := if q.offset + q.limit < |sorted| then q.offset + q.limit else |sorted|;
    sorted[from..to]
  }

  predicate IndexHit(index: seq<Entry>, id: ClipId, matches: string -> bool)
  {
    exists i :: 0 <= i < |index| && index[i].id == id && matches(index[i].body)
  }

  /** `matches` is the full-text expression; `None` is a search text with nothing to look for. */
  function Search(t: Tables, matches: Option<string -> bool>, q: Query): (r: seq<Row>)
  {
    if matches.None? then [] else
    Page(Filter(t.rows, (r: Row) => Selected(r, q) && IndexHit(t.index, r.clip.id, matches.value)), q)
  }

  /** The reference: look at the text of every live row. */
  function Scan(t: Tables, matches: Option<string -> bool>, q: Query): (r: seq<Row>)
  {
    if matches.None? then [] else
    Page(Filter(t.rows, (r: Row) => Selected(r, q) && matches.value(BodyText(r.clip))), q)
  }

  lemma {:induction false} IndexHitIsBodyMatch(t: Tables, r: Row, matches: string -> bool)
    requires Inv(t) && r in t.rows && !r.clip.deleted
    ensures IndexHit(t.index, r.clip.id, matches) <==> matches(BodyText(r.clip))
  {
    var e :| e in t.index && Backs(r, e);
    var k :| 0 <= k < |t.index| && t.index[k] == e;
    forall i | 0 <= i < |t.index| && t.index[i].id == r.clip.id ensures i == k { }
  }

  /** Indexed search returns exactly what a scan of the live rows would, in the same order. */
  lemma {:induction false} SearchIsScan(t: Tables, matches: Option<string -> bool>, q: Query)
    requires Inv(t)
    ensures Search(t, matches, q) == Scan(t, matches, q)
  {
    if matches.Some? {
      var hit := (r: Row) => Selected(r, q) && IndexHit(t.index, r.clip.id, matches.value);
      var has := (r: Row) => Selected(r, q) && matches.value(BodyText(r.clip));
      forall r | r in t.rows ensures hit(r) == has(r) {
        if !r.clip.deleted { IndexHitIsBodyMatch(t, r, matches.value); }
      }
      FilterCongruent(t.rows, hit, has);
    }
  }

  // ---- what the operations mean -------------------------------------------

  /** After inserting a live clip its content is found under the clip's own stamp, time and source.
      Copying known content again refreshes the one live row, whatever its stamp was, and keeps its id,
      pin and payloads; new content, or content known only as a tombstone, adds a row. No other row changes. */
  lemma {:induction false} InsertIsFound(t: Tables, clip: Clip)
    requires Inv(t) && !clip.deleted
    ensures var (t', outcome) := Insert(t, clip);
      outcome.Inserted? || outcome.Deduplicated? ==>
        var i := LiveRow(t'.rows, clip.hash);
        && i < |t'.rows| && t'.rows[i].clip.id == outcome.id
        && t'.rows[i].clip.hlc == clip.hlc && t'.rows[i].clip.createdAt == clip.createdAt && t'.rows[i].clip.source == clip.source
        && (outcome.Deduplicated? ==>
              && |t'.rows| == |t.rows| && t'.index == t.index && SameContent(t.rows[i], t'.rows[i])
              && t'.rows[i].clip.pinned == t.rows[i].clip.pinned
              && forall k :: 0 <= k < |t.rows| && k != i ==> t'.rows[k] == t.rows[k])
        && (outcome.Inserted? ==> i == |t.rows| && t'.rows[..i] == t.rows && t'.rows[i].clip.payloads == Sort(clip.payloads, LabelLe))
  {
    hide Sort, LabelLe, BodyText;
    var (t', outcome) := Insert(t, clip);
    if outcome.Deduplicated? {
      var i := LiveRow(t.rows, clip.hash);
      assert t'.rows[i] in t'.rows;
      assert LiveRow(t'.rows, clip.hash) == i;
    } else if outcome.Inserted? {
      var n := |t.rows|;
      assert t'.rows[n] in t'.rows;
      var i := LiveRow(t'.rows, clip.hash);
      assert forall k :: 0 <= k < n ==> t.rows[k] in t.rows;
      assert i == n;
    }
  }

  /** What a search returns is live. */
  lemma {:induction false} ScanIsLive(t: Tables, matches: Option<string -> bool>, q: Query, r: Row)
    requires r in Scan(t, matches, q)
    ensures r in t.rows && !r.clip.deleted
  {
    hide BodyText, NewestFirst;
    var has := (x: Row) => Selected(x, q) && matches.value(BodyText(x.clip));
    var hits := Filter(t.rows, has);
    assert r in Page(hits, q);
    assert r in Sort(hits, NewestFirst);
    SortMembers(hits, NewestFirst, r);
    var j :| 0 <= j < |hits| && hits[j] == r;
    assert has(hits[j]) && Selected(hits[j], q);
  }

  lemma {:induction false} DeleteEntombs(t: Tables, id: ClipId, hlc: Hlc, now: nat)
    requires IdsDistinct(t.rows)
    ensures var (t', found) := Delete(t, id, hlc, now);
      && (found <==> exists r :: r in t.rows && r.clip.id == id)
      && |t'.rows| == |t.rows|
      && forall k :: 0 <= k < |t.rows| ==>
           if t.rows[k].clip.id == id then t'.rows[k].clip.deleted && t'.rows[k].clip.id == id else t'.rows[k] == t.rows[k]
  {
    hide Filter;
    var i := RowById(t.rows, id);
    assert forall k :: 0 <= k < |t.rows| ==> t.rows[k] in t.rows;
  }

  /** A deleted clip is found by no search, and no other row changes. */
  lemma {:induction false} DeletedIsGone(t: Tables, id: ClipId, hlc: Hlc, now: nat, matches: Option<string -> bool>, q: Query)
    requires Inv(t)
    ensures var (t', found) := Delete(t, id, hlc, now);
      && (found <==> exists r :: r in t.rows && r.clip.id == id)
      && |t'.rows| == |t.rows| && (forall k :: 0 <= k < |t.rows| && t.rows[k].clip.id != id ==> t'.rows[k] == t.rows[k])
      && forall r :: r in Search(t', matches, q) ==> r.clip.id != id
  {
    assert IdsDistinct(t.rows);
    hide Inv, Delete, Search, Scan, IdsDistinct;
    var t' := Delete(t, id, hlc, now).0;
    DeleteKeepsInv(t, id, hlc, now);
    DeleteEntombs(t, id, hlc, now);
    SearchIsScan(t', matches, q);
    forall r | r in Search(t', matches, q) ensures r.clip.id != id {
      ScanIsLive(t', matches, q, r);
      var k :| 0 <= k < |t'.rows| && t'.rows[k] == r;
    }
  }

  /** Deleted at a known time, at least `olderThan` ago; time zero always qualifies. */
  predicate OldEnough(deletedAt: Option<nat>, now: nat, olderThan: nat)
  {
    deletedAt.Some? && (deletedAt.value == 0 || deletedAt.value + olderThan <= now)
  }

  /** Purging removes exactly the tombstones old enough, and no search can tell. */
  lemma {:induction false} PurgeIsInvisible(t: Tables, now: nat, olderThan: nat, matches: Option<string -> bool>, q: Query)
    requires Inv(t)
    ensures var t' := Purge(t, now, olderThan);
      && Search(t', matches, q) == Search(t, matches, q)
      && (forall r :: r in t'.rows <==> r in t.rows && !(r.clip.deleted && OldEnough(r.deletedAt, now, olderThan)))
  {
    hide Inv, Purge, Search, Scan;
    PurgeKeepsInv(t, now, olderThan);
    SearchIsScan(Purge(t, now, olderThan), matches, q);
    SearchIsScan(t, matches, q);
    PurgeKeepsScan(t, now, olderThan, matches, q);
    PurgedRows(t, now, olderThan);
  }

  lemma {:induction false} PurgeKeepsScan(t: Tables, now: nat, olderThan: nat, matches: Option<string -> bool>, q: Query)
    ensures Scan(Purge(t, now, olderThan), matches, q) == Scan(t, matches, q)
  {
    hide Page;
    var cutoff := if now < olderThan then 0 else now - olderThan;
    if matches.Some? {
      var keep := (r: Row) => !Purgeable(r, cutoff);
      var has := (r: Row) => Selected(r, q) && matches.value(BodyText(r.clip));
      forall r: Row ensures has(r) <==> keep(r) && has(r) { }
      FilterTwice(t.rows, keep, has, has);
    }
  }

  lemma {:induction false} PurgedRows(t: Tables, now: nat, olderThan: nat)
    ensures forall r :: r in Purge(t, now, olderThan).rows <==> r in t.rows && !(r.clip.deleted && OldEnough(r.deletedAt, now, olderThan))
  {
    hide Filter;
  }

  // ---- the order of the sync cursor ---------------------------------------

  function HexCode(n: nat): (r: int)
    requires n < 16
  {
    if n < 10 then 48 + n else 87 + n
  }

  function HexPair(b: Byte): (r: seq<int>)
    ensures |r| == 2
  {
    [HexCode(b / 16), HexCode(b % 16)]
  }

  function Separator(i: nat): (r: seq<int>)
  {
    if i == 4 || i == 6 || i == 8 || i == 10 then [45] else []
  }

  /** `Uuid::to_string` from byte `i` on: two lowercase hex digits a byte, hyphens before bytes 4, 6, 8 and 10. */
  function UuidTextFrom(d: DeviceId, i: nat): (r: seq<int>)
    requires i <= |d|
    decreases |d| - i
  {
    if i == |d| then [] else Separator(i) + HexPair(d[i]) + UuidTextFrom(d, i + 1)
  }

  function UuidText(d: DeviceId): (r: seq<int>)
  {
    UuidTextFrom(d, 0)
  }

  /** A `u64` written to a signed column. */
  function AsI64(w: Wall): (r: int)
  {
    if w < 0x8000_0000_0000_0000 then w else w - U64_LIMIT
  }

  /** The order of the three HLC columns, as SQLite compares them. */
  predicate SqlLess(a: Hlc, b: Hlc)
  {
    AsI64(a.wall) < AsI64(b.wall) || (AsI64(a.wall) == AsI64(b.wall) &&
    (a.counter < b.counter || (a.counter == b.counter && LexLess(UuidText(a.device), UuidText(b.device)))))
  }

  predicate OldestFirst(a: Row, b: Row) { !SqlLess(b.clip.hlc, a.clip.hlc) }
  predicate NewestFirst(a: Row, b: Row) { !SqlLess(a.clip.hlc, b.clip.hlc) }

  function Take<T>(s: seq<T>, n: nat): (r: seq<T>)
    ensures r == if n < |s| then s[..n] else s
  {
    if n < |s| then s[..n] else s
  }

  function PastCursor(cursor: Option<Hlc>): Row -> bool
  {
    (r: Row) => cursor.None? || SqlLess(cursor.value, r.clip.hlc)
  }

  /** `changes_since`: the rows strictly past the cursor, oldest first, at most `limit` of them. */
  function ChangesSince(rows: seq<Row>, cursor: Option<Hlc>, limit: nat): (r: seq<Row>)
  {
    Take(Sort(Filter(rows, PastCursor(cursor)), OldestFirst), limit)
  }

  function MaxHlc(rows: seq<Row>): (r: Option<Hlc>)
    ensures r.None? <==> rows == []
  {
    if rows == [] then None else Some(Sort(rows, NewestFirst)[0].clip.hlc)
  }
}
