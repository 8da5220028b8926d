/** One endpoint of a sync session against any peer (crates/clipsed/src/sync.rs). The peer may send anything
    at any time and other users may change the store in between; what the endpoint says is about its own
    store, what it accepts is one kind of message at a time, and its store stays true. */
module AnyPeer {
  import opened Bytes
  import opened HybridClock
  import opened ContentHashes
  import opened Sorting
  import opened ClipTables
  import Blob = BlobTables
  import opened SyncSession
  import opened SessionTurns
  import opened SessionStores
  import opened Histories
  import L = LiveRuns
  import Paging
  import HistorySearch

  // ---- what an endpoint says --------------------------------------------------

  /** The stamp no row's is past, in the order of the columns. */
  ghost predicate NewestStamp(rows: seq<Row>, newest: Option<Hlc>)
  {
    && (newest.None? <==> rows == [])
    && (newest.Some? ==>
          && (exists i :: 0 <= i < |rows| && rows[i].clip.hlc == newest.value)
          && (forall i :: 0 <= i < |rows| ==> !SqlLess(newest.value, rows[i].clip.hlc)))
  }

  lemma {:induction false} MaxIsNewest(rows: seq<Row>)
    ensures NewestStamp(rows, MaxHlc(rows))
  {
    if rows != [] {
      HistorySearch.NewestFirstIsTotal();
      SortSorts(rows, NewestFirst);
      var s := Sort(rows, NewestFirst);
      SortMembers(rows, NewestFirst, s[0]);
      hide Sort, SqlLess;
      Paging.SqlTotal(s[0].clip.hlc, s[0].clip.hlc);
      forall i | 0 <= i < |rows| ensures !SqlLess(s[0].clip.hlc, rows[i].clip.hlc) {
        SortMembers(rows, NewestFirst, rows[i]);
        var k :| 0 <= k < |s| && s[k] == rows[i];
        if k > 0 { assert NewestFirst(s[0], s[k]); }
      }
    }
  }

  /** A greeting names this device, version 1 and the newest stamp of the history; an acknowledgement the newest
      stamp, or one of the clock if there is no history; a blob is the file asked for, or empty. */
  lemma {:induction false} SaysWhatItHolds(l: Endpoint)
    requires Next(l).ToSend?
    ensures var m, rows, files := Next(l).msg, l.disk.tables.rows, l.disk.blobs.files;
      && (m.Hello? ==> m.device == l.cfg.device && m.protocol == 1 && NewestStamp(rows, m.maxHlc))
      && (m.Ack? ==> if rows == [] then m.hlc == l.cfg.stamp else NewestStamp(rows, Some(m.hlc)))
      && (m.BlobStream? ==> l.phase.SendBlob? && l.phase.digests != [])
      && (m.BlobStream? ==> m.bytes == if l.phase.digests[0] in files then files[l.phase.digests[0]] else [])
  {
    MaxIsNewest(l.disk.tables.rows);
    hide NewestStamp, MaxHlc;
  }

  /** A summary describes a clip: its content, stamp, kind, flags and the bytes of all its payloads. */
  predicate Describes(s: Summary, c: Clip)
  {
    && s.hash == c.hash && s.hlc == c.hlc && s.kind == c.kind && s.pinned == c.pinned && s.deleted == c.deleted
    && s.totalSize == Sum(SizesOf(c.payloads))
  }

  function SizesOf(ps: seq<Payload>): (r: seq<nat>)
    ensures |r| == |ps| && forall i :: 0 <= i < |ps| ==> r[i] == ps[i].size
  {
    seq(|ps|, i requires 0 <= i < |ps| => ps[i].size)
  }

  lemma {:induction false} SizeIsSum(ps: seq<Payload>)
    ensures TotalSize(ps) == Sum(SizesOf(ps))
  {
    if ps != [] {
      SizeIsSum(ps[1..]);
      assert SizesOf(ps)[1..] == SizesOf(ps[1..]);
    }
  }

  /** Pages of at most 200, all but the last of them full. */
  lemma {:induction false} PagesAreFull(s: seq<Summary>, n: nat)
    requires n > 0
    ensures var pages := Pages(s, n);
      && (forall i :: 0 <= i < |pages| ==> |pages[i]| <= n && (i < |pages| - 1 ==> |pages[i]| == n))
      && (|pages| > 1 ==> |pages[|pages| - 1]| > 0)
    decreases |s|
  {
    if |s| > n { PagesAreFull(s[n..], n); }
  }

  /** The history an endpoint offers: each row once, oldest first, in pages of at most 200. */
  lemma {:induction false} OffersItsHistory(l: Endpoint)
    requires |l.disk.tables.rows| <= SUMMARY_LIMIT
    ensures var pages, rows := BeginOffer(l).phase.pages, l.disk.tables.rows;
      var told, order := Flat(pages), Sort(rows, OldestFirst);
      && (forall i :: 0 <= i < |pages| ==> |pages[i]| <= 200 && (i < |pages| - 1 ==> |pages[i]| == 200))
      && |told| == |rows| && multiset(order) == multiset(rows)
      && (forall i :: 0 <= i < |told| ==> Describes(told[i], order[i].clip))
      && (forall i, j :: 0 <= i < j < |told| ==> !SqlLess(told[j].hlc, told[i].hlc))
  {
    var t := l.disk.tables;
    hide Pages, Sort, Flat, SqlLess, Summaries, Describes;
    PagesFlatten(Summaries(t), SUMMARY_PAGE);
    PagesAreFull(Summaries(t), SUMMARY_PAGE);
    SummariesTell(t);
  }

  lemma {:induction false} SummariesTell(t: Tables)
    requires |t.rows| <= SUMMARY_LIMIT
    ensures var told, order := Summaries(t), Sort(t.rows, OldestFirst);
      && |told| == |t.rows| && multiset(order) == multiset(t.rows)
      && (forall i :: 0 <= i < |told| ==> Describes(told[i], order[i].clip))
      && (forall i, j :: 0 <= i < j < |told| ==> !SqlLess(told[j].hlc, told[i].hlc))
  {
    var sums, order := Summaries(t), Sort(t.rows, OldestFirst);
    assert ChangesSince(t.rows, None, SUMMARY_LIMIT) == order by { FilterAll(t.rows, PastCursor(None)); }
    SortPermutes(t.rows, OldestFirst);
    hide Sort, SqlLess, Filter, TotalSize, Sum, SizesOf, ChangesSince;
    Paging.OldestFirstIsTotal();
    SortSorts(t.rows, OldestFirst);
    forall i | 0 <= i < |sums| ensures Describes(sums[i], order[i].clip) { SizeIsSum(order[i].clip.payloads); }
    forall i, j | 0 <= i < j < |sums| ensures !SqlLess(sums[j].hlc, sums[i].hlc) { assert OldestFirst(order[i], order[j]); }
  }

  // ---- what an endpoint accepts -----------------------------------------------

  /** The one kind of message a waiting endpoint goes on with. */
  predicate Expected(l: Endpoint, m: Msg)
  {
    match l.phase
    case AwaitHello => m.Hello? && m.protocol == 1 && m.device == l.cfg.peer
    case AwaitWant => m.Want?
    case AwaitBlobWant => m.Want?
    case AwaitAck => m.Ack?
    case TakeSummary(_) => m.SummaryPage?
    case TakePush(left, _) => m.Push? && left > 0
    case TakeBlob(awaited, _) => m.BlobStream? && awaited != []
    case _ => false
  }

  function WhyNot(l: Endpoint, m: Msg): Error
  {
    if !(l.phase.AwaitHello? && m.Hello?) then Unexpected else if m.protocol != 1 then ProtocolMismatch else IdentityMismatch
  }

  /** Anything else ends the session on this side, for the reason it should; what is expected ends it only if
      the store fails on a clip. */
  lemma {:induction false} OnlyTheExpected(l: Endpoint, m: Msg)
    requires Next(l).ToReceive?
    ensures var r := Received(l, m);
      && (!Expected(l, m) ==> r == l.(phase := Aborted(WhyNot(l, m))))
      && (Expected(l, m) && r.phase.Aborted? ==> r.phase == Aborted(StoreError) && m.Push?)
  {
    hide Summaries, Pages, Wanted, Serve, TakeIn, Needed, Blob.PutBlob;
  }

  // ---- every run against any peer ----------------------------------------------

  /** Something that happens to an endpoint: it says what it has to, hears anything, or its store changes. */
  datatype Happening = Say | Hear(msg: Msg) | Meanwhile(change: L.Change)

  predicate Can(l: Endpoint, h: Happening)
  {
    match h
    case Say => Next(l).ToSend?
    case Hear(m) => Next(l) == ToReceive(StreamOf(m))
    case Meanwhile(_) => true
  }

  function Upon(l: Endpoint, h: Happening): (r: Endpoint)
  {
    match h
    case Say => Sent(l)
    case Hear(m) => Received(l, m)
    case Meanwhile(c) => L.Changed(l, c)
  }

  ghost function Lived(l: Endpoint, life: seq<Happening>): (r: Endpoint)
    decreases |life|
  {
    if life == [] then l else Upon(Lived(l, life[..|life| - 1]), life[|life| - 1])
  }

  ghost predicate Possible(l: Endpoint, life: seq<Happening>)
    decreases |life|
  {
    life != [] ==> Possible(l, life[..|life| - 1]) && Can(Lived(l, life[..|life| - 1]), life[|life| - 1])
  }

  predicate Greeted(life: seq<Happening>, peer: DeviceId)
  {
    exists i :: 0 <= i < |life| && life[i].Hear? && life[i].msg.Hello? && life[i].msg.device == peer && life[i].msg.protocol == 1
  }

  /** What one happening does to the greeting. */
  lemma {:induction false} GreetingStep(l: Endpoint, h: Happening)
    requires Can(l, h)
    ensures var r := Upon(l, h);
      && r.cfg == l.cfg
      && (l.phase.AwaitHello? && !r.phase.AwaitHello? && !r.phase.Aborted? ==>
            h.Hear? && h.msg.Hello? && h.msg.device == l.cfg.peer && h.msg.protocol == 1)
      && (l.phase.SendHello? && l.cfg.role.Dialler? ==> r.phase.AwaitHello? || r.phase == l.phase)
      && (r.phase.SendHello? ==> l.phase.SendHello? || (l.phase.AwaitHello? && l.cfg.role.Responder?))
      && (r.phase.AwaitHello? ==> l.phase.AwaitHello? || (l.phase.SendHello? && l.cfg.role.Dialler?))
      && (l.phase.Aborted? ==> r.phase.Aborted?)
  {
    hide Summaries, Pages, Wanted, Serve, TakeIn, Needed, Blob.PutBlob, Blob.ReadBlob, ClipTables.Step, Blob.Step, MaxHlc;
  }

  /** Nothing of the history leaves an endpoint, and nothing comes in, before the peer it was set up for has
      greeted it in this version: until then it has only its own greeting to say. */
  lemma {:induction false} NothingBeforeTheGreeting(cfg: Config, disk: Disk, life: seq<Happening>)
    requires Possible(Start(cfg, disk), life)
    ensures var l := Lived(Start(cfg, disk), life);
      && l.cfg == cfg
      && (Greeted(life, cfg.peer) || l.phase.Aborted? || l.phase.AwaitHello? || (l.phase.SendHello? && cfg.role.Dialler?))
    ensures var l := Lived(Start(cfg, disk), life);
      !Greeted(life, cfg.peer) && Next(l).ToSend? ==> Next(l).msg.Hello?
    decreases |life|
  {
    hide Upon, Can, Possible, MaxHlc;
    if life != [] {
      var front, h := life[..|life| - 1], life[|life| - 1];
      assert Possible(Start(cfg, disk), front) && Can(Lived(Start(cfg, disk), front), h) by { PossibleSoFar(Start(cfg, disk), life); }
      NothingBeforeTheGreeting(cfg, disk, front);
      GreetingStep(Lived(Start(cfg, disk), front), h);
      if Greeted(front, cfg.peer) {
        var i :| 0 <= i < |front| && front[i].Hear? && front[i].msg.Hello? && front[i].msg.device == cfg.peer && front[i].msg.protocol == 1;
        assert life[i] == front[i];
      }
    }
  }

  lemma {:induction false} PossibleSoFar(l: Endpoint, life: seq<Happening>)
    requires Possible(l, life) && life != []
    ensures Possible(l, life[..|life| - 1]) && Can(Lived(l, life[..|life| - 1]), life[|life| - 1])
  {
    hide Can, Lived;
  }

  // ---- the store stays true ----------------------------------------------------

  /** The tables are consistent, the cache is, and every file hashes to its name. */
  ghost predicate StoreTrue(disk: Disk)
  {
    ClipTables.Inv(disk.tables) && Blob.Inv(disk.blobs) && FilesTrue(disk.blobs.files)
  }

  ghost predicate FilesTrue(files: map<ContentHash, seq<Byte>>)
  {
    forall d :: d in files ==> OfBytes(files[d]) == d
  }

  /** Other users put blobs under their own digest, as `put_blob` is called everywhere. */
  predicate Careful(h: Happening)
  {
    h.Meanwhile? && h.change.OnBlobs? && h.change.blobOp.PutOp? ==> OfBytes(h.change.blobOp.bytes) == h.change.blobOp.digest
  }

  lemma {:induction false} BlobStepStaysTrue(b: Blob.Blobs, op: Blob.Op)
    requires Blob.Inv(b) && FilesTrue(b.files) && (op.PutOp? ==> OfBytes(op.bytes) == op.digest)
    ensures Blob.Inv(Blob.Step(b, op)) && FilesTrue(Blob.Step(b, op).files)
  {
    Blob.StepKeepsInv(b, op);
    hide Blob.Inv, Blob.Touch, Blob.MetaOf, Blob.Candidates, Blob.EvictCount, Blob.Total, Filter, Blob.MaxSeq;
  }

  /** Applying any clip, from anyone, keeps the tables consistent. */
  lemma {:induction false} ApplyKeepsInv(t: Tables, clip: Clip, now: nat)
    requires ClipTables.Inv(t)
    ensures ClipTables.Inv(Apply(t, clip, now).0)
    ensures !HashMatches(clip) ==> Apply(t, clip, now) == (t, Refused)
  {
    InsertKeepsInv(t, clip);
    var local := Find(t, clip.hash);
    if local.Some? { UpdateSameKeys(t, local.value.id, clip.pinned, clip.deleted, clip.hlc, now); }
    hide ClipTables.Inv, Insert, ApplyUpdate, Find, HashMatches, Less;
  }

  lemma {:induction false} TakeInKeepsInv(i: Intake, clip: Clip, now: nat)
    requires ClipTables.Inv(i.tables)
    ensures ClipTables.Inv(TakeIn(i, clip, now).tables)
  {
    ApplyKeepsInv(i.tables, clip, now);
    hide ClipTables.Inv, Apply, BlobDigests, Less;
  }

  lemma {:induction false} SayStaysTrue(l: Endpoint)
    requires StoreTrue(l.disk) && Next(l).ToSend?
    ensures StoreTrue(Sent(l).disk)
  {
    if l.phase.SendBlob? { BlobStepStaysTrue(l.disk.blobs, Blob.ReadOp(l.phase.digests[0])); }
    hide ClipTables.Inv, Blob.Inv, FilesTrue, Summaries, Pages, Needed, MaxHlc, Blob.ReadBlob;
  }

  lemma {:induction false} HearBlobStaysTrue(l: Endpoint, bytes: seq<Byte>)
    requires StoreTrue(l.disk) && l.phase.TakeBlob?
    ensures StoreTrue(Received(l, BlobStream(bytes)).disk)
  {
    hide ClipTables.Inv, Blob.Inv, FilesTrue, Blob.PutBlob;
    var awaited := l.phase.awaited;
    if awaited != [] && OfBytes(bytes) == awaited[0] {
      BlobStepStaysTrue(l.disk.blobs, Blob.PutOp(awaited[0], bytes));
    }
  }

  lemma {:induction false} HearClipStaysTrue(l: Endpoint, clip: Clip)
    requires StoreTrue(l.disk) && l.phase.TakePush?
    ensures StoreTrue(Received(l, Push(clip)).disk)
  {
    hide ClipTables.Inv, Blob.Inv, FilesTrue, TakeIn, Needed;
    var taken := l.phase.taken;
    TakeInKeepsInv(taken.(tables := l.disk.tables), clip, l.cfg.clock(taken.received + taken.rejected));
  }

  lemma {:induction false} HearStaysTrue(l: Endpoint, m: Msg)
    requires StoreTrue(l.disk)
    ensures StoreTrue(Received(l, m).disk)
  {
    hide StoreTrue, Summaries, Pages, Needed, Serve, Wanted, TakeIn, Blob.PutBlob;
    if l.phase.TakeBlob? && m.BlobStream? {
      HearBlobStaysTrue(l, m.bytes);
      hide Received;
    } else if l.phase.TakePush? && m.Push? {
      HearClipStaysTrue(l, m.clip);
      hide Received;
    } else {
      assert Received(l, m).disk == l.disk;
    }
  }

  lemma {:induction false} MeanwhileStaysTrue(l: Endpoint, c: L.Change)
    requires StoreTrue(l.disk) && Careful(Meanwhile(c))
    ensures StoreTrue(L.Changed(l, c).disk)
  {
    match c
    case OnClips(op) =>
      StepKeepsInv(l.disk.tables, op);
      hide ClipTables.Inv, ClipTables.Step, Blob.Inv;
    case OnBlobs(op) =>
      BlobStepStaysTrue(l.disk.blobs, op);
      hide ClipTables.Inv, Blob.Inv, Blob.Step;
  }

  /** Whatever a peer sends, and whatever else happens: the store stays true. No clip of a peer breaks the
      tables, and no blob is kept that does not hash to its name. */
  lemma {:induction false} StoreStaysTrue(l: Endpoint, life: seq<Happening>)
    requires StoreTrue(l.disk) && Possible(l, life) && forall i :: 0 <= i < |life| ==> Careful(life[i])
    ensures StoreTrue(Lived(l, life).disk)
    decreases |life|
  {
    hide StoreTrue, Sent, Received, L.Changed, Next, Careful;
    if life != [] {
      var front, h := life[..|life| - 1], life[|life| - 1];
      StoreStaysTrue(l, front);
      var before := Lived(l, front);
      match h
      case Say => SayStaysTrue(before);
      case Hear(m) => HearStaysTrue(before, m);
      case Meanwhile(c) => MeanwhileStaysTrue(before, c);
    }
  }

  // ---- what is counted ---------------------------------------------------------

  /** A clip counts as received exactly when it has changed the history, else as rejected. */
  lemma {:induction false} CountedIfChanged(i: Intake, clip: Clip, now: nat)
    requires ClipTables.Inv(i.tables) && !Apply(i.tables, clip, now).1.Failed?
    ensures var r := TakeIn(i, clip, now);
      if r.tables == i.tables then r == i.(rejected := i.rejected + 1)
      else r.received == i.received + 1 && r.rejected == i.rejected
  {
    RefusalChangesNothing(i.tables, clip, now);
    if !Apply(i.tables, clip, now).1.Refused? { TakenChanges(i.tables, clip, now); }
    hide ClipTables.Inv, Apply, BlobDigests, Less;
  }

  lemma {:induction false} TakenChanges(t: Tables, clip: Clip, now: nat)
    requires ClipTables.Inv(t) && !Apply(t, clip, now).1.Failed? && !Apply(t, clip, now).1.Refused?
    ensures Apply(t, clip, now).0.rows != t.rows
  {
    assert IdsDistinct(t.rows);
    var local := Find(t, clip.hash);
    if local.None? {
      assert LiveRow(t.rows, clip.hash) == |t.rows|;
      hide ClipTables.Inv, IdsDistinct, HashMatches, Less, Sort, BodyText, DistinctLabels, Find, LiveRow;
      assert |Apply(t, clip, now).0.rows| == |t.rows| + 1;
    } else {
      var i := LookupAny(t.rows, clip.hash);
      hide ClipTables.Inv, IdsDistinct, HashMatches, Less, Insert, ApplyUpdate, LookupAny;
      UpdateEffectOnRows(t, i, clip.pinned, clip.deleted, clip.hlc, now);
      StampOrderIsTotal(clip.hlc, clip.hlc);
      assert Apply(t, clip, now).0.rows[i].clip.hlc == clip.hlc;
    }
  }

  // ---- what identifies content ---------------------------------------------------

  /** Two clips under one hash: if one hashes to its payloads, the other does exactly if it has the same labels
      and digests in the same order. */
  lemma {:induction false} HashFixesPayloads(a: Clip, b: Clip)
    requires HashMatches(a) && a.hash == b.hash
    ensures HashMatches(b) <==>
      |a.payloads| == |b.payloads| && forall i :: 0 <= i < |a.payloads| ==>
        a.payloads[i].format == b.payloads[i].format && a.payloads[i].digest == b.payloads[i].digest
  {
    var p, q := PartsOf(a.payloads), PartsOf(b.payloads);
    if HashMatches(b) {
      forall i | 0 <= i < |a.payloads| ensures a.payloads[i].format == b.payloads[i].format && a.payloads[i].digest == b.payloads[i].digest { assert p[i] == q[i]; }
    }
    if |a.payloads| == |b.payloads| && forall i :: 0 <= i < |a.payloads| ==>
        a.payloads[i].format == b.payloads[i].format && a.payloads[i].digest == b.payloads[i].digest {
      assert p == q;
    }
  }

  /** And the store refuses a clip as not hashing to its payloads exactly when it does not. */
  lemma {:induction false} RejectedIff(t: Tables, clip: Clip)
    ensures Insert(t, clip).1.Rejected? <==> !HashMatches(clip)
    ensures Insert(t, clip).1.Rejected? ==> Insert(t, clip).0 == t
  {
    hide HashMatches;
  }
}
