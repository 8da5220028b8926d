/** Which blobs a session asks for, and what becomes of one that does not arrive
    (crates/clipsed/src/sync.rs). */
module BlobRequests {
  import opened Bytes
  import opened HybridClock
  import opened ContentHashes
  import Sorting
  import opened ClipTables
  import Blob = BlobTables
  import opened SyncSession
  import opened SessionTurns
  import opened SessionStores
  import opened Histories
  import opened Convergence
  import LiveTheorems
  import Theorems = SessionTheorems

  /** A store that says `ours` of a clip's content takes the clip in. */
  predicate TakesOver(ours: Option<Sight>, clip: Clip)
  {
    HashMatches(clip) && (ours.None? || Less(ours.value.flags.hlc, clip.hlc))
  }

  lemma {:induction false} TakenIff(t: Tables, clip: Clip, now: nat)
    requires !Apply(t, clip, now).1.Failed?
    ensures Apply(t, clip, now).1.Refused? <==> !TakesOver(See(t, clip.hash), clip)
  {
    hide HashMatches, Less, Insert, ApplyUpdate, Find;
  }

  /** Some clip of the list is taken over by the store and names the blob. */
  ghost predicate NamedByTaken(t: Tables, clips: seq<Clip>, d: ContentHash)
  {
    exists i :: 0 <= i < |clips| && TakesOver(See(t, clips[i].hash), clips[i]) && d in BlobDigests(clips[i].payloads)
  }

  /** The offerer sends one clip for a content, however often; so what is taken after the first is either of
      other contents or was named by the first already. */
  lemma {:induction false} NamedByRest(t: Tables, t': Tables, clips: seq<Clip>, d: ContentHash)
    requires clips != [] && forall i :: 0 < i < |clips| && clips[i].hash == clips[0].hash ==> clips[i] == clips[0]
    requires forall h :: h != clips[0].hash ==> See(t', h) == See(t, h)
    requires !TakesOver(See(t, clips[0].hash), clips[0]) ==> t' == t
    ensures NamedByTaken(t, clips, d) <==>
      (TakesOver(See(t, clips[0].hash), clips[0]) && d in BlobDigests(clips[0].payloads)) || NamedByTaken(t', clips[1..], d)
  {
    hide See, TakesOver, BlobDigests;
    var rest := clips[1..];
    if NamedByTaken(t', rest, d) {
      var i :| 0 <= i < |rest| && TakesOver(See(t', rest[i].hash), rest[i]) && d in BlobDigests(rest[i].payloads);
      assert rest[i] == clips[i + 1];
      assert TakesOver(See(t, clips[i + 1].hash), clips[i + 1]);
    }
    if NamedByTaken(t, clips, d) {
      var i :| 0 <= i < |clips| && TakesOver(See(t, clips[i].hash), clips[i]) && d in BlobDigests(clips[i].payloads);
      if i > 0 { assert rest[i - 1] == clips[i]; }
    }
  }

  lemma {:induction false} OneTaken(taken: Intake, clip: Clip, now: nat)
    requires !Apply(taken.tables, clip, now).1.Failed? && !taken.failed
    ensures var next := TakeIn(taken, clip, now);
      && !next.failed && next.tables == Apply(taken.tables, clip, now).0
      && (!TakesOver(See(taken.tables, clip.hash), clip) ==> next.tables == taken.tables)
      && next.missing == taken.missing + if TakesOver(See(taken.tables, clip.hash), clip) then BlobDigests(clip.payloads) else []
  {
    TakenIff(taken.tables, clip, now);
    RefusalChangesNothing(taken.tables, clip, now);
    hide Apply, TakesOver, See, BlobDigests, Less;
  }

  /** The blobs missing after the clips an offerer answers with: those that were, and those of the clips that
      were taken in. */
  lemma {:induction false} MissingIff(cfg: Config, o: Tables, taken: Intake, clips: seq<Clip>, d: ContentHash)
    requires Ready(o, taken.tables) && !taken.failed
    requires forall i :: 0 <= i < |clips| ==> FromRows(o, clips[i]) && Find(o, clips[i].hash) == Some(clips[i])
    ensures d in ReceiveAll(cfg, taken, clips).missing <==> d in taken.missing || NamedByTaken(taken.tables, clips, d)
    decreases |clips|
  {
    hide Ready, FromRows, Apply, See, Held, BlobDigests, TakesOver, TakeIn, Find, Surplus;
    if clips != [] {
      var now := cfg.clock(taken.received + taken.rejected);
      ApplyEffect(o, taken.tables, clips[0], now);
      ApplySees(o, taken.tables, clips[0], now);
      OneTaken(taken, clips[0], now);
      var next := TakeIn(taken, clips[0], now);
      MissingIff(cfg, o, next, clips[1..], d);
      hide ReceiveAll, NamedByTaken;
      NamedByRest(taken.tables, next.tables, clips, d);
    }
  }

  /** The blobs the taker of a turn asks for. */
  function Asked(o: Endpoint, t: Endpoint): (r: seq<ContentHash>)
  {
    OwedBlobs(EnterTaking(t, 0, Settled(t.cfg, o.disk.tables, t.disk.tables)))
  }

  /** The offerer holds a clip that the taker takes over and that keeps this blob, which the taker lacks. */
  ghost predicate Fetches(o: Disk, t: Disk, d: ContentHash)
  {
    && d !in t.blobs.files
    && exists h :: (var c := Find(o.tables, h); c.Some? && TakesOver(See(t.tables, h), c.value) && NamesBlob(c.value, d))
  }

  /** Exactly which blobs a turn asks for: those kept by a clip the taker takes over in this very turn, as far
      as they are not on its disk. A blob still missing from an earlier session is not among them, unless the
      stamp of its clip has moved at the peer. */
  lemma {:induction false} BlobIsAskedForIff(o: Endpoint, t: Endpoint, d: ContentHash)
    requires Ready(o.disk.tables, t.disk.tables) && |o.disk.tables.rows| <= SUMMARY_LIMIT
    ensures d in Asked(o, t) <==> Fetches(o.disk, t.disk, d)
  {
    hide Ready, Asked, TakesOver, See, Find, BlobDigests, NamesBlob;
    AskedForIff(o, t, d);
    var O, T := o.disk.tables, t.disk.tables;
    if h :| Find(O, h).Some? && TakesOver(See(T, h), Find(O, h).value) && d in BlobDigests(Find(O, h).value.payloads) {
      NamedIff(Find(O, h).value, d);
    }
    if h :| Find(O, h).Some? && TakesOver(See(T, h), Find(O, h).value) && NamesBlob(Find(O, h).value, d) {
      NamedIff(Find(O, h).value, d);
    }
  }

  lemma {:induction false} NamedIff(c: Clip, d: ContentHash)
    ensures d in BlobDigests(c.payloads) <==> NamesBlob(c, d)
  {
    BlobDigestsIff(c.payloads, d);
  }

  lemma {:induction false} AskedForIff(o: Endpoint, t: Endpoint, d: ContentHash)
    requires Ready(o.disk.tables, t.disk.tables) && |o.disk.tables.rows| <= SUMMARY_LIMIT
    ensures d in Asked(o, t) <==>
      && d !in t.disk.blobs.files
      && exists h :: (var c := Find(o.disk.tables, h);
                      c.Some? && TakesOver(See(t.disk.tables, h), c.value) && d in BlobDigests(c.value.payloads))
  {
    var O, T := o.disk.tables, t.disk.tables;
    TurnIsReady(o, t);
    NeverFailsAtEndOf(o, t);
    ServedMatchesWanted(O, T);
    var w, clips := WantedFrom(O, T), ServedFrom(O, T);
    forall i | 0 <= i < |clips| ensures Find(O, clips[i].hash) == Some(clips[i]) { FoundUnderItsHash(O, w[i], clips[i]); }
    hide Ready, FromRows, ReceiveAll, WantedFrom, ServedFrom, See, BlobDigests, TakesOver, TurnReady, Find;
    MissingIff(t.cfg, O, Fresh(T), clips, d);
    if NamedByTaken(T, clips, d) {
      var i :| 0 <= i < |clips| && TakesOver(See(T, clips[i].hash), clips[i]) && d in BlobDigests(clips[i].payloads);
      assert Find(O, clips[i].hash) == Some(clips[i]);
    }
    if h :| Find(O, h).Some? && TakesOver(See(T, h), Find(O, h).value) && d in BlobDigests(Find(O, h).value.payloads) {
      var i := TakenIsServed(O, T, h);
      assert Find(O, h).value == clips[i] && clips[i].hash == h;
    }
  }

  lemma {:induction false} TakenIsServed(o: Tables, t: Tables, h: ContentHash) returns (i: nat)
    requires |o.rows| <= SUMMARY_LIMIT && Find(o, h).Some? && TakesOver(See(t, h), Find(o, h).value)
    ensures i < |WantedFrom(o, t)| && WantedFrom(o, t)[i] == h
  {
    hide WantedFrom, See, Less, SightOf, Held;
    var c := Find(o, h).value;
    FoundIsAnswer(o, h, c);
    SightIsFlags(c);
    hide Find, HashMatches;
    FreshIfNewer(Held(o.rows, h), See(t, h), Answering(Held(o.rows, h)));
    AskedPerRow(o, t, h);
    CountedIsThere(WantedFrom(o, t), h);
    i :| 0 <= i < |WantedFrom(o, t)| && WantedFrom(o, t)[i] == h;
  }

  /** Between stores that can learn nothing from each other no blob is asked for, on disk or not. */
  lemma {:induction false} StableAsksForNothing(o: Endpoint, t: Endpoint)
    requires Ready(o.disk.tables, t.disk.tables) && |o.disk.tables.rows| <= SUMMARY_LIMIT
    requires Stable(o.disk.tables, t.disk.tables)
    ensures Asked(o, t) == []
  {
    hide Ready, Asked;
    if Asked(o, t) != [] {
      var d := Asked(o, t)[0];
      AskedForIff(o, t, d);
      var h :| Find(o.disk.tables, h).Some? && TakesOver(See(t.disk.tables, h), Find(o.disk.tables, h).value)
               && d in BlobDigests(Find(o.disk.tables, h).value.payloads);
      StableTakesNothing(o.disk.tables, t.disk.tables, h);
    }
  }

  lemma {:induction false} StableTakesNothing(o: Tables, t: Tables, h: ContentHash)
    requires Stable(o, t) && Find(o, h).Some?
    ensures !TakesOver(See(t, h), Find(o, h).value)
  {
    hide HashMatches;
    assert AbsorbAny(See(t, h), See(o, h)) == See(t, h);
    if See(t, h).Some? { StampOrderIsTotal(See(t, h).value.flags.hlc, See(t, h).value.flags.hlc); }
  }

  /** The comment that a rejected blob is asked for again by the next session is false: after a session that
      buries nothing, no later one between the same stores asks for any blob, whatever is missing. */
  lemma {:induction false} MissingBlobIsNotAskedForAgain(d: Endpoint, r: Endpoint, d2: Endpoint, r2: Endpoint)
    requires Comparable(d, r) && Unburied(d.disk.tables, r.disk.tables) && Honest(d2, r2) && Follows(SessionEnd(d, r), d2, r2)
    ensures Asked(d2, r2) == [] && Asked(r2, d2) == []
  {
    hide Comparable, SessionEnd, See, Held, Carried, Stable, SameStamps, ClipTables.Inv, Asked, Unburied, Room;
    SessionSettles(d, r);
    RoomIsEnough(SessionEnd(d, r).d.disk.tables, SessionEnd(d, r).r.disk.tables);
    assert Ready(d2.disk.tables, r2.disk.tables) && Ready(r2.disk.tables, d2.disk.tables);
    StableAsksForNothing(d2, r2);
    StableAsksForNothing(r2, d2);
  }

  // ---- what becomes of the blobs asked for ----------------------------------

  /** What the offerer streams for a digest hashes to it: the bytes it has, or the empty stream it sends when
      it has none. */
  predicate Delivers(files: map<ContentHash, seq<Byte>>, d: ContentHash)
  {
    if d in files then OfBytes(files[d]) == d else d == OfBytes([])
  }

  function DeliveredBy(files: map<ContentHash, seq<Byte>>): ContentHash -> bool { (d: ContentHash) => Delivers(files, d) }
  function HeldBy(files: map<ContentHash, seq<Byte>>): ContentHash -> bool { (d: ContentHash) => d in files }

  /** The blobs after some steps of the cache. */
  function AfterOps(b: Blob.Blobs, ops: seq<Blob.Op>): (r: Blob.Blobs)
    decreases |ops|
  {
    if ops == [] then b else AfterOps(Blob.Step(b, ops[0]), ops[1..])
  }

  function Reads(owed: seq<ContentHash>): (r: seq<Blob.Op>)
  {
    if owed == [] then [] else [Blob.ReadOp(owed[0])] + Reads(owed[1..])
  }

  /** A put for each digest delivered, in order. */
  function Puts(files: map<ContentHash, seq<Byte>>, owed: seq<ContentHash>): (r: seq<Blob.Op>)
  {
    if owed == [] then []
    else (if Delivers(files, owed[0]) && owed[0].OfBytes? then [Blob.PutOp(owed[0], owed[0].bytes)] else []) + Puts(files, owed[1..])
  }

  lemma {:induction false} OneBlobArrives(o: Endpoint, t: Endpoint, owed: seq<ContentHash>, newest: Option<ClipId>)
    requires owed != []
    ensures var a, b := EnterBlobs(o, owed), EnterTakeBlobs(t, owed, newest);
      var o', t', d := Sent(a), Received(b, Next(a).msg), owed[0];
      && o'.disk.blobs == Blob.Step(o.disk.blobs, Blob.ReadOp(d)) && o'.disk.blobs.files == o.disk.blobs.files
      && o'.outcome.blobsSent == o.outcome.blobsSent + (if d in o.disk.blobs.files then 1 else 0)
      && o'.outcome.newest == o.outcome.newest && o'.outcome.blobsReceived == o.outcome.blobsReceived && o'.outcome.blobsRejected == o.outcome.blobsRejected
      && t'.outcome.blobsSent == t.outcome.blobsSent
      && (if Delivers(o.disk.blobs.files, d) then
            d.OfBytes? && t'.disk.blobs == Blob.Step(t.disk.blobs, Blob.PutOp(d, d.bytes))
            && t'.outcome.blobsReceived == t.outcome.blobsReceived + 1 && t'.outcome.blobsRejected == t.outcome.blobsRejected
          else
            t'.disk.blobs == t.disk.blobs
            && t'.outcome.blobsReceived == t.outcome.blobsReceived && t'.outcome.blobsRejected == t.outcome.blobsRejected + 1)
  {
    hide Blob.Touch, Blob.MetaOf;
  }

  lemma {:induction false} PutAddsFile(b: Blob.Blobs, d: ContentHash, bytes: seq<Byte>)
    ensures var files := Blob.Step(b, Blob.PutOp(d, bytes)).files;
      && (forall x :: x in files <==> x in b.files || x == d)
      && (forall x :: x in files ==> files[x] == if x in b.files then b.files[x] else bytes)
  {
    hide Blob.Touch, Blob.MetaOf;
  }

  /** The blobs owed, any list of them, and both disks. A blob is on the taker's disk afterwards exactly if it
      was there, as it was, or is owed and what the offerer streams for it hashes to it, and then those bytes
      are there. The offerer's files stay, each one read is now its last to be evicted, and so is each one put
      at the taker. The counts say how many were sent, arrived and did not match. */
  lemma {:induction false} BlobsArrive(o: Endpoint, t: Endpoint, owed: seq<ContentHash>, newest: Option<ClipId>)
    ensures var (o', t') := BlobsCrossed(o, t, owed, newest);
      var mine, theirs, after := o.disk.blobs.files, t.disk.blobs.files, t'.disk.blobs.files;
      && (forall d :: d in after <==> d in theirs || (d in owed && Delivers(mine, d)))
      && (forall d :: d in theirs ==> after[d] == theirs[d])
      && (forall d :: d in after && d !in theirs ==> OfBytes(after[d]) == d)
      && o'.disk.blobs.files == mine
      && o'.disk.blobs == AfterOps(o.disk.blobs, Reads(owed)) && t'.disk.blobs == AfterOps(t.disk.blobs, Puts(mine, owed))
      && o'.outcome.blobsSent == o.outcome.blobsSent + |Sorting.Filter(owed, HeldBy(mine))|
      && t'.outcome.blobsReceived == t.outcome.blobsReceived + |Sorting.Filter(owed, DeliveredBy(mine))|
      && t'.outcome.blobsRejected == t.outcome.blobsRejected + |owed| - |Sorting.Filter(owed, DeliveredBy(mine))|
      && t'.outcome.blobsSent == t.outcome.blobsSent && t'.outcome.newest == newest
      && o'.outcome.newest == o.outcome.newest && o'.outcome.blobsReceived == o.outcome.blobsReceived && o'.outcome.blobsRejected == o.outcome.blobsRejected
    decreases |owed|
  {
    var a, b := EnterBlobs(o, owed), EnterTakeBlobs(t, owed, newest);
    if owed != [] {
      OneBlobArrives(o, t, owed, newest);
      var a1, b1 := Sent(a), Received(b, Next(a).msg);
      hide Sent, Received, Next, Blob.Step;
      BlobsArrive(a1, b1, owed[1..], newest);
      if Delivers(o.disk.blobs.files, owed[0]) { PutAddsFile(t.disk.blobs, owed[0], owed[0].bytes); }
      ArriveOneMore(o.disk.blobs.files, owed, t.disk.blobs, b1.disk.blobs);
    }
  }

  lemma {:induction false} ArriveOneMore(files: map<ContentHash, seq<Byte>>, owed: seq<ContentHash>, t: Blob.Blobs, t': Blob.Blobs)
    requires owed != []
    requires t' == if Delivers(files, owed[0]) && owed[0].OfBytes? then Blob.Step(t, Blob.PutOp(owed[0], owed[0].bytes)) else t
    ensures AfterOps(t', Puts(files, owed[1..])) == AfterOps(t, Puts(files, owed))
    ensures forall b: Blob.Blobs :: AfterOps(Blob.Step(b, Blob.ReadOp(owed[0])), Reads(owed[1..])) == AfterOps(b, Reads(owed))
  {
    hide Blob.Step;
    var rest := Puts(files, owed[1..]);
    if Delivers(files, owed[0]) && owed[0].OfBytes? {
      assert ([Blob.PutOp(owed[0], owed[0].bytes)] + rest)[1..] == rest;
    } else {
      assert [] + rest == rest;
    }
    assert ([Blob.ReadOp(owed[0])] + Reads(owed[1..]))[1..] == Reads(owed[1..]);
  }

  /** Whether a blob is on disk after it was asked for from these files. */
  predicate Stocked(before: map<ContentHash, seq<Byte>>, from: map<ContentHash, seq<Byte>>, after: map<ContentHash, seq<Byte>>, d: ContentHash, asked: bool)
  {
    && (d in after <==> d in before || (asked && Delivers(from, d)))
    && (d in before ==> after[d] == before[d])
    && (d in after && d !in before ==> OfBytes(after[d]) == d)
  }

  /** One turn, blob by blob. */
  lemma {:induction false} TurnDelivers(o: Endpoint, t: Endpoint)
    requires TurnReady(o, t)
    ensures var (o', t') := TurnEnd(o, t);
      var asked, mine := Asked(o, t), o.disk.blobs.files;
      && o'.disk.blobs.files == mine && (forall d :: Stocked(t.disk.blobs.files, mine, t'.disk.blobs.files, d, d in asked))
      && o'.outcome.blobsSent == o.outcome.blobsSent + |Sorting.Filter(asked, HeldBy(mine))|
      && t'.outcome.blobsReceived == t.outcome.blobsReceived + |Sorting.Filter(asked, DeliveredBy(mine))|
      && t'.outcome.blobsRejected == t.outcome.blobsRejected + |asked| - |Sorting.Filter(asked, DeliveredBy(mine))|
      && o'.outcome.newest == o.outcome.newest && t'.outcome.blobsSent == t.outcome.blobsSent
      && o'.outcome.blobsReceived == o.outcome.blobsReceived && o'.outcome.blobsRejected == o.outcome.blobsRejected
      && t'.outcome.newest == (var newest := Settled(t.cfg, o.disk.tables, t.disk.tables).newest; if newest.None? then None else Some(newest.value.1))
  {
    hide TurnReady, Settled, ServedFrom, BlobsCrossed, Needed, Summaries, Pages;
    NeverFailsAtEndOf(o, t);
    var t1 := EnterTaking(t, 0, Settled(t.cfg, o.disk.tables, t.disk.tables));
    var o1 := SentClips(o, |ServedFrom(o.disk.tables, t.disk.tables)|);
    BlobsArrive(o1, t1, OwedBlobs(t1), t1.phase.newest);
  }

  /** What a session leaves of blobs on the two disks: on the responder's what was there, and every blob it
      fetched that the dialler could deliver; then on the dialler's the same the other way round. Nothing is
      lost or changed, and every new file hashes to its name. */
  lemma {:induction false} SessionDelivers(d: Endpoint, r: Endpoint, x: ContentHash)
    requires Comparable(d, r)
    ensures var e := SessionEnd(d, r);
      && Stocked(r.disk.blobs.files, d.disk.blobs.files, e.r.disk.blobs.files, x, Fetches(d.disk, r.disk, x))
      && Stocked(d.disk.blobs.files, e.r.disk.blobs.files, e.d.disk.blobs.files, x, Fetches(e.r.disk, d.disk, x))
  {
    var o, t := BeginOffer(d), BeginTake(r);
    var hashes := AllHashes(d.disk.tables, r.disk.tables);
    FirstOffer(d, r);
    hide Comparable, TurnEnd, Asked, Fetches, Room, Summaries, Pages, Held, Learned, Stocked;
    var (d1, r1) := TurnEnd(o, t);
    TurnDelivers(o, t);
    BlobIsAskedForIff(o, t, x);
    TurnDelivers(r1, d1);
    BlobIsAskedForIff(r1, d1, x);
    SameFetches(r1.disk, SessionEnd(d, r).r.disk, d1.disk, d.disk, x);
  }

  lemma {:induction false} SameFetches(o: Disk, o': Disk, t: Disk, t': Disk, x: ContentHash)
    requires o.tables == o'.tables && t.tables == t'.tables && t.blobs.files == t'.blobs.files
    ensures Fetches(o, t, x) <==> Fetches(o', t', x)
  {
    hide TakesOver, See, Find, NamesBlob;
  }

  /** Both turns of a session find their tables ready. */
  lemma {:induction false} FirstOffer(d: Endpoint, r: Endpoint)
    requires Comparable(d, r)
    ensures var o, t := BeginOffer(d), BeginTake(r);
      var (d1, r1) := TurnEnd(o, t);
      var (r2, d2) := TurnEnd(r1, d1);
      && Ready(d.disk.tables, r.disk.tables) && |d.disk.tables.rows| <= SUMMARY_LIMIT && TurnReady(o, t)
      && d1.disk.tables == d.disk.tables && Ready(r1.disk.tables, d1.disk.tables) && |r1.disk.tables.rows| <= SUMMARY_LIMIT && TurnReady(r1, d1)
      && r2.disk.tables == r1.disk.tables && d1.cfg == d.cfg && r1.cfg == r.cfg
  {
    hide ClipTables.Inv, TurnEnd, Held, Learned, IdsAgree, Surplus, HashesOf, Summaries, Pages, TurnReady;
    var hashes := AllHashes(d.disk.tables, r.disk.tables);
    var o, t := BeginOffer(d), BeginTake(r);
    TurnLearns(o, t, hashes);
    TurnIsReady(o, t);
    var (d1, r1) := TurnEnd(o, t);
    FitsSummary(d.disk.tables, hashes);
    FitsSummary(r1.disk.tables, hashes);
    TurnLearns(r1, d1, hashes);
    TurnIsReady(r1, d1);
  }

  /** What a side reports once it has taken these clips: the id of the one with the latest stamp of those that
      brought content its store never had, the first of several; nothing exactly when none did. */
  ghost predicate Reports(t: Tables, clips: seq<Clip>, newest: Option<ClipId>)
  {
    && (newest.None? <==> forall i :: 0 <= i < |clips| ==> !Theorems.BringsNew(t, clips, i))
    && (forall i :: 0 <= i < |clips| && Theorems.Leads(None, t, clips, i) ==> newest == Some(clips[i].id))
  }

  /** What each side reports at the end of a session, for the clipboard. */
  lemma {:induction false} SessionReportsNewest(d: Endpoint, r: Endpoint)
    requires Comparable(d, r)
    ensures var e := SessionEnd(d, r);
      && Reports(r.disk.tables, ServedFrom(d.disk.tables, r.disk.tables), e.r.outcome.newest)
      && Reports(d.disk.tables, ServedFrom(e.r.disk.tables, d.disk.tables), e.d.outcome.newest)
  {
    FirstOffer(d, r);
    hide Comparable, TurnEnd, Asked, Summaries, Pages, Reports, TurnReady, Settled, ServedFrom, Stocked, Ready;
    var o, t := BeginOffer(d), BeginTake(r);
    var (d1, r1) := TurnEnd(o, t);
    TurnDelivers(o, t);
    TurnDelivers(r1, d1);
    TurnReports(o, t);
    TurnReports(r1, d1);
  }

  lemma {:induction false} TurnReports(o: Endpoint, t: Endpoint)
    requires TurnReady(o, t)
    ensures var newest := Settled(t.cfg, o.disk.tables, t.disk.tables).newest;
      Reports(t.disk.tables, ServedFrom(o.disk.tables, t.disk.tables), if newest.None? then None else Some(newest.value.1))
  {
    hide ReceiveAll, NeverFails, ServedFrom, Theorems.BringsNew, Theorems.Leads;
    Theorems.NewestIsLatestInsert(t.cfg, t.disk.tables, ServedFrom(o.disk.tables, t.disk.tables));
  }

  // ---- a blob that was evicted where it was asked for -----------------------

  lemma {:induction false} OneClipServed(clip: Clip, o: Tables, t: Tables)
    requires o.rows == [Row(clip, None)] && t.rows == []
    ensures ServedFrom(o, t) == [clip]
  {
    LiveTheorems.OneRowSummary(Row(clip, None), o, t);
    var s := Summaries(o);
    PagesFlatten(s, SUMMARY_PAGE);
    assert Flat([[SummaryOf(clip)]]) == [SummaryOf(clip)] + Flat([]);
    assert s == [SummaryOf(clip)] == [] + [SummaryOf(clip)];
    FindUnique(o, 0);
    hide Find, Summaries, Wanted, Pages;
    assert [clip.hash][1..] == [];
    assert Serve(o, [clip.hash]) == [clip] + Serve(o, []);
  }

  /** The first turn of a session in which the one clip names one blob that its own device no longer has. */
  lemma {:induction false} EvictedBlobTurn(o: Endpoint, t: Endpoint, clip: Clip, blob: ContentHash)
    requires o.disk.tables.rows == [Row(clip, None)] && t.disk.tables.rows == [] && HashMatches(clip) && DistinctLabels(clip.payloads)
    requires BlobDigests(clip.payloads) == [blob] && blob !in o.disk.blobs.files && blob !in t.disk.blobs.files && blob != OfBytes([])
    ensures var (o', t') := TurnEnd(o, t);
      && o'.cfg == o.cfg && t'.cfg == t.cfg
      && t'.disk.blobs == t.disk.blobs && t'.outcome.blobsRejected == t.outcome.blobsRejected + 1
      && o'.disk == o.disk && o'.outcome.newest == o.outcome.newest
      && Asked(o, t) == [blob]
  {
    hide HashMatches, Summaries, Pages, Find, Apply, BlobDigests, ReceiveAll, BlobsCrossed, Needed, ServedFrom;
    EvictedBlobTaken(o, t, clip, blob);
    var t1 := EnterTaking(t, 0, Settled(t.cfg, o.disk.tables, t.disk.tables));
    OneNeeded(t.disk.blobs.files.Keys, blob);
    assert t1.phase.SendBlobWant? && OwedBlobs(t1) == [blob];
    OneBlobRefused(SentClips(o, |ServedFrom(o.disk.tables, t.disk.tables)|), t1, blob, t1.phase.newest);
  }

  lemma {:induction false} EvictedBlobTaken(o: Endpoint, t: Endpoint, clip: Clip, blob: ContentHash)
    requires o.disk.tables.rows == [Row(clip, None)] && t.disk.tables.rows == [] && HashMatches(clip) && DistinctLabels(clip.payloads)
    requires BlobDigests(clip.payloads) == [blob]
    ensures var taken := Settled(t.cfg, o.disk.tables, t.disk.tables); taken.missing == [blob] && !taken.failed
  {
    OneClipServed(clip, o.disk.tables, t.disk.tables);
    var T, now := t.disk.tables, t.cfg.clock(0);
    EmptyTakesClip(T, clip, now);
    hide ServedFrom, HashMatches, Find, Apply, BlobDigests, Less, DistinctLabels;
    assert [clip][1..] == [];
    assert ReceiveAll(t.cfg, Fresh(T), [clip]) == ReceiveAll(t.cfg, TakeIn(Fresh(T), clip, now), []);
    assert [] + [blob] == [blob];
  }

  lemma {:induction false} OneNeeded(files: set<ContentHash>, blob: ContentHash)
    requires blob !in files
    ensures Needed(files, [blob]) == [blob]
  {
    assert [blob][..0] == [];
    assert Needed(files, []) == [];
  }

  lemma {:induction false} EmptyTakesClip(t: Tables, clip: Clip, now: nat)
    requires t.rows == [] && HashMatches(clip) && DistinctLabels(clip.payloads)
    ensures Apply(t, clip, now).1 == Added(clip.id)
  {
    hide Sorting.Sort, BodyText;
  }

  lemma {:induction false} OneBlobRefused(o: Endpoint, t: Endpoint, blob: ContentHash, newest: Option<ClipId>)
    requires blob !in o.disk.blobs.files && blob != OfBytes([])
    ensures var (o', t') := BlobsCrossed(o, t, [blob], newest);
      && o'.cfg == o.cfg && t'.cfg == t.cfg && o'.disk == o.disk && t'.disk == t.disk
      && o'.outcome == o.outcome && t'.outcome.blobsRejected == t.outcome.blobsRejected + 1
  {
    assert [blob][1..] == [];
    var a, b := EnterBlobs(o, [blob]), EnterTakeBlobs(t, [blob], newest);
    assert BlobsCrossed(o, t, [blob], newest) == BlobsCrossed(Sent(a), Received(b, Next(a).msg), [], newest);
  }

  /** The witness. A clip whose blob was evicted at its own device: the peer asks for the blob, is sent an
      empty stream and rejects it; it now has the clip and not the blob, and no later session between the
      two will ask for it. */
  lemma {:induction false} EvictedBlobIsLost(d: Endpoint, r: Endpoint, clip: Clip, blob: ContentHash, d2: Endpoint, r2: Endpoint)
    requires Comparable(d, r) && d.disk.tables.rows == [Row(clip, None)] && r.disk.tables.rows == []
    requires HashMatches(clip) && BlobDigests(clip.payloads) == [blob]
    requires blob !in d.disk.blobs.files && blob !in r.disk.blobs.files && blob != OfBytes([])
    requires Honest(d2, r2) && d2.disk == SessionEnd(d, r).d.disk && r2.disk == SessionEnd(d, r).r.disk
    ensures Asked(d, r) == [blob]
    ensures var e := SessionEnd(d, r);
      e.r.outcome.blobsRejected == 1 && Look(e.r.disk.tables, clip.hash).Some? && blob !in e.r.disk.blobs.files
    ensures Asked(d2, r2) == [] && Asked(r2, d2) == []
  {
    hide SessionEnd, Asked, HashMatches, Comparable, Honest, BlobDigests, Look, Unburied;
    OneRowIsUnburied(d, r);
    MissingBlobIsNotAskedForAgain(d, r, d2, r2);
    EvictedBlobSession(d, r, clip, blob);
  }

  lemma {:induction false} EvictedBlobSession(d: Endpoint, r: Endpoint, clip: Clip, blob: ContentHash)
    requires Comparable(d, r) && d.disk.tables.rows == [Row(clip, None)] && r.disk.tables.rows == []
    requires HashMatches(clip) && BlobDigests(clip.payloads) == [blob]
    requires blob !in d.disk.blobs.files && blob !in r.disk.blobs.files && blob != OfBytes([])
    ensures Asked(d, r) == [blob]
    ensures var e := SessionEnd(d, r);
      e.r.outcome.blobsRejected == 1 && Look(e.r.disk.tables, clip.hash).Some? && blob !in e.r.disk.blobs.files
  {
    hide TurnEnd, Asked, HashMatches, Find, Comparable, Honest, Ready, Summaries, Pages, BlobDigests, DistinctLabels, See, Look, Stable;
    FreshFacts(d, r, clip);
    var o, t := BeginOffer(d), BeginTake(r);
    EvictedBlobTurn(o, t, clip, blob);
    SameAsked(d, r);
    OneClipLearned(o, t, clip);
    var (d1, r1) := TurnEnd(o, t);
    RefusedTurn(r1, d1);
  }

  lemma {:induction false} OneRowIsUnburied(d: Endpoint, r: Endpoint)
    requires Comparable(d, r) && |d.disk.tables.rows| <= 1 && |r.disk.tables.rows| <= 1
    ensures Unburied(d.disk.tables, r.disk.tables)
  {
    hide Comparable, Unburied, SessionEnd;
    OneRowSession(d, r);
  }

  /** After the first turn the taker says what the offerer says. */
  lemma {:induction false} OneClipLearned(o: Endpoint, t: Endpoint, clip: Clip)
    requires Ready(o.disk.tables, t.disk.tables) && o.disk.tables.rows == [Row(clip, None)] && t.disk.tables.rows == [] && HashMatches(clip)
    ensures var (o', t') := TurnEnd(o, t);
      Stable(t'.disk.tables, o'.disk.tables) && Look(t'.disk.tables, clip.hash).Some?
  {
    hide TurnEnd, Settled, HashMatches, Ready, Learned, Held, See, Look;
    var O, T := o.disk.tables, t.disk.tables;
    TurnEffect(t.cfg, O, T);
    assert ClipTables.Inv(O) && ClipTables.Inv(T) && IdsAgree(O, T) by { ReadyFacts(O, T); }
    TurnTables(o, t);
    var T' := TurnEnd(o, t).1.disk.tables;
    forall h ensures AbsorbAny(See(O, h), See(T', h)) == See(O, h) && See(T', h) == See(O, h) {
      OneClipSeen(O, T, clip, h);
      SeesTheAnswer(O, h);
      SeesTheAnswer(T, h);
      SeesTheAnswer(T', h);
      assert Held(T.rows, h) == [] by { NothingHeld(T.rows, h); }
      LearnedAnswer([], Held(O.rows, h));
      AbsorbsItself(See(O, h));
    }
    OneClipSeen(O, T, clip, clip.hash);
    SeeingIsLooking(T', clip.hash);
  }

  lemma {:induction false} ReadyFacts(o: Tables, t: Tables)
    requires Ready(o, t)
    ensures ClipTables.Inv(o) && ClipTables.Inv(t) && IdsAgree(o, t)
  {
    hide ClipTables.Inv, IdsAgree;
  }

  lemma {:induction false} AbsorbsItself(v: Option<Sight>)
    ensures AbsorbAny(v, v) == v
  {
    if v.Some? { StampOrderIsTotal(v.value.flags.hlc, v.value.flags.hlc); }
  }

  lemma {:induction false} FreshFacts(d: Endpoint, r: Endpoint, clip: Clip)
    requires Comparable(d, r) && d.disk.tables.rows == [Row(clip, None)]
    ensures Ready(d.disk.tables, r.disk.tables)
    ensures DistinctLabels(clip.payloads) && d.outcome == NO_OUTCOME && r.outcome == NO_OUTCOME
  {
    hide IdsAgree, DistinctLabels;
    assert d.disk.tables.rows[0] in d.disk.tables.rows;
    assert RowOk(d.disk.tables.rows[0]);
  }

  lemma {:induction false} SameAsked(d: Endpoint, r: Endpoint)
    ensures Asked(BeginOffer(d), BeginTake(r)) == Asked(d, r)
  {
    hide Settled, Summaries, Pages, Needed;
  }

  lemma {:induction false} OneClipSeen(o: Tables, t: Tables, clip: Clip, h: ContentHash)
    requires o.rows == [Row(clip, None)] && t.rows == [] && HashMatches(clip)
    ensures RespondersView(See(o, h), See(t, h)) == See(o, h) && See(o, clip.hash).Some?
  {
    FindUnique(o, 0);
    assert Find(t, h).None?;
    hide HashMatches;
    if Find(o, h).Some? { assert Find(o, h).value == clip by { var i := LookupAny(o.rows, h); } }
  }
}
