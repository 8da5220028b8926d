/** The two endpoints in lock step: each message is read as soon as it is sent.

    This is the reference order of a session. `SessionCompletes` shows that in it the two programs
    always fit together, one sending what the other is waiting for, until both are done. */
module SessionTurns {
  import opened Bytes
  import opened HybridClock
  import opened ContentHashes
  import opened Sorting
  import opened ClipTables
  import opened SyncSession
  import Blob = BlobTables

  datatype Joint = Joint(d: Endpoint, r: Endpoint)

  /** `a` has a message to send and `b` is waiting on the stream it goes to. */
  predicate Fits(a: Endpoint, b: Endpoint)
  {
    Next(a).ToSend? && Next(b) == ToReceive(StreamOf(Next(a).msg))
  }

  predicate Compatible(g: Joint)
  {
    Fits(g.d, g.r) || Fits(g.r, g.d)
  }

  function LockStep(g: Joint): (r: Joint)
  {
    if Fits(g.d, g.r) then Joint(Sent(g.d), Received(g.r, Next(g.d).msg))
    else if Fits(g.r, g.d) then Joint(Received(g.d, Next(g.r).msg), Sent(g.r))
    else g
  }

  function Iterate(g: Joint, n: nat): (r: Joint)
  {
    if n == 0 then g else LockStep(Iterate(g, n - 1))
  }

  /** `n` compatible steps lead from `g` to `h`. */
  ghost predicate Path(g: Joint, h: Joint, n: nat)
  {
    Iterate(g, n) == h && forall i: nat :: i < n ==> Compatible(Iterate(g, i))
  }

  lemma {:induction false} IterateSum(g: Joint, m: nat, n: nat)
    ensures Iterate(g, m + n) == Iterate(Iterate(g, m), n)
  {
    hide LockStep;
    if n > 0 { IterateSum(g, m, n - 1); }
  }

  lemma {:induction false} Chain(g: Joint, h: Joint, k: Joint, m: nat, n: nat)
    requires Path(g, h, m) && Path(h, k, n)
    ensures Path(g, k, m + n)
  {
    hide LockStep, Compatible;
    IterateSum(g, m, n);
    forall i: nat | i < m + n ensures Compatible(Iterate(g, i)) {
      if i >= m {
        IterateSum(g, m, i - m);
        assert Compatible(Iterate(h, i - m));
      }
    }
  }

  /** The pair with the sender of this turn in the dialler's seat or the responder's. */
  function Seat(first: bool, a: Endpoint, b: Endpoint): (r: Joint)
  {
    if first then Joint(a, b) else Joint(b, a)
  }

  lemma {:induction false} OneStep(first: bool, a: Endpoint, b: Endpoint)
    requires Fits(a, b)
    ensures Path(Seat(first, a, b), Seat(first, Sent(a), Received(b, Next(a).msg)), 1)
  {
    hide Sent, Received, Next;
    var g := Seat(first, a, b);
    assert Iterate(g, 0) == g && Iterate(g, 1) == LockStep(g);
  }

  // ---- the phases of one turn ---------------------------------------------

  function Flat(pages: seq<seq<Summary>>): (r: seq<Summary>)
  {
    if pages == [] then [] else pages[0] + Flat(pages[1..])
  }

  lemma {:induction false} PagesFlatten(s: seq<Summary>, n: nat)
    requires n > 0
    ensures Flat(Pages(s, n)) == s
    decreases |s|
  {
    if |s| <= n {
      assert Flat([s]) == s + Flat([]);
    } else {
      PagesFlatten(s[n..], n);
      assert Pages(s, n)[1..] == Pages(s[n..], n);
      assert s == s[..n] + s[n..];
    }
  }

  lemma {:induction false} SummaryPhase(first: bool, o: Endpoint, t: Endpoint, pages: seq<seq<Summary>>, entries: seq<Summary>)
    requires pages != [] && o.phase == SendSummary(pages) && t.phase == TakeSummary(entries)
    ensures Path(Seat(first, o, t),
                 Seat(first, o.(phase := AwaitWant), t.(phase := SendWant(Wanted(t.disk.tables, entries + Flat(pages))))), |pages|)
    decreases |pages|
  {
    hide Wanted, Iterate, Path, LockStep;
    OneStep(first, o, t);
    var o1, t1 := Sent(o), Received(t, Next(o).msg);
    if |pages| == 1 {
      assert Flat(pages[1..]) == [];
      assert Flat(pages) == pages[0];
    } else {
      SummaryPhase(first, o1, t1, pages[1..], entries + pages[0]);
      assert entries + pages[0] + Flat(pages[1..]) == entries + Flat(pages);
      Chain(Seat(first, o, t), Seat(first, o1, t1),
            Seat(first, o.(phase := AwaitWant), t.(phase := SendWant(Wanted(t.disk.tables, entries + Flat(pages))))), 1, |pages| - 1);
    }
  }

  /** Taking in a list of clips. */
  function ReceiveAll(cfg: Config, taken: Intake, clips: seq<Clip>): (r: Intake)
    decreases |clips|
  {
    if clips == [] then taken
    else ReceiveAll(cfg, TakeIn(taken, clips[0], cfg.clock(taken.received + taken.rejected)), clips[1..])
  }

  /** No clip of the list makes the store fail on the way. */
  ghost predicate NeverFails(cfg: Config, taken: Intake, clips: seq<Clip>)
    decreases clips
  {
    !taken.failed &&
    (clips != [] ==> NeverFails(cfg, TakeIn(taken, clips[0], cfg.clock(taken.received + taken.rejected)), clips[1..]))
  }

  function SentClips(o: Endpoint, n: nat): (r: Endpoint)
  {
    o.(outcome := o.outcome.(sent := o.outcome.sent + n), phase := AwaitBlobWant)
  }

  /** The clips served cross one by one; if the taker expects more, it goes on waiting for them. */
  lemma {:induction false} PushPhase(first: bool, o: Endpoint, t: Endpoint, clips: seq<Clip>, left: nat, taken: Intake)
    requires NeverFails(t.cfg, taken, clips) && |clips| <= left
    ensures Path(Seat(first, EnterPush(o, clips), EnterTaking(t, left, taken)),
                 Seat(first, SentClips(o, |clips|), EnterTaking(t, left - |clips|, ReceiveAll(t.cfg, taken, clips))), |clips|)
    decreases |clips|
  {
    hide TakeIn, Needed, Iterate, Path, LockStep;
    var a, b := EnterPush(o, clips), EnterTaking(t, left, taken);
    if clips == [] {
      NoStep(Seat(first, a, b));
    } else {
      OneStep(first, a, b);
      var o1 := o.(outcome := o.outcome.(sent := o.outcome.sent + 1));
      var taken1 := TakeIn(taken, clips[0], t.cfg.clock(taken.received + taken.rejected));
      assert Sent(a) == EnterPush(o1, clips[1..]);
      assert Received(b, Next(a).msg) == EnterTaking(t, left - 1, taken1);
      PushPhase(first, o1, t, clips[1..], left - 1, taken1);
      Chain(Seat(first, a, b), Seat(first, Sent(a), Received(b, Next(a).msg)),
            Seat(first, SentClips(o, |clips|), EnterTaking(t, left - |clips|, ReceiveAll(t.cfg, taken, clips))), 1, |clips| - 1);
    }
  }

  lemma {:induction false} ServeIsCompleteIff(t: Tables, hashes: seq<ContentHash>)
    ensures |Serve(t, hashes)| == |hashes| <==> forall i :: 0 <= i < |hashes| ==> Find(t, hashes[i]).Some?
  {
    hide Find;
    if hashes != [] {
      ServeIsCompleteIff(t, hashes[1..]);
      assert forall i :: 0 < i < |hashes| ==> hashes[i] == hashes[1..][i - 1];
    }
  }

  /** Why no row may be purged between the summary and the request: a requested clip that is gone is
      skipped, and then both sides wait for ever, the taker for a push and the offerer for a request. */
  lemma {:induction false} MissingClipStalls(first: bool, o: Endpoint, t: Endpoint, wanted: seq<ContentHash>)
    requires NeverFails(t.cfg, Fresh(t.disk.tables), Serve(o.disk.tables, wanted))
    requires exists i :: 0 <= i < |wanted| && Find(o.disk.tables, wanted[i]).None?
    ensures var clips := Serve(o.disk.tables, wanted);
      var o', t' := SentClips(o, |clips|), EnterTaking(t, |wanted| - |clips|, ReceiveAll(t.cfg, Fresh(t.disk.tables), clips));
      && |clips| < |wanted|
      && Path(Seat(first, EnterPush(o, clips), EnterTaking(t, |wanted|, Fresh(t.disk.tables))), Seat(first, o', t'), |clips|)
      && Next(o') == ToReceive(Control) && Next(t') == ToReceive(Control)
  {
    hide Iterate, Path, LockStep, ReceiveAll, NeverFails, Serve, Find;
    var clips := Serve(o.disk.tables, wanted);
    ServeIsCompleteIff(o.disk.tables, wanted);
    PushPhase(first, o, t, clips, |wanted|, Fresh(t.disk.tables));
    NeverFailsAtEnd(t.cfg, Fresh(t.disk.tables), clips);
  }

  lemma {:induction false} NoStep(g: Joint)
    ensures Path(g, g, 0)
  {
  }

  /** The offerer and the taker after the blobs still `owed` have crossed. */
  function BlobsCrossed(o: Endpoint, t: Endpoint, owed: seq<ContentHash>, newest: Option<ClipId>): (r: (Endpoint, Endpoint))
    decreases |owed|
  {
    var a, b := EnterBlobs(o, owed), EnterTakeBlobs(t, owed, newest);
    if owed == [] then (a, b) else
    var a1, b1 := Sent(a), Received(b, Next(a).msg);
    BlobsCrossed(a1, b1, owed[1..], newest)
  }

  lemma {:induction false} BlobPhase(first: bool, o: Endpoint, t: Endpoint, owed: seq<ContentHash>, newest: Option<ClipId>)
    ensures var (o', t') := BlobsCrossed(o, t, owed, newest);
      Path(Seat(first, EnterBlobs(o, owed), EnterTakeBlobs(t, owed, newest)), Seat(first, o', t'), |owed|)
    decreases |owed|
  {
    hide Iterate, Path, LockStep;
    var a, b := EnterBlobs(o, owed), EnterTakeBlobs(t, owed, newest);
    if owed == [] {
      NoStep(Seat(first, a, b));
    } else {
      OneStep(first, a, b);
      var a1, b1 := Sent(a), Received(b, Next(a).msg);
      BlobStepShape(o, t, owed, newest);
      BlobPhase(first, a1, b1, owed[1..], newest);
      var (o', t') := BlobsCrossed(a1, b1, owed[1..], newest);
      Chain(Seat(first, a, b), Seat(first, a1, b1), Seat(first, o', t'), 1, |owed| - 1);
    }
  }

  lemma {:induction false} BlobStepShape(o: Endpoint, t: Endpoint, owed: seq<ContentHash>, newest: Option<ClipId>)
    requires owed != []
    ensures var a, b := EnterBlobs(o, owed), EnterTakeBlobs(t, owed, newest);
      EnterBlobs(Sent(a), owed[1..]) == Sent(a) && EnterTakeBlobs(Received(b, Next(a).msg), owed[1..], newest) == Received(b, Next(a).msg)
  {
  }

  // ---- one whole turn -----------------------------------------------------

  function WantedFrom(o: Tables, t: Tables): (r: seq<ContentHash>)
  {
    Wanted(t, Summaries(o))
  }

  function ServedFrom(o: Tables, t: Tables): (r: seq<Clip>)
  {
    Serve(o, WantedFrom(o, t))
  }

  function Fresh(t: Tables): (r: Intake)
  {
    Intake(t, 0, 0, [], None, false)
  }

  /** The taker's books once every clip of the turn is in. */
  function Settled(cfg: Config, o: Tables, t: Tables): (r: Intake)
  {
    ReceiveAll(cfg, Fresh(t), ServedFrom(o, t))
  }

  function OwedBlobs(t: Endpoint): (r: seq<ContentHash>)
  {
    if t.phase.SendBlobWant? then t.phase.needed else []
  }

  /** Offerer and taker at the end of a turn. */
  function TurnEnd(o: Endpoint, t: Endpoint): (r: (Endpoint, Endpoint))
  {
    var taken := Settled(t.cfg, o.disk.tables, t.disk.tables);
    var t1 := EnterTaking(t, 0, taken);
    var newest := if t1.phase.SendBlobWant? then t1.phase.newest else None;
    var (o2, t2) := BlobsCrossed(SentClips(o, |ServedFrom(o.disk.tables, t.disk.tables)|), t1, OwedBlobs(t1), newest);
    (AfterOffer(o2), AfterTake(t2))
  }

  function TurnLength(o: Endpoint, t: Endpoint): (n: nat)
  {
    var t1 := EnterTaking(t, 0, Settled(t.cfg, o.disk.tables, t.disk.tables));
    |Pages(Summaries(o.disk.tables), SUMMARY_PAGE)| + 1 + |ServedFrom(o.disk.tables, t.disk.tables)| + 1 + |OwedBlobs(t1)| + 1
  }

  /** Nothing asked for is missing, and the store takes all of it. */
  ghost predicate TurnReady(o: Endpoint, t: Endpoint)
  {
    && |ServedFrom(o.disk.tables, t.disk.tables)| == |WantedFrom(o.disk.tables, t.disk.tables)|
    && NeverFails(t.cfg, Fresh(t.disk.tables), ServedFrom(o.disk.tables, t.disk.tables))
  }

  lemma {:induction false} NeverFailsAtEnd(cfg: Config, taken: Intake, clips: seq<Clip>)
    requires NeverFails(cfg, taken, clips)
    ensures !ReceiveAll(cfg, taken, clips).failed
    decreases |clips|
  {
    hide TakeIn;
    if clips != [] {
      NeverFailsAtEnd(cfg, TakeIn(taken, clips[0], cfg.clock(taken.received + taken.rejected)), clips[1..]);
    }
  }

  /** Summaries, the request for clips, and the clips. */
  lemma {:induction false} TurnThroughPushes(first: bool, o: Endpoint, t: Endpoint)
    requires o == BeginOffer(o) && t == BeginTake(t) && TurnReady(o, t)
    ensures var clips := ServedFrom(o.disk.tables, t.disk.tables);
      Path(Seat(first, o, t),
           Seat(first, SentClips(o, |clips|), EnterTaking(t, 0, Settled(t.cfg, o.disk.tables, t.disk.tables))),
           |Pages(Summaries(o.disk.tables), SUMMARY_PAGE)| + 1 + |clips|)
  {
    hide Wanted, Summaries, Pages, Serve, Iterate, Path, LockStep, ReceiveAll, NeverFails, Needed;
    var sums := Summaries(o.disk.tables);
    var pages := Pages(sums, SUMMARY_PAGE);
    var w := WantedFrom(o.disk.tables, t.disk.tables);
    var clips := ServedFrom(o.disk.tables, t.disk.tables);
    PagesFlatten(sums, SUMMARY_PAGE);
    SummaryPhase(first, o, t, pages, []);
    assert [] + Flat(pages) == sums;
    var o1, t1 := o.(phase := AwaitWant), t.(phase := SendWant(w));
    OneStep(!first, t1, o1);
    var o2, t2 := EnterPush(o, clips), EnterTaking(t, |clips|, Fresh(t.disk.tables));
    assert Received(o1, Next(t1).msg) == o2;
    assert Sent(t1) == t2;
    Chain(Seat(first, o, t), Seat(first, o1, t1), Seat(first, o2, t2), |pages|, 1);
    PushPhase(first, o, t, clips, |clips|, Fresh(t.disk.tables));
    Chain(Seat(first, o, t), Seat(first, o2, t2),
          Seat(first, SentClips(o, |clips|), EnterTaking(t, 0, Settled(t.cfg, o.disk.tables, t.disk.tables))), |pages| + 1, |clips|);
  }

  /** One blob crossing leaves both tables alone, and the taker counts it one way or the other. */
  lemma {:induction false} BlobStepKeeps(o: Endpoint, t: Endpoint, owed: seq<ContentHash>, newest: Option<ClipId>)
    requires owed != []
    ensures var a, b := EnterBlobs(o, owed), EnterTakeBlobs(t, owed, newest);
      var o', t' := Sent(a), Received(b, Next(a).msg);
      && o'.cfg == o.cfg && t'.cfg == t.cfg
      && o'.disk.tables == o.disk.tables && t'.disk.tables == t.disk.tables
      && t'.outcome.blobsReceived + t'.outcome.blobsRejected == t.outcome.blobsReceived + t.outcome.blobsRejected + 1
      && t'.outcome.received == t.outcome.received && t'.outcome.rejected == t.outcome.rejected
      && t'.outcome.sent == t.outcome.sent && o'.outcome.sent == o.outcome.sent
  {
    hide Blob.ReadBlob, Blob.PutBlob;
  }

  /** A blob exchange ends with the offerer waiting for the acknowledgement the taker is about to send. */
  lemma {:induction false} BlobsCrossedEnd(o: Endpoint, t: Endpoint, owed: seq<ContentHash>, newest: Option<ClipId>)
    ensures var (o', t') := BlobsCrossed(o, t, owed, newest);
      && o'.phase == AwaitAck && t'.phase == SendAck(newest)
      && o'.cfg == o.cfg && t'.cfg == t.cfg
      && o'.disk.tables == o.disk.tables && t'.disk.tables == t.disk.tables
      && t'.outcome.blobsReceived + t'.outcome.blobsRejected == t.outcome.blobsReceived + t.outcome.blobsRejected + |owed|
      && t'.outcome.received == t.outcome.received && t'.outcome.rejected == t.outcome.rejected
      && t'.outcome.sent == t.outcome.sent && o'.outcome.sent == o.outcome.sent
    decreases |owed|
  {
    var a, b := EnterBlobs(o, owed), EnterTakeBlobs(t, owed, newest);
    if owed != [] {
      BlobStepKeeps(o, t, owed, newest);
      hide Sent, Received, Next;
      BlobsCrossedEnd(Sent(a), Received(b, Next(a).msg), owed[1..], newest);
    }
  }

  /** A turn runs to its end in lock step. */
  lemma {:induction false} TurnCompletes(first: bool, o: Endpoint, t: Endpoint)
    requires o == BeginOffer(o) && t == BeginTake(t) && TurnReady(o, t)
    ensures Path(Seat(first, o, t), Seat(first, TurnEnd(o, t).0, TurnEnd(o, t).1), TurnLength(o, t))
  {
    hide Iterate, Path, LockStep, Next, Sent, Received, BlobsCrossed, Wanted, Summaries, Pages, Serve,
         ReceiveAll, NeverFails, Needed, AfterOffer, AfterTake, Seat;
    TurnThroughPushes(first, o, t);
    var clips := ServedFrom(o.disk.tables, t.disk.tables);
    var taken := Settled(t.cfg, o.disk.tables, t.disk.tables);
    NeverFailsAtEnd(t.cfg, Fresh(t.disk.tables), clips);
    var o1, t1 := SentClips(o, |clips|), EnterTaking(t, 0, taken);
    TurnAfterPushes(first, o1, t1);
    var (o2, t2) := BlobsCrossed(o1, t1, t1.phase.needed, t1.phase.newest);
    Chain(Seat(first, o, t), Seat(first, o1, t1), Seat(first, AfterOffer(o2), AfterTake(t2)),
          |Pages(Summaries(o.disk.tables), SUMMARY_PAGE)| + 1 + |clips|, |OwedBlobs(t1)| + 2);
  }

  /** The request for blobs, the blobs, and the acknowledgement. */
  lemma {:induction false} TurnAfterPushes(first: bool, o: Endpoint, t: Endpoint)
    requires o.phase == AwaitBlobWant && t.phase.SendBlobWant?
    ensures var (o', t') := BlobsCrossed(o, t, t.phase.needed, t.phase.newest);
      Path(Seat(first, o, t), Seat(first, AfterOffer(o'), AfterTake(t')), |t.phase.needed| + 2)
  {
    hide Iterate, Path, LockStep, MaxHlc, BeginOffer;
    var owed, newest := t.phase.needed, t.phase.newest;
    var a, b := EnterBlobs(o, owed), EnterTakeBlobs(t, owed, newest);
    OneStep(!first, t, o);
    assert Sent(t) == b && Received(o, Next(t).msg) == a;
    BlobPhase(first, o, t, owed, newest);
    BlobsCrossedEnd(o, t, owed, newest);
    var (o', t') := BlobsCrossed(o, t, owed, newest);
    hide BlobsCrossed;
    Chain(Seat(first, o, t), Seat(first, a, b), Seat(first, o', t'), 1, |owed|);
    OneStep(!first, t', o');
    Chain(Seat(first, o, t), Seat(first, o', t'), Seat(first, AfterOffer(o'), AfterTake(t')), 1 + |owed|, 1);
  }
}
