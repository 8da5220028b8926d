/** Every run of a session over stores in use.

    While two devices sync, their users go on copying, pinning and deleting, other sessions write to the
    same store, blobs are put, read and evicted. Here such a change may come between any two steps of
    either endpoint (crates/clipsed/src/sync.rs, crates/clipse-store/src/store.rs, blob.rs). */
module LiveRuns {
  import opened Bytes
  import opened HybridClock
  import opened ContentHashes
  import opened Sorting
  import opened ClipTables
  import Blob = BlobTables
  import opened SyncSession
  import opened SessionTurns
  import opened SessionStores
  import opened SessionShape
  import opened SessionRuns

  /** A change to a store that is no part of the session. */
  datatype Change = OnClips(op: ClipTables.Op) | OnBlobs(blobOp: Blob.Op)

  function Changed(l: Endpoint, c: Change): (r: Endpoint)
  {
    match c
    case OnClips(op) => l.(disk := l.disk.(tables := ClipTables.Step(l.disk.tables, op)))
    case OnBlobs(op) => l.(disk := l.disk.(blobs := Blob.Step(l.disk.blobs, op)))
  }

  /** A step of the session, or a change to the store of one side. */
  datatype Action = Proceed(move: Move) | Local(side: bool, change: Change)

  predicate Possible(n: Net, a: Action)
  {
    a.Proceed? ==> Enabled(n, a.move)
  }

  function Do(n: Net, a: Action): (r: Net)
    requires Possible(n, a)
  {
    match a
    case Proceed(m) => Perform(n, m)
    case Local(s, c) => n.(ends := SetMine(n.ends, s, Changed(Mine(n.ends, s), c)))
  }

  /** Every action is possible when it is taken. */
  ghost predicate Lawful(n: Net, actions: seq<Action>)
    decreases |actions|
  {
    actions != [] ==> Lawful(n, actions[..|actions| - 1]) && Possible(Reached(n, actions[..|actions| - 1]), actions[|actions| - 1])
  }

  ghost function Reached(n: Net, actions: seq<Action>): (r: Net)
    decreases |actions|
  {
    if actions == [] then n else
    var before := Reached(n, actions[..|actions| - 1]);
    if Possible(before, actions[|actions| - 1]) then Do(before, actions[|actions| - 1]) else before
  }

  /** What the next read would read. */
  function Incoming(n: Net, m: Move): (r: Msg)
    requires Enabled(n, m) && !m.send
  {
    InFlight(Out(n, !m.side), Next(Mine(n.ends, m.side)).stream)[0]
  }

  /** If the action reads a request for clips, every clip asked for is in the store. */
  predicate ServesInFull(n: Net, a: Action)
    requires Possible(n, a)
  {
    a.Proceed? && !a.move.send && Mine(n.ends, a.move.side).phase.AwaitWant? && Incoming(n, a.move).Want? ==>
      var hashes := Incoming(n, a.move).hashes;
      forall i :: 0 <= i < |hashes| ==> Find(Mine(n.ends, a.move.side).disk.tables, hashes[i]).Some?
  }

  ghost predicate AllServed(n: Net, actions: seq<Action>)
    requires Lawful(n, actions)
    decreases |actions|
  {
    actions != [] ==>
      var front := actions[..|actions| - 1];
      AllServed(n, front) && ServesInFull(Reached(n, front), actions[|actions| - 1])
  }

  // ---- what the stores hold ---------------------------------------------------

  /** Ids are unique to their content: `owner` gives the content of each. */
  type Owner = ClipId -> ContentHash

  predicate Storable(owner: Owner, c: Clip)
  {
    DistinctLabels(c.payloads) && owner(c.id) == c.hash
  }

  ghost predicate TablesOk(owner: Owner, t: Tables)
  {
    ClipTables.Inv(t) && forall r :: r in t.rows ==> owner(r.clip.id) == r.clip.hash
  }

  /** A clip copied here, or written by another session, carries an id of its own content. */
  predicate Admissible(owner: Owner, a: Action)
  {
    a.Local? && a.change.OnClips? && a.change.op.InsertOp? ==> owner(a.change.op.clip.id) == a.change.op.clip.hash
  }

  ghost predicate AllAdmissible(owner: Owner, actions: seq<Action>)
  {
    forall i :: 0 <= i < |actions| ==> Admissible(owner, actions[i])
  }

  lemma {:induction false} InsertKeepsOwners(owner: Owner, t: Tables, clip: Clip)
    requires TablesOk(owner, t) && owner(clip.id) == clip.hash
    ensures TablesOk(owner, Insert(t, clip).0)
  {
    InsertKeepsInv(t, clip);
    hide ClipTables.Inv, Sort, BodyText;
    var t' := Insert(t, clip).0;
    forall r | r in t'.rows ensures owner(r.clip.id) == r.clip.hash {
      if r !in t.rows {
        var i := LiveRow(t.rows, clip.hash);
        if i < |t.rows| { assert t.rows[i] in t.rows; }
      }
    }
  }

  lemma {:induction false} SameKeysKeepOwners(owner: Owner, t: Tables, t': Tables)
    requires TablesOk(owner, t) && SameKeys(t, t') && ClipTables.Inv(t')
    ensures TablesOk(owner, t')
  {
    hide ClipTables.Inv;
    forall r | r in t'.rows ensures owner(r.clip.id) == r.clip.hash {
      var i :| 0 <= i < |t'.rows| && t'.rows[i] == r;
      assert t.rows[i] in t.rows;
    }
  }

  lemma {:induction false} StepKeepsOwners(owner: Owner, t: Tables, op: ClipTables.Op)
    requires TablesOk(owner, t) && (op.InsertOp? ==> owner(op.clip.id) == op.clip.hash)
    ensures TablesOk(owner, ClipTables.Step(t, op))
  {
    StepKeepsInv(t, op);
    hide ClipTables.Inv, SetPinned, Delete, Insert;
    match op
    case InsertOp(clip) => InsertKeepsOwners(owner, t, clip);
    case PinOp(id, pinned, hlc) => PinSameKeys(t, id, pinned, hlc); SameKeysKeepOwners(owner, t, ClipTables.Step(t, op));
    case DeleteOp(id, hlc, now) => DeleteSameKeys(t, id, hlc, now); SameKeysKeepOwners(owner, t, ClipTables.Step(t, op));
    case PurgeOp(now, olderThan) =>
  }

  /** Merging a storable clip never fails: content not held is not held under the clip's id either. */
  lemma {:induction false} ApplyStores(owner: Owner, t: Tables, clip: Clip, now: nat)
    requires TablesOk(owner, t) && Storable(owner, clip)
    ensures !Apply(t, clip, now).1.Failed? && TablesOk(owner, Apply(t, clip, now).0)
  {
    hide ClipTables.Inv, ApplyUpdate, Less, HashMatches, DistinctLabels;
    var local := Find(t, clip.hash);
    match Merge(local, clip)
    case Reject =>
    case Ignore =>
    case InsertNew =>
      InsertKeepsOwners(owner, t, clip);
    case UpdateMetadata(pinned, deleted) =>
      UpdateSameKeys(t, local.value.id, pinned, deleted, clip.hlc, now);
      SameKeysKeepOwners(owner, t, ApplyUpdate(t, local.value.id, pinned, deleted, clip.hlc, now));
  }

  /** What could go wrong if the store changed between the lookup and the insertion of one clip: the insertion
      fails exactly if in that moment another session has stored this very clip and it has been deleted. */
  lemma {:induction false} RacedInsertFailsIff(owner: Owner, t: Tables, clip: Clip)
    requires TablesOk(owner, t) && Storable(owner, clip) && HashMatches(clip)
    ensures Insert(t, clip).1.ConstraintError? <==>
      && (exists r :: r in t.rows && r.clip.id == clip.id)
      && (forall r :: r in t.rows && r.clip.hash == clip.hash ==> r.clip.deleted)
  {
    hide ClipTables.Inv, HashMatches, Sort, BodyText;
    var i, j := LiveRow(t.rows, clip.hash), RowById(t.rows, clip.id);
    if i < |t.rows| { assert t.rows[i] in t.rows; }
    if j < |t.rows| { assert t.rows[j] in t.rows; }
  }

  lemma {:induction false} ServedIsStorable(owner: Owner, t: Tables, hashes: seq<ContentHash>)
    requires TablesOk(owner, t)
    ensures forall i :: 0 <= i < |Serve(t, hashes)| ==> Storable(owner, Serve(t, hashes)[i])
  {
    if hashes != [] {
      ServedIsStorable(owner, t, hashes[1..]);
      FindIsRow(t, hashes[0]);
      if Find(t, hashes[0]).Some? {
        var r :| r in t.rows && r.clip == Find(t, hashes[0]).value;
        assert RowOk(r);
      }
    }
  }

  /** An endpoint whose store is in order and which has nothing to send that cannot be stored. */
  ghost predicate Sane(owner: Owner, l: Endpoint)
  {
    && TablesOk(owner, l.disk.tables)
    && (l.phase.SendPush? ==> forall i :: 0 <= i < |l.phase.clips| ==> Storable(owner, l.phase.clips[i]))
    && (l.phase.TakePush? ==> !l.phase.taken.failed)
  }

  predicate SaneMsg(owner: Owner, m: Msg)
  {
    m.Push? ==> Storable(owner, m.clip)
  }

  lemma {:induction false} SendIsSane(owner: Owner, l: Endpoint)
    requires Sane(owner, l) && Next(l).ToSend?
    ensures Sane(owner, Sent(l)) && SaneMsg(owner, Next(l).msg)
  {
    hide TablesOk, Storable, Summaries, Pages, Needed, MaxHlc, Blob.ReadBlob;
  }

  lemma {:induction false} ReadIsSane(owner: Owner, l: Endpoint, m: Msg)
    requires Sane(owner, l) && SaneMsg(owner, m)
    ensures Sane(owner, Received(l, m))
  {
    hide TablesOk, Storable, Summaries, Pages, Needed, Wanted, Apply, Serve, Blob.PutBlob, Less, BlobDigests;
    if l.phase.AwaitWant? && m.Want? {
      ServedIsStorable(owner, l.disk.tables, m.hashes);
    } else if l.phase.TakePush? && m.Push? {
      ApplyStores(owner, l.disk.tables, m.clip, l.cfg.clock(l.phase.taken.received + l.phase.taken.rejected));
    }
  }

  lemma {:induction false} ChangeIsSane(owner: Owner, l: Endpoint, c: Change)
    requires Sane(owner, l) && (c.OnClips? && c.op.InsertOp? ==> owner(c.op.clip.id) == c.op.clip.hash)
    ensures Sane(owner, Changed(l, c)) && PosOf(Changed(l, c)) == PosOf(l) && Changed(l, c).cfg == l.cfg
  {
    hide Storable, ClipTables.Step, Blob.Step;
    if c.OnClips? { StepKeepsOwners(owner, l.disk.tables, c.op); }
    hide TablesOk;
  }

  // ---- where a run can be -------------------------------------------------------

  /** The messages of one stream, in order. */
  function On(queue: seq<Msg>, s: Stream): (r: seq<Msg>)
  {
    if queue == [] then [] else (if StreamOf(queue[0]) == s then [queue[0]] else []) + On(queue[1..], s)
  }

  lemma {:induction false} OnSnoc(queue: seq<Msg>, m: Msg, s: Stream)
    ensures On(queue + [m], s) == On(queue, s) + if StreamOf(m) == s then [m] else []
  {
    hide StreamOf;
    var tail := if StreamOf(m) == s then [m] else [];
    if queue == [] {
      assert queue + [m] == [m] && [m][1..] == [];
      assert On([m], s) == tail + On([], s) == tail;
    } else {
      var head, longer := if StreamOf(queue[0]) == s then [queue[0]] else [], queue + [m];
      assert longer[0] == queue[0] && longer[1..] == queue[1..] + [m];
      OnSnoc(queue[1..], m, s);
      assert On(longer, s) == head + On(longer[1..], s);
      assert head + (On(queue[1..], s) + tail) == (head + On(queue[1..], s)) + tail;
    }
  }

  /** What a wire carries is this, in this order across its two streams. */
  predicate Flying(w: Wire, queue: seq<Msg>)
  {
    w.control == On(queue, Control) && w.blobs == On(queue, Blobs)
  }

  function Signs(queue: seq<Msg>, peer: DeviceId): (r: seq<Sign>)
    ensures |r| == |queue|
    ensures forall i :: 0 <= i < |queue| ==> r[i] == SignOf(queue[i], peer)
  {
    seq(|queue|, i requires 0 <= i < |queue| => SignOf(queue[i], peer))
  }

  /** A dialler and a responder that expect each other. */
  predicate Introduced(g: Joint)
  {
    && g.d.cfg.role.Dialler? && g.r.cfg.role.Responder?
    && g.d.cfg.peer == g.r.cfg.device && g.r.cfg.peer == g.d.cfg.device
  }

  /** Side `s` is not behind: what it has sent and the other not read is `queue`, the other has sent
      nothing it has not read, and will meet it. */
  ghost predicate Ahead(n: Net, s: bool, queue: seq<Msg>)
  {
    var l, w := Mine(n.ends, !s), Mine(n.ends, s);
    && Introduced(n.ends)
    && Flying(Out(n, s), queue) && Flying(Out(n, !s), [])
    && Trails(l.cfg.role, PosOf(l), Signs(queue, l.cfg.peer), PosOf(w))
  }

  ghost predicate InOrder(owner: Owner, n: Net, queue: seq<Msg>)
  {
    Sane(owner, n.ends.d) && Sane(owner, n.ends.r) && forall i :: 0 <= i < |queue| ==> SaneMsg(owner, queue[i])
  }

  lemma {:induction false} Turnabout(n: Net, s: bool)
    requires Ahead(n, s, [])
    ensures Ahead(n, !s, [])
  {
    hide Meets;
    MeetsBothWays(PosOf(Mine(n.ends, s)), PosOf(Mine(n.ends, !s)));
  }

  lemma {:induction false} MeetsBothWays(a: Pos, b: Pos)
    ensures Meets(a, b) <==> Meets(b, a)
  {
    hide Pairs;
  }

  /** A side about to send is not behind. */
  lemma {:induction false} SenderIsNotBehind(n: Net, s: bool, queue: seq<Msg>)
    requires Ahead(n, s, queue) && Next(Mine(n.ends, !s)).ToSend?
    ensures queue == [] && Ahead(n, !s, [])
  {
    var l := Mine(n.ends, !s);
    SendShape(l);
    if queue != [] { AcceptsIsNoSender(PosOf(l), Signs(queue, l.cfg.peer)[0]); }
    hide PosOf;
    Turnabout(n, s);
  }

  lemma {:induction false} AcceptsIsNoSender(p: Pos, m: Sign)
    ensures !(Accepts(p, m) && Utters(p).Some?)
  {
  }

  lemma {:induction false} SendStays(n: Net, s: bool, queue: seq<Msg>)
    requires Ahead(n, s, queue) && Enabled(n, Move(s, true))
    ensures Ahead(Perform(n, Move(s, true)), s, queue + [Next(Mine(n.ends, s)).msg])
  {
    var l, w := Mine(n.ends, !s), Mine(n.ends, s);
    var m := Next(w).msg;
    SendShape(w);
    TrailsOneMore(l.cfg.role, PosOf(l), Signs(queue, l.cfg.peer), PosOf(w), PosOf(Sent(w)));
    assert Signs(queue + [m], l.cfg.peer) == Signs(queue, l.cfg.peer) + [SignOf(m, l.cfg.peer)];
    OnSnoc(queue, m, Control);
    OnSnoc(queue, m, Blobs);
    hide Trails, SignOf, PosOf, Next, Sent, Received, On;
  }

  /** What a reader reads is the front of the queue, and it was waiting for it. */
  lemma {:induction false} ReaderReadsFront(n: Net, s: bool, queue: seq<Msg>)
    requires Ahead(n, s, queue)
    ensures queue != [] ==> Enabled(n, Move(!s, false)) && Incoming(n, Move(!s, false)) == queue[0]
    ensures Enabled(n, Move(!s, false)) ==> queue != []
    ensures !Enabled(n, Move(s, false))
  {
    var l := Mine(n.ends, !s);
    if queue != [] { WaitShape(l, queue[0]); }
    hide Next, PosOf, SignOf, Accepts, AfterRead;
  }

  lemma {:induction false} ReadStays(owner: Owner, n: Net, s: bool, queue: seq<Msg>)
    requires Ahead(n, s, queue) && InOrder(owner, n, queue) && queue != []
    requires Enabled(n, Move(!s, false)) && ServesInFull(n, Proceed(Move(!s, false)))
    ensures Ahead(Perform(n, Move(!s, false)), s, queue[1..])
  {
    var l, m := Mine(n.ends, !s), queue[0];
    ReaderReadsFront(n, s, queue);
    WaitShape(l, m);
    ReadGoesOn(owner, l, m);
    assert Signs(queue[1..], l.cfg.peer) == Signs(queue, l.cfg.peer)[1..];
    hide AfterRead, SignOf, PosOf, Next, Sent, Received, Accepts, StreamOf;
  }

  lemma {:induction false} ReadGoesOn(owner: Owner, l: Endpoint, m: Msg)
    requires Sane(owner, l) && SaneMsg(owner, m) && Accepts(PosOf(l), SignOf(m, l.cfg.peer))
    requires l.phase.AwaitWant? ==> forall i :: 0 <= i < |m.hashes| ==> Find(l.disk.tables, m.hashes[i]).Some?
    ensures AfterRead(l.cfg.role, PosOf(l), SignOf(m, l.cfg.peer), PosOf(Received(l, m))) && Received(l, m).cfg == l.cfg
  {
    hide TablesOk, Storable, Apply, Serve, Find, AfterRead, Received;
    if l.phase.AwaitWant? {
      ServeIsCompleteIff(l.disk.tables, m.hashes);
    } else if l.phase.TakePush? {
      ApplyStores(owner, l.disk.tables, m.clip, l.cfg.clock(l.phase.taken.received + l.phase.taken.rejected));
    }
    ReadShape(l, m);
  }

  // ---- every run ----------------------------------------------------------------

  /** A state of a run in which every request so far was served in full. */
  ghost predicate OnCourse(owner: Owner, n: Net, s: bool, queue: seq<Msg>)
  {
    Ahead(n, s, queue) && InOrder(owner, n, queue) && Roomy(n)
  }

  lemma {:induction false} SendKeepsOrder(owner: Owner, n: Net, queue: seq<Msg>, s: bool)
    requires InOrder(owner, n, queue) && Enabled(n, Move(s, true))
    ensures InOrder(owner, Perform(n, Move(s, true)), queue + [Next(Mine(n.ends, s)).msg])
  {
    SendIsSane(owner, Mine(n.ends, s));
    hide Sane, SaneMsg, Next, Sent;
  }

  lemma {:induction false} ReadKeepsOrder(owner: Owner, n: Net, queue: seq<Msg>, s: bool)
    requires InOrder(owner, n, queue) && queue != [] && Enabled(n, Move(s, false)) && Incoming(n, Move(s, false)) == queue[0]
    ensures InOrder(owner, Perform(n, Move(s, false)), queue[1..])
  {
    ReadIsSane(owner, Mine(n.ends, s), queue[0]);
    hide Sane, SaneMsg, Next, Received;
  }

  lemma {:induction false} ChangeStays(owner: Owner, n: Net, s: bool, queue: seq<Msg>, a: Action)
    requires OnCourse(owner, n, s, queue) && a.Local? && Admissible(owner, a)
    ensures OnCourse(owner, Do(n, a), s, queue)
  {
    ChangeIsSane(owner, Mine(n.ends, a.side), a.change);
    hide Sane, SaneMsg, Changed, Trails, PosOf, Signs;
  }

  /** One action: who is ahead afterwards, and with what in flight. */
  lemma {:induction false} OneAction(owner: Owner, n: Net, s: bool, queue: seq<Msg>, a: Action) returns (s': bool, queue': seq<Msg>)
    requires OnCourse(owner, n, s, queue) && Possible(n, a) && Admissible(owner, a) && ServesInFull(n, a)
    ensures OnCourse(owner, Do(n, a), s', queue')
    ensures a.Local? ==> s' == s && queue' == queue
    ensures a.Proceed? && a.move.send ==>
      s' == a.move.side && (s == s' || queue == []) && queue' == queue + [Next(Mine(n.ends, s')).msg]
    ensures a.Proceed? && !a.move.send ==>
      s' == s == !a.move.side && queue != [] && queue' == queue[1..] && Incoming(n, a.move) == queue[0]
  {
    hide Ahead, InOrder, Roomy, Perform, Enabled, Next, ServesInFull;
    if a.Local? {
      ChangeStays(owner, n, s, queue, a);
      s', queue' := s, queue;
    } else {
      var m := a.move;
      MoveKeepsRoom(n, m);
      if m.send {
        assert m == Move(m.side, true);
        MoverSends(n, m.side);
        if m.side != s { SenderIsNotBehind(n, s, queue); }
        s', queue' := m.side, queue + [Next(Mine(n.ends, m.side)).msg];
        SendStays(n, m.side, queue);
        SendKeepsOrder(owner, n, queue, m.side);
      } else {
        ReaderReadsFront(n, s, queue);
        assert m == Move(m.side, false);
        assert m.side != s;
        s', queue' := s, queue[1..];
        ReadStays(owner, n, s, queue);
        ReadKeepsOrder(owner, n, queue, m.side);
      }
    }
  }

  /** What a side reads on course is what it waits for, and takes it where its place says. */
  lemma {:induction false} FrontIsRead(owner: Owner, n: Net, s: bool, queue: seq<Msg>)
    requires OnCourse(owner, n, s, queue) && Enabled(n, Move(!s, false)) && ServesInFull(n, Proceed(Move(!s, false)))
    ensures var l := Mine(n.ends, !s);
      && queue != [] && Accepts(PosOf(l), SignOf(queue[0], l.cfg.peer)) && Received(l, queue[0]).cfg == l.cfg
      && AfterRead(l.cfg.role, PosOf(l), SignOf(queue[0], l.cfg.peer), PosOf(Received(l, queue[0])))
      && (l.phase.TakePush? ==> !l.phase.taken.failed)
  {
    ReaderReadsFront(n, s, queue);
    var l := Mine(n.ends, !s);
    assert l.phase.TakePush? ==> !l.phase.taken.failed by { hide Trails, TablesOk, Storable, Flying; }
    hide Sane, AfterRead, Received, Next, Roomy, Flying;
    assert Signs(queue, l.cfg.peer)[0] == SignOf(queue[0], l.cfg.peer);
    ReadGoesOn(owner, l, queue[0]);
  }

  lemma {:induction false} MoverSends(n: Net, s: bool)
    requires Enabled(n, Move(s, true))
    ensures Next(Mine(n.ends, s)).ToSend?
  {
  }

  lemma {:induction false} OpeningOnCourse(owner: Owner, n: Net)
    requires Opening(n) && TablesOk(owner, n.ends.d.disk.tables) && TablesOk(owner, n.ends.r.disk.tables)
    ensures OnCourse(owner, n, true, [])
  {
    hide TablesOk, ClipTables.Inv, IdsAgree;
  }

  /** Two fresh endpoints over stores whose ids are unique to their content. */
  ghost predicate Begins(owner: Owner, n: Net)
  {
    Opening(n) && TablesOk(owner, n.ends.d.disk.tables) && TablesOk(owner, n.ends.r.disk.tables)
  }

  lemma {:induction false} EveryRunIsOnCourse(owner: Owner, n: Net, actions: seq<Action>) returns (s: bool, queue: seq<Msg>)
    requires Begins(owner, n) && Lawful(n, actions) && AllAdmissible(owner, actions) && AllServed(n, actions)
    ensures OnCourse(owner, Reached(n, actions), s, queue)
    decreases |actions|
  {
    hide OnCourse, Possible, ServesInFull, Admissible, TablesOk, Do;
    if actions == [] {
      OpeningOnCourse(owner, n);
      s, queue := true, [];
    } else {
      var front, last := actions[..|actions| - 1], actions[|actions| - 1];
      s, queue := EveryRunIsOnCourse(owner, n, front);
      s, queue := OneAction(owner, Reached(n, front), s, queue, last);
    }
  }

  predicate BothDone(n: Net)
  {
    n.ends.d.phase == Done && n.ends.r.phase == Done
  }

  lemma {:induction false} MeetingPlaces(a: Pos, b: Pos)
    requires Meets(a, b)
    ensures !a.Broken? && !b.Broken?
    ensures Utters(a).Some? || Utters(b).Some? || (a.Finished? && b.Finished?)
    ensures a.Finished? <==> b.Finished?
    ensures a.Finished? ==> Utters(a).None?
  {
  }

  lemma {:induction false} TrailingPlaces(role: Role, p: Pos, queue: seq<Sign>, w: Pos)
    requires Trails(role, p, queue, w)
    ensures !p.Broken? && !w.Broken? && (queue != [] ==> !p.Finished?)
    decreases |queue|
  {
    if queue == [] {
      MeetingPlaces(p, w);
    } else {
      var q := SomewhereAfterRead(role, p, queue[0]);
      TrailingPlaces(role, q, queue[1..], w);
    }
  }

  /** On course, nobody has aborted, and some step of the session is possible exactly until both are done,
      with nothing then in flight. */
  lemma {:induction false} CourseGoesOn(owner: Owner, n: Net, s: bool, queue: seq<Msg>)
    requires OnCourse(owner, n, s, queue)
    ensures !n.ends.d.phase.Aborted? && !n.ends.r.phase.Aborted?
    ensures (exists m :: Enabled(n, m)) <==> !BothDone(n)
    ensures BothDone(n) ==> queue == [] && n.dr.control == n.dr.blobs == n.rd.control == n.rd.blobs == []
  {
    hide InOrder, Trails;
    var l, w := Mine(n.ends, !s), Mine(n.ends, s);
    TrailingPlaces(l.cfg.role, PosOf(l), Signs(queue, l.cfg.peer), PosOf(w));
    ReaderReadsFront(n, s, queue);
    if queue == [] {
      MetGoesOn(n, s);
    } else {
      hide Enabled, Flying;
      assert !BothDone(n);
    }
  }

  lemma {:induction false} MetGoesOn(n: Net, s: bool)
    requires Ahead(n, s, []) && Roomy(n)
    ensures (exists m :: Enabled(n, m)) <==> !BothDone(n)
  {
    var l, w := Mine(n.ends, !s), Mine(n.ends, s);
    MeetingPlaces(PosOf(l), PosOf(w));
    SendShape(l);
    SendShape(w);
    if BothDone(n) {
      forall m: Move ensures !Enabled(n, m) { assert m == Move(m.side, m.send); }
    }
    hide Utters, Meets, Next;
    if Next(l).ToSend? {
      assert Enabled(n, Move(!s, true));
    } else if Next(w).ToSend? {
      assert Enabled(n, Move(s, true));
    }
  }

  /** Deadlock freedom and conformance over stores in use. Whatever both users copy, pin and delete in the
      meantime and whatever becomes of the blobs, if every request finds the clips it asks for, no run of
      an honest dialler against an honest responder, over streams of any capacity of at least one, meets
      an unexpected message; a step of the session is possible exactly until both are done; and then
      nothing is in flight. */
  lemma {:induction false} EveryRunGoesOn(owner: Owner, n: Net, actions: seq<Action>)
    requires Begins(owner, n) && Lawful(n, actions) && AllAdmissible(owner, actions) && AllServed(n, actions)
    ensures var now := Reached(n, actions);
      && !now.ends.d.phase.Aborted? && !now.ends.r.phase.Aborted?
      && ((exists m :: Enabled(now, m)) <==> !BothDone(now))
      && (BothDone(now) ==> now.dr.control == now.dr.blobs == now.rd.control == now.rd.blobs == [])
  {
    hide OnCourse, Enabled, BothDone, Begins, Lawful, AllServed, AllAdmissible, Reached;
    var s, queue := EveryRunIsOnCourse(owner, n, actions);
    CourseGoesOn(owner, Reached(n, actions), s, queue);
  }
}
