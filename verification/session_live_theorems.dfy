/** Sessions over stores in use: they end, they can always be finished, and the one thing that stops them
    is a requested clip that is gone (crates/clipsed/src/sync.rs). */
module LiveTheorems {
  import opened Bytes
  import opened HybridClock
  import opened ContentHashes
  import Sorting
  import opened ClipTables
  import Blob = BlobTables
  import opened SyncSession
  import opened SessionTurns
  import opened SessionStores
  import opened SessionShape
  import opened SessionRuns
  import opened LiveRuns
  import opened LiveKnowledge

  // ---- a session is over after finitely many of its own steps -----------------

  /** How many kinds of step an endpoint still has before it. */
  function Rank(role: Role, p: Pos): (r: nat)
  {
    var offered := if role.Dialler? then 6 else 0;
    var taken := 6 - offered;
    match p
    case Greeting => if role.Dialler? then 14 else 13
    case AwaitingHello => if role.Dialler? then 13 else 14
    case Offering(_) => offered + 6
    case AwaitingWant => offered + 5
    case Pushing(_) => offered + 4
    case AwaitingBlobWant => offered + 3
    case Streaming(_) => offered + 2
    case AwaitingAck => offered + 1
    case Listening => taken + 6
    case Wanting(_) => taken + 5
    case Taking(_) => taken + 4
    case WantingBlobs(_) => taken + 3
    case TakingBlobs(_) => taken + 2
    case Acking => taken + 1
    case _ => 0
  }

  /** How many steps of its present kind. */
  function Items(p: Pos): (r: nat)
  {
    match p
    case Offering(n) => n
    case Pushing(n) => n
    case Streaming(n) => n
    case Taking(n) => n
    case TakingBlobs(n) => n
    case _ => 0
  }

  datatype Measure = Measure(rank: nat, items: nat, flying: nat)

  function MeasureOf(n: Net): (r: Measure)
  {
    var d, r := n.ends.d, n.ends.r;
    Measure(Rank(d.cfg.role, PosOf(d)) + Rank(r.cfg.role, PosOf(r)), Items(PosOf(d)) + Items(PosOf(r)),
            |n.dr.control| + |n.dr.blobs| + |n.rd.control| + |n.rd.blobs|)
  }

  predicate Smaller(a: Measure, b: Measure)
  {
    a.rank < b.rank || (a.rank == b.rank && (a.items < b.items || (a.items == b.items && a.flying < b.flying)))
  }

  lemma {:induction false} SendDescends(role: Role, p: Pos, q: Pos)
    requires AfterSend(role, p, q)
    ensures Rank(role, q) < Rank(role, p) || (Rank(role, q) == Rank(role, p) && Items(q) < Items(p))
  {
  }

  lemma {:induction false} ReadDescends(role: Role, p: Pos, m: Sign, q: Pos)
    requires AfterRead(role, p, m, q)
    ensures Rank(role, q) < Rank(role, p) || (Rank(role, q) == Rank(role, p) && (Items(q) < Items(p) || q == p))
  {
  }

  /** Every step of the session makes the measure smaller, and no change to a store makes it larger: so
      no run has infinitely many steps of the session. */
  lemma {:induction false} StepsDescend(owner: Owner, n: Net, s: bool, queue: seq<Msg>, a: Action)
    requires OnCourse(owner, n, s, queue) && Possible(n, a) && ServesInFull(n, a)
    ensures a.Proceed? ==> Smaller(MeasureOf(Do(n, a)), MeasureOf(n))
    ensures a.Local? ==> MeasureOf(Do(n, a)) == MeasureOf(n)
  {
    hide Roomy, InOrder, Ahead, Received, Sent, PosOf, Rank, Items;
    if a.Local? {
      ChangeKeepsPlace(Mine(n.ends, a.side), a.change);
      hide Changed;
    } else if a.move.send {
      var l := Mine(n.ends, a.move.side);
      SendShape(l);
      SendDescends(l.cfg.role, PosOf(l), PosOf(Sent(l)));
      hide Next, AfterSend;
    } else {
      ReaderReadsFront(n, s, queue);
      assert a.move == Move(!s, false);
      FrontIsRead(owner, n, s, queue);
      var l := Mine(n.ends, !s);
      ReadDescends(l.cfg.role, PosOf(l), SignOf(queue[0], l.cfg.peer), PosOf(Received(l, queue[0])));
      hide Next, AfterRead, SignOf;
    }
  }

  lemma {:induction false} ChangeKeepsPlace(l: Endpoint, c: Change)
    ensures PosOf(Changed(l, c)) == PosOf(l) && Changed(l, c).cfg == l.cfg
  {
    hide ClipTables.Step, Blob.Step;
    assert Changed(l, c).phase == l.phase;
  }

  lemma {:induction false} LongerRun(n: Net, actions: seq<Action>, a: Action)
    requires Lawful(n, actions) && Possible(Reached(n, actions), a)
    ensures Lawful(n, actions + [a]) && Reached(n, actions + [a]) == Do(Reached(n, actions), a)
  {
    assert (actions + [a])[..|actions|] == actions;
  }

  /** Only steps of the session. */
  predicate Quiet(actions: seq<Action>)
  {
    forall i :: 0 <= i < |actions| ==> actions[i].Proceed?
  }

  lemma {:induction false} FinishFrom(owner: Owner, n: Net, actions: seq<Action>, s: bool, queue: seq<Msg>) returns (more: seq<Action>)
    requires Begins(owner, n) && Lawful(n, actions)
    requires OnCourse(owner, Reached(n, actions), s, queue) && Truthful(Reached(n, actions), s, queue)
    ensures Quiet(more) && Lawful(n, actions + more) && BothDone(Reached(n, actions + more))
    decreases MeasureOf(Reached(n, actions)).rank, MeasureOf(Reached(n, actions)).items, MeasureOf(Reached(n, actions)).flying
  {
    hide OnCourse, Enabled, BothDone, Begins, Truthful, MeasureOf, Lawful, Reached;
    var now := Reached(n, actions);
    CourseGoesOn(owner, now, s, queue);
    if BothDone(now) {
      more := [];
      assert actions + [] == actions;
    } else {
      var m :| Enabled(now, m);
      var a := Proceed(m);
      LongerRun(n, actions, a);
      var s', queue' := OneTruthfulAction(owner, now, s, queue, a);
      StepsDescend(owner, now, s, queue, a);
      var rest := FinishFrom(owner, n, actions + [a], s', queue');
      more := [a] + rest;
      assert actions + more == (actions + [a]) + rest;
    }
  }

  /** Unless something is purged, every run, whatever has changed on the way, can be carried on to the end
      by steps of the session alone. */
  lemma {:induction false} EveryRunCanFinish(owner: Owner, n: Net, actions: seq<Action>) returns (more: seq<Action>)
    requires Begins(owner, n) && Lawful(n, actions) && AllAdmissible(owner, actions) && NoPurge(actions)
    ensures Quiet(more) && Lawful(n, actions + more) && BothDone(Reached(n, actions + more))
  {
    hide OnCourse, Truthful, Begins, Lawful, Reached, BothDone;
    var s, queue := NothingPurgedAllServed(owner, n, actions);
    more := FinishFrom(owner, n, actions, s, queue);
  }

  /** Without a purge: no unexpected message, a step possible exactly until both are done, and every
      step towards the end. */
  lemma {:induction false} NothingPurgedNothingStuck(owner: Owner, n: Net, actions: seq<Action>)
    requires Begins(owner, n) && Lawful(n, actions) && AllAdmissible(owner, actions) && NoPurge(actions)
    ensures var now := Reached(n, actions);
      && !now.ends.d.phase.Aborted? && !now.ends.r.phase.Aborted?
      && ((exists m :: Enabled(now, m)) <==> !BothDone(now))
      && (BothDone(now) ==> now.dr.control == now.dr.blobs == now.rd.control == now.rd.blobs == [])
      && (forall m :: Enabled(now, m) ==> Smaller(MeasureOf(Perform(now, m)), MeasureOf(now)))
      && (forall s, c :: MeasureOf(Do(now, Action.Local(s, c))) == MeasureOf(now))
  {
    hide OnCourse, Truthful, Begins, Lawful, Reached, BothDone, Enabled, MeasureOf, Perform;
    var s, queue := NothingPurgedAllServed(owner, n, actions);
    var now := Reached(n, actions);
    CourseGoesOn(owner, now, s, queue);
    forall m | Enabled(now, m) ensures Smaller(MeasureOf(Perform(now, m)), MeasureOf(now)) {
      var s', queue' := OneTruthfulAction(owner, now, s, queue, Proceed(m));
      StepsDescend(owner, now, s, queue, Proceed(m));
    }
    forall x, c ensures MeasureOf(Do(now, Action.Local(x, c))) == MeasureOf(now) {
      StepsDescend(owner, now, s, queue, Action.Local(x, c));
    }
  }

  // ---- stores at rest -----------------------------------------------------------

  function Moves(actions: seq<Action>): (r: seq<Move>)
    requires Quiet(actions)
    ensures |r| == |actions|
  {
    if actions == [] then [] else Moves(actions[..|actions| - 1]) + [actions[|actions| - 1].move]
  }

  /** A run in which no store changes is one of the runs between stores at rest. */
  lemma {:induction false} QuietRunIsRun(n: Net, actions: seq<Action>)
    requires Quiet(actions)
    ensures Lawful(n, actions) <==> Legal(n, Moves(actions))
    ensures Reached(n, actions) == StateAfter(n, Moves(actions))
  {
    hide Enabled, Perform;
    if actions != [] {
      var front, moves := actions[..|actions| - 1], Moves(actions);
      QuietRunIsRun(n, front);
      assert moves[..|moves| - 1] == Moves(front) && moves[|moves| - 1] == actions[|actions| - 1].move;
    }
  }

  // ---- a clip that is gone ----------------------------------------------------

  /** Side `s` has fewer clips to push than its peer waits for; nothing can make up for it. */
  predicate Short(n: Net, s: bool)
  {
    var o, t := Mine(n.ends, s), Mine(n.ends, !s);
    && (o.phase.SendPush? || o.phase.AwaitBlobWant?)
    && Out(n, !s).control == [] && Out(n, !s).blobs == [] && Out(n, s).blobs == []
    && (forall i :: 0 <= i < |Out(n, s).control| ==> Out(n, s).control[i].Push?)
    && (t.phase.Aborted? ||
        (t.phase.TakePush? && t.phase.left > |Out(n, s).control| + if o.phase.SendPush? then |o.phase.clips| else 0))
  }

  lemma {:induction false} ShortForGood(n: Net, s: bool, a: Action)
    requires Short(n, s) && Possible(n, a)
    ensures Short(Do(n, a), s)
  {
    if a.Local? {
      ChangeKeepsPhase(Mine(n.ends, a.side), a.change);
      hide Changed;
    } else {
      var l := Mine(n.ends, a.move.side);
      hide TakeIn, Needed, Summaries, MaxHlc;
      if a.move.side == s {
        assert a.move.send && l.phase.SendPush?;
      } else {
        assert !a.move.send && l.phase.TakePush? && Next(l) == ToReceive(Control);
      }
    }
  }

  /** With a side short, it alone sends and its peer alone reads, all on the control stream. */
  lemma {:induction false} ShortMoves(n: Net, s: bool, a: Action)
    requires Short(n, s) && Possible(n, a)
    ensures var queue, queue' := Out(n, s).control, Out(Do(n, a), s).control;
      && (a.Local? ==> queue' == queue)
      && (a.Proceed? && a.move.send ==> a.move.side == s && Next(Mine(n.ends, s)).ToSend? && queue' == queue + [Next(Mine(n.ends, s)).msg])
      && (a.Proceed? && !a.move.send ==> a.move.side != s && queue != [] && Incoming(n, a.move) == queue[0] && queue' == queue[1..])
  {
    if a.Local? {
      hide Changed;
    } else {
      hide Sent, Received;
    }
  }

  lemma {:induction false} ShortIsUnfinished(n: Net, s: bool)
    requires Short(n, s)
    ensures !BothDone(n)
    ensures !Next(Mine(n.ends, !s)).ToSend? && Out(n, !s).control == Out(n, !s).blobs == []
  {
  }

  lemma {:induction false} ChangeKeepsPhase(l: Endpoint, c: Change)
    ensures Changed(l, c).phase == l.phase
  {
    hide ClipTables.Step, Blob.Step;
  }

  /** A request that does not find all its clips leaves its reader short. */
  lemma {:induction false} UnservedIsShort(owner: Owner, n: Net, s: bool, queue: seq<Msg>, a: Action)
    requires OnCourse(owner, n, s, queue) && Possible(n, a) && !ServesInFull(n, a)
    ensures a == Proceed(Move(!s, false)) && queue == [Incoming(n, a.move)]
    ensures Short(Do(n, a), !s) && Out(Do(n, a), !s).control == []
  {
    hide InOrder, Roomy, Ahead;
    ReaderReadsFront(n, s, queue);
    assert a.move == Move(!s, false);
    var l, w := Mine(n.ends, !s), Mine(n.ends, s);
    hide Enabled, Next, Received, Perform;
    var hashes := queue[0].hashes;
    assert queue[0] == Want(hashes) && l.phase.AwaitWant? && exists i :: 0 <= i < |hashes| && Find(l.disk.tables, hashes[i]).None?;
    hide ServesInFull, Find;
    RequestedAlone(n, s, queue);
    ServedShort(l, hashes);
    NothingElseFlies(n, s, queue[0]);
    PerformRead(n, !s);
  }

  lemma {:induction false} PerformRead(n: Net, s: bool)
    requires Enabled(n, Move(s, false))
    ensures var n' := Perform(n, Move(s, false));
      Mine(n'.ends, s) == Received(Mine(n.ends, s), Incoming(n, Move(s, false))) && Mine(n'.ends, !s) == Mine(n.ends, !s)
  {
    hide Next, Received;
  }

  lemma {:induction false} RequestedAlone(n: Net, s: bool, queue: seq<Msg>)
    requires Ahead(n, s, queue) && Mine(n.ends, !s).phase.AwaitWant? && queue != [] && queue[0].Want? && queue[0].hashes != []
    ensures queue == [queue[0]]
    ensures Mine(n.ends, s).phase.TakePush? && Mine(n.ends, s).phase.left == |queue[0].hashes|
  {
    hide Trails, Flying;
    var l, w := Mine(n.ends, !s), Mine(n.ends, s);
    RequestIsAlone(l.cfg.role, PosOf(l), Signs(queue, l.cfg.peer), PosOf(w));
  }

  lemma {:induction false} NothingElseFlies(n: Net, s: bool, m: Msg)
    requires Ahead(n, s, [m]) && m.Want? && Enabled(n, Move(!s, false)) && Incoming(n, Move(!s, false)) == m
    ensures var n' := Perform(n, Move(!s, false));
      Out(n', s).control == Out(n', s).blobs == Out(n', !s).control == Out(n', !s).blobs == []
  {
    assert [m][1..] == [];
    assert On([m], Control) == [m] + On([], Control) && On([m], Blobs) == [] + On([], Blobs);
    hide Trails, Received;
  }

  lemma {:induction false} ServedShort(l: Endpoint, hashes: seq<ContentHash>)
    requires l.phase.AwaitWant? && exists i :: 0 <= i < |hashes| && Find(l.disk.tables, hashes[i]).None?
    ensures var q := Received(l, Want(hashes)).phase;
      (q.SendPush? && |q.clips| < |hashes|) || (q.AwaitBlobWant? && |hashes| > 0)
  {
    ServeIsCompleteIff(l.disk.tables, hashes);
    hide Serve, Find;
  }

  /** A request for clips is the last thing in flight, and its writer waits for as many as it asks for. */
  lemma {:induction false} RequestIsAlone(role: Role, p: Pos, queue: seq<Sign>, w: Pos)
    requires Trails(role, p, queue, w) && p == AwaitingWant && queue != [] && queue[0].WantSign? && queue[0].count > 0
    ensures |queue| == 1 && w == Taking(queue[0].count)
  {
    var q := SomewhereAfterRead(role, p, queue[0]);
    assert Trails(role, q, queue[1..], w);
    if |queue| > 1 { AcceptsIsNoSender(q, queue[1..][0]); }
  }

  lemma {:induction false} ShortOrServed(owner: Owner, n: Net, actions: seq<Action>) returns (s: bool)
    requires Begins(owner, n) && Lawful(n, actions) && AllAdmissible(owner, actions)
    ensures AllServed(n, actions) || Short(Reached(n, actions), s)
    decreases |actions|
  {
    hide OnCourse, Possible, ServesInFull, Admissible, Do, Short, Begins;
    s := true;
    if actions != [] {
      var front, last := actions[..|actions| - 1], actions[|actions| - 1];
      s := ShortOrServed(owner, n, front);
      var before := Reached(n, front);
      if AllServed(n, front) {
        if !ServesInFull(before, last) {
          var x, queue := EveryRunIsOnCourse(owner, n, front);
          UnservedIsShort(owner, before, x, queue, last);
          s := !x;
        }
      } else {
        ShortForGood(before, s, last);
      }
    }
  }

  /** The exact condition. A run in which no step of the session is possible any more is a finished one
      if and only if every request for clips found all the clips it asked for; otherwise both sides wait
      for ever, whatever else happens to the stores. */
  lemma {:induction false} StuckRunIsFinishedIff(owner: Owner, n: Net, actions: seq<Action>)
    requires Begins(owner, n) && Lawful(n, actions) && AllAdmissible(owner, actions)
    requires forall m :: !Enabled(Reached(n, actions), m)
    ensures BothDone(Reached(n, actions)) <==> AllServed(n, actions)
  {
    hide Enabled, Begins, Lawful, AllAdmissible, Reached, AllServed;
    if AllServed(n, actions) {
      EveryRunGoesOn(owner, n, actions);
    } else {
      var s := ShortOrServed(owner, n, actions);
    }
  }

  /** Once a request has not found its clips, no continuation of the run ever finishes. */
  lemma {:induction false} UnservedNeverFinishes(owner: Owner, n: Net, actions: seq<Action>, k: nat)
    requires Begins(owner, n) && Lawful(n, actions) && AllAdmissible(owner, actions)
    requires k <= |actions| && Lawful(n, actions[..k]) && !AllServed(n, actions[..k])
    ensures !BothDone(Reached(n, actions))
  {
    hide Begins, Reached;
    if AllServed(n, actions) { ServedSoFar(n, actions, k); }
    var s := ShortOrServed(owner, n, actions);
  }

  lemma {:induction false} ServedSoFar(n: Net, actions: seq<Action>, k: nat)
    requires Lawful(n, actions) && k <= |actions| && Lawful(n, actions[..k]) && AllServed(n, actions)
    ensures AllServed(n, actions[..k])
    decreases |actions|
  {
    hide ServesInFull, Possible;
    if k < |actions| {
      var front := actions[..|actions| - 1];
      assert front[..k] == actions[..k];
      ServedSoFar(n, front, k);
    } else {
      assert actions[..k] == actions;
    }
  }

  /** A tombstone purged between the summary and the request for it: the shortest such run. */
  lemma {:induction false} PurgeStrandsBoth(n: Net, row: Row) returns (actions: seq<Action>)
    requires Opening(n) && n.ends.d.disk.tables.rows == [row] && n.ends.r.disk.tables.rows == []
    requires row.clip.deleted && row.deletedAt.Some?
    ensures Lawful(n, actions) && |actions| == 9 && actions[7] == Action.Local(true, OnClips(PurgeOp(row.deletedAt.value, 0)))
    ensures forall i :: 0 <= i < 9 && i != 7 ==> actions[i].Proceed?
    ensures var now := Reached(n, actions);
      && (forall m :: !Enabled(now, m)) && !BothDone(now)
      && now.ends.d.phase == AwaitBlobWant && now.ends.r.phase.TakePush? && now.ends.r.phase.left == 1
  {
    hide Lawful, Reached, MaxHlc, Honest, Perform, Enabled, SummaryOf;
    var d, r := n.ends.d, n.ends.r;
    OneRowSummary(row, d.disk.tables, r.disk.tables);
    var greet := [Proceed(Move(true, true)), Proceed(Move(false, false)), Proceed(Move(false, true)), Proceed(Move(true, false))];
    var n4 := Greeted(n);
    var sum := SummaryOf(row.clip);
    var n5 := Net(Joint(d.(phase := AwaitWant), n4.ends.r), n4.dr.(control := [SummaryPage([sum], true)]), n4.rd);
    SendsTo(n4, true, n5);
    LongerRun(n, greet, Proceed(Move(true, true)));
    var n6 := Net(Joint(n5.ends.d, r.(phase := SendWant([row.clip.hash]))), n4.dr, n4.rd);
    ReadsTo(n5, false, SummaryPage([sum], true), n6);
    LongerRun(n, greet + [Proceed(Move(true, true))], Proceed(Move(false, false)));
    var n7 := Net(Joint(n5.ends.d, r.(phase := TakePush(1, Fresh(r.disk.tables)))), n4.dr, n4.rd.(control := [Want([row.clip.hash])]));
    SendsTo(n6, false, n7);
    LongerRun(n, greet + [Proceed(Move(true, true))] + [Proceed(Move(false, false))], Proceed(Move(false, true)));
    var purge := Action.Local(true, OnClips(PurgeOp(row.deletedAt.value, 0)));
    var before := greet + [Proceed(Move(true, true))] + [Proceed(Move(false, false))] + [Proceed(Move(false, true))];
    LongerRun(n, before, purge);
    var n8 := Do(n7, purge);
    PurgedRow(d.disk.tables, row);
    var n9 := Net(Joint(n8.ends.d.(phase := AwaitBlobWant), n8.ends.r), n4.dr, n4.rd);
    ReadsTo(n8, true, Want([row.clip.hash]), n9);
    LongerRun(n, before + [purge], Proceed(Move(true, false)));
    actions := before + [purge] + [Proceed(Move(true, false))];
    NobodyMoves(n9);
  }

  lemma {:induction false} NobodyMoves(n: Net)
    requires n.dr.control == n.rd.control == [] && n.ends.d.phase == AwaitBlobWant && n.ends.r.phase.TakePush?
    ensures forall m :: !Enabled(n, m)
  {
  }

  lemma {:induction false} PurgedRow(t: Tables, row: Row)
    requires t.rows == [row] && row.clip.deleted && row.deletedAt.Some?
    ensures Purge(t, row.deletedAt.value, 0).rows == [] && Serve(Purge(t, row.deletedAt.value, 0), [row.clip.hash]) == []
  {
    assert t.rows[1..] == [];
  }

  /** A history of one row is one page, and a peer with nothing asks for it. */
  lemma {:induction false} OneRowSummary(row: Row, t: Tables, t': Tables)
    requires t.rows == [row] && t'.rows == []
    ensures Pages(Summaries(t), SUMMARY_PAGE) == [[SummaryOf(row.clip)]]
    ensures Wanted(t', [] + [SummaryOf(row.clip)]) == [row.clip.hash]
  {
    assert t.rows[1..] == [];
    assert Sorting.Filter(t.rows, PastCursor(None)) == [row];
    assert Sorting.Sort([row], OldestFirst) == [row];
    assert ChangesSince(t.rows, None, SUMMARY_LIMIT) == [row];
    assert Summaries(t) == [SummaryOf(row.clip)];
    var e := [SummaryOf(row.clip)];
    assert [] + e == e && e[1..] == [];
    assert Takes(t', e[0]);
  }

  lemma {:induction false} SendsTo(n: Net, s: bool, n': Net)
    requires Next(Mine(n.ends, s)).ToSend? && HasRoom(Out(n, s), Next(Mine(n.ends, s)).msg)
    requires n'.ends == SetMine(n.ends, s, Sent(Mine(n.ends, s)))
    requires Out(n', s) == Enqueue(Out(n, s), Next(Mine(n.ends, s)).msg) && Out(n', !s) == Out(n, !s)
    ensures Enabled(n, Move(s, true)) && Perform(n, Move(s, true)) == n'
  {
    hide Next, Sent;
  }

  lemma {:induction false} ReadsTo(n: Net, s: bool, m: Msg, n': Net)
    requires Next(Mine(n.ends, s)) == ToReceive(Control) && Out(n, !s).control == [m]
    requires n'.ends == SetMine(n.ends, s, Received(Mine(n.ends, s), m))
    requires Out(n', !s) == Out(n, !s).(control := []) && Out(n', s) == Out(n, s)
    ensures Enabled(n, Move(s, false)) && Perform(n, Move(s, false)) == n'
  {
    hide Next, Received;
    assert [m][1..] == [];
  }

  /** The four steps of the greeting. */
  lemma {:induction false} Greeted(n: Net) returns (n': Net)
    requires Opening(n)
    ensures var greet := [Proceed(Move(true, true)), Proceed(Move(false, false)), Proceed(Move(false, true)), Proceed(Move(true, false))];
      Lawful(n, greet) && Reached(n, greet) == n'
    ensures n' == n.(ends := Joint(BeginOffer(n.ends.d), BeginTake(n.ends.r)))
  {
    hide Lawful, Reached, MaxHlc, Perform, Enabled, Summaries, Pages, ClipTables.Inv, IdsAgree;
    var d, r := n.ends.d, n.ends.r;
    var a, b, c, e := Proceed(Move(true, true)), Proceed(Move(false, false)), Proceed(Move(false, true)), Proceed(Move(true, false));
    var hi, hello := Next(d).msg, Next(r.(phase := SendHello)).msg;
    var n1 := Net(Joint(d.(phase := AwaitHello), r), n.dr.(control := [hi]), n.rd);
    EmptyRun(n);
    SendsTo(n, true, n1);
    LongerRun(n, [], a);
    var n2 := Net(Joint(n1.ends.d, r.(phase := SendHello)), n.dr, n.rd);
    ReadsTo(n1, false, hi, n2);
    LongerRun(n, [] + [a], b);
    var n3 := Net(Joint(n1.ends.d, BeginTake(r)), n.dr, n.rd.(control := [hello]));
    SendsTo(n2, false, n3);
    LongerRun(n, [] + [a] + [b], c);
    n' := Net(Joint(BeginOffer(d), BeginTake(r)), n.dr, n.rd);
    ReadsTo(n3, true, hello, n');
    LongerRun(n, [] + [a] + [b] + [c], e);
    assert [] + [a] + [b] + [c] + [e] == [a, b, c, e];
  }

  lemma {:induction false} EmptyRun(n: Net)
    ensures Lawful(n, []) && Reached(n, []) == n
  {
  }
}
