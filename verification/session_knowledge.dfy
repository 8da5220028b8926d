/** What a side has announced and what it still holds. As long as no row is purged, every clip a peer asks
    for is still there when the request is read (crates/clipsed/src/sync.rs). */
module LiveKnowledge {
  import opened Bytes
  import opened HybridClock
  import opened ContentHashes
  import opened Sorting
  import opened ClipTables
  import Blob = BlobTables
  import opened SyncSession
  import opened SessionTurns
  import opened SessionStores
  import opened SessionShape
  import opened SessionRuns
  import opened LiveRuns

  ghost predicate Knows(t: Tables, hashes: seq<ContentHash>)
  {
    forall i :: 0 <= i < |hashes| ==> Find(t, hashes[i]).Some?
  }

  ghost predicate KnowsEntries(t: Tables, entries: seq<Summary>)
  {
    forall i :: 0 <= i < |entries| ==> Find(t, entries[i].hash).Some?
  }

  ghost predicate KnowsPages(t: Tables, pages: seq<seq<Summary>>)
  {
    forall i :: 0 <= i < |pages| ==> KnowsEntries(t, pages[i])
  }

  /** No content is lost. */
  ghost predicate Grows(t: Tables, t': Tables)
  {
    forall h :: Find(t, h).Some? ==> Find(t', h).Some?
  }

  lemma {:induction false} KeptHashesGrow(t: Tables, t': Tables)
    requires |t.rows| <= |t'.rows| && forall i :: 0 <= i < |t.rows| ==> t'.rows[i].clip.hash == t.rows[i].clip.hash
    ensures Grows(t, t')
  {
    forall h | Find(t, h).Some? ensures Find(t', h).Some? {
      var i := LookupAny(t.rows, h);
      assert t'.rows[i] in t'.rows;
    }
  }

  /** Only a purge loses content. */
  lemma {:induction false} OnlyPurgeLoses(t: Tables, op: ClipTables.Op)
    requires !op.PurgeOp?
    ensures Grows(t, ClipTables.Step(t, op))
  {
    hide Filter, Sort, BodyText, Grows;
    KeptHashesGrow(t, ClipTables.Step(t, op));
  }

  lemma {:induction false} ApplyGrows(t: Tables, clip: Clip, now: nat)
    ensures Grows(t, Apply(t, clip, now).0)
  {
    hide Insert, SetPinned, Delete, HashMatches, Less, Find, Grows;
    Reflexive(t);
    OnlyPurgeLoses(t, InsertOp(clip));
    var local := Find(t, clip.hash);
    if local.Some? {
      var id := local.value.id;
      OnlyPurgeLoses(t, PinOp(id, clip.pinned, clip.hlc));
      var t1 := SetPinned(t, id, clip.pinned, clip.hlc).0;
      OnlyPurgeLoses(t1, DeleteOp(id, clip.hlc, now));
      GrowsOn(t, t1, Delete(t1, id, clip.hlc, now).0);
    }
  }

  lemma {:induction false} GrowsOn(t: Tables, t': Tables, t'': Tables)
    requires Grows(t, t') && Grows(t', t'')
    ensures Grows(t, t'')
  {
    hide Find;
  }

  lemma {:induction false} ReadGrows(l: Endpoint, m: Msg)
    ensures Grows(l.disk.tables, Received(l, m).disk.tables)
  {
    hide Apply, Grows, Needed, Serve, Wanted, Summaries, Pages, Blob.PutBlob, Less, BlobDigests;
    Reflexive(l.disk.tables);
    if l.phase.TakePush? && m.Push? && l.phase.left > 0 {
      ApplyGrows(l.disk.tables, m.clip, l.cfg.clock(l.phase.taken.received + l.phase.taken.rejected));
      RefusalChangesNothing(l.disk.tables, m.clip, l.cfg.clock(l.phase.taken.received + l.phase.taken.rejected));
    }
  }

  lemma {:induction false} SendKeepsTables(l: Endpoint)
    ensures Sent(l).disk.tables == l.disk.tables
  {
    hide Needed, Summaries, Pages, Blob.ReadBlob;
  }

  lemma {:induction false} PagesKnown(t: Tables, entries: seq<Summary>, n: nat)
    requires n > 0 && KnowsEntries(t, entries)
    ensures KnowsPages(t, Pages(entries, n))
    decreases |entries|
  {
    hide Find;
    if |entries| > n { PagesKnown(t, entries[n..], n); }
  }

  /** A store knows its own summary. */
  lemma {:induction false} OwnSummaryKnown(t: Tables)
    ensures KnowsPages(t, Pages(Summaries(t), SUMMARY_PAGE))
  {
    hide Summaries, Pages;
    forall k | 0 <= k < |Summaries(t)| ensures Find(t, Summaries(t)[k].hash).Some? {
      SummariesComeFromRows(t, k);
    }
    PagesKnown(t, Summaries(t), SUMMARY_PAGE);
  }

  lemma {:induction false} WantedKnown(o: Tables, t: Tables, entries: seq<Summary>)
    requires KnowsEntries(o, entries)
    ensures Knows(o, Wanted(t, entries))
  {
    hide Find, Wanted, Takes;
    forall k | 0 <= k < |Wanted(t, entries)| ensures Find(o, Wanted(t, entries)[k]).Some? {
      WantedComesFromEntries(t, entries, k);
    }
  }

  /** What one side says, asks or has heard is known to the store it came from: `mine` is its own. */
  ghost predicate Informed(l: Endpoint, theirs: Tables)
  {
    && (l.phase.SendSummary? ==> KnowsPages(l.disk.tables, l.phase.pages))
    && (l.phase.TakeSummary? ==> KnowsEntries(theirs, l.phase.entries))
    && (l.phase.SendWant? ==> Knows(theirs, l.phase.wanted))
  }

  /** The pages in flight announce what their sender holds. */
  ghost predicate PagesTrue(t: Tables, queue: seq<Msg>)
  {
    forall i :: 0 <= i < |queue| && queue[i].SummaryPage? ==> KnowsEntries(t, queue[i].entries)
  }

  /** A request for clips in flight asks for what its reader holds. */
  ghost predicate RequestTrue(l: Endpoint, queue: seq<Msg>)
  {
    l.phase.AwaitWant? && queue != [] && queue[0].Want? ==> Knows(l.disk.tables, queue[0].hashes)
  }

  ghost predicate Truthful(n: Net, s: bool, queue: seq<Msg>)
  {
    var l, w := Mine(n.ends, !s), Mine(n.ends, s);
    && Informed(l, w.disk.tables) && Informed(w, l.disk.tables)
    && PagesTrue(w.disk.tables, queue) && RequestTrue(l, queue)
  }

  lemma {:induction false} InformedGrows(l: Endpoint, theirs: Tables, l': Endpoint, theirs': Tables)
    requires Informed(l, theirs) && l'.phase == l.phase && Grows(l.disk.tables, l'.disk.tables) && Grows(theirs, theirs')
    ensures Informed(l', theirs')
  {
    hide Find;
  }

  lemma {:induction false} QueueGrows(t: Tables, t': Tables, l: Endpoint, l': Endpoint, queue: seq<Msg>)
    requires Grows(t, t') && Grows(l.disk.tables, l'.disk.tables) && l'.phase == l.phase
    requires PagesTrue(t, queue) && RequestTrue(l, queue)
    ensures PagesTrue(t', queue) && RequestTrue(l', queue)
  {
    hide Find;
  }

  lemma {:induction false} Reflexive(t: Tables)
    ensures Grows(t, t)
  {
  }

  lemma {:induction false} ChangeStaysTruthful(n: Net, s: bool, queue: seq<Msg>, a: Action)
    requires Truthful(n, s, queue) && a.Local? && (a.change.OnClips? ==> !a.change.op.PurgeOp?)
    ensures Truthful(Do(n, a), s, queue)
  {
    hide Informed, PagesTrue, RequestTrue, Grows, ClipTables.Step, Blob.Step;
    var n' := Do(n, a);
    var l, w, l', w' := Mine(n.ends, !s), Mine(n.ends, s), Mine(n'.ends, !s), Mine(n'.ends, s);
    Reflexive(l.disk.tables);
    Reflexive(w.disk.tables);
    if a.change.OnClips? { OnlyPurgeLoses(Mine(n.ends, a.side).disk.tables, a.change.op); }
    InformedGrows(l, w.disk.tables, l', w'.disk.tables);
    InformedGrows(w, l.disk.tables, w', l'.disk.tables);
    QueueGrows(w.disk.tables, w'.disk.tables, l, l', queue);
  }

  /** Sending: what is sent was known, and what comes next is. */
  lemma {:induction false} SendInformed(w: Endpoint, theirs: Tables)
    requires Informed(w, theirs) && Next(w).ToSend?
    ensures Informed(Sent(w), theirs)
  {
    OwnSummaryKnown(w.disk.tables);
    SentPhase(w);
    SendKeepsTables(w);
    hide Find, Knows, Summaries, Pages, Sent, Next;
  }

  lemma {:induction false} SentPhase(w: Endpoint)
    requires Next(w).ToSend?
    ensures var q := Sent(w).phase;
      && !q.SendWant? && (q.TakeSummary? ==> q.entries == [])
      && (q.SendSummary? ==> q.pages == if w.phase.SendSummary? then w.phase.pages[1..] else Pages(Summaries(w.disk.tables), SUMMARY_PAGE))
  {
    hide Summaries, Pages, Needed, MaxHlc, Blob.ReadBlob;
  }

  lemma {:induction false} SendsTheKnown(w: Endpoint, theirs: Tables)
    requires Informed(w, theirs) && Next(w).ToSend?
    ensures Next(w).msg.SummaryPage? ==> KnowsEntries(w.disk.tables, Next(w).msg.entries)
    ensures w.phase.SendWant? ==> Knows(theirs, Next(w).msg.hashes)
  {
    hide Knows, KnowsEntries, MaxHlc;
  }

  /** A side that is met while it waits to be asked for clips is about to be asked for them. */
  lemma {:induction false} AskedWhenMet(role: Role, p: Pos, queue: seq<Sign>, w: Pos)
    requires Trails(role, p, queue, w)
    ensures queue == [] && p == AwaitingWant ==> w.Wanting?
    ensures w.Wanting? ==> queue == [] && p == AwaitingWant
  {
    if w.Wanting? { WantingIsMet(role, p, queue, w.clips); }
  }

  lemma {:induction false} SendStaysTruthful(n: Net, s: bool, queue: seq<Msg>)
    requires Ahead(n, s, queue) && Truthful(n, s, queue) && Enabled(n, Move(s, true))
    ensures Truthful(Perform(n, Move(s, true)), s, queue + [Next(Mine(n.ends, s)).msg])
  {
    var l, w := Mine(n.ends, !s), Mine(n.ends, s);
    var m := Next(w).msg;
    AskedWhenMet(l.cfg.role, PosOf(l), Signs(queue, l.cfg.peer), PosOf(w));
    SendInformed(w, l.disk.tables);
    SendsTheKnown(w, l.disk.tables);
    SendKeepsTables(w);
    hide Trails, Signs, Flying, Knows, KnowsEntries, Next, Sent, Informed;
    assert RequestTrue(l, queue + [m]);
  }

  lemma {:induction false} ReadInformed(l: Endpoint, m: Msg, theirs: Tables)
    requires Informed(l, theirs) && (m.SummaryPage? ==> KnowsEntries(theirs, m.entries))
    requires Accepts(PosOf(l), SignOf(m, l.cfg.peer))
    ensures Informed(Received(l, m), theirs)
  {
    ReadPhase(l, m);
    if l.phase.TakeSummary? {
      assert KnowsEntries(theirs, l.phase.entries + m.entries) by { hide Find; }
      WantedKnown(theirs, l.disk.tables, l.phase.entries + m.entries);
    }
    OwnSummaryKnown(l.disk.tables);
    assert KnowsEntries(theirs, []);
    hide Knows, KnowsEntries, KnowsPages, Summaries, Pages, Wanted, Received;
  }

  lemma {:induction false} ReadPhase(l: Endpoint, m: Msg)
    requires Accepts(PosOf(l), SignOf(m, l.cfg.peer))
    ensures var r := Received(l, m);
      && (r.phase.SendSummary? ==> r.disk == l.disk && r.phase.pages == Pages(Summaries(l.disk.tables), SUMMARY_PAGE))
      && (r.phase.TakeSummary? ==> r.phase.entries == if l.phase.TakeSummary? then l.phase.entries + m.entries else [])
      && (r.phase.SendWant? ==> l.phase.TakeSummary? && r.phase.wanted == Wanted(l.disk.tables, l.phase.entries + m.entries))
  {
    hide Summaries, Pages, Needed, Wanted, Serve, Apply, Blob.PutBlob;
  }

  lemma {:induction false} InformedOthers(l: Endpoint, theirs: Tables, theirs': Tables)
    requires Informed(l, theirs) && Grows(theirs, theirs')
    ensures Informed(l, theirs')
  {
    Reflexive(l.disk.tables);
    InformedGrows(l, theirs, l, theirs');
  }

  lemma {:induction false} ReadStaysTruthful(n: Net, s: bool, queue: seq<Msg>)
    requires Ahead(n, s, queue) && Truthful(n, s, queue) && queue != [] && Enabled(n, Move(!s, false))
    requires Received(Mine(n.ends, !s), queue[0]).phase != AwaitWant
    ensures Truthful(Perform(n, Move(!s, false)), s, queue[1..])
  {
    var l, w, m := Mine(n.ends, !s), Mine(n.ends, s), queue[0];
    ReaderReadsFront(n, s, queue);
    ReadInformed(l, m, w.disk.tables);
    ReadGrows(l, m);
    InformedOthers(w, l.disk.tables, Received(l, m).disk.tables);
    hide Trails, Signs, Flying, Knows, KnowsEntries, Next, Received, Informed, Grows;
    var n' := Perform(n, Move(!s, false));
    assert Mine(n'.ends, !s) == Received(l, m) && Mine(n'.ends, s) == w;
  }

  lemma {:induction false} NotAskedAfterRead(role: Role, p: Pos, m: Sign, q: Pos)
    requires AfterRead(role, p, m, q)
    ensures q != AwaitingWant
  {
  }

  /** No action of the run purges tombstones. */
  predicate NoPurge(actions: seq<Action>)
  {
    forall i :: 0 <= i < |actions| && actions[i].Local? && actions[i].change.OnClips? ==> !actions[i].change.op.PurgeOp?
  }

  lemma {:induction false} TruthfulServes(n: Net, s: bool, queue: seq<Msg>, a: Action)
    requires Ahead(n, s, queue) && Truthful(n, s, queue) && Possible(n, a)
    ensures ServesInFull(n, a)
  {
    ReaderReadsFront(n, s, queue);
    hide Trails, Signs, Flying, Next, Informed, PagesTrue;
    if a.Proceed? && !a.move.send { assert a.move == Move(a.move.side, false) && a.move.side != s; }
  }

  lemma {:induction false} OneTruthfulAction(owner: Owner, n: Net, s: bool, queue: seq<Msg>, a: Action) returns (s': bool, queue': seq<Msg>)
    requires OnCourse(owner, n, s, queue) && Truthful(n, s, queue) && Possible(n, a) && Admissible(owner, a)
    requires a.Local? && a.change.OnClips? ==> !a.change.op.PurgeOp?
    ensures ServesInFull(n, a) && OnCourse(owner, Do(n, a), s', queue') && Truthful(Do(n, a), s', queue')
  {
    TruthfulServes(n, s, queue, a);
    s', queue' := OneAction(owner, n, s, queue, a);
    hide Ahead, InOrder, Roomy, ServesInFull, Truthful, Perform, Next;
    if a.Local? {
      ChangeStaysTruthful(n, s, queue, a);
    } else if a.move.send {
      assert a.move == Move(a.move.side, true);
      MoverSends(n, a.move.side);
      if a.move.side != s {
        SenderIsNotBehind(n, s, queue);
        TurnTruthful(n, s);
      }
      SendStaysTruthful(n, s', queue);
    } else {
      assert a.move == Move(!s, false);
      ReadLeavesRequest(owner, n, s, queue);
      ReadStaysTruthful(n, s, queue);
    }
  }

  lemma {:induction false} TurnTruthful(n: Net, s: bool)
    requires Truthful(n, s, [])
    ensures Truthful(n, !s, [])
  {
    hide Informed;
  }

  lemma {:induction false} ReadLeavesRequest(owner: Owner, n: Net, s: bool, queue: seq<Msg>)
    requires OnCourse(owner, n, s, queue) && Enabled(n, Move(!s, false)) && ServesInFull(n, Proceed(Move(!s, false)))
    ensures queue != [] && Received(Mine(n.ends, !s), queue[0]).phase != AwaitWant
  {
    hide OnCourse, AfterRead, Received, Accepts, ServesInFull, Enabled;
    FrontIsRead(owner, n, s, queue);
    var l := Mine(n.ends, !s);
    NotAskedAfterRead(l.cfg.role, PosOf(l), SignOf(queue[0], l.cfg.peer), PosOf(Received(l, queue[0])));
  }

  /** As long as nothing is purged, every request finds the clips it asks for. */
  lemma {:induction false} NothingPurgedAllServed(owner: Owner, n: Net, actions: seq<Action>) returns (s: bool, queue: seq<Msg>)
    requires Begins(owner, n) && Lawful(n, actions) && AllAdmissible(owner, actions) && NoPurge(actions)
    ensures AllServed(n, actions) && OnCourse(owner, Reached(n, actions), s, queue) && Truthful(Reached(n, actions), s, queue)
    decreases |actions|
  {
    hide OnCourse, Possible, ServesInFull, Admissible, TablesOk, Do, Truthful;
    if actions == [] {
      OpeningOnCourse(owner, n);
      OpeningTruthful(n);
      s, queue := true, [];
    } else {
      var front, last := actions[..|actions| - 1], actions[|actions| - 1];
      s, queue := NothingPurgedAllServed(owner, n, front);
      s, queue := OneTruthfulAction(owner, Reached(n, front), s, queue, last);
    }
  }

  lemma {:induction false} OpeningTruthful(n: Net)
    requires Opening(n)
    ensures Truthful(n, true, [])
  {
  }
}
