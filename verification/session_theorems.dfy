/** The session theorems put together: any finished run, over any capacities and any interleaving. */
module SessionTheorems {
  import opened Bytes
  import opened HybridClock
  import opened ContentHashes
  import opened ClipTables
  import Blob = BlobTables
  import opened SyncSession
  import opened SessionTurns
  import opened SessionStores
  import opened SessionRuns
  import opened Histories
  import opened Convergence

  lemma {:induction false} TakenCounts(cfg: Config, taken: Intake, clips: seq<Clip>)
    requires NeverFails(cfg, taken, clips)
    ensures var i := ReceiveAll(cfg, taken, clips); i.received + i.rejected == taken.received + taken.rejected + |clips|
    decreases |clips|
  {
    hide Apply;
    if clips != [] {
      var next := TakeIn(taken, clips[0], cfg.clock(taken.received + taken.rejected));
      assert !next.failed;
      TakenCounts(cfg, next, clips[1..]);
    }
  }

  lemma {:induction false} TurnCounts(o: Endpoint, t: Endpoint)
    requires TurnReady(o, t)
    ensures var (o', t') := TurnEnd(o, t);
      var n := |WantedFrom(o.disk.tables, t.disk.tables)|;
      && o'.outcome.sent == o.outcome.sent + n
      && t'.outcome.received + t'.outcome.rejected == t.outcome.received + t.outcome.rejected + n
      && o'.outcome.received == o.outcome.received && o'.outcome.rejected == o.outcome.rejected
      && t'.outcome.sent == t.outcome.sent
  {
    hide ReceiveAll, NeverFails, ServedFrom, WantedFrom, BlobsCrossed, Needed, Summaries, Pages;
    TakenCounts(t.cfg, Fresh(t.disk.tables), ServedFrom(o.disk.tables, t.disk.tables));
    NeverFailsAtEndOf(o, t);
    var t1 := EnterTaking(t, 0, Settled(t.cfg, o.disk.tables, t.disk.tables));
    var o1 := SentClips(o, |ServedFrom(o.disk.tables, t.disk.tables)|);
    var newest := if t1.phase.SendBlobWant? then t1.phase.newest else None;
    BlobsCrossedEnd(o1, t1, OwedBlobs(t1), newest);
    BlobsCrossedOffererCounts(o1, t1, OwedBlobs(t1), newest);
  }

  lemma {:induction false} BlobsCrossedOffererCounts(o: Endpoint, t: Endpoint, owed: seq<ContentHash>, newest: Option<ClipId>)
    ensures var o' := BlobsCrossed(o, t, owed, newest).0;
      o'.outcome.received == o.outcome.received && o'.outcome.rejected == o.outcome.rejected
    decreases |owed|
  {
    var a, b := EnterBlobs(o, owed), EnterTakeBlobs(t, owed, newest);
    if owed != [] {
      assert Sent(a).outcome.received == o.outcome.received && Sent(a).outcome.rejected == o.outcome.rejected;
      hide Sent, Received, Next;
      BlobsCrossedOffererCounts(Sent(a), Received(b, Next(a).msg), owed[1..], newest);
    }
  }

  /** Each side ends having taken or refused exactly as many clips as the other side sent. */
  lemma {:induction false} SessionCounts(d: Endpoint, r: Endpoint)
    requires Honest(d, r)
    ensures var e := SessionEnd(d, r);
      && e.d.outcome.sent == e.r.outcome.received + e.r.outcome.rejected
      && e.r.outcome.sent == e.d.outcome.received + e.d.outcome.rejected
      && e.d.outcome.sent == |WantedFrom(d.disk.tables, r.disk.tables)|
  {
    hide ClipTables.Inv, IdsAgree, TurnEnd, Settled, TurnReady, WantedFrom, Summaries, Pages;
    var o, t := BeginOffer(d), BeginTake(r);
    TurnIsReady(o, t);
    TurnCounts(o, t);
    NeverFailsAtEndOf(o, t);
    TurnEndShape(o, t);
    var (d1, r1) := TurnEnd(o, t);
    TurnIsReady(r1, d1);
    TurnCounts(r1, d1);
  }

  /** Between stores at rest, a run that can go no further has both sides done, and their stores say the
      same exactly when the rows they held agree. Where no row is buried that is when the two histories
      settle, each content then with the flags of its newer row; and the stamps are then the same exactly
      when every newer row could be taken over. */
  lemma {:induction false} FinishedRunConverges(n: Net, moves: seq<Move>)
    requires Opening(n) && Legal(n, moves) && Comparable(n.ends.d, n.ends.r)
    requires forall m :: !Enabled(StateAfter(n, moves), m)
    ensures var D, R, now := n.ends.d.disk.tables, n.ends.r.disk.tables, StateAfter(n, moves).ends;
      && now.d.phase == Done && now.r.phase == Done
      && (SaySame(now.d.disk.tables, now.r.disk.tables) <==> AllAgree(D, R))
      && (Unburied(D, R) ==>
            && (AllAgree(D, R) <==> forall h :: Settles(See(D, h), See(R, h)))
            && (forall h :: Settles(See(D, h), See(R, h)) ==>
                  Look(now.d.disk.tables, h) == Look(now.r.disk.tables, h) == Newer(See(D, h), See(R, h)))
            && (SameStamps(now.d.disk.tables, now.r.disk.tables) <==> forall h :: Carried(See(D, h), See(R, h))))
  {
    hide Enabled, StateAfter, Legal, Look, See, SessionEnd, SessionLength, Settles, Newer, Opening, Comparable, HashesOf, Carried, SameStamps, SaySame, AllAgree, Unburied;
    QuietRunCompletes(n, moves);
    SessionConvergesIff(n.ends.d, n.ends.r);
    if Unburied(n.ends.d.disk.tables, n.ends.r.disk.tables) { SessionSettles(n.ends.d, n.ends.r); }
  }

  /** Two devices with nothing on disk are such a pair, so all of this is about something. */
  lemma {:induction false} NewDevicesCanMeet(d: Config, r: Config, n: Net)
    requires d.role.Dialler? && r.role.Responder? && d.peer == r.device && r.peer == d.device && Roomy(n)
    requires n.dr.control == n.dr.blobs == n.rd.control == n.rd.blobs == []
    requires n.ends == (var disk := Disk(Tables([], []), Blob.Blobs([], map[], 0)); Joint(Start(d, disk), Start(r, disk)))
    ensures Opening(n) && Legal(n, []) && Comparable(n.ends.d, n.ends.r)
  {
    assert HashesOf([]) + HashesOf([]) == {};
  }

  // ---- the clip reported as newest ------------------------------------------

  /** Clip `i` of a turn brings content this store has never had, and is the first to bring it. */
  ghost predicate BringsNew(t: Tables, clips: seq<Clip>, i: nat)
    requires i < |clips|
  {
    && HashMatches(clips[i]) && Find(t, clips[i].hash).None?
    && forall j :: 0 <= j < i ==> !(HashMatches(clips[j]) && clips[j].hash == clips[i].hash)
  }

  /** Of the clips that bring new content and are newer than `before`, clip `i` is the newest; of several
      with one stamp, the first. */
  ghost predicate Leads(before: Option<(Hlc, ClipId)>, t: Tables, clips: seq<Clip>, i: nat)
    requires i < |clips|
  {
    && BringsNew(t, clips, i)
    && (before.Some? ==> Less(before.value.0, clips[i].hlc))
    && (forall j :: 0 <= j < i && BringsNew(t, clips, j) ==> Less(clips[j].hlc, clips[i].hlc))
    && (forall j :: i < j < |clips| && BringsNew(t, clips, j) ==> !Less(clips[i].hlc, clips[j].hlc))
  }

  /** After the first clip of a list, the rest bring what they brought, less what it brought. */
  lemma {:induction false} NewAfterFirst(t: Tables, clips: seq<Clip>, now: nat, i: nat)
    requires 0 < i < |clips| && !Apply(t, clips[0], now).1.Failed?
    ensures BringsNew(Apply(t, clips[0], now).0, clips[1..], i - 1) <==> BringsNew(t, clips, i)
  {
    KnownAfterApply(t, clips[0], now, clips[i].hash);
    hide Apply, HashMatches, Find;
    var t', rest := Apply(t, clips[0], now).0, clips[1..];
    assert forall j :: 0 <= j < i - 1 ==> rest[j] == clips[j + 1];
    if BringsNew(t', rest, i - 1) {
      forall j | 0 <= j < i ensures !(HashMatches(clips[j]) && clips[j].hash == clips[i].hash) {
        if j > 0 { assert rest[j - 1] == clips[j]; }
      }
    }
  }

  lemma {:induction false} AddedIffNew(t: Tables, clips: seq<Clip>, now: nat)
    requires clips != [] && !Apply(t, clips[0], now).1.Failed?
    ensures Apply(t, clips[0], now).1.Added? <==> BringsNew(t, clips, 0)
    ensures Apply(t, clips[0], now).1.Added? ==> Apply(t, clips[0], now).1.id == clips[0].id
  {
    hide HashMatches, Less, ApplyUpdate, Insert, Find;
  }

  /** Nothing of the list is both new and newer than `before`. */
  ghost predicate NoneLeads(before: Option<(Hlc, ClipId)>, t: Tables, clips: seq<Clip>)
  {
    forall j :: 0 <= j < |clips| && BringsNew(t, clips, j) ==> before.Some? && !Less(before.value.0, clips[j].hlc)
  }

  /** Putting a clip in front of a list: who leads then. */
  lemma {:induction false} LeadsBehind(before: Option<(Hlc, ClipId)>, t: Tables, clips: seq<Clip>, now: nat, i: nat)
    requires 0 < i < |clips| && !Apply(t, clips[0], now).1.Failed?
    requires var first := BringsNew(t, clips, 0) && (before.None? || Less(before.value.0, clips[0].hlc));
      Leads(if first then Some((clips[0].hlc, clips[0].id)) else before, Apply(t, clips[0], now).0, clips[1..], i - 1)
    ensures Leads(before, t, clips, i)
  {
    var t', rest := Apply(t, clips[0], now).0, clips[1..];
    forall j: nat | 0 < j < |clips| ensures BringsNew(t', rest, j - 1) <==> BringsNew(t, clips, j) && rest[j - 1] == clips[j] {
      NewAfterFirst(t, clips, now, j);
    }
    hide BringsNew, Less, Apply;
    if before.Some? { NotLessTransitive(before.value.0, clips[0].hlc, clips[i].hlc); StampOrderIsTotal(before.value.0, clips[0].hlc);
                      NotLessTransitive(clips[0].hlc, before.value.0, clips[i].hlc); LessOn(before.value.0, clips[0].hlc, clips[i].hlc); }
    forall j: nat | j < i && BringsNew(t, clips, j) ensures Less(clips[j].hlc, clips[i].hlc) {
      if j > 0 { assert BringsNew(t', rest, j - 1); }
    }
    forall j: nat | i < j < |clips| && BringsNew(t, clips, j) ensures !Less(clips[i].hlc, clips[j].hlc) {
      assert BringsNew(t', rest, j - 1);
    }
  }

  lemma {:induction false} LessOn(a: Hlc, b: Hlc, c: Hlc)
    ensures Less(a, b) && Less(b, c) ==> Less(a, c)
    ensures !Less(a, b) && Less(a, c) ==> Less(b, c)
  {
    hide Less;
    if Less(a, b) && Less(b, c) { StampOrderIsTransitive(a, b, c); }
    NotLessTransitive(a, b, c);
  }

  lemma {:induction false} FirstLeads(before: Option<(Hlc, ClipId)>, t: Tables, clips: seq<Clip>, now: nat)
    requires clips != [] && !Apply(t, clips[0], now).1.Failed?
    requires var first := BringsNew(t, clips, 0) && (before.None? || Less(before.value.0, clips[0].hlc));
      NoneLeads(if first then Some((clips[0].hlc, clips[0].id)) else before, Apply(t, clips[0], now).0, clips[1..])
    ensures var first := BringsNew(t, clips, 0) && (before.None? || Less(before.value.0, clips[0].hlc));
      if first then Leads(before, t, clips, 0) else NoneLeads(before, t, clips)
  {
    var t', rest := Apply(t, clips[0], now).0, clips[1..];
    forall j: nat | 0 < j < |clips| ensures BringsNew(t', rest, j - 1) <==> BringsNew(t, clips, j) && rest[j - 1] == clips[j] {
      NewAfterFirst(t, clips, now, j);
    }
    hide BringsNew, Less, Apply;
    forall j: nat | 0 < j < |clips| && BringsNew(t, clips, j) ensures BringsNew(t', rest, j - 1) && rest[j - 1] == clips[j] { }
  }

  /** Over any list of clips: the one reported as newest leads, if one does; else what was newest before. */
  lemma {:induction false} NewestFrom(cfg: Config, taken: Intake, clips: seq<Clip>) returns (i: nat)
    requires NeverFails(cfg, taken, clips)
    ensures i <= |clips|
    ensures var newest := ReceiveAll(cfg, taken, clips).newest;
      if i < |clips| then Leads(taken.newest, taken.tables, clips, i) && newest == Some((clips[i].hlc, clips[i].id))
      else NoneLeads(taken.newest, taken.tables, clips) && newest == taken.newest
    decreases |clips|
  {
    hide TakeIn, Apply, Less, BringsNew, Leads, NoneLeads, NeverFails;
    if clips == [] {
      i := 0;
      NothingLeads(taken.newest, taken.tables);
    } else {
      var now := cfg.clock(taken.received + taken.rejected);
      var next := TakeIn(taken, clips[0], now);
      TakenNotFailed(cfg, taken, clips);
      FirstTaken(taken, clips, now);
      i := NewestFrom(cfg, next, clips[1..]);
      var first := BringsNew(taken.tables, clips, 0) && (taken.newest.None? || Less(taken.newest.value.0, clips[0].hlc));
      if i < |clips[1..]| {
        i := i + 1;
        LeadsBehind(taken.newest, taken.tables, clips, now, i);
      } else {
        FirstLeads(taken.newest, taken.tables, clips, now);
        i := if first then 0 else |clips|;
      }
    }
  }

  lemma {:induction false} NothingLeads(before: Option<(Hlc, ClipId)>, t: Tables)
    ensures NoneLeads(before, t, [])
  {
  }

  lemma {:induction false} FirstTaken(taken: Intake, clips: seq<Clip>, now: nat)
    requires clips != [] && !Apply(taken.tables, clips[0], now).1.Failed?
    ensures var next := TakeIn(taken, clips[0], now);
      var first := BringsNew(taken.tables, clips, 0) && (taken.newest.None? || Less(taken.newest.value.0, clips[0].hlc));
      && next.tables == Apply(taken.tables, clips[0], now).0
      && next.newest == if first then Some((clips[0].hlc, clips[0].id)) else taken.newest
  {
    hide Apply, Less, BringsNew;
    AddedIffNew(taken.tables, clips, now);
    RefusalChangesNothing(taken.tables, clips[0], now);
  }

  lemma {:induction false} TakenNotFailed(cfg: Config, taken: Intake, clips: seq<Clip>)
    requires NeverFails(cfg, taken, clips) && clips != []
    ensures var now := cfg.clock(taken.received + taken.rejected);
      !Apply(taken.tables, clips[0], now).1.Failed? && NeverFails(cfg, TakeIn(taken, clips[0], now), clips[1..])
  {
    hide Apply;
    var next := TakeIn(taken, clips[0], cfg.clock(taken.received + taken.rejected));
    assert !next.failed;
  }

  /** What a turn reports as newest, whatever arrives and in whatever order: the clip with the latest stamp
      of those that brought content this store never had, the first of several; nothing exactly when
      none did. */
  lemma {:induction false} NewestIsLatestInsert(cfg: Config, t: Tables, clips: seq<Clip>)
    requires NeverFails(cfg, Fresh(t), clips)
    ensures var newest := ReceiveAll(cfg, Fresh(t), clips).newest;
      && (newest.None? <==> forall i :: 0 <= i < |clips| ==> !BringsNew(t, clips, i))
      && (newest.Some? <==> exists i :: 0 <= i < |clips| && Leads(None, t, clips, i))
      && (forall i :: 0 <= i < |clips| && Leads(None, t, clips, i) ==> newest == Some((clips[i].hlc, clips[i].id)))
  {
    hide ReceiveAll, BringsNew, Less, NeverFails;
    var k := NewestFrom(cfg, Fresh(t), clips);
    forall i | 0 <= i < |clips| && Leads(None, t, clips, i) ensures i == k { }
  }

  /** The promise that a tombstone is never what is reported fails exactly when the latest of the clips that
      brought new content is one: a tombstone of unknown content is inserted like any other clip. */
  lemma {:induction false} TombstoneIsReportedIff(cfg: Config, t: Tables, clips: seq<Clip>) returns (k: nat)
    requires NeverFails(cfg, Fresh(t), clips) && ReceiveAll(cfg, Fresh(t), clips).newest.Some?
    ensures k < |clips| && ReceiveAll(cfg, Fresh(t), clips).newest == Some((clips[k].hlc, clips[k].id))
    ensures clips[k].deleted <==> exists i :: 0 <= i < |clips| && Leads(None, t, clips, i) && clips[i].deleted
  {
    hide ReceiveAll, BringsNew, Less, NeverFails;
    k := NewestFrom(cfg, Fresh(t), clips);
    forall i | 0 <= i < |clips| && Leads(None, t, clips, i) ensures i == k { }
  }

  /** One arriving tombstone, alone, is reported exactly when its content was never held. */
  lemma {:induction false} LoneTombstoneIsReportedIff(cfg: Config, t: Tables, clip: Clip)
    requires clip.deleted && NeverFails(cfg, Fresh(t), [clip])
    ensures ReceiveAll(cfg, Fresh(t), [clip]).newest == Some((clip.hlc, clip.id)) <==> HashMatches(clip) && Find(t, clip.hash).None?
  {
    hide ReceiveAll, HashMatches, Less, NeverFails, Find;
    var k := NewestFrom(cfg, Fresh(t), [clip]);
    assert BringsNew(t, [clip], 0) <==> HashMatches(clip) && Find(t, clip.hash).None?;
    if BringsNew(t, [clip], 0) { assert k == 0; } else { assert k == 1; }
  }
}
