/** What the two sides of a session saw: the same messages, in the same order, and as many of each kind
    (crates/clipsed/src/sync.rs). The stores may change on the way. */
module LiveStory {
  import opened Bytes
  import opened HybridClock
  import opened ContentHashes
  import opened ClipTables
  import Blob = BlobTables
  import opened SyncSession
  import opened SessionTurns
  import opened SessionStores
  import opened SessionShape
  import opened SessionRuns
  import opened LiveRuns
  import opened LiveTheorems

  /** A message as one side saw it. */
  datatype Event = Event(sent: bool, msg: Msg)

  function Happening(n: Net, m: Move): (r: Event)
    requires Enabled(n, m)
  {
    if m.send then Event(true, Next(Mine(n.ends, m.side)).msg) else Event(false, Incoming(n, m))
  }

  /** What side `s` has sent and received over a run, in its own order. */
  ghost function LogOf(n: Net, actions: seq<Action>, s: bool): (r: seq<Event>)
    decreases |actions|
  {
    if actions == [] then [] else
    var front, last := actions[..|actions| - 1], actions[|actions| - 1];
    var before := Reached(n, front);
    LogOf(n, front, s) +
      (if last.Proceed? && last.move.side == s && Possible(before, last) then [Happening(before, last.move)] else [])
  }

  /** Two logs of one conversation: what both have is the same messages, seen from either end, and
      what only one has is what it has sent. */
  ghost predicate SameStory(d: seq<Event>, r: seq<Event>)
  {
    && (forall k :: 0 <= k < |d| && k < |r| ==> d[k].msg == r[k].msg && d[k].sent != r[k].sent)
    && (forall k :: |r| <= k < |d| ==> d[k].sent)
    && (forall k :: |d| <= k < |r| ==> r[k].sent)
  }

  /** The log of the side ahead is that of the other, seen from its end, and then what is in flight. */
  ghost predicate Tells(ahead: seq<Event>, behind: seq<Event>, queue: seq<Msg>)
  {
    && |ahead| == |behind| + |queue|
    && (forall k :: 0 <= k < |behind| ==> ahead[k].msg == behind[k].msg && ahead[k].sent != behind[k].sent)
    && (forall k :: 0 <= k < |queue| ==> ahead[|behind| + k] == Event(true, queue[k]))
  }

  lemma {:induction false} TellsSend(ahead: seq<Event>, behind: seq<Event>, queue: seq<Msg>, m: Msg)
    requires Tells(ahead, behind, queue)
    ensures Tells(ahead + [Event(true, m)], behind, queue + [m])
  {
  }

  lemma {:induction false} TellsRead(ahead: seq<Event>, behind: seq<Event>, queue: seq<Msg>)
    requires Tells(ahead, behind, queue) && queue != []
    ensures Tells(ahead, behind + [Event(false, queue[0])], queue[1..])
  {
    assert ahead[|behind| + 0] == Event(true, queue[0]);
  }

  lemma {:induction false} TellsBothWays(a: seq<Event>, b: seq<Event>)
    requires Tells(a, b, [])
    ensures Tells(b, a, [])
  {
  }

  lemma {:induction false} TellsOneStory(ahead: seq<Event>, behind: seq<Event>, queue: seq<Msg>)
    requires Tells(ahead, behind, queue)
    ensures SameStory(ahead, behind) && SameStory(behind, ahead)
  {
    forall k | |behind| <= k < |ahead| ensures ahead[k].sent {
      var j := k - |behind|;
      assert ahead[|behind| + j] == Event(true, queue[j]);
    }
  }

  /** On every run one side has told the other all but what is in flight: the side ahead, or, once a
      request has not found its clips, the side that is short of them. */
  lemma {:induction false} EveryRunTells(owner: Owner, n: Net, actions: seq<Action>) returns (s: bool, queue: seq<Msg>)
    requires Begins(owner, n) && Lawful(n, actions) && AllAdmissible(owner, actions)
    ensures Tells(LogOf(n, actions, s), LogOf(n, actions, !s), queue)
    ensures if AllServed(n, actions) then OnCourse(owner, Reached(n, actions), s, queue)
            else Short(Reached(n, actions), s) && queue == Out(Reached(n, actions), s).control
    decreases |actions|
  {
    hide OnCourse, Short, Possible, Enabled, ServesInFull, Admissible, TablesOk, Do, Tells, Happening;
    if actions == [] {
      OpeningOnCourse(owner, n);
      s, queue := true, [];
      NothingTold();
    } else {
      var front, last := actions[..|actions| - 1], actions[|actions| - 1];
      s, queue := EveryRunTells(owner, n, front);
      LogGrows(n, actions);
      if AllServed(n, actions) {
        s, queue := OnCourseTells(owner, n, actions, s, queue);
      } else if AllServed(n, front) {
        UnservedIsShort(owner, Reached(n, front), s, queue, last);
        TellsRead(LogOf(n, front, s), LogOf(n, front, !s), queue);
        TellsBothWays(LogOf(n, actions, s), LogOf(n, actions, !s));
        s, queue := !s, [];
      } else {
        queue := ShortTells(n, actions, s);
      }
    }
  }

  lemma {:induction false} OnCourseTells(owner: Owner, n: Net, actions: seq<Action>, x: bool, q: seq<Msg>) returns (s: bool, queue: seq<Msg>)
    requires actions != [] && Lawful(n, actions) && AllAdmissible(owner, actions) && AllServed(n, actions)
    requires var front := actions[..|actions| - 1];
      OnCourse(owner, Reached(n, front), x, q) && Tells(LogOf(n, front, x), LogOf(n, front, !x), q)
    ensures OnCourse(owner, Reached(n, actions), s, queue) && Tells(LogOf(n, actions, s), LogOf(n, actions, !s), queue)
  {
    hide OnCourse, Enabled, ServesInFull, Admissible, TablesOk, Do, Tells, Happening;
    var front, last := actions[..|actions| - 1], actions[|actions| - 1];
    var before := Reached(n, front);
    s, queue := OneAction(owner, before, x, q, last);
    LogGrows(n, actions);
    if last.Proceed? && last.move.send {
      assert last.move == Move(s, true);
      MoverSends(before, s);
      if s != x { TellsBothWays(LogOf(n, front, x), LogOf(n, front, s)); }
      TellsSend(LogOf(n, front, s), LogOf(n, front, !s), q, Next(Mine(before.ends, s)).msg);
    } else if last.Proceed? {
      TellsRead(LogOf(n, front, s), LogOf(n, front, !s), q);
    }
  }

  lemma {:induction false} ShortTells(n: Net, actions: seq<Action>, s: bool) returns (queue: seq<Msg>)
    requires actions != [] && Lawful(n, actions)
    requires var front := actions[..|actions| - 1];
      Short(Reached(n, front), s) && Tells(LogOf(n, front, s), LogOf(n, front, !s), Out(Reached(n, front), s).control)
    ensures Short(Reached(n, actions), s) && queue == Out(Reached(n, actions), s).control
    ensures Tells(LogOf(n, actions, s), LogOf(n, actions, !s), queue)
  {
    hide Short, Possible, Do, Tells, Happening, Next;
    var front, last := actions[..|actions| - 1], actions[|actions| - 1];
    var before := Reached(n, front);
    ShortForGood(before, s, last);
    ShortMoves(before, s, last);
    LogGrows(n, actions);
    queue := Out(Reached(n, actions), s).control;
    var flying := Out(before, s).control;
    if last.Proceed? && last.move.send {
      TellsSend(LogOf(n, front, s), LogOf(n, front, !s), flying, Next(Mine(before.ends, s)).msg);
    } else if last.Proceed? {
      TellsRead(LogOf(n, front, s), LogOf(n, front, !s), flying);
    }
  }

  lemma {:induction false} NothingTold()
    ensures Tells([], [], [])
  {
  }

  lemma {:induction false} LogGrows(n: Net, actions: seq<Action>)
    requires actions != [] && Lawful(n, actions)
    ensures var front, last := actions[..|actions| - 1], actions[|actions| - 1];
      var before := Reached(n, front);
      && (last.Local? ==> forall s :: LogOf(n, actions, s) == LogOf(n, front, s))
      && (last.Proceed? ==>
            && LogOf(n, actions, !last.move.side) == LogOf(n, front, !last.move.side)
            && LogOf(n, actions, last.move.side) == LogOf(n, front, last.move.side) +
                 [if last.move.send then Event(true, Next(Mine(before.ends, last.move.side)).msg) else Event(false, Incoming(before, last.move))])
  {
    hide Reached, Next;
  }

  /** On every run both sides process the same messages in the same order, whichever stream each one
      came on, whatever has changed in their stores, and also where a purge has left them waiting. */
  lemma {:induction false} OneConversation(owner: Owner, n: Net, actions: seq<Action>)
    requires Begins(owner, n) && Lawful(n, actions) && AllAdmissible(owner, actions)
    ensures SameStory(LogOf(n, actions, true), LogOf(n, actions, false))
  {
    hide OnCourse, Short, Begins, Lawful, AllServed, LogOf, Reached;
    var s, queue := EveryRunTells(owner, n, actions);
    TellsOneStory(LogOf(n, actions, s), LogOf(n, actions, !s), queue);
  }

  /** Half duplex: a side about to send has read everything sent to it, on both streams. */
  lemma {:induction false} SenderHasReadEverything(owner: Owner, n: Net, actions: seq<Action>, s: bool)
    requires Begins(owner, n) && Lawful(n, actions) && AllAdmissible(owner, actions)
    requires Next(Mine(Reached(n, actions).ends, s)).ToSend?
    ensures var w := Out(Reached(n, actions), !s); w.control == [] && w.blobs == []
  {
    hide Begins, Lawful, AllServed, Reached, Next, InOrder, Trails, Short;
    var now := Reached(n, actions);
    if AllServed(n, actions) {
      var x, queue := EveryRunIsOnCourse(owner, n, actions);
      if x != s { SenderIsNotBehind(now, x, queue); }
    } else {
      var x := ShortOrServed(owner, n, actions);
      ShortIsUnfinished(now, x);
    }
  }

  // ---- counts -----------------------------------------------------------------

  function IsPush(sent: bool): Event -> bool { (e: Event) => e.sent == sent && e.msg.Push? }
  function IsBlob(sent: bool): Event -> bool { (e: Event) => e.sent == sent && e.msg.BlobStream? }

  function Count(log: seq<Event>, p: Event -> bool): (r: nat)
  {
    if log == [] then 0 else Count(log[..|log| - 1], p) + if p(log[|log| - 1]) then 1 else 0
  }

  lemma {:induction false} CountSnoc(log: seq<Event>, e: Event, p: Event -> bool)
    ensures Count(log + [e], p) == Count(log, p) + if p(e) then 1 else 0
  {
    assert (log + [e])[..|log|] == log;
  }

  /** What has been counted this turn and not yet booked. */
  function Pending(l: Endpoint): (r: nat)
  {
    if l.phase.TakePush? then l.phase.taken.received + l.phase.taken.rejected else 0
  }

  /** An endpoint's counts are those of its log. */
  predicate Booked(l: Endpoint, sent: nat, taken: nat, blobs: nat)
  {
    && l.outcome.sent == sent
    && l.outcome.received + l.outcome.rejected + Pending(l) == taken
    && l.outcome.blobsReceived + l.outcome.blobsRejected == blobs
  }

  ghost predicate Books(l: Endpoint, log: seq<Event>)
  {
    Booked(l, Count(log, IsPush(true)), Count(log, IsPush(false)), Count(log, IsBlob(false)))
  }

  lemma {:induction false} SendBooks(l: Endpoint, sent: nat, taken: nat, blobs: nat)
    requires Booked(l, sent, taken, blobs) && Next(l).ToSend?
    ensures Booked(Sent(l), sent + if Next(l).msg.Push? then 1 else 0, taken, blobs)
  {
    hide Summaries, Pages, MaxHlc, Needed, Blob.ReadBlob;
  }

  lemma {:induction false} ReadBooks(l: Endpoint, m: Msg, sent: nat, taken: nat, blobs: nat)
    requires Booked(l, sent, taken, blobs) && Accepts(PosOf(l), SignOf(m, l.cfg.peer)) && !Received(l, m).phase.Aborted?
    requires l.phase.TakePush? ==> !l.phase.taken.failed
    ensures Booked(Received(l, m), sent, taken + if m.Push? then 1 else 0, blobs + if m.BlobStream? then 1 else 0)
  {
    hide Summaries, Pages, MaxHlc, Needed, Serve, Wanted, Apply, Less, BlobDigests, Blob.PutBlob;
  }

  lemma {:induction false} ChangeBooks(l: Endpoint, c: Change, log: seq<Event>)
    requires Books(l, log)
    ensures Books(Changed(l, c), log)
  {
    hide ClipTables.Step, Blob.Step, Count;
  }

  lemma {:induction false} CountAll(log: seq<Event>, e: Event)
    ensures Count(log + [e], IsPush(true)) == Count(log, IsPush(true)) + if e.sent && e.msg.Push? then 1 else 0
    ensures Count(log + [e], IsPush(false)) == Count(log, IsPush(false)) + if !e.sent && e.msg.Push? then 1 else 0
    ensures Count(log + [e], IsBlob(true)) == Count(log, IsBlob(true)) + if e.sent && e.msg.BlobStream? then 1 else 0
    ensures Count(log + [e], IsBlob(false)) == Count(log, IsBlob(false)) + if !e.sent && e.msg.BlobStream? then 1 else 0
  {
    hide Count;
    CountSnoc(log, e, IsPush(true));
    CountSnoc(log, e, IsPush(false));
    CountSnoc(log, e, IsBlob(true));
    CountSnoc(log, e, IsBlob(false));
  }

  /** The accepted message a side reads on course. */
  lemma {:induction false} ReadOnCourse(owner: Owner, n: Net, s: bool, queue: seq<Msg>)
    requires OnCourse(owner, n, s, queue) && queue != [] && Enabled(n, Move(!s, false)) && ServesInFull(n, Proceed(Move(!s, false)))
    ensures var l := Mine(n.ends, !s);
      && Accepts(PosOf(l), SignOf(queue[0], l.cfg.peer)) && !Received(l, queue[0]).phase.Aborted?
      && (l.phase.TakePush? ==> !l.phase.taken.failed)
  {
    hide OnCourse, AfterRead, Received, Accepts, ServesInFull, Enabled;
    FrontIsRead(owner, n, s, queue);
    var l := Mine(n.ends, !s);
    NotBroken(l.cfg.role, PosOf(l), SignOf(queue[0], l.cfg.peer), PosOf(Received(l, queue[0])));
  }

  lemma {:induction false} NotBroken(role: Role, p: Pos, m: Sign, q: Pos)
    requires AfterRead(role, p, m, q)
    ensures !q.Broken?
  {
  }

  lemma {:induction false} OneActionBooks(owner: Owner, n: Net, s: bool, queue: seq<Msg>, a: Action, side: bool, log: seq<Event>)
    requires OnCourse(owner, n, s, queue) && Possible(n, a) && Admissible(owner, a) && ServesInFull(n, a) && Books(Mine(n.ends, side), log)
    ensures var log' := log + if a.Proceed? && a.move.side == side then [Happening(n, a.move)] else [];
      Books(Mine(Do(n, a).ends, side), log')
  {
    hide OnCourse, ServesInFull, Count, Booked, Sent, Received, Changed;
    assert log + [] == log;
    var l := Mine(n.ends, side);
    if a.Local? {
      if a.side == side { ChangeBooks(l, a.change, log); }
    } else if a.move.side == side {
      var e := Happening(n, a.move);
      CountAll(log, e);
      var sent, taken, blobs := Count(log, IsPush(true)), Count(log, IsPush(false)), Count(log, IsBlob(false));
      if a.move.send {
        SendBooks(l, sent, taken, blobs);
      } else {
        var s', queue' := OneAction(owner, n, s, queue, a);
        assert a.move == Move(!s, false);
        ReadOnCourse(owner, n, s, queue);
        ReadBooks(l, queue[0], sent, taken, blobs);
      }
    }
  }

  lemma {:induction false} EveryRunBooks(owner: Owner, n: Net, actions: seq<Action>, side: bool)
    requires Begins(owner, n) && Lawful(n, actions) && AllAdmissible(owner, actions) && AllServed(n, actions)
    ensures Books(Mine(Reached(n, actions).ends, side), LogOf(n, actions, side))
    decreases |actions|
  {
    hide OnCourse, Possible, ServesInFull, Admissible, TablesOk, Do, Happening, Books;
    if actions == [] {
      NothingBooked(n, side);
    } else {
      var front, last := actions[..|actions| - 1], actions[|actions| - 1];
      EveryRunBooks(owner, n, front, side);
      var s, queue := EveryRunIsOnCourse(owner, n, front);
      OneActionBooks(owner, Reached(n, front), s, queue, last, side, LogOf(n, front, side));
    }
  }

  lemma {:induction false} NothingBooked(n: Net, side: bool)
    requires Opening(n)
    ensures Books(Mine(n.ends, side), [])
  {
    hide Count;
    assert Count([], IsPush(true)) == Count([], IsPush(false)) == Count([], IsBlob(false)) == 0 by { EmptyCounts(); }
  }

  lemma {:induction false} EmptyCounts()
    ensures Count([], IsPush(true)) == Count([], IsPush(false)) == Count([], IsBlob(false)) == 0
  {
  }

  lemma {:induction false} SameCounts(a: seq<Event>, b: seq<Event>)
    requires |a| == |b| && SameStory(a, b)
    ensures Count(a, IsPush(true)) == Count(b, IsPush(false)) && Count(a, IsBlob(true)) == Count(b, IsBlob(false))
  {
    if a != [] { SameCounts(a[..|a| - 1], b[..|b| - 1]); }
  }

  /** As many clips and as many blobs as went out one way were taken or refused at the other end, in
      every run that ends, whatever changed in the stores on the way. */
  lemma {:induction false} CountsAgree(owner: Owner, n: Net, actions: seq<Action>, s: bool)
    requires Begins(owner, n) && Lawful(n, actions) && AllAdmissible(owner, actions)
    requires BothDone(Reached(n, actions))
    ensures var mine, theirs := Mine(Reached(n, actions).ends, s).outcome, Mine(Reached(n, actions).ends, !s).outcome;
      && mine.sent == theirs.received + theirs.rejected
      && Count(LogOf(n, actions, s), IsBlob(true)) == theirs.blobsReceived + theirs.blobsRejected
  {
    hide Begins, Lawful, AllServed, LogOf, Reached, Count, OnCourse, Short;
    var x, queue := EveryRunTells(owner, n, actions);
    if !AllServed(n, actions) { ShortIsUnfinished(Reached(n, actions), x); }
    CourseGoesOn(owner, Reached(n, actions), x, queue);
    OneConversation(owner, n, actions);
    assert SameStory(LogOf(n, actions, s), LogOf(n, actions, !s));
    SameCounts(LogOf(n, actions, s), LogOf(n, actions, !s));
    EveryRunBooks(owner, n, actions, s);
    EveryRunBooks(owner, n, actions, !s);
  }
}
