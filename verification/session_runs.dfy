/** Runs of a session over bounded FIFO streams, between stores at rest.

    The endpoints run at their own pace; each direction has a control stream and a sequence of blob
    streams, of any capacity of at least one. Whatever the interleaving, each endpoint is at some
    point of the lock-step session, and what is in flight is exactly the stretch between the two. */
module SessionRuns {
  import opened Bytes
  import opened ContentHashes
  import opened ClipTables
  import opened SyncSession
  import opened SessionTurns
  import opened SessionStores

  datatype Wire = Wire(control: seq<Msg>, blobs: seq<Msg>, controlCap: nat, blobCap: nat)

  function InFlight(w: Wire, s: Stream): (r: seq<Msg>)
  {
    if s.Control? then w.control else w.blobs
  }

  predicate HasRoom(w: Wire, m: Msg)
  {
    if StreamOf(m).Control? then |w.control| < w.controlCap else |w.blobs| < w.blobCap
  }

  function Enqueue(w: Wire, m: Msg): (r: Wire)
  {
    if StreamOf(m).Control? then w.(control := w.control + [m]) else w.(blobs := w.blobs + [m])
  }

  function Dequeue(w: Wire, s: Stream): (r: Wire)
    requires InFlight(w, s) != []
  {
    if s.Control? then w.(control := w.control[1..]) else w.(blobs := w.blobs[1..])
  }

  /** Two endpoints, the wire from the dialler and the wire from the responder. */
  datatype Net = Net(ends: Joint, dr: Wire, rd: Wire)

  /** The endpoint on one side: the dialler's if `s`, else the responder's. */
  function Mine(g: Joint, s: bool): Endpoint { if s then g.d else g.r }
  function Out(n: Net, s: bool): Wire { if s then n.dr else n.rd }

  function SetMine(g: Joint, s: bool, l: Endpoint): (r: Joint)
  {
    if s then g.(d := l) else g.(r := l)
  }

  /** One move: a side sends its next message, or reads one. */
  datatype Move = Move(side: bool, send: bool)

  predicate Enabled(n: Net, m: Move)
  {
    var act := Next(Mine(n.ends, m.side));
    if m.send then act.ToSend? && HasRoom(Out(n, m.side), act.msg)
    else act.ToReceive? && InFlight(Out(n, !m.side), act.stream) != []
  }

  function Perform(n: Net, m: Move): (r: Net)
    requires Enabled(n, m)
  {
    var l := Mine(n.ends, m.side);
    var act := Next(l);
    if m.send then
      var w := Enqueue(Out(n, m.side), act.msg);
      Net(SetMine(n.ends, m.side, Sent(l)), if m.side then w else n.dr, if m.side then n.rd else w)
    else
      var w := Dequeue(Out(n, !m.side), act.stream);
      Net(SetMine(n.ends, m.side, Received(l, InFlight(Out(n, !m.side), act.stream)[0])),
          if m.side then n.dr else w, if m.side then w else n.rd)
  }

  /** Every move of the run is possible when it is made. */
  ghost predicate Legal(n: Net, moves: seq<Move>)
    decreases |moves|
  {
    moves != [] ==> Legal(n, moves[..|moves| - 1]) && Enabled(StateAfter(n, moves[..|moves| - 1]), moves[|moves| - 1])
  }

  ghost function StateAfter(n: Net, moves: seq<Move>): (r: Net)
    decreases |moves|
  {
    if moves == [] then n else
    var before := StateAfter(n, moves[..|moves| - 1]);
    if Enabled(before, moves[|moves| - 1]) then Perform(before, moves[|moves| - 1]) else before
  }

  /** Two fresh endpoints, nothing in flight, room for at least one message everywhere. */
  ghost predicate Opening(n: Net)
  {
    && Honest(n.ends.d, n.ends.r)
    && n.dr.control == n.dr.blobs == n.rd.control == n.rd.blobs == []
    && Roomy(n)
  }

  /** Every stream can hold at least one message. */
  predicate Roomy(n: Net)
  {
    n.dr.controlCap > 0 && n.dr.blobCap > 0 && n.rd.controlCap > 0 && n.rd.blobCap > 0
  }

  // ---- where a run is in the lock-step session ----------------------------

  predicate Sends(g: Joint, s: bool)
  {
    Fits(Mine(g, s), Mine(g, !s))
  }

  function MsgAt(g: Joint): (r: Msg)
    requires Compatible(g)
  {
    if Sends(g, true) then Next(g.d).msg else Next(g.r).msg
  }

  /** The session in lock step, from `g` in `len` steps to both done. */
  ghost predicate Script(g: Joint, len: nat)
  {
    && Path(g, Iterate(g, len), len)
    && Iterate(g, len).d.phase == Done && Iterate(g, len).r.phase == Done
  }

  /** The messages of one stream among lock steps `lo` up to `hi`. */
  ghost function Backlog(g: Joint, len: nat, lo: nat, hi: nat, s: Stream): (r: seq<Msg>)
    requires Script(g, len) && hi <= len
    decreases hi
  {
    if lo >= hi then [] else
    assert Compatible(Iterate(g, hi - 1));
    var m := MsgAt(Iterate(g, hi - 1));
    Backlog(g, len, lo, hi - 1, s) + (if StreamOf(m) == s then [m] else [])
  }

  /** Side `s` is `a` steps in, the other side `b`; what `s` has sent and the other not read is in flight. */
  ghost predicate SideAt(g: Joint, len: nat, n: Net, s: bool, a: nat, b: nat)
    requires Script(g, len)
  {
    && a <= len && b <= len
    && Mine(n.ends, s) == Mine(Iterate(g, a), s)
    && InFlight(Out(n, s), Control) == Backlog(g, len, b, a, Control)
    && InFlight(Out(n, s), Blobs) == Backlog(g, len, b, a, Blobs)
    && forall k: nat :: b <= k < a ==> Sends(Iterate(g, k), s)
  }

  ghost predicate At(g: Joint, len: nat, n: Net, s: bool, a: nat, b: nat)
    requires Script(g, len)
  {
    SideAt(g, len, n, s, a, b) && SideAt(g, len, n, !s, b, a)
  }

  lemma {:induction false} BacklogFront(g: Joint, len: nat, lo: nat, hi: nat, s: Stream)
    requires Script(g, len) && lo < hi <= len
    ensures Compatible(Iterate(g, lo))
    ensures var m := MsgAt(Iterate(g, lo));
      Backlog(g, len, lo, hi, s) == (if StreamOf(m) == s then [m] else []) + Backlog(g, len, lo + 1, hi, s)
    decreases hi
  {
    hide Iterate, Compatible, Sends, MsgAt;
    assert Compatible(Iterate(g, lo));
    if lo + 1 < hi { BacklogFront(g, len, lo, hi - 1, s); }
  }

  lemma {:induction false} BacklogBack(g: Joint, len: nat, lo: nat, hi: nat, s: Stream)
    requires Script(g, len) && lo <= hi < len
    ensures Compatible(Iterate(g, hi))
    ensures var m := MsgAt(Iterate(g, hi));
      Backlog(g, len, lo, hi + 1, s) == Backlog(g, len, lo, hi, s) + (if StreamOf(m) == s then [m] else [])
    ensures Backlog(g, len, hi, lo, s) == [] && Backlog(g, len, hi + 1, lo, s) == []
  {
    hide Iterate, Compatible, Sends, MsgAt;
    assert Compatible(Iterate(g, hi));
  }

  /** Before the end of the script exactly one side sends, and the other waits for that stream. */
  lemma {:induction false} ScriptStep(g: Joint, len: nat, k: nat)
    requires Script(g, len) && k < len
    ensures var h := Iterate(g, k);
      && Compatible(h) && (Sends(h, true) <==> !Sends(h, false))
      && forall s: bool :: Sends(h, s) ==>
           && Next(Mine(h, s)) == ToSend(MsgAt(h)) && Next(Mine(h, !s)) == ToReceive(StreamOf(MsgAt(h)))
           && Mine(Iterate(g, k + 1), s) == Sent(Mine(h, s))
           && Mine(Iterate(g, k + 1), !s) == Received(Mine(h, !s), MsgAt(h))
  {
    hide Next, Sent, Received;
    assert Compatible(Iterate(g, k));
    assert Iterate(g, k + 1) == LockStep(Iterate(g, k));
  }

  lemma {:induction false} ScriptFinished(g: Joint, len: nat, s: bool)
    requires Script(g, len)
    ensures Next(Mine(Iterate(g, len), s)) == Stopped
  {
    hide Iterate;
  }

  /** A side that is about to send is not behind, and is at a step where the script has it send. */
  lemma {:induction false} SenderIsAhead(g: Joint, len: nat, n: Net, s: bool, a: nat, b: nat)
    requires Script(g, len) && At(g, len, n, s, a, b) && Next(Mine(n.ends, s)).ToSend?
    ensures a < len && b <= a && Sends(Iterate(g, a), s)
  {
    hide Next, Iterate, Backlog, Sends, Script;
    if a == len { ScriptFinished(g, len, s); }
    ScriptStep(g, len, a);
    assert a < b ==> Sends(Iterate(g, a), !s);
  }

  lemma {:induction false} SendStep(g: Joint, len: nat, n: Net, s: bool, a: nat, b: nat)
    requires Script(g, len) && At(g, len, n, s, a, b) && Enabled(n, Move(s, true))
    ensures a < len && At(g, len, Perform(n, Move(s, true)), s, a + 1, b)
  {
    hide Next, Iterate, Sends, Script, Sent, Received, Backlog, StreamOf, MsgAt, Compatible;
    SenderIsAhead(g, len, n, s, a, b);
    ScriptStep(g, len, a);
    BacklogBack(g, len, b, a, Control);
    BacklogBack(g, len, b, a, Blobs);
    var n' := Perform(n, Move(s, true));
    var m := MsgAt(Iterate(g, a));
    assert Out(n', !s) == Out(n, !s) && Mine(n'.ends, !s) == Mine(n.ends, !s);
    assert Out(n', s) == Enqueue(Out(n, s), m) && Mine(n'.ends, s) == Sent(Mine(n.ends, s));
    hide Perform, Enabled;
    assert SideAt(g, len, n', !s, b, a + 1);
    assert InFlight(Out(n', s), Control) == Backlog(g, len, b, a + 1, Control);
    assert InFlight(Out(n', s), Blobs) == Backlog(g, len, b, a + 1, Blobs);
    assert SideAt(g, len, n', s, a + 1, b);
  }

  /** A side with something to read is behind, and what it reads is the next message of the script. */
  lemma {:induction false} ReaderIsBehind(g: Joint, len: nat, n: Net, s: bool, a: nat, b: nat)
    requires Script(g, len) && At(g, len, n, s, a, b) && Enabled(n, Move(s, false))
    ensures a < b && Sends(Iterate(g, a), !s) && Compatible(Iterate(g, a))
    ensures Next(Mine(n.ends, s)) == ToReceive(StreamOf(MsgAt(Iterate(g, a))))
  {
    hide Next, Iterate, Script;
    var stream := Next(Mine(n.ends, s)).stream;
    assert Backlog(g, len, a, b, stream) != [];
    assert a < b;
    hide Sends, Backlog;
    ScriptStep(g, len, a);
  }

  lemma {:induction false} ReceiveStep(g: Joint, len: nat, n: Net, s: bool, a: nat, b: nat)
    requires Script(g, len) && At(g, len, n, s, a, b) && Enabled(n, Move(s, false))
    ensures a < len && At(g, len, Perform(n, Move(s, false)), s, a + 1, b)
  {
    ReaderIsBehind(g, len, n, s, a, b);
    ScriptStep(g, len, a);
    BacklogFront(g, len, a, b, Control);
    BacklogFront(g, len, a, b, Blobs);
    assert Backlog(g, len, b, a, Control) == [] && Backlog(g, len, b, a, Blobs) == [];
    assert Backlog(g, len, b, a + 1, Control) == [] && Backlog(g, len, b, a + 1, Blobs) == [];
    hide Next, Iterate, Sends, Script, Sent, Received, Backlog, StreamOf, MsgAt, Compatible;
    var n' := Perform(n, Move(s, false));
    assert Out(n', s) == Out(n, s);
    assert SideAt(g, len, n', s, a + 1, b);
    assert SideAt(g, len, n', !s, b, a + 1);
  }

  /** A run of `k` moves has taken the two sides `k` steps into the script between them. */
  lemma {:induction false} RunFollowsScript(g: Joint, len: nat, n: Net, moves: seq<Move>) returns (p: nat, q: nat)
    requires Script(g, len) && At(g, len, n, true, 0, 0) && Roomy(n) && Legal(n, moves)
    ensures p + q == |moves| && At(g, len, StateAfter(n, moves), true, p, q) && Roomy(StateAfter(n, moves))
    decreases |moves|
  {
    hide At, Script, Perform, Enabled, Roomy;
    if moves == [] {
      p, q := 0, 0;
    } else {
      var last := moves[|moves| - 1];
      p, q := RunFollowsScript(g, len, n, moves[..|moves| - 1]);
      var before := StateAfter(n, moves[..|moves| - 1]);
      var p', q' := OneMove(g, len, before, last, p, q);
      p, q := p', q';
    }
  }

  lemma {:induction false} OneMove(g: Joint, len: nat, n: Net, m: Move, p: nat, q: nat) returns (p': nat, q': nat)
    requires Script(g, len) && At(g, len, n, true, p, q) && Roomy(n) && Enabled(n, m)
    ensures p' + q' == p + q + 1 && At(g, len, Perform(n, m), true, p', q') && Roomy(Perform(n, m))
  {
    hide Script, SideAt, Perform, Enabled, Roomy;
    MoveKeepsRoom(n, m);
    var a, b := if m.side then p else q, if m.side then q else p;
    assert At(g, len, n, m.side, a, b);
    assert m == Move(m.side, m.send);
    if m.send { SendStep(g, len, n, m.side, a, b); } else { ReceiveStep(g, len, n, m.side, a, b); }
    p', q' := if m.side then p + 1 else p, if m.side then q else q + 1;
  }

  lemma {:induction false} MoveKeepsRoom(n: Net, m: Move)
    requires Enabled(n, m) && Roomy(n)
    ensures Roomy(Perform(n, m))
  {
    hide Next, Sent, Received;
  }

  lemma {:induction false} OpeningIsAtStart(n: Net)
    requires Opening(n)
    ensures var g, len := n.ends, SessionLength(n.ends.d, n.ends.r);
      && Script(g, len) && At(g, len, n, true, 0, 0) && Iterate(g, len) == SessionEnd(n.ends.d, n.ends.r)
  {
    hide Honest, Compatible, SessionEnd, SessionLength;
    SessionCompletes(n.ends.d, n.ends.r);
  }

  /** Unless both sides are at the end of the script, some move is possible. */
  lemma {:induction false} SomeMoveIsPossible(g: Joint, len: nat, n: Net, p: nat, q: nat) returns (m: Move)
    requires Script(g, len) && At(g, len, n, true, p, q) && Roomy(n) && (p < len || q < len)
    ensures Enabled(n, m)
  {
    hide Next, Iterate, Script, Compatible, MsgAt;
    if p < q {
      m := BehindCanRead(g, len, n, true, p, q);
    } else if q < p {
      m := BehindCanRead(g, len, n, false, q, p);
    } else {
      ScriptStep(g, len, p);
      assert forall s: Stream :: Backlog(g, len, p, p, s) == [];
      m := Move(Sends(Iterate(g, p), true), true);
    }
  }

  lemma {:induction false} BehindCanRead(g: Joint, len: nat, n: Net, s: bool, a: nat, b: nat) returns (m: Move)
    requires Script(g, len) && At(g, len, n, s, a, b) && a < b
    ensures Enabled(n, m)
  {
    hide Next, Iterate, Script, Compatible, MsgAt, Sends, Backlog;
    ScriptStep(g, len, a);
    BacklogFront(g, len, a, b, StreamOf(MsgAt(Iterate(g, a))));
    m := Move(s, false);
  }

  lemma {:induction false} NothingLeftToDo(g: Joint, len: nat, n: Net, m: Move)
    requires Script(g, len) && At(g, len, n, true, len, len)
    ensures !Enabled(n, m)
  {
    hide Next, Iterate, Script;
    ScriptFinished(g, len, m.side);
  }

  /** Neither side of a run has aborted: every message it met was of the kind it was waiting for. */
  lemma {:induction false} NotAborted(g: Joint, len: nat, n: Net, s: bool, a: nat, b: nat)
    requires Script(g, len) && At(g, len, n, s, a, b)
    ensures !Mine(n.ends, s).phase.Aborted?
  {
    hide Iterate, Backlog, Sends;
    if a < len {
      ScriptStep(g, len, a);
      assert Next(Mine(Iterate(g, a), s)) != Stopped;
    }
  }

  /** Between stores at rest the session always ends in the same way, over every interleaving and every
      capacity. No run of an honest dialler against an honest responder meets an unexpected message; it can
      always go on until both are done; it is over after exactly twice as many moves as messages,
      with nothing left in flight and both ends as the lock-step session leaves them. */
  lemma {:induction false} QuietRunCompletes(n: Net, moves: seq<Move>)
    requires Opening(n) && Legal(n, moves)
    ensures var now, total := StateAfter(n, moves), 2 * SessionLength(n.ends.d, n.ends.r);
      && !now.ends.d.phase.Aborted? && !now.ends.r.phase.Aborted?
      && |moves| <= total
      && ((exists m :: Enabled(now, m)) <==> |moves| < total)
      && (|moves| == total ==>
            && now.ends == SessionEnd(n.ends.d, n.ends.r)
            && now.ends.d.phase == Done && now.ends.r.phase == Done
            && now.dr.control == now.dr.blobs == now.rd.control == now.rd.blobs == [])
  {
    hide Enabled, Perform, Iterate, Backlog, Sends, Honest, SessionEnd, SessionLength, Legal, Next;
    var g, len := n.ends, SessionLength(n.ends.d, n.ends.r);
    OpeningIsAtStart(n);
    var p, q := RunFollowsScript(g, len, n, moves);
    var now := StateAfter(n, moves);
    hide StateAfter;
    NotAborted(g, len, now, true, p, q);
    NotAborted(g, len, now, false, q, p);
    if p < len || q < len {
      var m := SomeMoveIsPossible(g, len, now, p, q);
      assert |moves| < 2 * len;
    } else {
      forall m ensures !Enabled(now, m) { NothingLeftToDo(g, len, now, m); }
      EmptyBacklog(g, len);
    }
  }

  lemma {:induction false} EmptyBacklog(g: Joint, len: nat)
    requires Script(g, len)
    ensures Backlog(g, len, len, len, Control) == [] && Backlog(g, len, len, len, Blobs) == []
  {
  }

  /** Every run, from the empty one on, is the beginning of one that finishes. */
  lemma {:induction false} QuietRunCanFinish(n: Net, moves: seq<Move>) returns (all: seq<Move>)
    requires Opening(n) && Legal(n, moves)
    ensures Legal(n, all) && |all| == 2 * SessionLength(n.ends.d, n.ends.r)
    ensures |moves| <= |all| && all[..|moves|] == moves
    decreases 2 * SessionLength(n.ends.d, n.ends.r) - |moves|
  {
    hide Enabled, Perform, SessionEnd, SessionLength, Opening, StateAfter;
    QuietRunCompletes(n, moves);
    if |moves| == 2 * SessionLength(n.ends.d, n.ends.r) {
      all := moves;
    } else {
      var m :| Enabled(StateAfter(n, moves), m);
      var more := moves + [m];
      assert more[..|more| - 1] == moves;
      all := QuietRunCanFinish(n, more);
      assert all[..|moves|] == all[..|more|][..|moves|];
    }
  }
}
