/** The shape of a sync session: where the two programs are and what kinds of messages are in flight,
    without what the messages say (crates/clipsed/src/sync.rs).

    What a side asks for depends on its store, and the store may change at any time; so a step of a
    shape may have several outcomes. `Trails` says that a reader that is behind will meet its writer
    whatever those outcomes are. */
module SessionShape {
  import opened Bytes
  import opened HybridClock
  import opened ContentHashes
  import opened ClipTables
  import Blob = BlobTables
  import opened SyncSession

  /** Where a program is: about to send some number of messages of a kind, waiting for a kind, or over. */
  datatype Pos =
    | Greeting | AwaitingHello
    | Offering(pages: nat) | AwaitingWant | Pushing(clips: nat) | AwaitingBlobWant | Streaming(blobs: nat) | AwaitingAck
    | Listening | Wanting(clips: nat) | Taking(left: nat) | WantingBlobs(blobs: nat) | TakingBlobs(left: nat) | Acking
    | Finished | Broken

  datatype Sign = HelloSign | PageSign(complete: bool) | WantSign(count: nat) | PushSign | BlobSign | AckSign | BadSign

  /** What a program at `p` sends next. */
  function Utters(p: Pos): (r: Option<Sign>)
  {
    match p
    case Greeting => Some(HelloSign)
    case Offering(n) => if n == 0 then None else Some(PageSign(n == 1))
    case Pushing(n) => if n == 0 then None else Some(PushSign)
    case Streaming(n) => if n == 0 then None else Some(BlobSign)
    case Wanting(n) => Some(WantSign(n))
    case WantingBlobs(n) => Some(WantSign(n))
    case Acking => Some(AckSign)
    case _ => None
  }

  /** `q` is a place to be in after sending from `p`. How many pages a history has is open. */
  predicate AfterSend(role: Role, p: Pos, q: Pos)
  {
    match p
    case Greeting => q == if role.Dialler? then AwaitingHello else Listening
    case Offering(n) => n > 0 && q == if n == 1 then AwaitingWant else Offering(n - 1)
    case Pushing(n) => n > 0 && q == if n == 1 then AwaitingBlobWant else Pushing(n - 1)
    case Streaming(n) => n > 0 && q == if n == 1 then AwaitingAck else Streaming(n - 1)
    case Wanting(n) => q == if n == 0 then WantingBlobs(0) else Taking(n)
    case WantingBlobs(n) => q == if n == 0 then Acking else TakingBlobs(n)
    case Acking => if role.Dialler? then q == Finished else q.Offering? && q.pages > 0
    case _ => false
  }

  /** A program at `p` is waiting for this kind of message. */
  predicate Accepts(p: Pos, m: Sign)
  {
    match p
    case AwaitingHello => m.HelloSign?
    case AwaitingWant => m.WantSign?
    case AwaitingBlobWant => m.WantSign?
    case AwaitingAck => m.AckSign?
    case Listening => m.PageSign?
    case Taking(n) => n > 0 && m.PushSign?
    case TakingBlobs(n) => n > 0 && m.BlobSign?
    case _ => false
  }

  /** `q` is a place to be in after reading `m` at `p`. How much is wanted is open. */
  predicate AfterRead(role: Role, p: Pos, m: Sign, q: Pos)
  {
    Accepts(p, m) &&
    match p
    case AwaitingHello => if role.Dialler? then q.Offering? && q.pages > 0 else q == Greeting
    case AwaitingWant => q == if m.count == 0 then AwaitingBlobWant else Pushing(m.count)
    case AwaitingBlobWant => q == if m.count == 0 then AwaitingAck else Streaming(m.count)
    case AwaitingAck => q == if role.Dialler? then Listening else Finished
    case Listening => if m.complete then q.Wanting? else q == Listening
    case Taking(n) => if n == 1 then q.WantingBlobs? else q == Taking(n - 1)
    case TakingBlobs(n) => q == if n == 1 then Acking else TakingBlobs(n - 1)
    case _ => false
  }

  /** `a` is about to send what `b` is waiting for, all of it; or both are done. */
  predicate Pairs(a: Pos, b: Pos)
  {
    match a
    case Greeting => b == AwaitingHello
    case Offering(n) => n > 0 && b == Listening
    case Wanting(_) => b == AwaitingWant
    case Pushing(n) => n > 0 && b == Taking(n)
    case WantingBlobs(_) => b == AwaitingBlobWant
    case Streaming(n) => n > 0 && b == TakingBlobs(n)
    case Acking => b == AwaitingAck
    case Finished => b == Finished
    case _ => false
  }

  predicate Meets(a: Pos, b: Pos)
  {
    Pairs(a, b) || Pairs(b, a)
  }

  function Other(role: Role): Role { if role.Dialler? then Responder else Dialler }

  /** The reader at `p`, with `queue` to read, meets the writer at `w` once it has read it, whatever its
      store makes it want on the way. */
  ghost predicate Trails(role: Role, p: Pos, queue: seq<Sign>, w: Pos)
    decreases |queue|
  {
    if queue == [] then Meets(p, w)
    else Accepts(p, queue[0]) && forall q :: AfterRead(role, p, queue[0], q) ==> Trails(role, q, queue[1..], w)
  }

  lemma {:induction false} SomewhereAfterRead(role: Role, p: Pos, m: Sign) returns (q: Pos)
    requires Accepts(p, m)
    ensures AfterRead(role, p, m, q)
  {
    q := match p
      case AwaitingHello => if role.Dialler? then Offering(1) else Greeting
      case AwaitingWant => if m.count == 0 then AwaitingBlobWant else Pushing(m.count)
      case AwaitingBlobWant => if m.count == 0 then AwaitingAck else Streaming(m.count)
      case AwaitingAck => if role.Dialler? then Listening else Finished
      case Listening => if m.complete then Wanting(0) else Listening
      case Taking(n) => if n == 1 then WantingBlobs(0) else Taking(n - 1)
      case TakingBlobs(n) => if n == 1 then Acking else TakingBlobs(n - 1)
      case _ => p;
  }

  /** When the two meet and one sends, the other waits for it. */
  lemma {:induction false} SenderIsPaired(p: Pos, w: Pos)
    requires Meets(p, w) && Utters(w).Some?
    ensures Pairs(w, p) && Accepts(p, Utters(w).value)
  {
    match w
    case Greeting =>
    case Offering(_) =>
    case Wanting(_) =>
    case Pushing(_) =>
    case WantingBlobs(_) =>
    case Streaming(_) =>
    case Acking =>
    case _ =>
  }

  /** And they meet again once it is read. */
  lemma {:induction false} MeetAgain(role: Role, p: Pos, w: Pos, w': Pos, q: Pos)
    requires Pairs(w, p) && Utters(w).Some? && AfterSend(Other(role), w, w') && AfterRead(role, p, Utters(w).value, q)
    ensures Meets(q, w')
  {
    match w
    case Greeting =>
    case Offering(_) =>
    case Wanting(_) =>
    case Pushing(_) =>
    case WantingBlobs(_) =>
    case Streaming(_) =>
    case Acking =>
    case _ =>
  }

  /** A writer that sends one more message is still trailed. */
  lemma {:induction false} TrailsOneMore(role: Role, p: Pos, queue: seq<Sign>, w: Pos, w': Pos)
    requires Trails(role, p, queue, w) && Utters(w).Some? && AfterSend(Other(role), w, w')
    ensures Trails(role, p, queue + [Utters(w).value], w')
    decreases |queue|
  {
    var m := Utters(w).value;
    hide AfterRead, AfterSend, Utters, Meets, Accepts, Pairs;
    if queue == [] {
      SenderIsPaired(p, w);
      forall q | AfterRead(role, p, m, q) ensures Meets(q, w') { MeetAgain(role, p, w, w', q); }
      assert queue + [m] == [m] && [m][1..] == [];
    } else {
      var longer := queue + [m];
      assert longer[0] == queue[0] && longer[1..] == queue[1..] + [m];
      forall q | AfterRead(role, p, longer[0], q) ensures Trails(role, q, longer[1..], w') {
        TrailsOneMore(role, q, queue[1..], w, w');
      }
    }
  }

  /** A writer about to ask for clips has been caught up with: only by sending does a side come to wait
      for such a request. */
  lemma {:induction false} WantingIsMet(role: Role, p: Pos, queue: seq<Sign>, n: nat)
    requires Trails(role, p, queue, Wanting(n))
    ensures queue == [] && p == AwaitingWant
    decreases |queue|
  {
    if queue != [] {
      var q := SomewhereAfterRead(role, p, queue[0]);
      WantingIsMet(role, q, queue[1..], n);
    }
  }

  // ---- the shape of an endpoint ---------------------------------------------

  function PosOf(l: Endpoint): (p: Pos)
  {
    match l.phase
    case SendHello => Greeting
    case AwaitHello => AwaitingHello
    case SendSummary(pages) => Offering(|pages|)
    case AwaitWant => AwaitingWant
    case SendPush(clips) => Pushing(|clips|)
    case AwaitBlobWant => AwaitingBlobWant
    case SendBlob(digests) => Streaming(|digests|)
    case AwaitAck => AwaitingAck
    case TakeSummary(_) => Listening
    case SendWant(wanted) => Wanting(|wanted|)
    case TakePush(left, _) => Taking(left)
    case SendBlobWant(needed, _) => WantingBlobs(|needed|)
    case TakeBlob(awaited, _) => TakingBlobs(|awaited|)
    case SendAck(_) => Acking
    case Done => Finished
    case Aborted(_) => Broken
  }

  /** The kind of a message, to a reader that expects to hear from `peer`. */
  function SignOf(m: Msg, peer: DeviceId): (r: Sign)
  {
    match m
    case Hello(device, protocol, _) => if device == peer && protocol == PROTOCOL_VERSION then HelloSign else BadSign
    case SummaryPage(_, complete) => PageSign(complete)
    case Want(hashes) => WantSign(|hashes|)
    case Push(_) => PushSign
    case Ack(_) => AckSign
    case BlobStream(_) => BlobSign
  }

  /** What an endpoint sends is what its place says, and so is where that takes it. */
  lemma {:induction false} SendShape(l: Endpoint)
    ensures Next(l).ToSend? <==> Utters(PosOf(l)).Some?
    ensures Next(l).ToSend? ==>
      && SignOf(Next(l).msg, l.cfg.device) == Utters(PosOf(l)).value
      && AfterSend(l.cfg.role, PosOf(l), PosOf(Sent(l))) && Sent(l).cfg == l.cfg
  {
    hide Summaries, MaxHlc, Blob.ReadBlob;
    if l.phase.SendWant? { assert Needed(l.disk.blobs.files.Keys, []) == []; }
  }

  /** An endpoint is waiting for what its place accepts. */
  lemma {:induction false} WaitShape(l: Endpoint, m: Msg)
    requires Accepts(PosOf(l), SignOf(m, l.cfg.peer))
    ensures Next(l) == ToReceive(StreamOf(m))
  {
  }

  /** Reading an accepted message takes it where its place says, if every clip asked for is served and
      every clip pushed is stored. */
  lemma {:induction false} ReadShape(l: Endpoint, m: Msg)
    requires Accepts(PosOf(l), SignOf(m, l.cfg.peer))
    requires l.phase.AwaitWant? ==> |Serve(l.disk.tables, m.hashes)| == |m.hashes|
    requires l.phase.TakePush? ==> !l.phase.taken.failed && !Apply(l.disk.tables, m.clip, l.cfg.clock(l.phase.taken.received + l.phase.taken.rejected)).1.Failed?
    ensures AfterRead(l.cfg.role, PosOf(l), SignOf(m, l.cfg.peer), PosOf(Received(l, m))) && Received(l, m).cfg == l.cfg
  {
    hide Summaries, Needed, Apply, Serve, Wanted, Blob.PutBlob;
  }
}
