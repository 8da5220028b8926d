/** The transport half of an encrypted session (crates/clipse-crypto/src/session.rs): sealing,
    opening, and the usage counters that force a rekey.

    Ciphers are symbolic. A sealed frame names its key, its nonce and its plaintext, and opens only
    under that key at that nonce; every other byte string on the wire is `Garbage`. */
module NoiseLink {
  import opened Bytes
  import opened Sorting

  const REKEY_AFTER_MESSAGES: nat := 10_000
  const REKEY_AFTER_BYTES: nat := 64 * 1024 * 1024
  const TAG_LEN: nat := 16
  const MAX_NOISE_MESSAGE: nat := 65_535

  datatype Key = Split(fromInitiator: bool) | Rekeyed(previous: Key)

  datatype Frame = Sealed(key: Key, nonce: nat, plain: seq<Byte>) | Garbage(bytes: seq<Byte>)

  datatype LinkError = RekeyRequired | HandshakeFailed | DecryptFailed

  datatype Outcome<+T> = Ok(value: T) | Err(error: LinkError)

  function Size(f: Frame): (r: nat)
  {
    match f
    case Sealed(_, _, plain) => |plain| + TAG_LEN
    case Garbage(bytes) => |bytes|
  }

  /** One end of a session. */
  datatype Link = Link(sendKey: Key, sendNonce: nat, recvKey: Key, recvNonce: nat, messages: nat, bytes: nat)

  predicate NeedsRekey(l: Link)
  {
    l.messages >= REKEY_AFTER_MESSAGES || l.bytes >= REKEY_AFTER_BYTES
  }

  function Write(l: Link, plain: seq<Byte>): (r: (Link, Outcome<Frame>))
  {
    if NeedsRekey(l) then (l, Err(RekeyRequired))
    else if |plain| + TAG_LEN > MAX_NOISE_MESSAGE then (l, Err(HandshakeFailed))
    else (l.(sendNonce := l.sendNonce + 1, messages := l.messages + 1, bytes := l.bytes + |plain| + TAG_LEN),
          Ok(Sealed(l.sendKey, l.sendNonce, plain)))
  }

  predicate Opens(l: Link, f: Frame)
  {
    f.Sealed? && f.key == l.recvKey && f.nonce == l.recvNonce && Size(f) <= MAX_NOISE_MESSAGE
  }

  function Read(l: Link, f: Frame): (r: (Link, Outcome<seq<Byte>>))
  {
    if NeedsRekey(l) then (l, Err(RekeyRequired))
    else if !Opens(l, f) then (l, Err(DecryptFailed))
    else (l.(recvNonce := l.recvNonce + 1, messages := l.messages + 1, bytes := l.bytes + Size(f)), Ok(f.plain))
  }

  function Rekey(l: Link): (r: Link)
  {
    l.(sendKey := Rekeyed(l.sendKey), recvKey := Rekeyed(l.recvKey), messages := 0, bytes := 0)
  }

  function Established(initiator: bool): (r: Link)
  {
    Link(Split(initiator), 0, Split(!initiator), 0, 0, 0)
  }

  class Session {
    var sendKey: Key
    var sendNonce: nat
    var recvKey: Key
    var recvNonce: nat
    var messagesSinceRekey: nat
    var bytesSinceRekey: nat

    constructor (initiator: bool)
      ensures State() == Established(initiator)
    {
      sendKey, sendNonce, recvKey, recvNonce := Split(initiator), 0, Split(!initiator), 0;
      messagesSinceRekey, bytesSinceRekey := 0, 0;
    }

    function State(): Link
      reads this
    {
      Link(sendKey, sendNonce, recvKey, recvNonce, messagesSinceRekey, bytesSinceRekey)
    }

    method RekeyNow()
      modifies this
      ensures State() == Rekey(old(State()))
      ensures !NeedsRekey(State())
    {
      sendKey, recvKey := Rekeyed(sendKey), Rekeyed(recvKey);
      messagesSinceRekey, bytesSinceRekey := 0, 0;
    }

    method WriteMessage(plain: seq<Byte>) returns (r: Outcome<Frame>)
      modifies this
      ensures (State(), r) == Write(old(State()), plain)
      ensures r == Err(RekeyRequired) <==> old(NeedsRekey(State()))
    {
      if NeedsRekey(State()) {
        return Err(RekeyRequired);
      }
      if |plain| + TAG_LEN > MAX_NOISE_MESSAGE {
        return Err(HandshakeFailed);
      }
      var frame := Sealed(sendKey, sendNonce, plain);
      sendNonce := sendNonce + 1;
      messagesSinceRekey := messagesSinceRekey + 1;
      bytesSinceRekey := bytesSinceRekey + Size(frame);
      return Ok(frame);
    }

    method ReadMessage(frame: Frame) returns (r: Outcome<seq<Byte>>)
      modifies this
      ensures (State(), r) == Read(old(State()), frame)
      ensures r == Err(RekeyRequired) <==> old(NeedsRekey(State()))
    {
      if NeedsRekey(State()) {
        return Err(RekeyRequired);
      }
      if !Opens(State(), frame) {
        return Err(DecryptFailed);
      }
      recvNonce := recvNonce + 1;
      messagesSinceRekey := messagesSinceRekey + 1;
      bytesSinceRekey := bytesSinceRekey + Size(frame);
      return Ok(frame.plain);
    }
  }

  // ---- every run of one end -------------------------------------------------

  datatype Use = Sealing(plain: seq<Byte>) | Opening(frame: Frame) | Rekeying

  function After(initiator: bool, uses: seq<Use>): (r: Link)
  {
    if uses == [] then Established(initiator) else
      var l := After(initiator, uses[..|uses| - 1]);
      match uses[|uses| - 1]
      case Sealing(plain) => Write(l, plain).0
      case Opening(frame) => Read(l, frame).0
      case Rekeying => Rekey(l)
  }

  /** Sizes of the frames this end sealed or opened since its last rekey. */
  function Traffic(initiator: bool, uses: seq<Use>): (r: seq<nat>)
  {
    if uses == [] then [] else
      var front := uses[..|uses| - 1];
      var l := After(initiator, front);
      match uses[|uses| - 1]
      case Rekeying => []
      case Sealing(plain) =>
        Traffic(initiator, front) + if Write(l, plain).1.Ok? then [|plain| + TAG_LEN] else []
      case Opening(frame) =>
        Traffic(initiator, front) + if Read(l, frame).1.Ok? then [Size(frame)] else []
  }

  lemma {:induction false} EmptySum()
    ensures Sum([]) == 0
  {
  }

  lemma {:induction false} SumSnoc(t: seq<nat>, x: nat)
    ensures Sum(t + [x]) == Sum(t) + x && t + [] == t
  {
    SumConcat(t, [x]);
  }

  /** Whatever is sealed, opened or forged, one key protects at most 10,000 messages and fewer than
      64 MiB + 65,535 ciphertext bytes, and the counters say exactly how many. */
  lemma {:induction false} UsageIsBounded(initiator: bool, uses: seq<Use>)
    ensures var l, t := After(initiator, uses), Traffic(initiator, uses);
      && l.messages == |t| <= 10_000
      && l.bytes == Sum(t) < 64 * 1024 * 1024 + 65_535
  {
    hide Sum;
    assert Sum([]) == 0 by { EmptySum(); }
    if uses != [] {
      var front := uses[..|uses| - 1];
      UsageIsBounded(initiator, front);
      var t := Traffic(initiator, front);
      match uses[|uses| - 1]
      case Rekeying =>
      case Sealing(plain) => SumSnoc(t, |plain| + TAG_LEN);
      case Opening(frame) => SumSnoc(t, Size(frame));
    }
  }

  lemma {:induction false} NoncesOnlyGrow(initiator: bool, uses: seq<Use>, i: nat)
    requires i <= |uses|
    ensures var l, l' := After(initiator, uses[..i]), After(initiator, uses);
      l.sendNonce <= l'.sendNonce && l.recvNonce <= l'.recvNonce
    decreases |uses|
  {
    if i < |uses| {
      var front := uses[..|uses| - 1];
      assert front[..i] == uses[..i];
      NoncesOnlyGrow(initiator, front, i);
    } else {
      assert uses[..i] == uses;
    }
  }

  lemma {:induction false} AfterOneMore(initiator: bool, uses: seq<Use>, i: nat)
    requires i < |uses|
    ensures After(initiator, uses[..i + 1]) ==
      match uses[i]
      case Sealing(plain) => Write(After(initiator, uses[..i]), plain).0
      case Opening(frame) => Read(After(initiator, uses[..i]), frame).0
      case Rekeying => Rekey(After(initiator, uses[..i]))
  {
    assert uses[..i + 1][..i] == uses[..i];
  }

  /** No nonce is used twice, whatever is sealed, opened or rekeyed in between: of two frames an end has
      sealed the later has the greater nonce, and so of two it has opened; so no frame is opened twice, and
      none out of order. */
  lemma {:induction false} EveryNonceOnce(initiator: bool, uses: seq<Use>, i: nat, j: nat)
    requires i < j < |uses|
    ensures uses[i].Sealing? && uses[j].Sealing? ==>
      var a, b := Write(After(initiator, uses[..i]), uses[i].plain).1, Write(After(initiator, uses[..j]), uses[j].plain).1;
      a.Ok? && b.Ok? ==> a.value.Sealed? && b.value.Sealed? && a.value.nonce < b.value.nonce
    ensures uses[i].Opening? && uses[j].Opening? ==>
      var a, b := Read(After(initiator, uses[..i]), uses[i].frame).1, Read(After(initiator, uses[..j]), uses[j].frame).1;
      a.Ok? && b.Ok? ==> uses[i].frame.Sealed? && uses[j].frame.Sealed? && uses[i].frame.nonce < uses[j].frame.nonce
  {
    AfterOneMore(initiator, uses, i);
    NoncesOnlyGrow(initiator, uses[..j], i + 1);
    assert uses[..j][..i + 1] == uses[..i + 1];
    hide After;
  }

  // ---- two ends, half duplex --------------------------------------------------

  /** A frame on the wire, with the counters its writer had just before sealing it. */
  datatype InFlight = InFlight(frame: Frame, messages: nat, bytes: nat)

  datatype Net = Net(a: Link, b: Link, ab: seq<InFlight>, ba: seq<InFlight>)

  datatype Step = WriteA(plain: seq<Byte>) | WriteB(plain: seq<Byte>) | ReadA | ReadB | RekeyBoth

  /** Half duplex: an end writes only once it has read everything sent to it; both ends rekey at a
      common point of the conversation. */
  predicate Enabled(n: Net, s: Step)
  {
    match s
    case WriteA(_) => n.ba == []
    case WriteB(_) => n.ab == []
    case ReadA => n.ba != []
    case ReadB => n.ab != []
    case RekeyBoth => n.ab == [] && n.ba == []
  }

  function Sent(l: Link, wire: seq<InFlight>, plain: seq<Byte>): (r: (Link, seq<InFlight>))
  {
    var (l', out) := Write(l, plain);
    (l', if out.Ok? then wire + [InFlight(out.value, l.messages, l.bytes)] else wire)
  }

  function Do(n: Net, s: Step): (r: Net)
    requires Enabled(n, s)
  {
    match s
    case WriteA(plain) => var (a, ab) := Sent(n.a, n.ab, plain); n.(a := a, ab := ab)
    case WriteB(plain) => var (b, ba) := Sent(n.b, n.ba, plain); n.(b := b, ba := ba)
    case ReadA => n.(a := Read(n.a, n.ba[0].frame).0, ba := n.ba[1..])
    case ReadB => n.(b := Read(n.b, n.ab[0].frame).0, ab := n.ab[1..])
    case RekeyBoth => n.(a := Rekey(n.a), b := Rekey(n.b))
  }

  /** Two ends that agree: keys and nonces crossed over, counters equal. */
  predicate Mirror(a: Link, b: Link)
  {
    && a.sendKey == b.recvKey && a.sendNonce == b.recvNonce
    && a.recvKey == b.sendKey && a.recvNonce == b.sendNonce
    && a.messages == b.messages && a.bytes == b.bytes
  }

  /** Reading the next frame succeeds, from the very counters it was sealed at. */
  predicate InStep(reader: Link, next: InFlight)
  {
    && next.messages == reader.messages && next.bytes == reader.bytes
    && next.frame.Sealed?
    && Read(reader, next.frame).1 == Ok(next.frame.plain)
  }

  /** A reader that will mirror the writer once it has read the wire, in step all the way. */
  predicate Trails(reader: Link, wire: seq<InFlight>, writer: Link)
    decreases |wire|
  {
    if wire == [] then Mirror(reader, writer)
    else InStep(reader, wire[0]) && Trails(Read(reader, wire[0].frame).0, wire[1..], writer)
  }

  lemma {:induction false} WriteKeepsTrailing(reader: Link, wire: seq<InFlight>, writer: Link, plain: seq<Byte>)
    requires Trails(reader, wire, writer)
    ensures var (w, wire') := Sent(writer, wire, plain); Trails(reader, wire', w)
    decreases |wire|
  {
    var (w, wire') := Sent(writer, wire, plain);
    if wire != [] && Write(writer, plain).1.Ok? {
      WriteKeepsTrailing(Read(reader, wire[0].frame).0, wire[1..], writer, plain);
      assert wire'[1..] == wire[1..] + [wire'[|wire|]];
    } else if wire == [] && Write(writer, plain).1.Ok? {
      assert wire'[1..] == [];
    }
  }

  predicate NetInv(n: Net)
  {
    (n.ba == [] && Trails(n.b, n.ab, n.a)) || (n.ab == [] && Trails(n.a, n.ba, n.b))
  }

  function NetAfter(steps: seq<Step>): (r: Net)
    requires Legal(steps)
    decreases |steps|, 1
  {
    if steps == [] then Net(Established(true), Established(false), [], [])
    else Do(NetAfter(steps[..|steps| - 1]), steps[|steps| - 1])
  }

  predicate Legal(steps: seq<Step>)
    decreases |steps|, 0
  {
    steps == [] ||
      (var front := steps[..|steps| - 1]; Legal(front) && Enabled(NetAfter(front), steps[|steps| - 1]))
  }

  lemma {:induction false} StepKeepsNetInv(n: Net, s: Step)
    requires NetInv(n) && Enabled(n, s)
    ensures NetInv(Do(n, s))
  {
    match s
    case WriteA(plain) => WriteKeepsTrailing(n.b, n.ab, n.a, plain);
    case WriteB(plain) => WriteKeepsTrailing(n.a, n.ba, n.b, plain);
    case _ =>
  }

  lemma {:induction false} EveryLegalRunKeepsNetInv(steps: seq<Step>)
    requires Legal(steps)
    ensures NetInv(NetAfter(steps))
  {
    if steps != [] {
      EveryLegalRunKeepsNetInv(steps[..|steps| - 1]);
      StepKeepsNetInv(NetAfter(steps[..|steps| - 1]), steps[|steps| - 1]);
    }
  }

  /** On every half-duplex run of any length, the next frame to be read finds its reader at the
      counters its writer had, so a frame that could be sealed is opened, to the plaintext sealed,
      and never refused for want of a rekey; and once the wires are empty the ends agree again. */
  lemma {:induction false} ReaderIsInStep(steps: seq<Step>)
    requires Legal(steps)
    ensures var n := NetAfter(steps);
      && (n.ab != [] ==> InStep(n.b, n.ab[0]))
      && (n.ba != [] ==> InStep(n.a, n.ba[0]))
      && (n.ab == [] && n.ba == [] ==> Mirror(n.a, n.b))
  {
    EveryLegalRunKeepsNetInv(steps);
  }

  /** Without the half-duplex rule the counters drift apart: one frame each way, crossing. */
  lemma {:induction false} CrossingFramesDisagree(p: seq<Byte>, q: seq<Byte>)
    requires |p| + TAG_LEN <= MAX_NOISE_MESSAGE && |q| + TAG_LEN <= MAX_NOISE_MESSAGE
    ensures var (a, out) := Write(Established(true), p);
      var b := Write(Established(false), q).0;
      out.Ok? && !InStep(b, InFlight(out.value, 0, 0))
  {
  }

  /** Rekeying one end alone cuts the link: nothing the other end seals next can be opened. */
  lemma {:induction false} LoneRekeyCutsTheLink(a: Link, b: Link, plain: seq<Byte>)
    requires Mirror(a, b) && Write(a, plain).1.Ok?
    ensures Read(Rekey(b), Write(a, plain).1.value).1 == Err(DecryptFailed)
  {
    KeyIsNotItsSuccessor(b.recvKey);
  }

  lemma {:induction false} KeyIsNotItsSuccessor(k: Key)
    ensures Rekeyed(k) != k
  {
    if k.Rekeyed? { KeyIsNotItsSuccessor(k.previous); }
  }
}
