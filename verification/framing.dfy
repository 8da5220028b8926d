/** Segmentation and reassembly of messages on an encrypted link (crates/clipse-net/src/framing.rs).
    A message is its serialised body; `parse` stands for the deserialiser, which may refuse a body. */
module Framing {
  import opened Bytes
  import opened NoiseLink

  const SEGMENT_BYTES: nat := 60_000
  const MAX_MESSAGE_BYTES: nat := 32 * 1024 * 1024

  /** What one call of the decoder gives. */
  datatype Received<+M> =
    | Waiting
    | Message(message: M)
    | TooLarge(size: nat)
    | Malformed
    | Refused(error: LinkError)

  /** A body behind its length. */
  function Prefixed(body: seq<Byte>): (r: seq<Byte>)
    ensures |r| == 4 + |body|
  {
    LeBytes(|body|, 4) + body
  }

  /** The length a buffer announces, once it holds one. */
  function Announced(buffer: seq<Byte>): (r: nat)
    requires |buffer| >= 4
  {
    FromLe(buffer[..4])
  }

  /** Some complete body of acceptable length is at the front of the buffer. */
  predicate Complete(buffer: seq<Byte>)
  {
    |buffer| >= 4 && Announced(buffer) <= MAX_MESSAGE_BYTES && |buffer| >= 4 + Announced(buffer)
  }

  /** The decoder on one decrypted segment: the new buffer and the answer. */
  function Feed<M>(buffer: seq<Byte>, segment: seq<Byte>, parse: seq<Byte> -> Option<M>): (r: (seq<Byte>, Received<M>))
  {
    var b := buffer + segment;
    if |b| < 4 then (b, Waiting)
    else if Announced(b) > MAX_MESSAGE_BYTES then (b, TooLarge(Announced(b)))
    else if |b| < 4 + Announced(b) then (b, Waiting)
    else match parse(b[4..4 + Announced(b)])
      case None => (b, Malformed)
      case Some(m) => (b[4 + Announced(b)..], Message(m))
  }

  class Decoder<M> {
    var buffer: seq<Byte>

    constructor ()
      ensures buffer == []
    {
      buffer := [];
    }

    /** One frame straight off the wire. A frame the link refuses leaves the buffer alone. */
    method Accept(session: Session, frame: Frame, parse: seq<Byte> -> Option<M>) returns (r: Received<M>)
      modifies this, session
      ensures session.State() == Read(old(session.State()), frame).0
      ensures match Read(old(session.State()), frame).1
        case Err(e) => r == Refused(e) && buffer == old(buffer)
        case Ok(segment) => (buffer, r) == Feed(old(buffer), segment, parse)
    {
      var plain := session.ReadMessage(frame);
      if plain.Err? {
        return Refused(plain.error);
      }
      buffer := buffer + plain.value;
      if |buffer| < 4 {
        return Waiting;
      }
      var expected := Announced(buffer);
      if expected > MAX_MESSAGE_BYTES {
        return TooLarge(expected);
      }
      if |buffer| < 4 + expected {
        return Waiting;
      }
      var message := parse(buffer[4..4 + expected]);
      if message.None? {
        return Malformed;
      }
      buffer := buffer[4 + expected..];
      return Message(message.value);
    }
  }

  /** The first four bytes of a buffer, as a length. */
  predicate Announces(b: seq<Byte>, n: nat)
  {
    |b| >= 4 && n < U32_LIMIT && b[..4] == LeBytes(n, 4)
  }

  lemma {:induction false} AnnouncesIff(b: seq<Byte>, n: nat)
    requires |b| >= 4 && n < U32_LIMIT
    ensures Announces(b, n) <==> Announced(b) == n
  {
    Pow256Values();
    LeRoundTrip(n, 4);
    LeOfFrom(b[..4]);
  }

  /** What the decoder answers, and when: it waits for the length, and for a body of acceptable length; a
      length over 32 MiB is refused as soon as it is there, a body that does not parse as soon as it is
      complete, and neither is taken out of the buffer; a body that parses is handed over and taken out. */
  lemma {:induction false} AnswerMeans<M>(buffer: seq<Byte>, segment: seq<Byte>, parse: seq<Byte> -> Option<M>, n: nat)
    ensures var b := buffer + segment;
      var (b', r) := Feed(buffer, segment, parse);
      && (|b| < 4 ==> r == Waiting && b' == b)
      && (Announces(b, n) && n > 32 * 1024 * 1024 ==> r == TooLarge(n) && b' == b)
      && (Announces(b, n) && n <= 32 * 1024 * 1024 && |b| < 4 + n ==> r == Waiting && b' == b)
      && (Announces(b, n) && n <= 32 * 1024 * 1024 && |b| >= 4 + n ==>
            match parse(b[4..4 + n])
            case None => r == Malformed && b' == b
            case Some(m) => r == Message(m) && b' == b[4 + n..])
  {
    var b := buffer + segment;
    if |b| >= 4 && n < U32_LIMIT { AnnouncesIff(b, n); }
    hide Announced;
  }

  /** A stream once refused stays refused: whatever follows, every later answer is the same. */
  lemma {:induction false} RefusedForGood<M>(buffer: seq<Byte>, segment: seq<Byte>, parse: seq<Byte> -> Option<M>, later: seq<seq<Byte>>, k: nat)
    requires k < |later|
    requires Feed(buffer, segment, parse).1.TooLarge? || Feed(buffer, segment, parse).1.Malformed?
    ensures var (b, r) := Feed(buffer, segment, parse); Run(b, later, parse).1[k] == r
    decreases |later|
  {
    var (b, r) := Feed(buffer, segment, parse);
    var (b', r') := Feed(b, later[0], parse);
    assert (b + later[0])[..4] == b[..4];
    assert r.Malformed? ==> (b + later[0])[4..4 + Announced(b)] == b[4..4 + Announced(b)];
    assert r' == r;
    if k > 0 { RefusedForGood(b, later[0], parse, later[1..], k - 1); }
  }

  // ---- any cut of the stream ----------------------------------------------------

  function Join(parts: seq<seq<Byte>>): (r: seq<Byte>)
  {
    if parts == [] then [] else parts[0] + Join(parts[1..])
  }

  function PrefixedAll(bodies: seq<seq<Byte>>): (r: seq<Byte>)
  {
    if bodies == [] then [] else Prefixed(bodies[0]) + PrefixedAll(bodies[1..])
  }

  /** The decoder's buffer and answers over a list of segments. */
  function Run<M>(buffer: seq<Byte>, segments: seq<seq<Byte>>, parse: seq<Byte> -> Option<M>)
    : (r: (seq<Byte>, seq<Received<M>>))
    ensures |r.1| == |segments|
    decreases |segments|
  {
    if segments == [] then (buffer, []) else
      var (b, first) := Feed(buffer, segments[0], parse);
      var (b', rest) := Run(b, segments[1..], parse);
      (b', [first] + rest)
  }

  /** The messages among the answers. */
  function Messages<M>(answers: seq<Received<M>>): (r: seq<M>)
  {
    if answers == [] then []
    else (if answers[0].Message? then [answers[0].message] else []) + Messages(answers[1..])
  }

  ghost predicate Parses<M>(bodies: seq<seq<Byte>>, messages: seq<M>, parse: seq<Byte> -> Option<M>)
  {
    |bodies| == |messages| && forall i :: 0 <= i < |bodies| ==> parse(bodies[i]) == Some(messages[i])
  }

  lemma {:induction false} LengthPrefix(b: seq<Byte>)
    requires Complete(b)
    ensures b == Prefixed(b[4..4 + Announced(b)]) + b[4 + Announced(b)..]
  {
    LeOfFrom(b[..4]);
    var n := Announced(b);
    assert b == b[..4] + b[4..4 + n] + b[4 + n..];
  }

  lemma {:induction false} LeOfFrom(s: seq<Byte>)
    ensures LeBytes(FromLe(s), |s|) == s
  {
    if s != [] {
      LeOfFrom(s[1..]);
      var n := FromLe(s[1..]);
      assert FromLe(s) == s[0] + 256 * n;
      LowByte(s[0], n);
      assert s == [s[0]] + s[1..];
    }
  }

  lemma {:induction false} LowByte(b: Byte, n: nat)
    ensures (b + 256 * n) % 256 == b && (b + 256 * n) / 256 == n
  {
  }

  lemma {:induction false} FeedConserves<M>(buffer: seq<Byte>, segment: seq<Byte>, parse: seq<Byte> -> Option<M>)
    returns (bodies: seq<seq<Byte>>)
    ensures var (b, r) := Feed(buffer, segment, parse);
      && buffer + segment == PrefixedAll(bodies) + b
      && Parses(bodies, if r.Message? then [r.message] else [], parse)
  {
    var b := buffer + segment;
    if Feed(buffer, segment, parse).1.Message? {
      LengthPrefix(b);
      var body := b[4..4 + Announced(b)];
      bodies := [body];
      assert PrefixedAll(bodies) == Prefixed(body) + [];
    } else {
      bodies := [];
    }
  }

  lemma {:induction false} PrefixedAllConcat(a: seq<seq<Byte>>, b: seq<seq<Byte>>)
    ensures PrefixedAll(a + b) == PrefixedAll(a) + PrefixedAll(b)
  {
    if a == [] {
      assert a + b == b;
    } else {
      assert (a + b)[1..] == a[1..] + b;
      PrefixedAllConcat(a[1..], b);
    }
  }

  /** Nothing is lost or invented, however the stream was cut and whatever errors occurred: the bytes
      fed are the length-prefixed bodies of the messages handed back, then the pending buffer. */
  lemma {:induction false} StreamIsConserved<M>(buffer: seq<Byte>, segments: seq<seq<Byte>>, parse: seq<Byte> -> Option<M>)
    returns (bodies: seq<seq<Byte>>)
    ensures var (b, answers) := Run(buffer, segments, parse);
      && buffer + Join(segments) == PrefixedAll(bodies) + b
      && Parses(bodies, Messages(answers), parse)
    decreases |segments|
  {
    hide Feed, Prefixed, PrefixedAll, Run, Messages, Join;
    if segments == [] {
      bodies := [];
      EmptyStream(buffer, parse);
    } else {
      var (b, first) := Feed(buffer, segments[0], parse);
      var front := FeedConserves(buffer, segments[0], parse);
      var rest := StreamIsConserved(b, segments[1..], parse);
      bodies := front + rest;
      PrefixedAllConcat(front, rest);
      RunHead(buffer, segments, parse);
      var (b', answers) := Run(b, segments[1..], parse);
      Regroup(buffer, segments[0], Join(segments[1..]), PrefixedAll(front), b, PrefixedAll(rest), b');
    }
  }

  lemma {:induction false} EmptyStream<M>(buffer: seq<Byte>, parse: seq<Byte> -> Option<M>)
    ensures Run(buffer, [], parse) == (buffer, []) && Messages<M>([]) == []
    ensures buffer + Join([]) == PrefixedAll([]) + buffer
  {
  }

  lemma {:induction false} Regroup(a: seq<Byte>, s: seq<Byte>, t: seq<Byte>, p: seq<Byte>, b: seq<Byte>, q: seq<Byte>, c: seq<Byte>)
    requires a + s == p + b && b + t == q + c
    ensures a + (s + t) == (p + q) + c
  {
    assert a + (s + t) == (a + s) + t == p + (b + t);
  }

  lemma {:induction false} RunHead<M>(buffer: seq<Byte>, segments: seq<seq<Byte>>, parse: seq<Byte> -> Option<M>)
    requires segments != []
    ensures var (b, first) := Feed(buffer, segments[0], parse);
      var (b', answers) := Run(b, segments[1..], parse);
      && Join(segments) == segments[0] + Join(segments[1..])
      && Run(buffer, segments, parse) == (b', [first] + answers)
      && Messages([first] + answers) == (if first.Message? then [first.message] else []) + Messages(answers)
  {
    var (b, first) := Feed(buffer, segments[0], parse);
    var (b', answers) := Run(b, segments[1..], parse);
    assert ([first] + answers)[1..] == answers;
  }

  // ---- the cut `encode` makes -----------------------------------------------------

  /** `chunks(SEGMENT_BYTES)`. */
  function Cut(plain: seq<Byte>): (r: seq<seq<Byte>>)
    ensures forall i :: 0 <= i < |r| ==> 0 < |r[i]| <= SEGMENT_BYTES
    ensures plain != [] ==> r != []
  {
    if |plain| == 0 then []
    else if |plain| <= SEGMENT_BYTES then [plain]
    else [plain[..SEGMENT_BYTES]] + Cut(plain[SEGMENT_BYTES..])
  }

  lemma {:induction false} CutJoins(plain: seq<Byte>)
    ensures Join(Cut(plain)) == plain
  {
    if |plain| > SEGMENT_BYTES {
      CutJoins(plain[SEGMENT_BYTES..]);
      assert Cut(plain)[1..] == Cut(plain[SEGMENT_BYTES..]);
      assert plain == plain[..SEGMENT_BYTES] + plain[SEGMENT_BYTES..];
    } else if |plain| > 0 {
      assert Join([plain]) == plain + [];
    }
  }

  /** All but the last answer are `Waiting`. */
  function Quiet<M>(n: nat): (r: seq<Received<M>>)
  {
    seq(n, i => Waiting)
  }

  lemma {:induction false} AnnouncedOfPrefix(body: seq<Byte>, n: nat)
    requires |body| <= MAX_MESSAGE_BYTES && 4 <= n <= 4 + |body|
    ensures Announced(Prefixed(body)[..n]) == |body|
  {
    Pow256Values();
    LeRoundTrip(|body|, 4);
    assert Prefixed(body)[..n][..4] == LeBytes(|body|, 4);
  }

  lemma {:induction false} FeedMiddle<M>(body: seq<Byte>, n: nat, segment: seq<Byte>, parse: seq<Byte> -> Option<M>)
    requires |body| <= MAX_MESSAGE_BYTES && n + |segment| < 4 + |body|
    requires Prefixed(body)[n..n + |segment|] == segment
    ensures Feed(Prefixed(body)[..n], segment, parse) == (Prefixed(body)[..n + |segment|], Waiting)
  {
    assert Prefixed(body)[..n] + segment == Prefixed(body)[..n + |segment|];
    if n + |segment| >= 4 { AnnouncedOfPrefix(body, n + |segment|); }
  }

  lemma {:induction false} FeedLast<M>(body: seq<Byte>, n: nat, m: M, parse: seq<Byte> -> Option<M>)
    requires |body| <= MAX_MESSAGE_BYTES && n <= 4 + |body| && parse(body) == Some(m)
    ensures Feed(Prefixed(body)[..n], Prefixed(body)[n..], parse) == ([], Message(m))
  {
    var p := Prefixed(body);
    assert p[..n] + p[n..] == p;
    AnnouncedOfPrefix(body, 4 + |body|);
    assert p[..4 + |body|] == p && p[4..4 + |body|] == body;
  }

  /** From any point inside a message, the rest of `encode`'s cut waits and then delivers. */
  lemma {:induction false} RestOfMessage<M>(body: seq<Byte>, n: nat, m: M, parse: seq<Byte> -> Option<M>)
    requires |body| <= MAX_MESSAGE_BYTES && n < 4 + |body| && parse(body) == Some(m)
    ensures var cut := Cut(Prefixed(body)[n..]);
      cut != [] && Run(Prefixed(body)[..n], cut, parse) == ([], Quiet(|cut| - 1) + [Message(m)])
    decreases |body| + 4 - n
  {
    hide Feed, Prefixed, Announced;
    var p := Prefixed(body);
    var rest := p[n..];
    var cut := Cut(rest);
    if |rest| <= SEGMENT_BYTES {
      FeedLast(body, n, m, parse);
      assert cut == [rest] && cut[1..] == [];
      RunEmpty([], parse);
      assert Quiet<M>(0) + [Message(m)] == [Message(m)] + [];
    } else {
      var k := n + SEGMENT_BYTES;
      assert rest[..SEGMENT_BYTES] == p[n..k] && rest[SEGMENT_BYTES..] == p[k..];
      assert cut[0] == p[n..k] && cut[1..] == Cut(p[k..]);
      FeedMiddle(body, n, p[n..k], parse);
      RestOfMessage(body, k, m, parse);
      assert [Waiting] + Quiet<M>(|cut| - 2) == Quiet<M>(|cut| - 1);
      assert [Waiting] + (Quiet<M>(|cut| - 2) + [Message(m)]) == Quiet<M>(|cut| - 1) + [Message(m)];
    }
  }

  /** The segments of a list of messages, and the answers they should draw. */
  function CutAll(bodies: seq<seq<Byte>>): (r: seq<seq<Byte>>)
  {
    if bodies == [] then [] else Cut(Prefixed(bodies[0])) + CutAll(bodies[1..])
  }

  function Prompt<M>(bodies: seq<seq<Byte>>, messages: seq<M>): (r: seq<Received<M>>)
    requires |bodies| == |messages|
  {
    if bodies == [] then []
    else Quiet(|Cut(Prefixed(bodies[0]))| - 1) + [Message(messages[0])] + Prompt(bodies[1..], messages[1..])
  }

  lemma {:induction false} RunConcat<M>(buffer: seq<Byte>, s: seq<seq<Byte>>, t: seq<seq<Byte>>, parse: seq<Byte> -> Option<M>)
    ensures var (b, front) := Run(buffer, s, parse);
      var (b', back) := Run(b, t, parse);
      Run(buffer, s + t, parse) == (b', front + back)
    decreases |s|
  {
    hide Feed;
    if s == [] {
      assert s + t == t;
      assert [] + Run(buffer, t, parse).1 == Run(buffer, t, parse).1;
    } else {
      assert (s + t)[1..] == s[1..] + t && (s + t)[0] == s[0];
      var (b, first) := Feed(buffer, s[0], parse);
      RunConcat(b, s[1..], t, parse);
      var (c, front) := Run(b, s[1..], parse);
      var (d, back) := Run(c, t, parse);
      assert [first] + front + back == [first] + (front + back);
    }
  }

  /** Any sequence of messages, cut as `encode` cuts them, comes back in order, each on its last
      segment, with nothing left in the buffer between messages. */
  lemma {:induction false} EncodedStreamComesBack<M>(bodies: seq<seq<Byte>>, messages: seq<M>, parse: seq<Byte> -> Option<M>)
    requires Parses(bodies, messages, parse)
    requires forall i :: 0 <= i < |bodies| ==> |bodies[i]| <= MAX_MESSAGE_BYTES
    ensures Run([], CutAll(bodies), parse) == ([], Prompt(bodies, messages))
  {
    hide Feed, Run, Prefixed, Cut;
    if bodies == [] {
      RunEmpty([], parse);
    } else {
      var p := Prefixed(bodies[0]);
      assert p[..0] == [] && p[0..] == p;
      RestOfMessage(bodies[0], 0, messages[0], parse);
      EncodedStreamComesBack(bodies[1..], messages[1..], parse);
      RunConcat([], Cut(p), CutAll(bodies[1..]), parse);
    }
  }

  lemma {:induction false} RunEmpty<M>(buffer: seq<Byte>, parse: seq<Byte> -> Option<M>)
    ensures Run(buffer, [], parse) == (buffer, [])
  {
  }

  // ---- through two sessions ---------------------------------------------------------

  datatype Encoding = Frames(frames: seq<Frame>) | BodyTooLarge(size: nat) | Unsealed(error: LinkError)

  /** Seal segments one by one; the first refusal drops what was sealed before it. */
  function SealAll(l: Link, segments: seq<seq<Byte>>): (r: (Link, Outcome<seq<Frame>>))
    decreases |segments|
  {
    if segments == [] then (l, Ok([])) else
      var (l', first) := Write(l, segments[0]);
      if first.Err? then (l', Err(first.error)) else
      var (l'', rest) := SealAll(l', segments[1..]);
      (l'', if rest.Err? then Err(rest.error) else Ok([first.value] + rest.value))
  }

  function Encoded(l: Link, body: seq<Byte>): (r: (Link, Encoding))
  {
    if |body| > MAX_MESSAGE_BYTES then (l, BodyTooLarge(|body|)) else
      var (l', out) := SealAll(l, Cut(Prefixed(body)));
      (l', if out.Err? then Unsealed(out.error) else Frames(out.value))
  }

  lemma {:induction false} SealSnoc(l: Link, segments: seq<seq<Byte>>, next: seq<Byte>)
    ensures var (l', done) := SealAll(l, segments);
      var (l'', last) := Write(l', next);
      SealAll(l, segments + [next]) ==
        if done.Err? then (l', done)
        else if last.Err? then (l'', Err(last.error))
        else (l'', Ok(done.value + [last.value]))
    decreases |segments|
  {
    hide Write;
    if segments == [] {
      assert segments + [next] == [next] && [next][1..] == [];
      var (l', last) := Write(l, next);
      SealNothing(l);
      SealNothing(l');
      assert last.Ok? ==> [last.value] + [] == [] + [last.value];
    } else {
      assert (segments + [next])[1..] == segments[1..] + [next];
      var (l', first) := Write(l, segments[0]);
      if first.Ok? {
        SealSnoc(l', segments[1..], next);
        var (m, done) := SealAll(l', segments[1..]);
        var (m', last) := Write(m, next);
        if done.Ok? && last.Ok? {
          assert [first.value] + (done.value + [last.value]) == [first.value] + done.value + [last.value];
        }
      }
    }
  }

  lemma {:induction false} SealFails(l: Link, segments: seq<seq<Byte>>, k: nat)
    requires k <= |segments| && SealAll(l, segments[..k]).1.Err?
    ensures SealAll(l, segments) == SealAll(l, segments[..k])
    decreases |segments|
  {
    hide Write;
    if k > 0 {
      assert segments[..k][1..] == segments[1..][..k - 1];
      var (l', first) := Write(l, segments[0]);
      if first.Ok? { SealFails(l', segments[1..], k - 1); }
    }
  }

  /** Frames of one message, in order; the session advances once per segment. */
  method Encode(session: Session, body: seq<Byte>) returns (r: Encoding)
    modifies session
    ensures (session.State(), r) == Encoded(old(session.State()), body)
    ensures r.Frames? ==> |r.frames| == |Cut(Prefixed(body))|
  {
    if |body| > MAX_MESSAGE_BYTES {
      return BodyTooLarge(|body|);
    }
    ghost var start := session.State();
    var segments := Cut(Prefixed(body));
    var frames: seq<Frame> := [];
    hide Write, Cut, Prefixed;
    for i := 0 to |segments|
      invariant |frames| == i
      invariant SealAll(start, segments[..i]) == (session.State(), Ok(frames))
    {
      assert segments[..i + 1] == segments[..i] + [segments[i]];
      SealSnoc(start, segments[..i], segments[i]);
      var sealed := session.WriteMessage(segments[i]);
      if sealed.Err? {
        SealFails(start, segments, i + 1);
        return Unsealed(sealed.error);
      }
      frames := frames + [sealed.value];
    }
    assert segments[..|segments|] == segments;
    return Frames(frames);
  }

  /** The decoder and its link over a list of frames. */
  function AcceptAll<M>(l: Link, buffer: seq<Byte>, frames: seq<Frame>, parse: seq<Byte> -> Option<M>)
    : (r: (Link, seq<Byte>, seq<Received<M>>))
    decreases |frames|
  {
    if frames == [] then (l, buffer, []) else
      var (l', plain) := Read(l, frames[0]);
      var (b, first) := match plain case Err(e) => (buffer, Refused(e)) case Ok(s) => Feed(buffer, s, parse);
      var (l'', b', rest) := AcceptAll(l', b, frames[1..], parse);
      (l'', b', [first] + rest)
  }

  /** The link alone over a list of frames. */
  function OpenAll(l: Link, frames: seq<Frame>): (r: (Link, Outcome<seq<seq<Byte>>>))
    decreases |frames|
  {
    if frames == [] then (l, Ok([])) else
      var (l', first) := Read(l, frames[0]);
      if first.Err? then (l', Err(first.error)) else
      var (l'', rest) := OpenAll(l', frames[1..]);
      (l'', if rest.Err? then rest else Ok([first.value] + rest.value))
  }

  /** A reader that mirrors the writer opens exactly the segments sealed, and mirrors it again. */
  lemma {:induction false} SealedFramesOpen(w: Link, rd: Link, segments: seq<seq<Byte>>)
    requires Mirror(rd, w) && SealAll(w, segments).1.Ok?
    ensures var (w', sealed) := SealAll(w, segments);
      var (rd', plains) := OpenAll(rd, sealed.value);
      Mirror(rd', w') && plains == Ok(segments)
    decreases |segments|
  {
    if segments != [] {
      var (w', first) := Write(w, segments[0]);
      var (rd', plain) := Read(rd, first.value);
      SealedFramesOpen(w', rd', segments[1..]);
      var sealed := SealAll(w, segments).1.value;
      assert sealed[1..] == SealAll(w', segments[1..]).1.value;
      assert segments == [segments[0]] + segments[1..];
    }
  }

  /** What a decoder makes of frames that open is what it makes of the segments in them. */
  lemma {:induction false} OpenedFramesAreFed<M>(l: Link, buffer: seq<Byte>, frames: seq<Frame>, parse: seq<Byte> -> Option<M>)
    requires OpenAll(l, frames).1.Ok?
    ensures var (l', plains) := OpenAll(l, frames);
      var (b, answers) := Run(buffer, plains.value, parse);
      AcceptAll(l, buffer, frames, parse) == (l', b, answers)
    decreases |frames|
  {
    hide Feed, Read;
    if frames != [] {
      var (l', plain) := Read(l, frames[0]);
      var (b, first) := Feed(buffer, plain.value, parse);
      var plains := OpenAll(l, frames).1.value;
      assert plains[1..] == OpenAll(l', frames[1..]).1.value;
      OpenedFramesAreFed(l', b, frames[1..], parse);
    }
  }

  lemma {:induction false} SealedSegmentsOpen<M>(w: Link, rd: Link, buffer: seq<Byte>, segments: seq<seq<Byte>>, parse: seq<Byte> -> Option<M>)
    requires Mirror(rd, w) && SealAll(w, segments).1.Ok?
    ensures var (w', out) := SealAll(w, segments);
      var (rd', b, answers) := AcceptAll(rd, buffer, out.value, parse);
      && Mirror(rd', w') && (b, answers) == Run(buffer, segments, parse)
      && (forall i :: 0 <= i < |out.value| ==> Size(out.value[i]) <= MAX_NOISE_MESSAGE)
  {
    hide SealAll, OpenAll, AcceptAll, Run, Mirror, Size;
    SealedFramesOpen(w, rd, segments);
    OpenedFramesAreFed(rd, buffer, SealAll(w, segments).1.value, parse);
    SealedFrameSizes(w, segments);
  }

  lemma {:induction false} SealedFrameSizes(w: Link, segments: seq<seq<Byte>>)
    requires SealAll(w, segments).1.Ok?
    ensures var out := SealAll(w, segments).1.value;
      forall i :: 0 <= i < |out| ==> Size(out[i]) <= MAX_NOISE_MESSAGE
    decreases |segments|
  {
    if segments != [] { SealedFrameSizes(Write(w, segments[0]).0, segments[1..]); }
  }

  lemma {:induction false} SealConcat(l: Link, s: seq<seq<Byte>>, t: seq<seq<Byte>>)
    ensures var (l', front) := SealAll(l, s);
      var (l'', back) := SealAll(l', t);
      SealAll(l, s + t) ==
        if front.Err? then (l', front)
        else if back.Err? then (l'', back)
        else (l'', Ok(front.value + back.value))
    decreases |s|
  {
    hide Write;
    if s == [] {
      assert s + t == t;
      var (_, back) := SealAll(l, t);
      assert back.Ok? ==> [] + back.value == back.value;
    } else {
      assert (s + t)[1..] == s[1..] + t && (s + t)[0] == s[0];
      var (l', first) := Write(l, s[0]);
      if first.Ok? {
        SealConcat(l', s[1..], t);
        var (m, front) := SealAll(l', s[1..]);
        var (_, back) := SealAll(m, t);
        if front.Ok? && back.Ok? {
          assert [first.value] + (front.value + back.value) == [first.value] + front.value + back.value;
        }
      }
    }
  }

  /** A list of messages encoded one after another on one link. */
  function EncodedAll(l: Link, bodies: seq<seq<Byte>>): (r: (Link, Encoding))
    decreases |bodies|
  {
    if bodies == [] then (l, Frames([])) else
      var (l', first) := Encoded(l, bodies[0]);
      if !first.Frames? then (l', first) else
      var (l'', rest) := EncodedAll(l', bodies[1..]);
      (l'', if rest.Frames? then Frames(first.frames + rest.frames) else rest)
  }

  lemma {:induction false} EncodedAllSeals(l: Link, bodies: seq<seq<Byte>>)
    requires EncodedAll(l, bodies).1.Frames?
    ensures var (l', out) := EncodedAll(l, bodies);
      && SealAll(l, CutAll(bodies)) == (l', Ok(out.frames))
      && forall i :: 0 <= i < |bodies| ==> |bodies[i]| <= MAX_MESSAGE_BYTES
    decreases |bodies|
  {
    hide SealAll, Cut, Prefixed;
    if bodies == [] {
      SealNothing(l);
    } else {
      var (l', first) := Encoded(l, bodies[0]);
      EncodedAllSeals(l', bodies[1..]);
      SealConcat(l, Cut(Prefixed(bodies[0])), CutAll(bodies[1..]));
      assert bodies == [bodies[0]] + bodies[1..];
    }
  }

  lemma {:induction false} SealNothing(l: Link)
    ensures SealAll(l, []) == (l, Ok([]))
  {
  }

  /** End to end: when a writer could encode a list of messages, a reader in agreement with it
      accepts every frame, none longer than 65,535 bytes, and hands the messages back in order, each
      on its last frame; its buffer is empty and the two ends agree again. */
  lemma {:induction false} MessagesCrossTheLink<M>(w: Link, rd: Link, bodies: seq<seq<Byte>>, messages: seq<M>, parse: seq<Byte> -> Option<M>)
    requires Mirror(rd, w) && Parses(bodies, messages, parse)
    requires EncodedAll(w, bodies).1.Frames?
    ensures var (w', out) := EncodedAll(w, bodies);
      var (rd', b, answers) := AcceptAll(rd, [], out.frames, parse);
      && Mirror(rd', w') && b == [] && answers == Prompt(bodies, messages)
      && (forall i :: 0 <= i < |out.frames| ==> Size(out.frames[i]) <= MAX_NOISE_MESSAGE)
  {
    hide SealAll, AcceptAll, CutAll, Prompt, Run, EncodedAll;
    EncodedAllSeals(w, bodies);
    SealedSegmentsOpen(w, rd, [], CutAll(bodies), parse);
    EncodedStreamComesBack(bodies, messages, parse);
  }

  // ---- when `encode` refuses, and what that costs -----------------------------------------

  /** What sealing some segments adds to the byte counter. */
  function CiphertextBytes(segments: seq<seq<Byte>>): (r: nat)
  {
    if segments == [] then 0 else |segments[0]| + TAG_LEN + CiphertextBytes(segments[1..])
  }

  /** Segments that fit a Noise message are all sealed exactly when the message count has room for them
      and the byte count is under its threshold before the last one. */
  lemma {:induction false} SealsIff(l: Link, segments: seq<seq<Byte>>)
    requires forall i :: 0 <= i < |segments| ==> |segments[i]| + TAG_LEN <= MAX_NOISE_MESSAGE
    ensures SealAll(l, segments).1.Ok? <==>
      || segments == []
      || (l.messages + |segments| <= REKEY_AFTER_MESSAGES && l.bytes + CiphertextBytes(segments[..|segments| - 1]) < REKEY_AFTER_BYTES)
    decreases |segments|
  {
    if segments != [] {
      var front := segments[..|segments| - 1];
      var l' := Write(l, segments[0]).0;
      SealsIff(l', segments[1..]);
      if |segments| > 1 {
        assert front[1..] == segments[1..][..|segments| - 2];
        assert CiphertextBytes(front) == |segments[0]| + TAG_LEN + CiphertextBytes(front[1..]);
      }
    }
  }

  /** The cut of a plaintext: how many segments, and what all but the last seal to. */
  lemma {:induction false} CutSizes(plain: seq<Byte>)
    requires plain != []
    ensures |Cut(plain)| == (|plain| + SEGMENT_BYTES - 1) / SEGMENT_BYTES
    ensures CiphertextBytes(Cut(plain)[..|Cut(plain)| - 1]) == (|Cut(plain)| - 1) * (SEGMENT_BYTES + TAG_LEN)
  {
    var cut := Cut(plain);
    if |plain| <= SEGMENT_BYTES {
      assert cut[..|cut| - 1] == [];
    } else {
      var rest := Cut(plain[SEGMENT_BYTES..]);
      CutSizes(plain[SEGMENT_BYTES..]);
      assert cut[..|cut| - 1] == [plain[..SEGMENT_BYTES]] + rest[..|rest| - 1];
      assert cut[..|cut| - 1][1..] == rest[..|rest| - 1];
    }
  }

  /** `encode` succeeds exactly when the body is within 32 MiB, the key has messages left for all its
      segments, and the bytes of all but the last segment leave it under its threshold. */
  lemma {:induction false} EncodeSucceedsIff(l: Link, body: seq<Byte>)
    ensures var n := (|body| + 4 + SEGMENT_BYTES - 1) / SEGMENT_BYTES;
      Encoded(l, body).1.Frames? <==>
        && |body| <= MAX_MESSAGE_BYTES
        && l.messages + n <= REKEY_AFTER_MESSAGES
        && l.bytes + (n - 1) * (SEGMENT_BYTES + TAG_LEN) < REKEY_AFTER_BYTES
  {
    hide SealAll, Cut, Prefixed, CiphertextBytes;
    CutSizes(Prefixed(body));
    SealsIff(l, Cut(Prefixed(body)));
  }

  lemma {:induction false} SealRefusal(w: Link, segments: seq<seq<Byte>>)
    requires forall i :: 0 <= i < |segments| ==> |segments[i]| + TAG_LEN <= MAX_NOISE_MESSAGE
    requires SealAll(w, segments).1.Err?
    ensures SealAll(w, segments).1.error == RekeyRequired
    ensures var w' := SealAll(w, segments).0;
      NeedsRekey(w') && (if NeedsRekey(w) then w' == w else w'.sendNonce > w.sendNonce)
    decreases |segments|
  {
    var (w', first) := Write(w, segments[0]);
    if first.Ok? { SealRefusal(w', segments[1..]); }
  }

  /** What the two ends may go on to do: the writer sends, the reader sends, both rekey together. Every
      frame is delivered. */
  datatype Later = Sends(plain: seq<Byte>) | Replies(plain: seq<Byte>) | BothRekey

  function AfterOne(w: Link, rd: Link, step: Later): (r: (Link, Link))
  {
    match step
    case Sends(plain) =>
      var (w', out) := Write(w, plain);
      (w', if out.Ok? then Read(rd, out.value).0 else rd)
    case Replies(plain) =>
      var (rd', out) := Write(rd, plain);
      (if out.Ok? then Read(w, out.value).0 else w, rd')
    case BothRekey => (Rekey(w), Rekey(rd))
  }

  /** The writer and the reader after some later traffic. */
  function Afterwards(w: Link, rd: Link, later: seq<Later>): (r: (Link, Link))
    decreases |later|
  {
    if later == [] then (w, rd) else
      var (w', rd') := AfterOne(w, rd, later[0]);
      Afterwards(w', rd', later[1..])
  }

  /** A writer whose nonce is ahead of its reader stays so, whatever is sent either way and however
      often both rekey. */
  lemma {:induction false} AheadForGood(w: Link, rd: Link, later: seq<Later>)
    requires w.sendNonce > rd.recvNonce
    ensures var (w', rd') := Afterwards(w, rd, later); w'.sendNonce > rd'.recvNonce
    decreases |later|
  {
    if later != [] {
      var (w', rd') := AfterOne(w, rd, later[0]);
      AheadForGood(w', rd', later[1..]);
    }
  }

  /** Segments of `encode` always fit, so the only refusal is a spent key. A message refused before its
      first segment costs nothing; one cut short leaves the writer's nonce ahead of every frame it handed
      over, and then no frame the writer ever seals again opens at its peer, whatever is sent either way
      in the meantime and however often both rekey. */
  lemma {:induction false} CutShortLosesTheLink(w: Link, rd: Link, body: seq<Byte>, later: seq<Later>, plain: seq<Byte>)
    requires Mirror(rd, w) && Encoded(w, body).1.Unsealed?
    ensures Encoded(w, body).1 == Unsealed(RekeyRequired) && NeedsRekey(Encoded(w, body).0)
    ensures NeedsRekey(w) ==> Encoded(w, body).0 == w
    ensures !NeedsRekey(w) ==>
      var (w', rd') := Afterwards(Encoded(w, body).0, rd, later);
      var out := Write(w', plain).1;
      out.Ok? ==> Read(rd', out.value).1.Err?
  {
    var w1 := Encoded(w, body).0;
    SealRefusal(w, Cut(Prefixed(body)));
    hide SealAll, Cut, Prefixed, Afterwards;
    if !NeedsRekey(w) { AheadForGood(w1, rd, later); }
  }
}
