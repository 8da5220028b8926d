/** The pairing ceremony (crates/clipse-crypto/src/pairing.rs).

    BLAKE3 is symbolic: a digest is the byte string that was hashed, so the hash is injective on
    inputs; `Junk` stands for the 32-byte strings nobody obtained by hashing. What is hashed is the
    length-prefixed encoding of a list of parts. */
module Pairing {
  import opened Bytes
  import opened HybridClock
  import opened ContentHashes
  import opened Sorting
  import Candidates

  const PAIRING_PROTOCOL_VERSION: Version := 2
  const PAIRING_OFFER_TTL_SECS: nat := 180

  type Version = v: nat | v < 65536
  type Bytes32 = s: seq<Byte> | |s| == 32 witness seq(32, _ => 0)
  type Code = s: seq<Byte> | |s| == 6 witness seq(6, _ => 0)

  datatype Digest = Hashed(input: seq<Byte>) | Junk(bytes: Bytes32)

  datatype Error = PairingExpired | PairingFailed | MalformedPayload

  datatype Result<+T> = Ok(value: T) | Err(error: Error)

  /** The bytes of an ASCII label. */
  function Ascii(s: string): (r: seq<Byte>)
    ensures |r| == |s|
  {
    seq(|s|, i requires 0 <= i < |s| => s[i] as int % 256)
  }

  function CommitLabel(): seq<Byte> { Ascii("clipse-pairing-commit-v2") }
  function TagLabel(): seq<Byte> { Ascii("clipse-pairing-tag-v2") }
  function MacALabel(): seq<Byte> { Ascii("clipse-pairing-mac-initiator-v2") }
  function MacBLabel(): seq<Byte> { Ascii("clipse-pairing-mac-responder-v2") }

  lemma {:induction false} LabelsDiffer()
    ensures MacALabel() != MacBLabel()
    ensures |MacALabel()| == 31 && |MacBLabel()| == 31 && |CommitLabel()| == 24
  {
    assert MacALabel()[19] == 'i' as int && MacBLabel()[19] == 'r' as int;
  }

  function TranscriptHash(parts: seq<seq<Byte>>): (r: Digest)
  {
    Hashed(EncodeParts(parts))
  }

  // ---- messages ---------------------------------------------------------------------

  datatype CandidateAddress = LanAddress(addr: Candidates.SocketAddr) | TailnetAddress(addr: Candidates.SocketAddr)

  /** What a device says about itself besides its identity; no part of it is hashed. */
  datatype About = About(name: string, platform: string, addresses: seq<CandidateAddress>)

  datatype Identity = Identity(device: DeviceId, key: Bytes32)

  datatype Offer = Offer(version: Version, who: Identity, about: About, commitment: Digest, expiresAt: Wall)
  datatype Accept = Accept(who: Identity, about: About, nonce: Bytes32)
  datatype Confirm = Confirm(nonceA: Bytes32, mac: Digest)
  datatype Finish = Finish(mac: Digest)

  datatype PairedDevice = PairedDevice(who: Identity, about: About, pairedAt: Wall)

  /** Everything both sides hash. */
  datatype Transcript = Transcript(version: Version, initiator: Identity, responder: Identity,
                                   nonceA: Bytes32, nonceB: Bytes32, code: Code)

  function Parts(t: Transcript, role: seq<Byte>): (r: seq<seq<Byte>>)
  {
    [role, LeBytes(t.version, 2), t.initiator.device, t.initiator.key,
     t.responder.device, t.responder.key, t.nonceA, t.nonceB, t.code]
  }

  function Mac(t: Transcript, role: seq<Byte>): (r: Digest)
  {
    TranscriptHash(Parts(t, role))
  }

  lemma {:induction false} VersionInjective(a: Version, b: Version)
    requires LeBytes(a, 2) == LeBytes(b, 2)
    ensures a == b
  {
    assert Pow256(1) == 256 && Pow256(2) == 65536;
    LeRoundTrip(a, 2);
    LeRoundTrip(b, 2);
  }

  lemma {:induction false} PartsInjective(t: Transcript, u: Transcript, l: seq<Byte>, m: seq<Byte>)
    requires Parts(t, l) == Parts(u, m)
    ensures t == u && l == m
  {
    var p, q := Parts(t, l), Parts(u, m);
    assert p[0] == q[0] && p[1] == q[1] && p[2] == q[2] && p[3] == q[3] && p[4] == q[4];
    assert p[5] == q[5] && p[6] == q[6] && p[7] == q[7] && p[8] == q[8];
    hide LeBytes;
    VersionInjective(t.version, u.version);
  }

  /** Two proofs are equal only if every hashed field and the role agree. */
  lemma {:induction false} MacInjective(t: Transcript, u: Transcript, l: seq<Byte>, m: seq<Byte>)
    requires |l| < U64_LIMIT && |m| < U64_LIMIT && Mac(t, l) == Mac(u, m)
    ensures t == u && l == m
  {
    hide EncodeParts, LeBytes;
    PartsEncodingInjective(Parts(t, l), Parts(u, m));
    PartsInjective(t, u, l, m);
  }

  function Commitment(nonce: Bytes32): (r: Digest)
  {
    TranscriptHash([CommitLabel(), nonce])
  }

  /** A commitment binds its nonce. */
  lemma {:induction false} CommitmentBinds(a: Bytes32, b: Bytes32)
    requires Commitment(a) == Commitment(b)
    ensures a == b
  {
    hide EncodeParts;
    LabelsDiffer();
    var p, q := [CommitLabel(), a], [CommitLabel(), b];
    PartsEncodingInjective(p, q);
    assert p[1] == q[1];
  }

  function Tag(code: Code): (r: Digest)
  {
    TranscriptHash([TagLabel(), code])
  }

  /** A lookup tag answers for exactly one code. */
  lemma {:induction false} TagIdentifiesCode(a: Code, b: Code)
    ensures Tag(a) == Tag(b) <==> a == b
  {
    hide EncodeParts;
    if Tag(a) == Tag(b) {
      var p, q := [TagLabel(), a], [TagLabel(), b];
      PartsEncodingInjective(p, q);
      assert p[1] == q[1];
    }
  }

  // ---- the initiator --------------------------------------------------------------------

  datatype Initiator = Initiator(offer: Offer, nonceA: Bytes32, code: Code)

  datatype AwaitingProof = AwaitingProof(expected: Digest, peer: PairedDevice)

  /** `now.saturating_add(TTL)`. */
  function Expiry(now: Wall): (r: Wall)
  {
    var t := now + PAIRING_OFFER_TTL_SECS * 1000;
    if t > WALL_MAX then WALL_MAX else t
  }

  function Create(who: Identity, about: About, now: Wall, nonceA: Bytes32, code: Code): (r: Initiator)
  {
    Initiator(Offer(PAIRING_PROTOCOL_VERSION, who, about, Commitment(nonceA), Expiry(now)), nonceA, code)
  }

  function InitiatorTranscript(a: Initiator, accept: Accept): (r: Transcript)
  {
    Transcript(a.offer.version, a.offer.who, accept.who, a.nonceA, accept.nonce, a.code)
  }

  function AcceptOffer(a: Initiator, accept: Accept, now: Wall): (r: Result<(Confirm, AwaitingProof)>)
  {
    if now > a.offer.expiresAt then Err(PairingExpired) else
      var t := InitiatorTranscript(a, accept);
      Ok((Confirm(a.nonceA, Mac(t, MacALabel())),
          AwaitingProof(Mac(t, MacBLabel()), PairedDevice(accept.who, accept.about, now))))
  }

  function VerifyProof(w: AwaitingProof, finish: Finish): (r: Result<PairedDevice>)
  {
    if finish.mac != w.expected then Err(PairingFailed) else Ok(w.peer)
  }

  // ---- the responder ----------------------------------------------------------------------

  datatype Responder = Responder(offer: Offer, accept: Accept, code: Code)

  function FromOffer(offer: Offer, code: Code, who: Identity, about: About, nonceB: Bytes32, now: Wall): (r: Result<Responder>)
  {
    if offer.version != PAIRING_PROTOCOL_VERSION then Err(MalformedPayload)
    else if now > offer.expiresAt then Err(PairingExpired)
    else Ok(Responder(offer, Accept(who, about, nonceB), code))
  }

  function ResponderTranscript(b: Responder, confirm: Confirm): (r: Transcript)
  {
    Transcript(b.offer.version, b.offer.who, b.accept.who, confirm.nonceA, b.accept.nonce, b.code)
  }

  function VerifyConfirm(b: Responder, confirm: Confirm, now: Wall): (r: Result<(Finish, PairedDevice)>)
  {
    if now > b.offer.expiresAt then Err(PairingExpired)
    else if Commitment(confirm.nonceA) != b.offer.commitment then Err(PairingFailed)
    else
      var t := ResponderTranscript(b, confirm);
      if confirm.mac != Mac(t, MacALabel()) then Err(PairingFailed)
      else Ok((Finish(Mac(t, MacBLabel())), PairedDevice(b.offer.who, b.offer.about, now)))
  }

  /** A responder goes along exactly with an offer of this version that has not expired; a wrong version is
      malformed, whatever the time. */
  lemma {:induction false} OfferIsTakenIff(offer: Offer, code: Code, who: Identity, about: About, nonceB: Bytes32, now: Wall)
    ensures var r := FromOffer(offer, code, who, about, nonceB, now);
      && (r.Ok? <==> offer.version == 2 && now <= offer.expiresAt)
      && (r.Ok? ==> r.value.accept == Accept(who, about, nonceB) && r.value.offer == offer && r.value.code == code)
      && (r.Err? ==> r.error == if offer.version != 2 then MalformedPayload else PairingExpired)
  {
  }

  /** The initiator's nonce was fixed before it saw the responder's: a responder completes only with the nonce
      its offer committed to, and only in time. */
  lemma {:induction false} NonceWasFixedByOffer(b: Responder, confirm: Confirm, now: Wall, nonce: Bytes32)
    requires VerifyConfirm(b, confirm, now).Ok? && b.offer.commitment == Commitment(nonce)
    ensures confirm.nonceA == nonce && now <= b.offer.expiresAt
  {
    hide Commitment, Mac;
    CommitmentBinds(confirm.nonceA, nonce);
  }

  // ---- an untampered run -------------------------------------------------------------------

  /** Messages delivered as sent, same digits on both screens: the ceremony succeeds on both sides
      exactly when each of the three checks was made within three minutes of the start, and then each record is the
      other device's own identity and description. */
  lemma {:induction false} UntamperedRunVerifiesIffInTime(
      a: Identity, aboutA: About, b: Identity, aboutB: About, nonceA: Bytes32, nonceB: Bytes32, code: Code,
      start: Wall, offered: Wall, accepted: Wall, confirmed: Wall)
    ensures var i := Create(a, aboutA, start, nonceA, code);
      var r := FromOffer(i.offer, code, b, aboutB, nonceB, offered);
      if offered <= start + 180_000 && accepted <= start + 180_000 && confirmed <= start + 180_000 then
        r.Ok? && var c := AcceptOffer(i, r.value.accept, accepted);
        c.Ok? && var f := VerifyConfirm(r.value, c.value.0, confirmed);
        f.Ok? && f.value.1 == PairedDevice(a, aboutA, confirmed)
        && VerifyProof(c.value.1, f.value.0) == Ok(PairedDevice(b, aboutB, accepted))
      else
        r.Err? || AcceptOffer(i, r.value.accept, accepted).Err? ||
        VerifyConfirm(r.value, AcceptOffer(i, r.value.accept, accepted).value.0, confirmed).Err?
  {
    hide Mac, Commitment;
  }

  // ---- any number of ceremonies, with an attacker on the wire ---------------------------------

  /** One ceremony as an initiator lived it: what it made and what it was handed. */
  datatype InitiatorRun = InitiatorRun(made: Initiator, accept: Accept, acceptedAt: Wall, finish: Finish)

  /** One ceremony as a responder lived it. */
  datatype ResponderRun = ResponderRun(made: Responder, confirm: Confirm, confirmedAt: Wall)

  datatype World = World(initiators: seq<InitiatorRun>, responders: seq<ResponderRun>)

  function Answered(i: InitiatorRun): (r: Result<(Confirm, AwaitingProof)>)
  {
    AcceptOffer(i.made, i.accept, i.acceptedAt)
  }

  function InitiatorResult(i: InitiatorRun): (r: Result<PairedDevice>)
  {
    match Answered(i) case Err(e) => Err(e) case Ok((_, awaiting)) => VerifyProof(awaiting, i.finish)
  }

  function ResponderResult(r: ResponderRun): (res: Result<(Finish, PairedDevice)>)
  {
    VerifyConfirm(r.made, r.confirm, r.confirmedAt)
  }

  /** A proof some honest device sent: an initiator with its confirm, a responder with its finish. */
  ghost predicate Issued(w: World, mac: Digest)
  {
    || (exists i :: 0 <= i < |w.initiators| && Answered(w.initiators[i]).Ok? && Answered(w.initiators[i]).value.0.mac == mac)
    || (exists r :: 0 <= r < |w.responders| && ResponderResult(w.responders[r]).Ok? && ResponderResult(w.responders[r]).value.0.mac == mac)
  }

  /** The attacker reads, drops, reorders, replays and rewrites every message between any number of
      ceremonies, but a proof that verifies is one that an honest device computed: without the digits
      it cannot make one of its own. */
  ghost predicate NoForgery(w: World)
  {
    && (forall i :: 0 <= i < |w.initiators| && InitiatorResult(w.initiators[i]).Ok? ==> Issued(w, w.initiators[i].finish.mac))
    && (forall r :: 0 <= r < |w.responders| && ResponderResult(w.responders[r]).Ok? ==> Issued(w, w.responders[r].confirm.mac))
  }

  // ---- why it cannot be forged -----------------------------------------------------------------

  /** What the attacker can put in place of a proof: a digest some honest device published, any string that
      is no digest, or the hash of an input it made up itself; `own` says which inputs it has hashed. */
  ghost predicate Obtainable(w: World, own: seq<Byte> -> bool, mac: Digest)
  {
    || mac.Junk? || Issued(w, mac) || Published(w, mac)
    || own(mac.input)
  }

  /** The other digests honest devices show: commitments and lookup tags. */
  ghost predicate Published(w: World, mac: Digest)
  {
    || (exists i :: 0 <= i < |w.initiators| && (mac == Commitment(w.initiators[i].made.nonceA) || mac == Tag(w.initiators[i].made.code)))
    || (exists r :: 0 <= r < |w.responders| && mac == Tag(w.responders[r].made.code))
  }

  /** The input ends in these digits, as the encoding of a last part. */
  predicate EndsIn(input: seq<Byte>, code: Code)
  {
    |input| >= 14 && input[|input| - 14..] == LeBytes(6, 8) + code
  }

  /** The attacker has hashed nothing that ends in the digits of any of these ceremonies. */
  ghost predicate LacksDigits(w: World, own: seq<Byte> -> bool)
  {
    && (forall i, x :: 0 <= i < |w.initiators| && own(x) ==> !EndsIn(x, w.initiators[i].made.code))
    && (forall r, x :: 0 <= r < |w.responders| && own(x) ==> !EndsIn(x, w.responders[r].made.code))
  }

  /** Every proof handed to an honest device is one the attacker could obtain. */
  ghost predicate FromTheWire(w: World, own: seq<Byte> -> bool)
  {
    && (forall i :: 0 <= i < |w.initiators| ==> Obtainable(w, own, w.initiators[i].finish.mac))
    && (forall r :: 0 <= r < |w.responders| ==> Obtainable(w, own, w.responders[r].confirm.mac))
  }

  lemma {:induction false} LastPartLast(parts: seq<seq<Byte>>, last: seq<Byte>)
    ensures exists front :: EncodeParts(parts + [last]) == front + (LeBytes(|last|, 8) + last)
  {
    hide LeBytes;
    var tail := LeBytes(|last|, 8) + last;
    if parts == [] {
      assert parts + [last] == [last] && [last][1..] == [];
      assert EncodeParts([last]) == tail + EncodeParts([]);
      assert EncodeParts([last]) == [] + tail;
    } else {
      assert (parts + [last])[1..] == parts[1..] + [last];
      LastPartLast(parts[1..], last);
      var front :| EncodeParts(parts[1..] + [last]) == front + tail;
      var head := LeBytes(|parts[0]|, 8) + parts[0];
      assert EncodeParts(parts + [last]) == head + (front + tail) == (head + front) + tail;
    }
  }

  /** A proof is the hash of an input that ends in the digits. */
  lemma {:induction false} ProofEndsInDigits(t: Transcript, role: seq<Byte>)
    ensures EndsIn(Mac(t, role).input, t.code)
  {
    var parts := Parts(t, role);
    LeLength(6, 8);
    hide LeBytes, EncodeParts;
    assert parts == parts[..8] + [t.code];
    LastPartLast(parts[..8], t.code);
    var front :| EncodeParts(parts) == front + (LeBytes(6, 8) + t.code);
  }

  lemma {:induction false} LeLength(n: nat, width: nat)
    ensures |LeBytes(n, width)| == width
  {
  }

  /** No proof is a commitment or a tag. */
  lemma {:induction false} ProofIsNothingElse(t: Transcript, role: seq<Byte>, nonce: Bytes32, code: Code)
    requires |role| < U64_LIMIT
    ensures Mac(t, role) != Commitment(nonce) && Mac(t, role) != Tag(code)
  {
    hide EncodeParts, LeBytes;
    LabelsDiffer();
    if Mac(t, role) == Commitment(nonce) { PartsEncodingInjective(Parts(t, role), [CommitLabel(), nonce]); assert false; }
    if Mac(t, role) == Tag(code) { PartsEncodingInjective(Parts(t, role), [TagLabel(), code]); assert false; }
  }

  lemma {:induction false} ObtainedProofWasIssued(w: World, own: seq<Byte> -> bool, t: Transcript, role: seq<Byte>)
    requires Obtainable(w, own, Mac(t, role)) && |role| < U64_LIMIT
    requires forall x :: own(x) ==> !EndsIn(x, t.code)
    ensures Issued(w, Mac(t, role))
  {
    var mac := Mac(t, role);
    assert mac.Hashed?;
    ProofEndsInDigits(t, role);
    hide Mac, EndsIn, Issued, Commitment, Tag;
    if Published(w, mac) {
      if i :| 0 <= i < |w.initiators| && (mac == Commitment(w.initiators[i].made.nonceA) || mac == Tag(w.initiators[i].made.code)) {
        ProofIsNothingElse(t, role, w.initiators[i].made.nonceA, w.initiators[i].made.code);
        assert false;
      } else {
        var r :| 0 <= r < |w.responders| && mac == Tag(w.responders[r].made.code);
        ProofIsNothingElse(t, role, t.nonceA, w.responders[r].made.code);
        assert false;
      }
    }
  }

  /** Without the digits there is no forging: whatever the attacker hashes and however it reuses what it has
      seen, a proof that verifies was computed by an honest device. */
  lemma {:induction false} WithoutDigitsNoForgery(w: World, own: seq<Byte> -> bool)
    requires FromTheWire(w, own) && LacksDigits(w, own)
    ensures NoForgery(w)
  {
    hide Issued, Obtainable, Mac, EndsIn;
    LabelsDiffer();
    forall i | 0 <= i < |w.initiators| && InitiatorResult(w.initiators[i]).Ok? ensures Issued(w, w.initiators[i].finish.mac) {
      InitiatorProofs(w.initiators[i]);
      ObtainedProofWasIssued(w, own, TranscriptA(w.initiators[i]), MacBLabel());
    }
    forall r | 0 <= r < |w.responders| && ResponderResult(w.responders[r]).Ok? ensures Issued(w, w.responders[r].confirm.mac) {
      ResponderProofs(w.responders[r]);
      ObtainedProofWasIssued(w, own, TranscriptB(w.responders[r]), MacALabel());
    }
  }

  function TranscriptA(i: InitiatorRun): Transcript { InitiatorTranscript(i.made, i.accept) }
  function TranscriptB(r: ResponderRun): Transcript { ResponderTranscript(r.made, r.confirm) }

  lemma {:induction false} NoReflection(t: Transcript, u: Transcript)
    ensures Mac(t, MacALabel()) != Mac(u, MacBLabel())
    ensures Mac(t, MacALabel()) == Mac(u, MacALabel()) ==> t == u
    ensures Mac(t, MacBLabel()) == Mac(u, MacBLabel()) ==> t == u
  {
    hide Mac, MacALabel, MacBLabel;
    LabelsDiffer();
    if Mac(t, MacALabel()) == Mac(u, MacBLabel()) { MacInjective(t, u, MacALabel(), MacBLabel()); assert false; }
    if Mac(t, MacALabel()) == Mac(u, MacALabel()) { MacInjective(t, u, MacALabel(), MacALabel()); }
    if Mac(t, MacBLabel()) == Mac(u, MacBLabel()) { MacInjective(t, u, MacBLabel(), MacBLabel()); }
  }

  /** The two agree on version, identities, nonces and code, and each one's record, where it has one,
      is the other's own identity. */
  ghost predicate Agree(i: InitiatorRun, r: ResponderRun)
  {
    && Answered(i).Ok? && ResponderResult(r).Ok?
    && TranscriptA(i) == TranscriptB(r)
    && ResponderResult(r).value.1.who == i.made.offer.who
    && (InitiatorResult(i).Ok? ==> InitiatorResult(i).value.who == r.made.accept.who)
  }

  lemma {:induction false} SameTranscriptAgrees(i: InitiatorRun, r: ResponderRun)
    requires Answered(i).Ok? && ResponderResult(r).Ok? && TranscriptA(i) == TranscriptB(r)
    ensures Agree(i, r)
  {
    hide Mac, MacALabel, MacBLabel, Commitment;
  }

  lemma {:induction false} InitiatorProofs(i: InitiatorRun)
    ensures Answered(i).Ok? ==> Answered(i).value.0.mac == Mac(TranscriptA(i), MacALabel())
    ensures InitiatorResult(i).Ok? ==> Answered(i).Ok? && i.finish.mac == Mac(TranscriptA(i), MacBLabel())
  {
    hide Mac, MacALabel, MacBLabel;
  }

  lemma {:induction false} ResponderProofs(r: ResponderRun)
    requires ResponderResult(r).Ok?
    ensures ResponderResult(r).value.0.mac == Mac(TranscriptB(r), MacBLabel())
    ensures r.confirm.mac == Mac(TranscriptB(r), MacALabel())
  {
    hide Mac, MacALabel, MacBLabel, Commitment;
  }

  /** Whenever an initiator pairs, some responder completed the very same ceremony. */
  lemma {:induction false} InitiatorAgreement(w: World, i: nat) returns (r: nat)
    requires NoForgery(w) && i < |w.initiators| && InitiatorResult(w.initiators[i]).Ok?
    ensures r < |w.responders| && Agree(w.initiators[i], w.responders[r])
  {
    hide Mac, MacALabel, MacBLabel, Answered, InitiatorResult, ResponderResult, TranscriptA, TranscriptB, Agree;
    var run := w.initiators[i];
    assert Issued(w, run.finish.mac);
    forall k | 0 <= k < |w.initiators| && Answered(w.initiators[k]).Ok?
      ensures Answered(w.initiators[k]).value.0.mac != run.finish.mac
    {
      InitiatorProofs(w.initiators[k]);
      InitiatorProofs(run);
      NoReflection(TranscriptA(w.initiators[k]), TranscriptA(run));
    }
    r :| 0 <= r < |w.responders| && ResponderResult(w.responders[r]).Ok?
         && ResponderResult(w.responders[r]).value.0.mac == run.finish.mac;
    InitiatorProofs(run);
    ResponderProofs(w.responders[r]);
    NoReflection(TranscriptA(run), TranscriptB(w.responders[r]));
    SameTranscriptAgrees(run, w.responders[r]);
  }

  /** Whenever a responder pairs, some initiator answered the very same ceremony. */
  lemma {:induction false} ResponderAgreement(w: World, r: nat) returns (i: nat)
    requires NoForgery(w) && r < |w.responders| && ResponderResult(w.responders[r]).Ok?
    ensures i < |w.initiators| && Agree(w.initiators[i], w.responders[r])
  {
    hide Mac, MacALabel, MacBLabel, Answered, InitiatorResult, ResponderResult, TranscriptA, TranscriptB, Agree;
    var run := w.responders[r];
    assert Issued(w, run.confirm.mac);
    forall k | 0 <= k < |w.responders| && ResponderResult(w.responders[k]).Ok?
      ensures ResponderResult(w.responders[k]).value.0.mac != run.confirm.mac
    {
      ResponderProofs(w.responders[k]);
      ResponderProofs(run);
      NoReflection(TranscriptB(run), TranscriptB(w.responders[k]));
    }
    i :| 0 <= i < |w.initiators| && Answered(w.initiators[i]).Ok? && Answered(w.initiators[i]).value.0.mac == run.confirm.mac;
    InitiatorProofs(w.initiators[i]);
    ResponderProofs(run);
    NoReflection(TranscriptB(run), TranscriptA(w.initiators[i]));
    SameTranscriptAgrees(w.initiators[i], run);
  }

  /** With fresh nonces the matching is one to one: two initiators that agree with the same responder
      are the same run, and two responders that agree with the same initiator are. */
  lemma {:induction false} AgreementIsInjective(w: World, i: nat, i': nat, r: nat, r': nat)
    requires i < |w.initiators| && i' < |w.initiators| && r < |w.responders| && r' < |w.responders|
    requires forall x, y :: 0 <= x < y < |w.initiators| ==> w.initiators[x].made.nonceA != w.initiators[y].made.nonceA
    requires forall x, y :: 0 <= x < y < |w.responders| ==> w.responders[x].made.accept.nonce != w.responders[y].made.accept.nonce
    requires Agree(w.initiators[i], w.responders[r]) && Agree(w.initiators[i'], w.responders[r'])
    ensures i == i' <==> r == r'
  {
    hide Answered, ResponderResult, InitiatorResult;
  }

  /** Two devices, one exchange: when both verify, either proof is the other's own exactly when they hold
      the same version, identities, nonces and code; with different digits neither proof is. */
  lemma {:induction false} BothVerifyMeansSameTranscript(i: InitiatorRun, r: ResponderRun)
    requires InitiatorResult(i).Ok? && ResponderResult(r).Ok?
    ensures i.finish.mac == ResponderResult(r).value.0.mac <==> TranscriptA(i) == TranscriptB(r)
    ensures r.confirm.mac == Answered(i).value.0.mac <==> TranscriptA(i) == TranscriptB(r)
    ensures TranscriptA(i) == TranscriptB(r) ==> i.made.code == r.made.code && Agree(i, r)
    ensures i.made.code != r.made.code ==> i.finish.mac != ResponderResult(r).value.0.mac && r.confirm.mac != Answered(i).value.0.mac
  {
    hide Mac, MacALabel, MacBLabel, Commitment;
    NoReflection(TranscriptA(i), TranscriptB(r));
  }

  // ---- typing the code ---------------------------------------------------------------------

  /** `char::is_whitespace`, `-` and `_`. */
  predicate IsSeparator(ch: char)
  {
    var c := ch as int;
    || 0x09 <= c <= 0x0d || c == 0x20 || c == 0x85 || c == 0xa0 || c == 0x1680 || 0x2000 <= c <= 0x200a
    || c == 0x2028 || c == 0x2029 || c == 0x202f || c == 0x205f || c == 0x3000
    || ch == '-' || ch == '_'
  }

  function Significant(ch: char): bool { !IsSeparator(ch) }

  predicate IsDigit(ch: char) { '0' <= ch <= '9' }

  /** Six digits once the separators are gone. */
  predicate SixDigits(text: string)
  {
    var rest := Filter(text, Significant);
    |rest| == 6 && forall k :: 0 <= k < 6 ==> IsDigit(rest[k])
  }

  function Digits(text: string): (r: seq<Byte>)
    requires AllDigits(text)
    ensures |r| == |text|
  {
    seq(|text|, k requires 0 <= k < |text| => (text[k] as int - '0' as int) % 256)
  }

  /** One more character of the text; and what has been read so far is a prefix of all of it. */
  lemma {:induction false} StripOneMore(text: string, i: nat)
    requires i < |text|
    ensures var before, after, all := Filter(text[..i], Significant), Filter(text[..i + 1], Significant), Filter(text, Significant);
      && after == before + (if IsSeparator(text[i]) then [] else [text[i]])
      && |after| <= |all| && all[..|after|] == after
  {
    assert text[..i + 1] == text[..i] + [text[i]] && text == text[..i + 1] + text[i + 1..];
    FilterConcat(text[..i], [text[i]], Significant);
    FilterConcat(text[..i + 1], text[i + 1..], Significant);
    FilterHead(text[i], [], Significant);
    assert [text[i]] + [] == [text[i]];
  }

  predicate AllDigits(text: string)
  {
    forall k :: 0 <= k < |text| ==> IsDigit(text[k])
  }

  method ParseCode(text: string) returns (r: Result<seq<Byte>>)
    ensures r.Ok? <==> SixDigits(text)
    ensures r.Ok? ==> |r.value| == 6 && r.value == Digits(Filter(text, Significant))
    ensures r.Err? ==> r.error == MalformedPayload
  {
    hide Filter, IsSeparator;
    ghost var all := Filter(text, Significant);
    ghost var read: string := [];
    var digits: seq<Byte> := [];
    assert text[..0] == [] && Filter<char>([], Significant) == [];
    for i := 0 to |text|
      invariant read == Filter(text[..i], Significant) && AllDigits(read) && |read| <= |all| && all[..|read|] == read
      invariant |digits| == |read| <= 6 && forall k :: 0 <= k < |read| ==> digits[k] == read[k] as int - '0' as int
    {
      StripOneMore(text, i);
      if IsSeparator(text[i]) {
        continue;
      }
      read := read + [text[i]];
      assert all[..|read|][|read| - 1] == text[i];
      if !IsDigit(text[i]) {
        return Err(MalformedPayload);
      }
      if |digits| == 6 {
        return Err(MalformedPayload);
      }
      digits := digits + [text[i] as int - '0' as int];
    }
    assert text[..|text|] == text;
    if |digits| != 6 {
      return Err(MalformedPayload);
    }
    return Ok(digits);
  }

  /** `Display`: two groups of three. */
  function Shown(code: Code): (r: string)
    requires forall k :: 0 <= k < 6 ==> code[k] < 10
  {
    [Glyph(code[0]), Glyph(code[1]), Glyph(code[2]), ' ', Glyph(code[3]), Glyph(code[4]), Glyph(code[5])]
  }

  function Glyph(d: nat): (r: char)
    requires d < 10
    ensures IsDigit(r) && r as int - '0' as int == d
  {
    ('0' as int + d) as char
  }

  /** Typing what the other screen shows gives the code back. */
  lemma {:induction false} ShownCodeParses(code: Code)
    requires forall k :: 0 <= k < 6 ==> code[k] < 10
    ensures SixDigits(Shown(code)) && Digits(Filter(Shown(code), Significant)) == code
  {
    hide Filter, Glyph, IsSeparator;
    var left, right := [Glyph(code[0]), Glyph(code[1]), Glyph(code[2])], [Glyph(code[3]), Glyph(code[4]), Glyph(code[5])];
    GroupedText(left, right);
    assert Shown(code) == left + [' '] + right;
    assert Digits(left + right) == code;
  }

  lemma {:induction false} GroupedText(left: string, right: string)
    requires AllDigits(left) && AllDigits(right)
    ensures Filter(left + [' '] + right, Significant) == left + right
  {
    hide Filter;
    FilterConcat(left + [' '], right, Significant);
    FilterConcat(left, [' '], Significant);
    FilterAll(left, Significant);
    FilterAll(right, Significant);
    FilterNone([' '], Significant);
  }
}
