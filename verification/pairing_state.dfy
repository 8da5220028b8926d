/** The daemon's one pairing slot (crates/clipsed/src/pairing.rs): offering, proving, or answering, one
    ceremony at a time. The clock reading, the nonce and the digits of each call are parameters. */
module PairingSlot {
  import opened Bytes
  import opened HybridClock
  import opened Pairing

  const MAX_LOOKUP_ATTEMPTS: nat := 8

  datatype SlotError = NotInProgress | AlreadyInProgress | OfferExpired | CeremonyFailed

  datatype State =
    | Idle
    | Offering(initiator: Initiator, expiresAt: Wall, wrongLookups: nat)
    | Proving(awaiting: AwaitingProof)
    | Answering

  /** One call on the slot. `Answer` reads the clock twice. */
  datatype Call =
    | Begin(who: Identity, about: About, now: Wall, nonceA: Bytes32, code: Code)
    | BeginAnswering
    | Lookup(tag: Digest, now: Wall)
    | Answer(accept: Accept, now: Wall, later: Wall)
    | Conclude(finish: Finish)
    | Cancel
    | ExpireIfStale(now: Wall)

  datatype Reply =
    | Digits(code: Code, expiresAt: Wall)
    | Claimed
    | Offered(offer: Offer)
    | Refused
    | Confirmed(confirm: Confirm)
    | Paired(device: PairedDevice)
    | Done
    | Expired(stale: bool)
    | Failure(error: SlotError)

  predicate Stale(s: State, now: Wall)
  {
    s.Offering? && now > s.expiresAt
  }

  /** A lookup whose tag is not the one on screen, at an offer still open. */
  predicate WrongGuess(s: State, call: Call)
  {
    call.Lookup? && s.Offering? && !Stale(s, call.now) && call.tag != Tag(s.initiator.code)
  }

  function Step(s: State, call: Call): (r: (State, Reply))
  {
    match call
    case Begin(who, about, now, nonceA, code) =>
      if !s.Idle? then (s, Failure(AlreadyInProgress)) else
        var i := Create(who, about, now, nonceA, code);
        (Offering(i, i.offer.expiresAt, 0), Digits(code, i.offer.expiresAt))
    case BeginAnswering =>
      if !s.Idle? then (s, Failure(AlreadyInProgress)) else (Answering, Claimed)
    case Lookup(tag, now) =>
      if Stale(s, now) then (Idle, Refused)
      else if !s.Offering? then (s, Refused)
      else if tag == Tag(s.initiator.code) then (s, Offered(s.initiator.offer))
      else if s.wrongLookups + 1 >= MAX_LOOKUP_ATTEMPTS then (Idle, Refused)
      else (s.(wrongLookups := s.wrongLookups + 1), Refused)
    case Answer(accept, now, later) =>
      if !s.Offering? then (Idle, Failure(NotInProgress))
      else if now > s.expiresAt then (Idle, Failure(OfferExpired))
      else (match AcceptOffer(s.initiator, accept, later)
            case Err(_) => (Idle, Failure(CeremonyFailed))
            case Ok((confirm, awaiting)) => (Proving(awaiting), Confirmed(confirm)))
    case Conclude(finish) =>
      if !s.Proving? then (Idle, Failure(NotInProgress))
      else (match VerifyProof(s.awaiting, finish)
            case Err(_) => (Idle, Failure(CeremonyFailed))
            case Ok(device) => (Idle, Paired(device)))
    case Cancel => (Idle, Done)
    case ExpireIfStale(now) => if Stale(s, now) then (Idle, Expired(true)) else (s, Expired(false))
  }

  class PairingState {
    var state: State

    constructor ()
      ensures state == Idle
    {
      state := Idle;
    }

    method BeginOffer(who: Identity, about: About, now: Wall, nonceA: Bytes32, code: Code) returns (r: Reply)
      modifies this
      ensures (state, r) == Step(old(state), Begin(who, about, now, nonceA, code))
    {
      if !state.Idle? {
        return Failure(AlreadyInProgress);
      }
      var initiator := Create(who, about, now, nonceA, code);
      state := Offering(initiator, initiator.offer.expiresAt, 0);
      return Digits(initiator.code, initiator.offer.expiresAt);
    }

    method ClaimForAnswering() returns (r: Reply)
      modifies this
      ensures (state, r) == Step(old(state), BeginAnswering)
    {
      if !state.Idle? {
        return Failure(AlreadyInProgress);
      }
      state := Answering;
      return Claimed;
    }

    method LookUp(tag: Digest, now: Wall) returns (r: Reply)
      modifies this
      ensures (state, r) == Step(old(state), Lookup(tag, now))
    {
      var _ := DropIfStale(now);
      if !state.Offering? {
        return Refused;
      }
      if tag == Tag(state.initiator.code) {
        return Offered(state.initiator.offer);
      }
      state := state.(wrongLookups := state.wrongLookups + 1);
      if state.wrongLookups >= MAX_LOOKUP_ATTEMPTS {
        state := Idle;
      }
      return Refused;
    }

    /** The state is taken first: every refusal leaves the slot idle. */
    method AnswerAccept(accept: Accept, now: Wall, later: Wall) returns (r: Reply)
      modifies this
      ensures (state, r) == Step(old(state), Answer(accept, now, later))
    {
      var taken := state;
      state := Idle;
      if !taken.Offering? {
        return Failure(NotInProgress);
      }
      if now > taken.expiresAt {
        return Failure(OfferExpired);
      }
      var answered := AcceptOffer(taken.initiator, accept, later);
      if answered.Err? {
        return Failure(CeremonyFailed);
      }
      state := Proving(answered.value.1);
      return Confirmed(answered.value.0);
    }

    method FinishCeremony(finish: Finish) returns (r: Reply)
      modifies this
      ensures (state, r) == Step(old(state), Conclude(finish))
    {
      var taken := state;
      state := Idle;
      if !taken.Proving? {
        return Failure(NotInProgress);
      }
      var verified := VerifyProof(taken.awaiting, finish);
      if verified.Err? {
        return Failure(CeremonyFailed);
      }
      return Paired(verified.value);
    }

    method CancelOffer()
      modifies this
      ensures state == Step(old(state), Cancel).0
    {
      state := Idle;
    }

    method DropIfStale(now: Wall) returns (stale: bool)
      modifies this
      ensures (state, Expired(stale)) == Step(old(state), ExpireIfStale(now))
    {
      if state.Offering? && now > state.expiresAt {
        state := Idle;
        return true;
      }
      return false;
    }
  }

  // ---- every run ---------------------------------------------------------------------

  /** The slot before call `n` of a run. */
  function At(calls: seq<Call>, n: nat): (r: State)
    requires n <= |calls|
  {
    if n == 0 then Idle else Step(At(calls, n - 1), calls[n - 1]).0
  }

  function ReplyTo(calls: seq<Call>, n: nat): (r: Reply)
    requires n < |calls|
  {
    Step(At(calls, n), calls[n]).1
  }

  /** Accepting or finishing out of order leaves the slot idle, and idle it stays until the next begin. */
  lemma {:induction false} OutOfOrderLeavesIdle(calls: seq<Call>, n: nat)
    requires n < |calls|
    ensures calls[n].Answer? && !At(calls, n).Offering? ==> At(calls, n + 1) == Idle && ReplyTo(calls, n) == Failure(NotInProgress)
    ensures calls[n].Conclude? && !At(calls, n).Proving? ==> At(calls, n + 1) == Idle && ReplyTo(calls, n) == Failure(NotInProgress)
    ensures At(calls, n).Idle? && !calls[n].Begin? && !calls[n].BeginAnswering? ==> At(calls, n + 1).Idle?
  {
  }

  /** Wrong tags refused by the offer most recently put up, over the first `n` calls. */
  function WrongGuesses(calls: seq<Call>, n: nat): (r: nat)
    requires n <= |calls|
  {
    if n == 0 then 0
    else if ReplyTo(calls, n - 1).Digits? then 0
    else WrongGuesses(calls, n - 1) + if WrongGuess(At(calls, n - 1), calls[n - 1]) then 1 else 0
  }

  /** No offer ever refuses more than eight wrong tags, and the eighth takes it down. */
  lemma {:induction false} AtMostEightGuesses(calls: seq<Call>, n: nat)
    requires n <= |calls|
    ensures WrongGuesses(calls, n) <= MAX_LOOKUP_ATTEMPTS
    ensures At(calls, n).Offering? ==> At(calls, n).wrongLookups == WrongGuesses(calls, n) < MAX_LOOKUP_ATTEMPTS
  {
    if n > 0 { AtMostEightGuesses(calls, n - 1); }
  }

  predicate Shows(s: State, i: Initiator)
  {
    s.Offering? && s.initiator == i && s.expiresAt == i.offer.expiresAt
  }

  /** The offer open before call `n` is the one begun at `j`. */
  ghost predicate OfferSince(calls: seq<Call>, j: nat, n: nat)
    requires n <= |calls|
  {
    && j < n && calls[j].Begin? && At(calls, j).Idle?
    && (var c := calls[j];
        var i := Create(c.who, c.about, c.now, c.nonceA, c.code);
        forall m :: j < m <= n ==> Shows(At(calls, m), i))
  }

  lemma {:induction false} OfferHasItsBegin(calls: seq<Call>, n: nat) returns (j: nat)
    requires n <= |calls| && At(calls, n).Offering?
    ensures OfferSince(calls, j, n)
  {
    hide Create;
    if At(calls, n - 1).Offering? {
      j := OfferHasItsBegin(calls, n - 1);
    } else {
      j := n - 1;
    }
  }

  /** The proof awaited before call `n` was stored by the answer at `k` to the offer begun at `j`. */
  ghost predicate ProofSince(calls: seq<Call>, j: nat, k: nat, n: nat)
    requires n <= |calls|
  {
    && j < k < n && OfferSince(calls, j, k) && calls[k].Answer?
    && (var answered := AcceptOffer(At(calls, k).initiator, calls[k].accept, calls[k].later);
        answered.Ok? && forall m :: k < m <= n ==> At(calls, m) == Proving(answered.value.1))
  }

  lemma {:induction false} ProofHasItsOffer(calls: seq<Call>, n: nat) returns (j: nat, k: nat)
    requires n <= |calls| && At(calls, n).Proving?
    ensures ProofSince(calls, j, k, n)
  {
    hide Create, AcceptOffer, OfferSince;
    if At(calls, n - 1).Proving? {
      j, k := ProofHasItsOffer(calls, n - 1);
    } else {
      k := n - 1;
      j := OfferHasItsBegin(calls, k);
      OfferIsEarlier(calls, j, k);
    }
  }

  lemma {:induction false} OfferIsEarlier(calls: seq<Call>, j: nat, n: nat)
    requires n <= |calls| && OfferSince(calls, j, n)
    ensures j < n
  {
  }

  /** A device is paired only by the proof its own offer stored: call `n` pairs the sender of the accept
      answered at `k`, under the offer begun at `j`, in time, and with the responder's proof over that
      very transcript; the slot was busy with nothing else in between. */
  lemma {:induction false} PairingTracesToItsOffer(calls: seq<Call>, n: nat) returns (j: nat, k: nat)
    requires n < |calls| && ReplyTo(calls, n).Paired?
    ensures ProofSince(calls, j, k, n) && calls[n].Conclude?
    ensures var i := At(calls, k).initiator;
      && calls[n].finish.mac == Mac(InitiatorTranscript(i, calls[k].accept), MacBLabel())
      && ReplyTo(calls, n).device == PairedDevice(calls[k].accept.who, calls[k].accept.about, calls[k].later)
      && calls[k].now <= i.offer.expiresAt && calls[k].later <= i.offer.expiresAt
  {
    hide Create, Mac;
    j, k := ProofHasItsOffer(calls, n);
    assert At(calls, n) == Proving(AcceptOffer(At(calls, k).initiator, calls[k].accept, calls[k].later).value.1);
    assert At(calls, k + 1).Proving?;
  }

  /** Each begin pairs at most one device: of two pairings, the later one's offer was begun after the
      earlier pairing was over. */
  lemma {:induction false} OneDevicePerBegin(calls: seq<Call>, n: nat, n': nat, j: nat, k: nat, j': nat, k': nat)
    requires n < n' < |calls| && ReplyTo(calls, n).Paired? && ReplyTo(calls, n').Paired?
    requires ProofSince(calls, j, k, n) && ProofSince(calls, j', k', n')
    ensures j < n < j'
  {
    hide Create, AcceptOffer;
    assert At(calls, n + 1) == Idle;
  }

  // ---- what a caller may rely on ------------------------------------------------------

  /** Three minutes after its begin, or the end of time. */
  predicate InTime(begin: Call, now: Wall)
    requires begin.Begin?
  {
    now <= begin.now + 180_000
  }

  lemma {:induction false} DeadlineIs(begin: Call, now: Wall)
    requires begin.Begin?
    ensures now <= Expiry(begin.now) <==> InTime(begin, now)
  {
  }

  lemma {:induction false} OpenOffer(calls: seq<Call>, j: nat, n: nat)
    requires n <= |calls| && OfferSince(calls, j, n)
    ensures calls[j].Begin? && Shows(At(calls, n), Create(calls[j].who, calls[j].about, calls[j].now, calls[j].nonceA, calls[j].code))
  {
    hide Create;
  }

  /** From idle, a begin puts up an offer and gives the digits to show; from any other state it is refused. */
  lemma {:induction false} BeginPutsUpOffer(calls: seq<Call>, n: nat)
    requires n < |calls| && calls[n].Begin?
    ensures At(calls, n).Idle? ==> OfferSince(calls, n, n + 1) && ReplyTo(calls, n).Digits? && ReplyTo(calls, n).code == calls[n].code
    ensures At(calls, n).Idle? ==> forall now: Wall :: now <= ReplyTo(calls, n).expiresAt <==> InTime(calls[n], now)
    ensures !At(calls, n).Idle? ==> ReplyTo(calls, n) == Failure(AlreadyInProgress) && At(calls, n + 1) == At(calls, n)
  {
    assert At(calls, n + 1) == Step(At(calls, n), calls[n]).0;
    hide Commitment, At;
  }

  /** The right digits, in time, get the offer they belong to, and change nothing. */
  lemma {:induction false} RightTagGetsTheOffer(calls: seq<Call>, j: nat, n: nat)
    requires n < |calls| && OfferSince(calls, j, n)
    requires calls[n].Lookup? && calls[n].tag == Tag(calls[j].code) && InTime(calls[j], calls[n].now)
    ensures var c := calls[j];
      ReplyTo(calls, n) == Offered(Offer(2, c.who, c.about, Commitment(c.nonceA), Create(c.who, c.about, c.now, c.nonceA, c.code).offer.expiresAt))
    ensures At(calls, n + 1) == At(calls, n)
  {
    OpenOffer(calls, j, n);
    DeadlineIs(calls[j], calls[n].now);
    hide Tag, Commitment;
  }

  /** And nothing else does: an offer is given out only to a lookup with the digits of the begin that put it
      up, in time; every other lookup is refused. */
  lemma {:induction false} OfferedOnlyToTheRightTag(calls: seq<Call>, n: nat) returns (j: nat)
    requires n < |calls| && calls[n].Lookup? && ReplyTo(calls, n) != Refused
    ensures OfferSince(calls, j, n) && ReplyTo(calls, n).Offered?
    ensures calls[n].tag == Tag(calls[j].code) && InTime(calls[j], calls[n].now)
  {
    j := OfferHasItsBegin(calls, n);
    OpenOffer(calls, j, n);
    DeadlineIs(calls[j], calls[n].now);
    hide Tag, Commitment;
  }

  /** What a call does to an open offer begun at `j`. It stays through begins, claims, checks in time, the
      right tag, and wrong tags as long as they are fewer than eight; it goes, and the slot is idle, with a
      cancel, a finish, a late check, a late lookup or an eighth wrong tag; an accept turns it into a proof
      to wait for, if it is in time by both readings of the clock. */
  lemma {:induction false} OfferStaysIff(calls: seq<Call>, j: nat, n: nat)
    requires n < |calls| && OfferSince(calls, j, n)
    ensures var c, s := calls[n], At(calls, n + 1);
      var stays := match c
        case Begin(_, _, _, _, _) => true
        case BeginAnswering => true
        case Lookup(tag, now) => InTime(calls[j], now) && (tag == Tag(calls[j].code) || WrongGuesses(calls, n) < 7)
        case ExpireIfStale(now) => InTime(calls[j], now)
        case _ => false;
      && (stays <==> OfferSince(calls, j, n + 1))
      && (!stays ==> s.Idle? || (c.Answer? && s.Proving?))
      && (c.Answer? ==> (s.Proving? <==> InTime(calls[j], c.now) && InTime(calls[j], c.later)))
      && (c.ExpireIfStale? ==> ReplyTo(calls, n) == Expired(!stays))
      && (c.BeginAnswering? ==> ReplyTo(calls, n) == Failure(AlreadyInProgress))
  {
    OpenOffer(calls, j, n);
    AtMostEightGuesses(calls, n);
    if calls[n].Lookup? || calls[n].Answer? || calls[n].ExpireIfStale? { DeadlineIs(calls[j], calls[n].now); }
    if calls[n].Answer? { DeadlineIs(calls[j], calls[n].later); }
    assert At(calls, n + 1) == Step(At(calls, n), calls[n]).0;
    hide Tag, Commitment, Mac, Expiry, Create, WrongGuesses;
    assert OfferSince(calls, j, n + 1) <==> Shows(At(calls, n + 1), Create(calls[j].who, calls[j].about, calls[j].now, calls[j].nonceA, calls[j].code));
  }

  /** A proof waited for, or a claim, stays through everything but an accept, a finish and a cancel. */
  lemma {:induction false} ClaimStaysIff(calls: seq<Call>, n: nat)
    requires n < |calls| && (At(calls, n).Proving? || At(calls, n).Answering?)
    ensures var c := calls[n];
      if c.Answer? || c.Conclude? || c.Cancel? then At(calls, n + 1).Idle? else At(calls, n + 1) == At(calls, n)
    ensures calls[n].BeginAnswering? ==> ReplyTo(calls, n) == Failure(AlreadyInProgress)
    ensures calls[n].Lookup? ==> ReplyTo(calls, n) == Refused
  {
  }

  /** A claim is granted exactly from idle. */
  lemma {:induction false} ClaimFromIdle(calls: seq<Call>, n: nat)
    requires n < |calls| && calls[n].BeginAnswering?
    ensures ReplyTo(calls, n) == Claimed <==> At(calls, n).Idle?
    ensures At(calls, n).Idle? ==> At(calls, n + 1) == Answering
  {
  }

  /** The ceremony as it should go: from idle, a begin, a lookup with its digits, an accept and the finish its
      confirm draws from the other device, all in time, pair the sender of the accept and leave the slot
      idle; and the other device has paired this one. */
  lemma {:induction false} UntamperedCeremonyPairs(calls: seq<Call>, n: nat, who: Identity, about: About, nonceB: Bytes32, seen: Wall, confirmed: Wall)
    requires n + 4 <= |calls| && At(calls, n).Idle?
    requires var begin := calls[n];
      && begin.Begin? && InTime(begin, seen) && InTime(begin, confirmed)
      && calls[n + 1].Lookup? && calls[n + 1].tag == Tag(begin.code) && InTime(begin, calls[n + 1].now)
      && calls[n + 2].Answer? && calls[n + 2].accept == Accept(who, about, nonceB)
      && InTime(begin, calls[n + 2].now) && InTime(begin, calls[n + 2].later)
    requires ReplyTo(calls, n + 1).Offered? && ReplyTo(calls, n + 2).Confirmed? ==>
      && calls[n + 3].Conclude?
      && (var b := FromOffer(ReplyTo(calls, n + 1).offer, calls[n].code, who, about, nonceB, seen);
          b.Ok? ==>
            var f := VerifyConfirm(b.value, ReplyTo(calls, n + 2).confirm, confirmed);
            f.Ok? ==> calls[n + 3].finish == f.value.0)
    ensures ReplyTo(calls, n + 1).Offered? && ReplyTo(calls, n + 2).Confirmed?
    ensures ReplyTo(calls, n + 3) == Paired(PairedDevice(who, about, calls[n + 2].later)) && At(calls, n + 4).Idle?
    ensures var b := FromOffer(ReplyTo(calls, n + 1).offer, calls[n].code, who, about, nonceB, seen);
      b.Ok? && VerifyConfirm(b.value, ReplyTo(calls, n + 2).confirm, confirmed).Ok?
      && VerifyConfirm(b.value, ReplyTo(calls, n + 2).confirm, confirmed).value.1 == PairedDevice(calls[n].who, calls[n].about, confirmed)
  {
    var begin, accept := calls[n], calls[n + 2];
    var i := Create(begin.who, begin.about, begin.now, begin.nonceA, begin.code);
    DeadlineIs(begin, calls[n + 1].now);
    DeadlineIs(begin, accept.now);
    DeadlineIs(begin, accept.later);
    DeadlineIs(begin, seen);
    DeadlineIs(begin, confirmed);
    UntamperedRunVerifiesIffInTime(begin.who, begin.about, who, about, begin.nonceA, nonceB, begin.code, begin.now, seen, accept.later, confirmed);
    hide Tag, Commitment, Mac, Expiry;
    assert At(calls, n + 1) == Offering(i, i.offer.expiresAt, 0);
    assert At(calls, n + 2) == At(calls, n + 1) && ReplyTo(calls, n + 1) == Offered(i.offer);
    assert At(calls, n + 3) == Step(At(calls, n + 2), accept).0;
  }
}
