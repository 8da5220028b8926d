/** A sync session on its encrypted link (crates/clipsed/src/sync.rs over crates/clipse-crypto/src/session.rs).

    Control messages and blobs travel on separate streams but are sealed by one session, whose nonces
    and counters allow no other order of opening than that of sealing. A sync session keeps to it: both
    sides process the same messages in the same order, across streams. This is what that means for the
    link. */
module SessionOnLink {
  import opened Bytes
  import opened ContentHashes
  import opened ClipTables
  import opened SyncSession
  import opened SessionTurns
  import opened SessionStores
  import opened SessionRuns
  import opened LiveRuns
  import opened LiveStory
  import L = NoiseLink
  import F = Framing

  /** How a message is cut into the plaintexts that are sealed. */
  type Cutting = Msg -> seq<seq<Byte>>

  /** The link of the side whose log is `log`, after `k` of its events. What it sent it sealed; what it
      received the other side, whose log is `other`, had sealed at the same point of its own log. */
  ghost function LinkAt(initiator: bool, log: seq<Event>, other: seq<Event>, cut: Cutting, k: nat): (r: L.Link)
    requires k <= |log| && SameStory(log, other)
    decreases k
  {
    if k == 0 then L.Established(initiator) else
      var l := LinkAt(initiator, log, other, cut, k - 1);
      if log[k - 1].sent then F.SealAll(l, cut(log[k - 1].msg)).0 else
        var sealed := F.SealAll(LinkAt(!initiator, other, log, cut, k - 1), cut(log[k - 1].msg)).1;
        if sealed.Ok? then F.OpenAll(l, sealed.value).0 else l
  }

  /** Each of the first `n` messages this side sent could be sealed when it was sent. */
  ghost predicate Sealable(initiator: bool, log: seq<Event>, other: seq<Event>, cut: Cutting, n: nat)
    requires SameStory(log, other)
  {
    forall k: nat :: k < n && k < |log| && log[k].sent ==> F.SealAll(LinkAt(initiator, log, other, cut, k), cut(log[k].msg)).1.Ok?
  }

  /** So it is for what either side sent. */
  ghost predicate BothSealable(a: bool, log: seq<Event>, other: seq<Event>, cut: Cutting, n: nat)
    requires SameStory(log, other)
  {
    Sealable(a, log, other, cut, n) && Sealable(!a, other, log, cut, n)
  }

  /** At every point both sides have reached, their links agree: keys and nonces crossed over, counters equal. */
  lemma {:induction false} LinksAgree(a: bool, log: seq<Event>, other: seq<Event>, cut: Cutting, k: nat)
    requires SameStory(log, other) && k <= |log| && k <= |other|
    requires BothSealable(a, log, other, cut, k)
    ensures L.Mirror(LinkAt(a, log, other, cut, k), LinkAt(!a, other, log, cut, k))
    decreases k
  {
    hide F.SealAll, F.OpenAll;
    if k > 0 {
      LinksAgree(a, log, other, cut, k - 1);
      var l, m := LinkAt(a, log, other, cut, k - 1), LinkAt(!a, other, log, cut, k - 1);
      var segments := cut(log[k - 1].msg);
      if log[k - 1].sent {
        F.SealedFramesOpen(l, m, segments);
      } else {
        F.SealedFramesOpen(m, l, segments);
      }
    }
  }

  /** Whatever the interleaving and whatever changes in the stores, when a side reads its next message its
      link is at the very counters the other side's was at before sealing it; so if everything so far could
      be sealed, every frame of it opens, to what was sealed, and none is refused for want of a rekey. */
  lemma {:induction false} ConversationStaysInStep(owner: Owner, n: Net, actions: seq<Action>, cut: Cutting, s: bool)
    requires Begins(owner, n) && Lawful(n, actions) && AllAdmissible(owner, actions)
    requires var mine, theirs := LogOf(n, actions, s), LogOf(n, actions, !s);
      |mine| < |theirs| && (SameStory(mine, theirs) ==> BothSealable(s, mine, theirs, cut, |mine| + 1))
    ensures var mine, theirs := LogOf(n, actions, s), LogOf(n, actions, !s);
      var k := |mine|;
      && SameStory(mine, theirs)
      && (var reader, writer := LinkAt(s, mine, theirs, cut, k), LinkAt(!s, theirs, mine, cut, k);
          var segments := cut(theirs[k].msg);
          && theirs[k].sent
          && reader.messages == writer.messages && reader.bytes == writer.bytes
          && F.SealAll(writer, segments).1.Ok?
          && F.OpenAll(reader, F.SealAll(writer, segments).1.value).1 == L.Ok(segments))
  {
    hide F.SealAll, F.OpenAll, LogOf, Lawful, Begins, AllAdmissible;
    OneConversation(owner, n, actions);
    var mine, theirs := LogOf(n, actions, s), LogOf(n, actions, !s);
    LinksAgree(s, mine, theirs, cut, |mine|);
    F.SealedFramesOpen(LinkAt(!s, theirs, mine, cut, |mine|), LinkAt(s, mine, theirs, cut, |mine|), cut(theirs[|mine|].msg));
  }

  // ---- exactly when a session outgrows its key ----------------------------------------------

  /** The plaintexts of the first `k` messages of a log. */
  function Segments(log: seq<Event>, cut: Cutting, k: nat): (r: seq<seq<Byte>>)
    requires k <= |log|
  {
    if k == 0 then [] else Segments(log, cut, k - 1) + cut(log[k - 1].msg)
  }

  /** No more pieces than one key may seal, and all but the last of them under its byte threshold. */
  predicate Fits(segments: seq<seq<Byte>>)
  {
    || segments == []
    || (|segments| <= 10_000 && F.CiphertextBytes(segments[..|segments| - 1]) < 64 * 1024 * 1024)
  }

  /** Each piece fits one Noise message, as those of `encode` do. */
  ghost predicate Capped(cut: Cutting)
  {
    forall m: Msg, i :: 0 <= i < |cut(m)| ==> |cut(m)[i]| + L.TAG_LEN <= L.MAX_NOISE_MESSAGE
  }

  lemma {:induction false} CiphertextConcat(a: seq<seq<Byte>>, b: seq<seq<Byte>>)
    ensures F.CiphertextBytes(a + b) == F.CiphertextBytes(a) + F.CiphertextBytes(b)
  {
    if a == [] {
      assert a + b == b;
    } else {
      assert (a + b)[1..] == a[1..] + b;
      CiphertextConcat(a[1..], b);
    }
  }

  lemma {:induction false} SealExactly(l: L.Link, segments: seq<seq<Byte>>)
    requires F.SealAll(l, segments).1.Ok?
    ensures var l' := F.SealAll(l, segments).0;
      l'.messages == l.messages + |segments| && l'.bytes == l.bytes + F.CiphertextBytes(segments)
    decreases |segments|
  {
    if segments != [] { SealExactly(L.Write(l, segments[0]).0, segments[1..]); }
  }

  lemma {:induction false} OneMessageCounted(a: bool, log: seq<Event>, other: seq<Event>, cut: Cutting, k: nat)
    requires SameStory(log, other) && k < |log| && BothSealable(a, log, other, cut, k + 1)
    ensures var l, l', segments := LinkAt(a, log, other, cut, k), LinkAt(a, log, other, cut, k + 1), cut(log[k].msg);
      l'.messages == l.messages + |segments| && l'.bytes == l.bytes + F.CiphertextBytes(segments)
  {
    hide F.SealAll, F.OpenAll, F.CiphertextBytes;
    var l, segments := LinkAt(a, log, other, cut, k), cut(log[k].msg);
    if log[k].sent {
      SealExactly(l, segments);
    } else {
      assert k < |other| && other[k].sent && other[k].msg == log[k].msg;
      LinksAgree(a, log, other, cut, k);
      var m := LinkAt(!a, other, log, cut, k);
      SealExactly(m, segments);
      F.SealedFramesOpen(m, l, segments);
    }
  }

  /** A link has counted exactly what its side's log carries, sent and received. */
  lemma {:induction false} CountersAreLoad(a: bool, log: seq<Event>, other: seq<Event>, cut: Cutting, k: nat)
    requires SameStory(log, other) && k <= |log| && BothSealable(a, log, other, cut, k)
    ensures var l, sent := LinkAt(a, log, other, cut, k), Segments(log, cut, k);
      l.messages == |sent| && l.bytes == F.CiphertextBytes(sent)
    decreases k
  {
    if k > 0 {
      hide F.SealAll, F.OpenAll, F.CiphertextBytes, LinkAt;
      CountersAreLoad(a, log, other, cut, k - 1);
      OneMessageCounted(a, log, other, cut, k - 1);
      CiphertextConcat(Segments(log, cut, k - 1), cut(log[k - 1].msg));
    }
  }

  lemma {:induction false} FitsSoFar(a: seq<seq<Byte>>, b: seq<seq<Byte>>)
    requires Fits(a + b)
    ensures Fits(a)
  {
    if a != [] {
      var front, whole := a[..|a| - 1], (a + b)[..|a + b| - 1];
      assert whole == front + whole[|a| - 1..];
      CiphertextConcat(front, whole[|a| - 1..]);
    }
  }

  lemma {:induction false} FitsOneMore(a: seq<seq<Byte>>, b: seq<seq<Byte>>)
    requires b != []
    ensures Fits(a + b) <==>
      |a| + |b| <= L.REKEY_AFTER_MESSAGES && F.CiphertextBytes(a) + F.CiphertextBytes(b[..|b| - 1]) < L.REKEY_AFTER_BYTES
  {
    assert (a + b)[..|a + b| - 1] == a + b[..|b| - 1];
    CiphertextConcat(a, b[..|b| - 1]);
  }

  /** Whoever sends message `k`, its link has counted the first `k`. */
  lemma {:induction false} NextIsSealedIff(a: bool, log: seq<Event>, other: seq<Event>, cut: Cutting, k: nat)
    requires SameStory(log, other) && k < |log| && Capped(cut)
    requires BothSealable(a, log, other, cut, k) && Fits(Segments(log, cut, k))
    ensures BothSealable(a, log, other, cut, k + 1) <==> Fits(Segments(log, cut, k + 1))
  {
    hide F.SealAll, LinkAt, Fits;
    var sent, next := Segments(log, cut, k), cut(log[k].msg);
    CountersAreLoad(a, log, other, cut, k);
    if !log[k].sent { LinksAgree(a, log, other, cut, k); }
    var l := if log[k].sent then LinkAt(a, log, other, cut, k) else LinkAt(!a, other, log, cut, k);
    assert log[k].sent && k < |other| ==> !other[k].sent;
    F.SealsIff(l, next);
    assert BothSealable(a, log, other, cut, k + 1) <==> F.SealAll(l, next).1.Ok?;
    if next == [] {
      assert Segments(log, cut, k + 1) == sent;
    } else {
      FitsOneMore(sent, next);
    }
  }

  lemma {:induction false} SealableIffFits(a: bool, log: seq<Event>, other: seq<Event>, cut: Cutting, k: nat)
    requires SameStory(log, other) && k <= |log| && Capped(cut)
    ensures BothSealable(a, log, other, cut, k) <==> Fits(Segments(log, cut, k))
    decreases k
  {
    hide F.SealAll, LinkAt, Fits;
    if k == 0 {
      assert Fits(Segments(log, cut, 0)) by { NothingFits(); }
    } else {
      SealableIffFits(a, log, other, cut, k - 1);
      if BothSealable(a, log, other, cut, k - 1) {
        NextIsSealedIff(a, log, other, cut, k - 1);
      } else {
        if Fits(Segments(log, cut, k)) { FitsSoFar(Segments(log, cut, k - 1), cut(log[k - 1].msg)); }
      }
    }
  }

  lemma {:induction false} NothingFits()
    ensures Fits([])
  {
  }

  /** The exact bound. On every run, everything either side has sent could be sealed if and only if the
      pieces of the whole conversation so far fit one key: at most 10,000 of them, and all but the last
      under 64 MiB of ciphertext. */
  lemma {:induction false} SessionIsSealedIff(owner: Owner, n: Net, actions: seq<Action>, cut: Cutting, s: bool)
    requires Begins(owner, n) && Lawful(n, actions) && AllAdmissible(owner, actions)
    requires Capped(cut) && |LogOf(n, actions, !s)| <= |LogOf(n, actions, s)|
    ensures var mine, theirs := LogOf(n, actions, s), LogOf(n, actions, !s);
      && SameStory(mine, theirs)
      && (BothSealable(s, mine, theirs, cut, |mine|) <==> Fits(Segments(mine, cut, |mine|)))
  {
    hide LogOf, Lawful, Begins, AllAdmissible, BothSealable, Fits, Capped;
    OneConversation(owner, n, actions);
    SealableIffFits(s, LogOf(n, actions, s), LogOf(n, actions, !s), cut, |LogOf(n, actions, s)|);
  }

  /** So a session whose traffic fits one key runs over its encrypted link as if there were none: nothing
      is refused and every message read is the message sealed. */
  lemma {:induction false} LightSessionNeverRefused(owner: Owner, n: Net, actions: seq<Action>, cut: Cutting, s: bool)
    requires Begins(owner, n) && Lawful(n, actions) && AllAdmissible(owner, actions)
    requires Capped(cut) && |LogOf(n, actions, s)| < |LogOf(n, actions, !s)|
    requires Fits(Segments(LogOf(n, actions, !s), cut, |LogOf(n, actions, !s)|))
    ensures var mine, theirs := LogOf(n, actions, s), LogOf(n, actions, !s);
      && SameStory(mine, theirs)
      && (var reader, writer := LinkAt(s, mine, theirs, cut, |mine|), LinkAt(!s, theirs, mine, cut, |mine|);
          var segments := cut(theirs[|mine|].msg);
          && F.SealAll(writer, segments).1.Ok?
          && F.OpenAll(reader, F.SealAll(writer, segments).1.value).1 == L.Ok(segments))
  {
    hide F.SealAll, F.OpenAll, LogOf, Lawful, Begins, AllAdmissible, Fits, Capped, LinkAt;
    OneConversation(owner, n, actions);
    SessionIsSealedIff(owner, n, actions, cut, !s);
    ConversationStaysInStep(owner, n, actions, cut, s);
  }
}
