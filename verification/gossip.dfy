/** Any number of devices that meet in any order (crates/clipsed/src/sync.rs, run between every two paired
    devices). What a device knows in the end depends only on whom it has heard from, directly or not. */
module Gossip {
  import opened Bytes
  import opened HybridClock
  import opened ContentHashes
  import opened Sorting
  import opened ClipTables
  import opened SyncSession
  import opened SessionTurns
  import opened SessionStores
  import opened Histories
  import opened Convergence
  import L = LiveRuns

  /** One session: who dials whom, and how each is configured for it. */
  datatype Meeting = Meeting(dialler: nat, responder: nat, d: Config, r: Config)

  /** Two different devices of the fleet that expect each other. */
  predicate Proper(m: Meeting, size: nat)
  {
    && m.dialler < size && m.responder < size && m.dialler != m.responder
    && m.d.role.Dialler? && m.r.role.Responder? && m.d.peer == m.r.device && m.r.peer == m.d.device
  }

  function Outcome(disks: seq<Disk>, m: Meeting): (r: Joint)
    requires Proper(m, |disks|)
  {
    SessionEnd(Start(m.d, disks[m.dialler]), Start(m.r, disks[m.responder]))
  }

  function Meet(disks: seq<Disk>, m: Meeting): (r: seq<Disk>)
    requires Proper(m, |disks|)
    ensures |r| == |disks|
  {
    var e := Outcome(disks, m);
    disks[m.dialler := e.d.disk][m.responder := e.r.disk]
  }

  predicate AllProper(meetings: seq<Meeting>, size: nat)
  {
    forall i :: 0 <= i < |meetings| ==> Proper(meetings[i], size)
  }

  function After(disks: seq<Disk>, meetings: seq<Meeting>): (r: seq<Disk>)
    requires AllProper(meetings, |disks|)
    ensures |r| == |disks|
  {
    if meetings == [] then disks else Meet(After(disks, meetings[..|meetings| - 1]), meetings[|meetings| - 1])
  }

  /** The devices whose history device `k` has heard of, at first or second hand. */
  function Heard(meetings: seq<Meeting>, k: nat): (r: set<nat>)
    ensures k in r
  {
    if meetings == [] then {k} else
      var front, m := meetings[..|meetings| - 1], meetings[|meetings| - 1];
      if k == m.dialler || k == m.responder then Heard(front, m.dialler) + Heard(front, m.responder) else Heard(front, k)
  }

  /** Stores that may meet: consistent, with ids unique to their content, one row per hash, and no more
      hashes between them than one summary carries. */
  ghost predicate Fleet(owner: L.Owner, hashes: set<ContentHash>, disks: seq<Disk>)
  {
    && |hashes| <= SUMMARY_LIMIT
    && forall k :: 0 <= k < |disks| ==>
         L.TablesOk(owner, disks[k].tables) && OneRowPerHash(disks[k].tables) && HashesOf(disks[k].tables.rows) <= hashes
  }

  lemma {:induction false} OwnersAgree(owner: L.Owner, a: Tables, b: Tables)
    requires L.TablesOk(owner, a) && L.TablesOk(owner, b)
    ensures IdsAgree(a, b)
  {
    hide ClipTables.Inv;
  }

  lemma {:induction false} CanMeet(owner: L.Owner, hashes: set<ContentHash>, disks: seq<Disk>, m: Meeting)
    requires Fleet(owner, hashes, disks) && Proper(m, |disks|)
    ensures Comparable(Start(m.d, disks[m.dialler]), Start(m.r, disks[m.responder]))
  {
    var D, R := disks[m.dialler].tables, disks[m.responder].tables;
    OwnersAgree(owner, D, R);
    assert ClipTables.Inv(D) && ClipTables.Inv(R);
    hide ClipTables.Inv, OneRowPerHash, HashesOf, IdsAgree;
    NoSurplus(D);
    NoSurplus(R);
    SubsetSize(AllHashes(D, R), hashes);
  }

  lemma {:induction false} TakingKeepsOwners(owner: L.Owner, cfg: Config, taken: Intake, clips: seq<Clip>)
    requires L.TablesOk(owner, taken.tables) && forall i :: 0 <= i < |clips| ==> L.Storable(owner, clips[i])
    ensures L.TablesOk(owner, ReceiveAll(cfg, taken, clips).tables)
    decreases |clips|
  {
    hide L.TablesOk, L.Storable, Apply, Less, BlobDigests;
    if clips != [] {
      var now := cfg.clock(taken.received + taken.rejected);
      L.ApplyStores(owner, taken.tables, clips[0], now);
      RefusalChangesNothing(taken.tables, clips[0], now);
      TakingKeepsOwners(owner, cfg, TakeIn(taken, clips[0], now), clips[1..]);
    }
  }

  lemma {:induction false} TurnKeepsOwners(owner: L.Owner, o: Endpoint, t: Endpoint)
    requires L.TablesOk(owner, o.disk.tables) && L.TablesOk(owner, t.disk.tables)
    ensures var (o', t') := TurnEnd(o, t); L.TablesOk(owner, o'.disk.tables) && L.TablesOk(owner, t'.disk.tables)
  {
    OwnersAgree(owner, o.disk.tables, t.disk.tables);
    assert ClipTables.Inv(o.disk.tables) && ClipTables.Inv(t.disk.tables);
    hide L.TablesOk, ClipTables.Inv, TurnEnd, ReceiveAll, ServedFrom, WantedFrom, IdsAgree;
    TurnTables(o, t);
    L.ServedIsStorable(owner, o.disk.tables, WantedFrom(o.disk.tables, t.disk.tables));
    ServedAsWanted(o.disk.tables, t.disk.tables);
    TakingKeepsOwners(owner, t.cfg, Fresh(t.disk.tables), ServedFrom(o.disk.tables, t.disk.tables));
  }

  lemma {:induction false} ServedAsWanted(o: Tables, t: Tables)
    ensures ServedFrom(o, t) == Serve(o, WantedFrom(o, t))
  {
  }

  lemma {:induction false} SessionKeepsOwners(owner: L.Owner, d: Endpoint, r: Endpoint)
    requires L.TablesOk(owner, d.disk.tables) && L.TablesOk(owner, r.disk.tables)
    ensures L.TablesOk(owner, SessionEnd(d, r).d.disk.tables) && L.TablesOk(owner, SessionEnd(d, r).r.disk.tables)
  {
    hide L.TablesOk, TurnEnd, Summaries, Pages;
    TurnKeepsOwners(owner, BeginOffer(d), BeginTake(r));
    var (d1, r1) := TurnEnd(BeginOffer(d), BeginTake(r));
    TurnKeepsOwners(owner, r1, d1);
  }

  /** What a meeting does to what the two say of one hash. */
  lemma {:induction false} MeetingEffect(owner: L.Owner, hashes: set<ContentHash>, disks: seq<Disk>, m: Meeting, h: ContentHash)
    requires Fleet(owner, hashes, disks) && Proper(m, |disks|)
    ensures var e, a, b := Outcome(disks, m), See(disks[m.dialler].tables, h), See(disks[m.responder].tables, h);
      See(e.d.disk.tables, h) == DiallersView(a, b) && See(e.r.disk.tables, h) == RespondersView(a, b)
  {
    assert OneRowPerHash(disks[m.dialler].tables) && OneRowPerHash(disks[m.responder].tables);
    hide Fleet, SessionEnd, Comparable, See, Held, Buries, OneRowPerHash, DiallersView, RespondersView;
    CanMeet(owner, hashes, disks, m);
    OneRowSession(Start(m.d, disks[m.dialler]), Start(m.r, disks[m.responder]));
    SessionViews(Start(m.d, disks[m.dialler]), Start(m.r, disks[m.responder]), h);
  }

  lemma {:induction false} MeetKeepsFleet(owner: L.Owner, hashes: set<ContentHash>, disks: seq<Disk>, m: Meeting)
    requires Fleet(owner, hashes, disks) && Proper(m, |disks|)
    ensures Fleet(owner, hashes, Meet(disks, m))
  {
    hide SessionEnd, Comparable, L.TablesOk, OneRowPerHash, HashesOf, Held, Room, ClipTables.Inv;
    var d, r := Start(m.d, disks[m.dialler]), Start(m.r, disks[m.responder]);
    CanMeet(owner, hashes, disks, m);
    OneRowSession(d, r);
    SessionEffect(d, r);
    SessionKeepsOwners(owner, d, r);
  }

  lemma {:induction false} EveryFleetStays(owner: L.Owner, hashes: set<ContentHash>, disks: seq<Disk>, meetings: seq<Meeting>)
    requires Fleet(owner, hashes, disks) && AllProper(meetings, |disks|)
    ensures Fleet(owner, hashes, After(disks, meetings))
  {
    hide Fleet, Meet;
    if meetings != [] {
      EveryFleetStays(owner, hashes, disks, meetings[..|meetings| - 1]);
      MeetKeepsFleet(owner, hashes, After(disks, meetings[..|meetings| - 1]), meetings[|meetings| - 1]);
    }
  }

  /** The other one of the two that meet. */
  function Other(m: Meeting, k: nat): nat { if k == m.dialler then m.responder else m.dialler }

  /** What a device says of a hash after one more meeting. */
  lemma {:induction false} LastMeeting(owner: L.Owner, hashes: set<ContentHash>, disks: seq<Disk>, meetings: seq<Meeting>, k: nat, h: ContentHash)
    requires Fleet(owner, hashes, disks) && AllProper(meetings, |disks|) && meetings != [] && k < |disks|
    ensures var before, m := After(disks, meetings[..|meetings| - 1]), meetings[|meetings| - 1];
      See(After(disks, meetings)[k].tables, h) ==
        if k == m.dialler || k == m.responder then AbsorbAny(See(before[k].tables, h), See(before[Other(m, k)].tables, h))
        else See(before[k].tables, h)
  {
    hide Fleet, See, AbsorbAny, Outcome;
    var front, m := meetings[..|meetings| - 1], meetings[|meetings| - 1];
    var before := After(disks, front);
    EveryFleetStays(owner, hashes, disks, front);
    MeetingEffect(owner, hashes, before, m, h);
    WhoDialsDoesNotMatter(See(before[m.dialler].tables, h), See(before[m.responder].tables, h));
  }

  // ---- whose word reaches whom ------------------------------------------------

  /** No peer refuses what device `k` says of the hash: it has no row of it, or a sound one. */
  predicate Passes(disks: seq<Disk>, k: nat, h: ContentHash)
    requires k < |disks|
  {
    var v := See(disks[k].tables, h);
    v.Some? ==> v.value.sound
  }

  /** The devices whose first row of the hash has reached device `k`, at first or second hand: a meeting
      brings it those of the other, if the other's row is taken over at all. */
  function Learnt(disks: seq<Disk>, meetings: seq<Meeting>, k: nat, h: ContentHash): (r: set<nat>)
    requires AllProper(meetings, |disks|) && k < |disks|
    ensures k in r && forall j :: j in r ==> j < |disks|
  {
    if meetings == [] then {k} else
      var front, m := meetings[..|meetings| - 1], meetings[|meetings| - 1];
      if (k == m.dialler || k == m.responder) && Passes(disks, Other(m, k), h)
      then Learnt(disks, front, k, h) + Learnt(disks, front, Other(m, k), h)
      else Learnt(disks, front, k, h)
  }

  /** Meetings neither mend a row nor break one: a device's word passes exactly if it did at first. */
  lemma {:induction false} PassesForGood(owner: L.Owner, hashes: set<ContentHash>, disks: seq<Disk>, meetings: seq<Meeting>, k: nat, h: ContentHash)
    requires Fleet(owner, hashes, disks) && AllProper(meetings, |disks|) && k < |disks|
    ensures Passes(After(disks, meetings), k, h) <==> Passes(disks, k, h)
  {
    hide Fleet, See, Absorb;
    if meetings != [] {
      LastMeeting(owner, hashes, disks, meetings, k, h);
      PassesForGood(owner, hashes, disks, meetings[..|meetings| - 1], k, h);
    }
  }

  /** What one more meeting brings: nothing, or the other's word where the other's passes. */
  lemma {:induction false} LastLesson(owner: L.Owner, hashes: set<ContentHash>, disks: seq<Disk>, meetings: seq<Meeting>, k: nat, h: ContentHash)
    requires Fleet(owner, hashes, disks) && AllProper(meetings, |disks|) && meetings != [] && k < |disks|
    ensures var front, m := meetings[..|meetings| - 1], meetings[|meetings| - 1];
      var before := After(disks, front);
      See(After(disks, meetings)[k].tables, h) ==
        if (k == m.dialler || k == m.responder) && Passes(disks, Other(m, k), h)
        then AbsorbAny(See(before[k].tables, h), See(before[Other(m, k)].tables, h))
        else See(before[k].tables, h)
    ensures var front, m := meetings[..|meetings| - 1], meetings[|meetings| - 1];
      (k == m.dialler || k == m.responder) && Passes(disks, Other(m, k), h) ==> Passes(After(disks, front), Other(m, k), h)
  {
    hide Fleet, See, After;
    var front, m := meetings[..|meetings| - 1], meetings[|meetings| - 1];
    LastMeeting(owner, hashes, disks, meetings, k, h);
    PassesForGood(owner, hashes, disks, front, Other(m, k), h);
  }

  /** View `v` has the stamp of the newest of the first rows of `devices`. */
  ghost predicate NewestStamp(v: Option<Sight>, disks: seq<Disk>, devices: set<nat>, h: ContentHash)
  {
    && (forall k :: k in devices ==> k < |disks|)
    && (forall k :: k in devices && See(disks[k].tables, h).Some? ==>
          v.Some? && !Less(v.value.flags.hlc, See(disks[k].tables, h).value.flags.hlc))
    && (v.Some? ==> exists k :: k in devices && See(disks[k].tables, h).Some? && See(disks[k].tables, h).value.flags.hlc == v.value.flags.hlc)
  }

  /** Absorbing what passes keeps the newer of two stamps. */
  lemma {:induction false} AbsorbsToNewer(a: Option<Sight>, b: Option<Sight>)
    requires b.Some? ==> b.value.sound
    ensures var v := AbsorbAny(a, b);
      && (v.None? <==> a.None? && b.None?)
      && (a.Some? ==> !Less(v.value.flags.hlc, a.value.flags.hlc)) && (b.Some? ==> !Less(v.value.flags.hlc, b.value.flags.hlc))
      && (v.Some? ==> (a.Some? && v.value.flags.hlc == a.value.flags.hlc) || (b.Some? && v.value.flags.hlc == b.value.flags.hlc))
  {
    hide Less;
    if a.Some? && b.Some? { StampOrderIsTotal(a.value.flags.hlc, b.value.flags.hlc); }
    if a.Some? { StampOrderIsTotal(a.value.flags.hlc, a.value.flags.hlc); }
    if b.Some? { StampOrderIsTotal(b.value.flags.hlc, b.value.flags.hlc); }
  }

  lemma {:induction false} NewestOfBoth(a: Option<Sight>, b: Option<Sight>, disks: seq<Disk>, A: set<nat>, B: set<nat>, h: ContentHash)
    requires NewestStamp(a, disks, A, h) && NewestStamp(b, disks, B, h) && (b.Some? ==> b.value.sound)
    ensures NewestStamp(AbsorbAny(a, b), disks, A + B, h)
  {
    hide Less, See, AbsorbAny;
    AbsorbsToNewer(a, b);
    var v := AbsorbAny(a, b);
    forall k | k in A + B && See(disks[k].tables, h).Some? ensures v.Some? && !Less(v.value.flags.hlc, See(disks[k].tables, h).value.flags.hlc) {
      var x := if k in A then a else b;
      NotLessTransitive(v.value.flags.hlc, x.value.flags.hlc, See(disks[k].tables, h).value.flags.hlc);
    }
  }

  lemma {:induction false} NewestAlready(disks: seq<Disk>, k: nat, h: ContentHash)
    requires k < |disks|
    ensures NewestStamp(See(disks[k].tables, h), disks, {k}, h)
  {
    hide See, Less;
    if See(disks[k].tables, h).Some? { StampOrderIsTotal(See(disks[k].tables, h).value.flags.hlc, See(disks[k].tables, h).value.flags.hlc); }
  }

  /** After any number of meetings, in any order, a device has for every hash the newest stamp among the
      devices it has learnt of that hash from, at first or second hand, and no other. */
  lemma {:induction false} NewestStampIsLearnt(owner: L.Owner, hashes: set<ContentHash>, disks: seq<Disk>, meetings: seq<Meeting>, k: nat, h: ContentHash)
    requires Fleet(owner, hashes, disks) && AllProper(meetings, |disks|) && k < |disks|
    ensures NewestStamp(See(After(disks, meetings)[k].tables, h), disks, Learnt(disks, meetings, k, h), h)
  {
    hide Fleet, See, NewestStamp, AbsorbAny;
    if meetings == [] {
      NewestAlready(disks, k, h);
    } else {
      var front, m := meetings[..|meetings| - 1], meetings[|meetings| - 1];
      LastLesson(owner, hashes, disks, meetings, k, h);
      var before := After(disks, front);
      hide After;
      NewestStampIsLearnt(owner, hashes, disks, front, k, h);
      if (k == m.dialler || k == m.responder) && Passes(disks, Other(m, k), h) {
        var j := Other(m, k);
        NewestStampIsLearnt(owner, hashes, disks, front, j, h);
        NewestOfBoth(See(before[k].tables, h), See(before[j].tables, h), disks, Learnt(disks, front, k, h), Learnt(disks, front, j, h), h);
      }
    }
  }

  // ---- the rows themselves ------------------------------------------------------

  /** No two of these devices' first rows conflict: equal stamps come with equal flags, and no tombstone
      faces a newer live clip. */
  ghost predicate Agreed(disks: seq<Disk>, devices: set<nat>, h: ContentHash)
  {
    forall i, j :: i in devices && j in devices && i < |disks| && j < |disks| ==> Unopposed(See(disks[i].tables, h), See(disks[j].tables, h))
  }

  /** View `v` has the flags of the first row of one of `devices`, and none of them had a newer one. */
  ghost predicate NewestRow(v: Option<Sight>, disks: seq<Disk>, devices: set<nat>, h: ContentHash)
  {
    && NewestStamp(v, disks, devices, h)
    && exists k :: k in devices && FlagsIn(See(disks[k].tables, h)) == FlagsIn(v)
  }

  /** Of two views that do not conflict, absorbing gives the flags of one. */
  lemma {:induction false} AbsorbsOne(a: Option<Sight>, b: Option<Sight>)
    requires Unopposed(a, b)
    ensures FlagsIn(AbsorbAny(a, b)) == FlagsIn(a) || FlagsIn(AbsorbAny(a, b)) == FlagsIn(b)
  {
    hide Less;
  }

  lemma {:induction false} NewestRowOfBoth(a: Option<Sight>, b: Option<Sight>, disks: seq<Disk>, A: set<nat>, B: set<nat>, h: ContentHash)
    requires NewestRow(a, disks, A, h) && NewestRow(b, disks, B, h) && Agreed(disks, A + B, h) && (b.Some? ==> b.value.sound)
    ensures NewestRow(AbsorbAny(a, b), disks, A + B, h)
  {
    assert NewestStamp(a, disks, A, h) && NewestStamp(b, disks, B, h);
    NewestOfBoth(a, b, disks, A, B, h);
    OneOfTheRows(a, b, disks, A, B, h);
  }

  lemma {:induction false} OneOfTheRows(a: Option<Sight>, b: Option<Sight>, disks: seq<Disk>, A: set<nat>, B: set<nat>, h: ContentHash)
    requires NewestRow(a, disks, A, h) && NewestRow(b, disks, B, h) && Agreed(disks, A + B, h)
    ensures exists k :: k in A + B && k < |disks| && FlagsIn(See(disks[k].tables, h)) == FlagsIn(AbsorbAny(a, b))
  {
    assert (forall k :: k in A ==> k < |disks|) && (forall k :: k in B ==> k < |disks|);
    hide NewestStamp, Less, See, AbsorbAny, FlagsIn;
    var i :| i in A && FlagsIn(See(disks[i].tables, h)) == FlagsIn(a);
    var j :| j in B && FlagsIn(See(disks[j].tables, h)) == FlagsIn(b);
    assert Unopposed(See(disks[i].tables, h), See(disks[j].tables, h));
    UnopposedFlags(a, b, See(disks[i].tables, h), See(disks[j].tables, h));
    AbsorbsOne(a, b);
    var k := if FlagsIn(AbsorbAny(a, b)) == FlagsIn(a) then i else j;
    assert k in A + B && FlagsIn(See(disks[k].tables, h)) == FlagsIn(AbsorbAny(a, b));
  }

  lemma {:induction false} UnopposedFlags(a: Option<Sight>, b: Option<Sight>, x: Option<Sight>, y: Option<Sight>)
    requires FlagsIn(a) == FlagsIn(x) && FlagsIn(b) == FlagsIn(y) && Unopposed(x, y)
    ensures Unopposed(a, b)
  {
    hide Less;
  }

  /** Where the rows learnt of do not conflict, a device says of the hash what the newest of them said. */
  lemma {:induction false} NewestRowIsLearnt(owner: L.Owner, hashes: set<ContentHash>, disks: seq<Disk>, meetings: seq<Meeting>, k: nat, h: ContentHash)
    requires Fleet(owner, hashes, disks) && AllProper(meetings, |disks|) && k < |disks|
    requires Agreed(disks, Learnt(disks, meetings, k, h), h)
    ensures NewestRow(See(After(disks, meetings)[k].tables, h), disks, Learnt(disks, meetings, k, h), h)
  {
    hide Fleet, See, NewestRow, AbsorbAny, Unopposed;
    if meetings == [] {
      RowAlready(disks, k, h);
    } else {
      var front, m := meetings[..|meetings| - 1], meetings[|meetings| - 1];
      LastLesson(owner, hashes, disks, meetings, k, h);
      var before := After(disks, front);
      hide After;
      NewestRowIsLearnt(owner, hashes, disks, front, k, h);
      if (k == m.dialler || k == m.responder) && Passes(disks, Other(m, k), h) {
        var j := Other(m, k);
        NewestRowIsLearnt(owner, hashes, disks, front, j, h);
        NewestRowOfBoth(See(before[k].tables, h), See(before[j].tables, h), disks, Learnt(disks, front, k, h), Learnt(disks, front, j, h), h);
      }
    }
  }

  lemma {:induction false} RowAlready(disks: seq<Disk>, k: nat, h: ContentHash)
    requires k < |disks|
    ensures NewestRow(See(disks[k].tables, h), disks, {k}, h)
  {
    hide See, NewestStamp;
    NewestAlready(disks, k, h);
    assert k in {k} && FlagsIn(See(disks[k].tables, h)) == FlagsIn(See(disks[k].tables, h));
  }

  lemma {:induction false} OneNewestStamp(x: Option<Sight>, y: Option<Sight>, disks: seq<Disk>, devices: set<nat>, h: ContentHash)
    requires NewestStamp(x, disks, devices, h) && NewestStamp(y, disks, devices, h)
    ensures SameStamp(x, y)
  {
    hide See, Less;
    if x.Some? && y.Some? { StampOrderIsTotal(x.value.flags.hlc, y.value.flags.hlc); }
  }

  lemma {:induction false} OneNewestRow(x: Option<Sight>, y: Option<Sight>, disks: seq<Disk>, devices: set<nat>, h: ContentHash)
    requires NewestRow(x, disks, devices, h) && NewestRow(y, disks, devices, h) && Agreed(disks, devices, h)
    ensures FlagsIn(x) == FlagsIn(y)
  {
    assert NewestStamp(x, disks, devices, h) && NewestStamp(y, disks, devices, h);
    OneNewestStamp(x, y, disks, devices, h);
    assert forall k :: k in devices ==> k < |disks|;
    hide See, Less, NewestStamp;
    var i :| i in devices && FlagsIn(See(disks[i].tables, h)) == FlagsIn(x);
    var j :| j in devices && FlagsIn(See(disks[j].tables, h)) == FlagsIn(y);
    assert Unopposed(See(disks[i].tables, h), See(disks[j].tables, h));
  }

  /** Two devices that have learnt of a hash from the same devices have the same stamp for it, whoever met
      whom and when; and where the first rows of those devices do not conflict they say the same of it: what
      the newest of those rows said. No device's row need be sound. */
  lemma {:induction false} SameSourcesSameHistory(owner: L.Owner, hashes: set<ContentHash>, disks: seq<Disk>, meetings: seq<Meeting>, i: nat, j: nat, h: ContentHash)
    requires Fleet(owner, hashes, disks) && AllProper(meetings, |disks|) && i < |disks| && j < |disks|
    requires Learnt(disks, meetings, i, h) == Learnt(disks, meetings, j, h)
    ensures var x, y, sources := See(After(disks, meetings)[i].tables, h), See(After(disks, meetings)[j].tables, h), Learnt(disks, meetings, i, h);
      && SameStamp(x, y)
      && (Agreed(disks, sources, h) ==> FlagsIn(x) == FlagsIn(y) && exists k :: k in sources && FlagsIn(See(disks[k].tables, h)) == FlagsIn(x))
  {
    hide Fleet, See, Agreed, After, SameStamp, NewestStamp;
    NewestStampIsLearnt(owner, hashes, disks, meetings, i, h);
    NewestStampIsLearnt(owner, hashes, disks, meetings, j, h);
    var x, y, sources := See(After(disks, meetings)[i].tables, h), See(After(disks, meetings)[j].tables, h), Learnt(disks, meetings, i, h);
    OneNewestStamp(x, y, disks, sources, h);
    if Agreed(disks, sources, h) {
      NewestRowIsLearnt(owner, hashes, disks, meetings, i, h);
      NewestRowIsLearnt(owner, hashes, disks, meetings, j, h);
      OneNewestRow(x, y, disks, sources, h);
    }
  }

  // ---- fleets of sound histories --------------------------------------------------

  /** Every device's row of this hash, where it has one, is sound. */
  ghost predicate SoundFor(disks: seq<Disk>, h: ContentHash)
  {
    forall k :: 0 <= k < |disks| ==> Passes(disks, k, h)
  }

  /** A device learns from no one it has not heard of, and where every row is sound from everyone it has. */
  lemma {:induction false} SoundFleetLearnsAll(disks: seq<Disk>, meetings: seq<Meeting>, k: nat, h: ContentHash)
    requires AllProper(meetings, |disks|) && k < |disks|
    ensures Learnt(disks, meetings, k, h) <= Heard(meetings, k)
    ensures SoundFor(disks, h) ==> Learnt(disks, meetings, k, h) == Heard(meetings, k)
  {
    hide Passes;
    if meetings != [] {
      var front, m := meetings[..|meetings| - 1], meetings[|meetings| - 1];
      SoundFleetLearnsAll(disks, front, k, h);
      if k == m.dialler || k == m.responder { SoundFleetLearnsAll(disks, front, Other(m, k), h); }
    }
  }

  /** In a fleet whose rows of the hash are sound, a device has the newest stamp of all it has heard of. */
  lemma {:induction false} NewestStampIsHeard(owner: L.Owner, hashes: set<ContentHash>, disks: seq<Disk>, meetings: seq<Meeting>, k: nat, h: ContentHash)
    requires Fleet(owner, hashes, disks) && AllProper(meetings, |disks|) && k < |disks| && SoundFor(disks, h)
    ensures NewestStamp(See(After(disks, meetings)[k].tables, h), disks, Heard(meetings, k), h)
  {
    hide Fleet, See, NewestStamp, SoundFor, After;
    SoundFleetLearnsAll(disks, meetings, k, h);
    NewestStampIsLearnt(owner, hashes, disks, meetings, k, h);
  }

  /** So in such a fleet devices that have heard of the same devices have the same stamps, and say the same
      where the rows do not conflict; a fleet in which everyone has heard of everyone has converged. */
  lemma {:induction false} SameHearsaySameHistory(owner: L.Owner, hashes: set<ContentHash>, disks: seq<Disk>, meetings: seq<Meeting>, i: nat, j: nat, h: ContentHash)
    requires Fleet(owner, hashes, disks) && AllProper(meetings, |disks|) && i < |disks| && j < |disks| && SoundFor(disks, h)
    requires Heard(meetings, i) == Heard(meetings, j)
    ensures var x, y := See(After(disks, meetings)[i].tables, h), See(After(disks, meetings)[j].tables, h);
      && SameStamp(x, y)
      && (Agreed(disks, Heard(meetings, i), h) ==>
            && FlagsIn(x) == FlagsIn(y)
            && exists k :: k in Heard(meetings, i) && k < |disks| && FlagsIn(See(disks[k].tables, h)) == FlagsIn(x))
  {
    hide Fleet, See, SoundFor, Agreed, SameStamp, After;
    SoundFleetLearnsAll(disks, meetings, i, h);
    SoundFleetLearnsAll(disks, meetings, j, h);
    SameSourcesSameHistory(owner, hashes, disks, meetings, i, j, h);
  }

  /** Hearing is not learning: a device with a clip that every peer refuses meets an empty one. Both have
      now heard of both, and their stamps differ. */
  lemma {:induction false} HeardButNotLearnt(owner: L.Owner, hashes: set<ContentHash>, disks: seq<Disk>, m: Meeting, clip: Clip)
    requires Fleet(owner, hashes, disks) && Proper(m, |disks|)
    requires HashMatches(clip) && DistinctLabels(clip.payloads) && !SortedBy(clip.payloads, LabelLe)
    requires disks[m.dialler].tables == Insert(Tables([], []), clip).0 && disks[m.responder].tables == Tables([], [])
    ensures Heard([m], m.dialler) == Heard([m], m.responder) && AllProper([m], |disks|)
    ensures !SameStamp(See(After(disks, [m])[m.dialler].tables, clip.hash), See(After(disks, [m])[m.responder].tables, clip.hash))
    ensures Learnt(disks, [m], m.responder, clip.hash) == {m.responder}
  {
    hide Fleet, See, Insert, HashMatches, LabelLe;
    var h := clip.hash;
    ReorderedClipIsUnsound(clip);
    EmptySees(h);
    assert [m][..0] == [];
    LastMeeting(owner, hashes, disks, [m], m.dialler, h);
    LastMeeting(owner, hashes, disks, [m], m.responder, h);
  }
}
