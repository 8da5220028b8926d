/** The echo guard: recently received hashes, bounded by age and by number
    (crates/clipse-sync/src/loop_guard.rs). The clock is a parameter of each call. */
module LoopGuards {
  import opened Bytes
  import opened HybridClock
  import opened ContentHashes
  import opened Sorting

  const MAX_ENTRIES: nat := 4096
  const KEPT: nat := MAX_ENTRIES / 2

  datatype Entry = Entry(origin: DeviceId, at: Wall)

  datatype Verdict = Send | SuppressOrigin | SuppressEcho

  type Memory = map<ContentHash, Entry>

  /** `now.saturating_sub(at) <= window`. */
  predicate InWindow(now: nat, window: nat, e: Entry)
  {
    (if now < e.at then 0 else now - e.at) <= window
  }

  /** The entries still inside the window. */
  function Recent(m: Memory, now: nat, window: nat): (r: Memory)
  {
    map h | h in m && InWindow(now, window, m[h]) :: m[h]
  }

  function Judge(m: Memory, now: nat, window: nat, hash: ContentHash, peer: DeviceId): (r: Verdict)
  {
    if hash !in m || !InWindow(now, window, m[hash]) then Send
    else if m[hash].origin == peer then SuppressOrigin
    else SuppressEcho
  }

  ghost predicate SubMap(a: Memory, b: Memory)
  {
    forall h :: h in a ==> h in b && a[h] == b[h]
  }

  /** What pruning may do. Which of several equally old entries go is up to the map's own order. */
  ghost predicate Pruned(before: Memory, after: Memory, now: nat, window: nat)
  {
    var recent := Recent(before, now, window);
    if |recent| < MAX_ENTRIES then after == recent
    else && SubMap(after, recent) && |after| == KEPT
         && forall dropped, kept :: dropped in recent && dropped !in after && kept in after ==>
              recent[dropped].at <= after[kept].at
  }

  ghost predicate Recorded(before: Memory, after: Memory, r: Record, window: nat)
  {
    exists pruned :: Pruned(before, pruned, r.at, window) && after == pruned[r.hash := Entry(r.origin, r.at)]
  }

  /** One call of `record_received`, with the clock reading it used. */
  datatype Record = Record(hash: ContentHash, origin: DeviceId, at: Wall)

  type Aged = (ContentHash, Wall)

  function NewestFirst(a: Aged, b: Aged): bool { a.1 >= b.1 }

  ghost predicate Lists(ages: seq<Aged>, m: Memory)
  {
    && Distinct(ages)
    && (forall k :: 0 <= k < |ages| ==> ages[k].0 in m && m[ages[k].0].at == ages[k].1)
    && (forall h :: h in m ==> (h, m[h].at) in ages)
  }

  class LoopGuard {
    const windowMs: nat
    var seen: Memory

    constructor (windowMs: nat)
      ensures this.windowMs == windowMs && seen == map[]
    {
      this.windowMs := windowMs;
      seen := map[];
    }

    method RecordReceived(hash: ContentHash, origin: DeviceId, now: Wall)
      modifies this
      ensures Recorded(old(seen), seen, Record(hash, origin, now), windowMs)
    {
      Prune(now);
      seen := seen[hash := Entry(origin, now)];
    }

    method JudgePeer(hash: ContentHash, peer: DeviceId, now: Wall) returns (v: Verdict)
      ensures v == Judge(seen, now, windowMs, hash, peer)
    {
      if hash !in seen {
        return Send;
      }
      var entry := seen[hash];
      if !InWindow(now, windowMs, entry) {
        return Send;
      }
      return if entry.origin == peer then SuppressOrigin else SuppressEcho;
    }

    method Prune(now: Wall)
      modifies this
      ensures Pruned(old(seen), seen, now, windowMs)
    {
      seen := Recent(seen, now, windowMs);
      if |seen| >= MAX_ENTRIES {
        var ages := ByAge(seen);
        var ordered := Sort(ages, NewestFirst);
        var keep := KeysOf(ordered[..KEPT]);
        NewestHalf(seen, ages);
        seen := map h | h in seen && h in keep :: seen[h];
      }
    }
  }

  /** The entries of a map in some order. */
  method ByAge(m: Memory) returns (ages: seq<Aged>)
    ensures |ages| == |m| && Lists(ages, m)
  {
    ages := [];
    var left := m.Keys;
    while left != {}
      invariant left <= m.Keys
      invariant |ages| + |left| == |m|
      invariant Distinct(ages)
      invariant forall k :: 0 <= k < |ages| ==> ages[k].0 in m && m[ages[k].0].at == ages[k].1 && ages[k].0 !in left
      invariant forall h :: h in m && h !in left ==> (h, m[h].at) in ages
      decreases |left|
    {
      var h :| h in left;
      ages := ages + [(h, m[h].at)];
      left := left - {h};
    }
  }

  lemma {:induction false} SortedListing(m: Memory, ages: seq<Aged>)
    requires Lists(ages, m)
    ensures var ordered := Sort(ages, NewestFirst);
      && Lists(ordered, m) && SortedBy(ordered, NewestFirst)
      && forall i, j :: 0 <= i < j < |ordered| ==> ordered[i].0 != ordered[j].0
  {
    hide Sort;
    var ordered := Sort(ages, NewestFirst);
    SortSorts(ages, NewestFirst);
    SortPermutes(ages, NewestFirst);
    DistinctFromMultiset(ages, ordered);
    forall k | 0 <= k < |ordered| ensures ordered[k] in ages { SortMembers(ages, NewestFirst, ordered[k]); }
    forall h | h in m ensures (h, m[h].at) in ordered { SortMembers(ages, NewestFirst, (h, m[h].at)); }
  }

  lemma {:induction false} NewestHalf(m: Memory, ages: seq<Aged>)
    requires Lists(ages, m) && |ages| == |m| >= MAX_ENTRIES
    ensures var keep := KeysOf(Sort(ages, NewestFirst)[..KEPT]);
      var after := map h | h in m && h in keep :: m[h];
      && |after| == KEPT
      && forall dropped, kept :: dropped in m && dropped !in after && kept in after ==>
           m[dropped].at <= after[kept].at
  {
    hide Sort;
    SortedListing(m, ages);
    var ordered := Sort(ages, NewestFirst);
    var keep := KeysOf(ordered[..KEPT]);
    KeyCount(ordered[..KEPT]);
    var after := map h | h in m && h in keep :: m[h];
    assert after.Keys == keep;
    forall dropped, kept | dropped in m && dropped !in after && kept in after
      ensures m[dropped].at <= after[kept].at
    {
      NewestFirstOut(m, ordered, KEPT, dropped, kept);
    }
  }

  lemma {:induction false} NewestFirstOut(m: Memory, ordered: seq<Aged>, n: nat, dropped: ContentHash, kept: ContentHash)
    requires Lists(ordered, m) && SortedBy(ordered, NewestFirst) && n <= |ordered|
    requires dropped in m && dropped !in KeysOf(ordered[..n]) && kept in KeysOf(ordered[..n])
    ensures kept in m && m[dropped].at <= m[kept].at
  {
    var i :| 0 <= i < n && ordered[..n][i].0 == kept;
    var j :| 0 <= j < |ordered| && ordered[j] == (dropped, m[dropped].at);
    assert forall k :: 0 <= k < n ==> ordered[..n][k] == ordered[k] && ordered[k].0 in KeysOf(ordered[..n]);
    assert NewestFirst(ordered[i], ordered[j]);
  }

  // ---- every run ------------------------------------------------------------------

  /** The memories a run may pass through. */
  ghost predicate Behaviour(window: nat, run: seq<Record>, states: seq<Memory>)
  {
    && |states| == |run| + 1 && states[0] == map[]
    && forall i :: 0 <= i < |run| ==> Recorded(states[i], states[i + 1], run[i], window)
  }

  ghost predicate Nondecreasing(run: seq<Record>)
  {
    forall i, j :: 0 <= i < j < |run| ==> run[i].at <= run[j].at
  }

  /** The unbounded log: the latest record of every hash ever received. */
  function Log(run: seq<Record>): (r: Memory)
  {
    if run == [] then map[] else
      var last := run[|run| - 1];
      Log(run[..|run| - 1])[last.hash := Entry(last.origin, last.at)]
  }

  /** Whatever the clock does, the memory never exceeds its cap, and the hash just recorded is in it. */
  lemma {:induction false} MemoryIsBounded(window: nat, run: seq<Record>, states: seq<Memory>, i: nat)
    requires Behaviour(window, run, states) && i <= |run|
    ensures |states[i]| <= 4096
    ensures i > 0 ==> (var r := run[i - 1]; r.hash in states[i] && states[i][r.hash] == Entry(r.origin, r.at))
  {
    if i > 0 {
      var r := run[i - 1];
      assert Recorded(states[i - 1], states[i], r, window);
      var pruned :| Pruned(states[i - 1], pruned, r.at, window) && states[i] == pruned[r.hash := Entry(r.origin, r.at)];
      assert states[i].Keys == pruned.Keys + {r.hash};
    }
  }

  /** The hashes recorded at most a window ago. */
  function Recently(m: Memory, now: nat, window: nat): (r: set<ContentHash>)
  {
    set h | h in m && (now < m[h].at || now - m[h].at <= window)
  }

  /** What a record forgets: with fewer than 4,096 hashes inside the window only those outside it, and with
      more all but the newest 2,048; the hash recorded is there in any case. */
  lemma {:induction false} CrowdKeepsHalf(window: nat, run: seq<Record>, states: seq<Memory>, i: nat)
    requires Behaviour(window, run, states) && i < |run|
    ensures var r, m, m' := run[i], states[i], states[i + 1];
      var recent := Recently(m, r.at, window);
      && (|recent| < 4096 ==> m'.Keys == recent + {r.hash})
      && (|recent| >= 4096 ==> 2048 <= |m'| <= 2049 && m'.Keys <= recent + {r.hash})
      && (forall h :: h in m' && h != r.hash ==> h in m && m'[h] == m[h])
  {
    assert Recorded(states[i], states[i + 1], run[i], window);
    hide Behaviour;
    RecordKeepsHalf(window, run[i], states[i], states[i + 1]);
  }

  lemma {:induction false} RecordKeepsHalf(window: nat, r: Record, m: Memory, m': Memory)
    requires Recorded(m, m', r, window)
    ensures var recent := Recently(m, r.at, window);
      && (|recent| < 4096 ==> m'.Keys == recent + {r.hash})
      && (|recent| >= 4096 ==> 2048 <= |m'| <= 2049 && m'.Keys <= recent + {r.hash})
      && (forall h :: h in m' && h != r.hash ==> h in m && m'[h] == m[h])
  {
    RecentHashes(m, r.at, window);
    hide Recent, Recently;
    var pruned :| Pruned(m, pruned, r.at, window) && m' == pruned[r.hash := Entry(r.origin, r.at)];
    var recent := Recent(m, r.at, window);
    assert if |recent| < 4096 then pruned == recent else SubMap(pruned, recent) && |pruned| == 2048;
    hide Pruned;
    OneKeyMore(pruned, r.hash, Entry(r.origin, r.at));
  }

  lemma {:induction false} RecentHashes(m: Memory, now: nat, window: nat)
    ensures var recent := Recent(m, now, window);
      && recent.Keys == Recently(m, now, window) && |recent| == |Recently(m, now, window)|
      && forall h :: h in recent ==> h in m && recent[h] == m[h]
  {
    var recent := Recent(m, now, window);
    assert recent.Keys == Recently(m, now, window);
  }

  lemma {:induction false} OneKeyMore(m: Memory, h: ContentHash, e: Entry)
    ensures |m| <= |m[h := e]| <= |m| + 1 && m[h := e].Keys == m.Keys + {h}
  {
    assert m[h := e].Keys == m.Keys + {h};
  }

  /** The memory is part of the log, and nothing the log still knows but the memory forgot is newer
      than anything the memory kept. */
  ghost predicate ForgetsOldestFirst(log: Memory, m: Memory)
  {
    && SubMap(m, log)
    && forall dropped, kept :: dropped in log && dropped !in m && kept in m ==> log[dropped].at <= m[kept].at
  }

  lemma {:induction false} PruneForgetsOldestFirst(log: Memory, m: Memory, pruned: Memory, now: nat, window: nat)
    requires ForgetsOldestFirst(log, m) && Pruned(m, pruned, now, window)
    requires forall h :: h in log ==> log[h].at <= now
    ensures ForgetsOldestFirst(log, pruned)
  {
    forall dropped, kept | dropped in log && dropped !in pruned && kept in pruned
      ensures log[dropped].at <= pruned[kept].at
    {
      assert kept in m && m[kept] == pruned[kept];
      if dropped in m {
        assert m[dropped] == log[dropped];
        if InWindow(now, window, m[dropped]) { assert dropped in Recent(m, now, window); }
      }
    }
  }

  lemma {:induction false} RecordForgetsOldestFirst(log: Memory, m: Memory, hash: ContentHash, e: Entry)
    requires ForgetsOldestFirst(log, m) && forall h :: h in log ==> log[h].at <= e.at
    ensures ForgetsOldestFirst(log[hash := e], m[hash := e])
  {
  }

  lemma {:induction false} LogSnoc(run: seq<Record>, i: nat)
    requires 0 < i <= |run|
    ensures var r := run[i - 1]; Log(run[..i]) == Log(run[..i - 1])[r.hash := Entry(r.origin, r.at)]
    ensures LastTime(run[..i]) == run[i - 1].at
  {
    assert run[..i][..i - 1] == run[..i - 1];
  }

  lemma {:induction false} LogTimes(run: seq<Record>, now: nat)
    requires forall i :: 0 <= i < |run| ==> run[i].at <= now
    ensures forall h :: h in Log(run) ==> Log(run)[h].at <= now
  {
    if run != [] { LogTimes(run[..|run| - 1], now); }
  }

  /** Under a clock that does not go back, every run forgets oldest first. */
  lemma {:induction false} EveryRunForgetsOldestFirst(window: nat, run: seq<Record>, states: seq<Memory>, i: nat)
    requires Behaviour(window, run, states) && Nondecreasing(run) && i <= |run|
    ensures ForgetsOldestFirst(Log(run[..i]), states[i])
  {
    hide Log, Pruned, ForgetsOldestFirst;
    if i == 0 {
      NothingForgotten(run);
    } else {
      var r, log := run[i - 1], Log(run[..i - 1]);
      EveryRunForgetsOldestFirst(window, run, states, i - 1);
      LogTimes(run[..i - 1], r.at);
      assert Recorded(states[i - 1], states[i], r, window);
      var pruned :| Pruned(states[i - 1], pruned, r.at, window) && states[i] == pruned[r.hash := Entry(r.origin, r.at)];
      PruneForgetsOldestFirst(log, states[i - 1], pruned, r.at, window);
      RecordForgetsOldestFirst(log, pruned, r.hash, Entry(r.origin, r.at));
      LogSnoc(run, i);
    }
  }

  lemma {:induction false} NothingForgotten(run: seq<Record>)
    ensures run[..0] == [] && Log([]) == map[] && LastTime([]) == 0 && ForgetsOldestFirst(map[], map[])
  {
  }

  /** Before record `i`, fewer than `MAX_ENTRIES` logged hashes are inside the window. */
  predicate RoomAt(window: nat, run: seq<Record>, i: nat)
    requires i < |run|
  {
    |Recent(Log(run[..i]), run[i].at, window)| < 4096
  }

  /** So it is before each of the first `n` records. */
  ghost predicate Uncrowded(window: nat, run: seq<Record>, n: nat)
    requires n <= |run|
  {
    forall i :: 0 <= i < n ==> RoomAt(window, run, i)
  }

  /** The memory holds all of the log that was inside the window at time `now`, and nothing else. */
  ghost predicate Faithful(log: Memory, m: Memory, now: nat, window: nat)
  {
    SubMap(m, log) && forall h :: h in log && InWindow(now, window, log[h]) ==> h in m
  }

  lemma {:induction false} SubMapSize(a: Memory, b: Memory)
    requires SubMap(a, b)
    ensures |a| <= |b|
  {
    SubsetSize(a.Keys, b.Keys);
  }

  lemma {:induction false} FaithfulStep(log: Memory, m: Memory, pruned: Memory, before: nat, now: nat, window: nat)
    requires Faithful(log, m, before, window) && before <= now && Pruned(m, pruned, now, window)
    requires forall h :: h in log ==> log[h].at <= before
    requires |Recent(log, now, window)| < MAX_ENTRIES
    ensures Faithful(log, pruned, now, window)
  {
    var recent := Recent(m, now, window);
    SubMapSize(recent, Recent(log, now, window));
    forall h | h in log && InWindow(now, window, log[h]) ensures h in pruned {
      assert InWindow(before, window, log[h]);
      assert h in m && m[h] == log[h];
    }
  }

  lemma {:induction false} FaithfulRecord(log: Memory, m: Memory, hash: ContentHash, e: Entry, window: nat)
    requires Faithful(log, m, e.at, window)
    ensures Faithful(log[hash := e], m[hash := e], e.at, window)
  {
  }

  function LastTime(run: seq<Record>): (r: nat)
  {
    if run == [] then 0 else run[|run| - 1].at
  }

  lemma {:induction false} LastTimeIsLatest(run: seq<Record>, i: nat)
    requires Nondecreasing(run) && i <= |run|
    ensures forall k :: 0 <= k < i ==> run[..i][k].at <= LastTime(run[..i])
    ensures i < |run| ==> LastTime(run[..i]) <= run[i].at
  {
  }

  lemma {:induction false} EveryRunIsFaithful(window: nat, run: seq<Record>, states: seq<Memory>, i: nat)
    requires Behaviour(window, run, states) && Nondecreasing(run) && i <= |run| && Uncrowded(window, run, i)
    ensures Faithful(Log(run[..i]), states[i], LastTime(run[..i]), window)
  {
    hide Log, Pruned, Recent, LastTime;
    NothingForgotten(run);
    if i > 0 {
      var r, front := run[i - 1], run[..i - 1];
      EveryRunIsFaithful(window, run, states, i - 1);
      assert RoomAt(window, run, i - 1);
      assert LastTime(front) <= r.at && forall k :: 0 <= k < |front| ==> front[k].at <= LastTime(front) by {
        LastTimeIsLatest(run, i - 1);
      }
      LogTimes(front, LastTime(front));
      assert Recorded(states[i - 1], states[i], r, window);
      var pruned :| Pruned(states[i - 1], pruned, r.at, window) && states[i] == pruned[r.hash := Entry(r.origin, r.at)];
      FaithfulStep(Log(front), states[i - 1], pruned, LastTime(front), r.at, window);
      LogSnoc(run, i);
      FaithfulRecord(Log(front), pruned, r.hash, Entry(r.origin, r.at), window);
    }
  }

  /** From the time of the last of the first `i` records on, every verdict is the unbounded log's. */
  ghost predicate SameVerdicts(window: nat, run: seq<Record>, states: seq<Memory>, i: nat)
    requires i <= |run| < |states|
  {
    forall now: Wall, hash, peer :: LastTime(run[..i]) <= now ==>
      Judge(states[i], now, window, hash, peer) == Judge(Log(run[..i]), now, window, hash, peer)
  }

  lemma {:induction false} RoomMeansSameVerdicts(window: nat, run: seq<Record>, states: seq<Memory>, i: nat)
    requires Behaviour(window, run, states) && Nondecreasing(run) && i <= |run| && Uncrowded(window, run, i)
    ensures SameVerdicts(window, run, states, i)
  {
    hide Log, Behaviour, Uncrowded, LastTime, Nondecreasing;
    EveryRunIsFaithful(window, run, states, i);
    LastTimeIsLatest(run, i);
    LogTimes(run[..i], LastTime(run[..i]));
  }

  /** A record made in a crowded window drops some hash the log would still answer for. */
  lemma {:induction false} CrowdLosesAHash(log: Memory, m: Memory, after: Memory, r: Record, before: nat, window: nat) returns (lost: ContentHash)
    requires Faithful(log, m, before, window) && before <= r.at && Recorded(m, after, r, window)
    requires forall h :: h in log ==> log[h].at <= before
    requires |Recent(log, r.at, window)| >= MAX_ENTRIES
    ensures lost in log && InWindow(r.at, window, log[lost]) && lost !in after && lost != r.hash
  {
    var recent := Recent(log, r.at, window);
    forall h | h in recent ensures h in Recent(m, r.at, window) { assert InWindow(before, window, log[h]); }
    SubsetSize(recent.Keys, Recent(m, r.at, window).Keys);
    var pruned :| Pruned(m, pruned, r.at, window) && after == pruned[r.hash := Entry(r.origin, r.at)];
    assert after.Keys == pruned.Keys + {r.hash};
    if recent.Keys <= after.Keys { SubsetSize(recent.Keys, after.Keys); }
    lost :| lost in recent && lost !in after;
  }

  lemma {:induction false} CrowdChangesAVerdict(window: nat, run: seq<Record>, states: seq<Memory>, i: nat)
    requires Behaviour(window, run, states) && Nondecreasing(run) && i < |run|
    requires Uncrowded(window, run, i) && !RoomAt(window, run, i)
    ensures !SameVerdicts(window, run, states, i + 1)
  {
    hide Log, Recent, LastTime, Pruned;
    var r, front := run[i], run[..i];
    EveryRunIsFaithful(window, run, states, i);
    LastTimeIsLatest(run, i);
    LogTimes(front, LastTime(front));
    assert Recorded(states[i], states[i + 1], r, window);
    var lost := CrowdLosesAHash(Log(front), states[i], states[i + 1], r, LastTime(front), window);
    LogSnoc(run, i + 1);
    assert Judge(states[i + 1], r.at, window, lost, r.origin) == Send;
    assert Judge(Log(run[..i + 1]), r.at, window, lost, r.origin) != Send;
  }

  lemma {:induction false} SameVerdictsMeanRoom(window: nat, run: seq<Record>, states: seq<Memory>, n: nat)
    requires Behaviour(window, run, states) && Nondecreasing(run) && n <= |run|
    requires forall i :: 0 <= i <= |run| ==> SameVerdicts(window, run, states, i)
    ensures Uncrowded(window, run, n)
  {
    assert |states| == |run| + 1;
    hide Behaviour, Nondecreasing, RoomAt, SameVerdicts;
    if n > 0 {
      SameVerdictsMeanRoom(window, run, states, n - 1);
      if !RoomAt(window, run, n - 1) { CrowdChangesAVerdict(window, run, states, n - 1); }
    }
  }

  /** When bounding the memory is invisible: under a clock that does not go back, every verdict at every
      point of a run is the unbounded log's if and only if fewer than 4,096 logged hashes are inside the
      window at each record. */
  lemma {:induction false} VerdictsMatchUnboundedLogIff(window: nat, run: seq<Record>, states: seq<Memory>)
    requires Behaviour(window, run, states) && Nondecreasing(run)
    ensures (forall i :: 0 <= i <= |run| ==> SameVerdicts(window, run, states, i)) <==> Uncrowded(window, run, |run|)
  {
    assert |states| == |run| + 1;
    hide Behaviour, Nondecreasing, RoomAt, SameVerdicts;
    if Uncrowded(window, run, |run|) {
      forall i | 0 <= i <= |run| ensures SameVerdicts(window, run, states, i) { RoomMeansSameVerdicts(window, run, states, i); }
    }
    if forall i :: 0 <= i <= |run| ==> SameVerdicts(window, run, states, i) { SameVerdictsMeanRoom(window, run, states, |run|); }
  }

  /** Record `k` is the latest of the first `i` that has this hash. */
  ghost predicate Latest(run: seq<Record>, i: nat, hash: ContentHash, k: nat)
    requires i <= |run|
  {
    k < i && run[k].hash == hash && forall j :: k < j < i ==> run[j].hash != hash
  }

  /** The log holds the latest record of every hash. */
  lemma {:induction false} LogHoldsLatest(run: seq<Record>, i: nat, hash: ContentHash) returns (k: nat)
    requires i <= |run|
    ensures k <= i && (k == i <==> hash !in Log(run[..i]))
    ensures k < i ==> Latest(run, i, hash, k) && Log(run[..i])[hash] == Entry(run[k].origin, run[k].at)
    ensures k == i ==> forall j :: 0 <= j < i ==> run[j].hash != hash
  {
    if i == 0 {
      k := 0;
    } else {
      LogSnoc(run, i);
      hide Log;
      if run[i - 1].hash == hash {
        k := i - 1;
      } else {
        k := LogHoldsLatest(run, i - 1, hash);
        if k == i - 1 { k := i; }
      }
    }
  }

  /** What a verdict means. Whatever has been forgotten, a hash is held back only if its latest record is inside
      the window, as an origin exactly if that record came from this very peer. */
  lemma {:induction false} HeldBackForAReason(window: nat, run: seq<Record>, states: seq<Memory>, i: nat, now: Wall, hash: ContentHash, peer: DeviceId) returns (k: nat)
    requires Behaviour(window, run, states) && Nondecreasing(run) && i <= |run| && LastTime(run[..i]) <= now
    requires Judge(states[i], now, window, hash, peer) != Send
    ensures Latest(run, i, hash, k) && now - run[k].at <= window
    ensures Judge(states[i], now, window, hash, peer) == SuppressOrigin <==> run[k].origin == peer
    ensures Judge(states[i], now, window, hash, peer) == SuppressEcho <==> run[k].origin != peer
  {
    EveryRunForgetsOldestFirst(window, run, states, i);
    k := LogHoldsLatest(run, i, hash);
    LastTimeIsLatest(run, i);
    hide Log, Behaviour, LastTime;
    assert run[..i][k] == run[k];
  }

  /** And where the window never holds 4,096 hashes, it is sent on only if it has no record inside the window. */
  lemma {:induction false} SentOnForAReason(window: nat, run: seq<Record>, states: seq<Memory>, i: nat, now: Wall, hash: ContentHash, peer: DeviceId, k: nat)
    requires Behaviour(window, run, states) && Nondecreasing(run) && i <= |run| && LastTime(run[..i]) <= now && Uncrowded(window, run, i)
    requires Judge(states[i], now, window, hash, peer) == Send && k < i && run[k].hash == hash
    ensures now - run[k].at > window
  {
    RoomMeansSameVerdicts(window, run, states, i);
    assert Judge(Log(run[..i]), now, window, hash, peer) == Send;
    var latest := LogHoldsLatest(run, i, hash);
    LastTimeIsLatest(run, i);
    hide Log, Behaviour, LastTime, SameVerdicts;
    assert run[..i][k] == run[k] && run[..i][latest] == run[latest];
  }

  /** A clock that goes back breaks it: a hash pruned as too old would be inside the window again. */
  lemma {:induction false} BackwardsClockForgets(a: ContentHash, b: ContentHash, d: DeviceId, states: seq<Memory>)
    requires a != b && Behaviour(30_000, [Record(a, d, 0), Record(b, d, 90_000)], states)
    ensures var run := [Record(a, d, 0), Record(b, d, 90_000)];
      Judge(states[2], 10_000, 30_000, a, d) == Send && Judge(Log(run), 10_000, 30_000, a, d) == SuppressOrigin
  {
    var run := [Record(a, d, 0), Record(b, d, 90_000)];
    assert run[..1][..0] == [] && run[..1] == [run[0]];
    assert Log(run[..1]) == map[a := Entry(d, 0)];
    MemoryIsBounded(30_000, run, states, 1);
    EveryRunForgetsOldestFirst(30_000, run, states, 1);
    assert Recorded(states[1], states[2], run[1], 30_000);
    var pruned :| Pruned(states[1], pruned, 90_000, 30_000) && states[2] == pruned[b := Entry(d, 90_000)];
    assert a !in Recent(states[1], 90_000, 30_000);
    assert a !in pruned;
  }
}
