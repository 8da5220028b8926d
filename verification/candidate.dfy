/** The addresses to try for one peer (crates/clipse-net/src/candidate.rs). */
module Candidates {
  import opened Bytes
  import opened Sorting

  const MAX_LAN_CANDIDATES: nat := 6

  datatype SocketAddr = SocketAddr(ip: seq<Byte>, port: nat)

  datatype Reachability = Lan | Tailnet

  datatype Candidate = Candidate(addr: SocketAddr, reach: Reachability, lastSeen: Option<nat>)

  /** The order of `Option<u64>`: never seen is before any time. */
  function Rank(seen: Option<nat>): (r: nat)
  {
    match seen case None => 0 case Some(ms) => ms + 1
  }

  function AddrIs(addr: SocketAddr): Candidate -> bool { (c: Candidate) => c.addr == addr }

  function IsLan(c: Candidate): bool { c.reach == Lan }

  function NotTailnet(c: Candidate): bool { c.reach != Tailnet }

  /** The first entry with an address, or the length. */
  function Find(list: seq<Candidate>, addr: SocketAddr): (r: nat)
    ensures r <= |list| && (r < |list| ==> list[r].addr == addr)
    ensures forall i :: 0 <= i < r ==> list[i].addr != addr
  {
    var r := FirstIndex(list, AddrIs(addr));
    assert forall i :: 0 <= i < r ==> !AddrIs(addr)(list[i]);
    r
  }

  function Merged(known: Candidate, c: Candidate): (r: Candidate)
  {
    Candidate(known.addr,
              if known.reach == Lan || c.reach == Lan then Lan else Tailnet,
              if Rank(c.lastSeen) > Rank(known.lastSeen) then c.lastSeen else known.lastSeen)
  }

  function Upserted(list: seq<Candidate>, c: Candidate): (r: seq<Candidate>)
  {
    var i := Find(list, c.addr);
    if i < |list| then list[i := Merged(list[i], c)] else list + [c]
  }

  /** A list of candidates folded in one by one. */
  function Listing(initial: seq<Candidate>): (r: seq<Candidate>)
  {
    if initial == [] then [] else Upserted(Listing(initial[..|initial| - 1]), initial[|initial| - 1])
  }

  /** The first `n` discovered addresses folded in. */
  function Sighted(list: seq<Candidate>, found: seq<SocketAddr>, now: nat, n: nat): (r: seq<Candidate>)
    requires n <= |found|
  {
    if n == 0 then list else Upserted(Sighted(list, found, now, n - 1), Candidate(found[n - 1], Lan, Some(now)))
  }

  type Age = (nat, Option<nat>)

  function FresherFirst(a: Age, b: Age): bool { Rank(a.1) >= Rank(b.1) }

  /** Index and age of the LAN entries among the first `n`. */
  function LanAges(list: seq<Candidate>, n: nat): (r: seq<Age>)
    requires n <= |list|
  {
    if n == 0 then []
    else LanAges(list, n - 1) + if IsLan(list[n - 1]) then [(n - 1, list[n - 1].lastSeen)] else []
  }

  function ByAge(list: seq<Candidate>): (r: seq<Age>)
  {
    Sort(LanAges(list, |list|), FresherFirst)
  }

  /** The LAN entries past the limit, oldest last. */
  function Doomed(list: seq<Candidate>): (r: set<nat>)
  {
    var ages := ByAge(list);
    if |ages| <= MAX_LAN_CANDIDATES then {} else KeysOf(ages[MAX_LAN_CANDIDATES..])
  }

  /** The first `n` entries without the doomed ones. */
  function Kept(list: seq<Candidate>, doomed: set<nat>, n: nat): (r: seq<Candidate>)
    requires n <= |list|
  {
    if n == 0 then [] else Kept(list, doomed, n - 1) + if n - 1 in doomed then [] else [list[n - 1]]
  }

  function Pruned(list: seq<Candidate>): (r: seq<Candidate>)
  {
    Kept(list, Doomed(list), |list|)
  }

  function Refreshed(list: seq<Candidate>, found: seq<SocketAddr>, now: nat): (r: seq<Candidate>)
  {
    Pruned(Sighted(list, found, now, |found|))
  }

  function TailnetSet(list: seq<Candidate>, addr: Option<SocketAddr>, now: nat): (r: seq<Candidate>)
  {
    var rest := Filter(list, NotTailnet);
    match addr
    case None => rest
    case Some(a) => Upserted(rest, Candidate(a, Tailnet, Some(now)))
  }

  /** LAN before tailnet, and within each the most recently seen first. */
  function DialBefore(a: Candidate, b: Candidate): bool
  {
    (a.reach == Lan && b.reach == Tailnet) || (a.reach == b.reach && Rank(a.lastSeen) >= Rank(b.lastSeen))
  }

  ghost predicate DistinctAddresses(list: seq<Candidate>)
  {
    forall i, j :: 0 <= i < j < |list| ==> list[i].addr != list[j].addr
  }

  /** No tailnet address is dialled before a LAN one, and of two of a kind none before one seen later: an
      address never seen counts as seen before any other. */
  ghost predicate DialsInOrder(list: seq<Candidate>)
  {
    && (forall i, j :: 0 <= i < j < |list| ==> !(list[i].reach == Tailnet && list[j].reach == Lan))
    && (forall i, j :: 0 <= i < j < |list| && list[i].reach == list[j].reach && list[j].lastSeen.Some? ==>
          list[i].lastSeen.Some? && list[i].lastSeen.value >= list[j].lastSeen.value)
  }

  lemma {:induction false} SortedDialsInOrder(list: seq<Candidate>)
    requires SortedBy(list, DialBefore)
    ensures DialsInOrder(list)
  {
    forall i, j | 0 <= i < j < |list| ensures DialBefore(list[i], list[j]) { }
  }

  class CandidateList {
    var candidates: seq<Candidate>

    constructor (initial: seq<Candidate>)
      ensures DistinctAddresses(candidates) && candidates == Listing(initial)
    {
      candidates := [];
      new;
      for i := 0 to |initial|
        invariant DistinctAddresses(candidates) && candidates == Listing(initial[..i])
      {
        Upsert(initial[i]);
        assert initial[..i + 1][..i] == initial[..i];
      }
      assert initial[..|initial|] == initial;
    }

    method Upsert(c: Candidate)
      requires DistinctAddresses(candidates)
      modifies this
      ensures candidates == Upserted(old(candidates), c) && DistinctAddresses(candidates)
    {
      UpsertKeepsDistinct(candidates, c);
      var i := Find(candidates, c.addr);
      if i < |candidates| {
        var known := candidates[i];
        if Rank(c.lastSeen) > Rank(known.lastSeen) {
          known := known.(lastSeen := c.lastSeen);
        }
        known := known.(reach := if known.reach == Lan then Lan else c.reach);
        candidates := candidates[i := known];
      } else {
        candidates := candidates + [c];
      }
    }

    method RefreshLan(found: seq<SocketAddr>, now: nat)
      requires DistinctAddresses(candidates)
      modifies this
      ensures candidates == Refreshed(old(candidates), found, now) && DistinctAddresses(candidates)
    {
      for i := 0 to |found|
        invariant candidates == Sighted(old(candidates), found, now, i) && DistinctAddresses(candidates)
      {
        Upsert(Candidate(found[i], Lan, Some(now)));
      }
      PruneLan();
    }

    method PruneLan()
      requires DistinctAddresses(candidates)
      modifies this
      ensures candidates == Pruned(old(candidates)) && DistinctAddresses(candidates)
    {
      var n := |candidates|;
      var ages: seq<Age> := [];
      for i := 0 to n
        invariant ages == LanAges(candidates, i)
      {
        if IsLan(candidates[i]) {
          ages := ages + [(i, candidates[i].lastSeen)];
        }
      }
      if |ages| <= MAX_LAN_CANDIDATES {
        KeptAll(candidates, n);
        return;
      }
      var ordered := Sort(ages, FresherFirst);
      var doomed := KeysOf(ordered[MAX_LAN_CANDIDATES..]);
      var kept: seq<Candidate> := [];
      for index := 0 to n
        invariant kept == Kept(candidates, doomed, index)
      {
        if index !in doomed {
          kept := kept + [candidates[index]];
        }
      }
      KeptKeepsDistinct(candidates, doomed, n);
      candidates := kept;
    }

    method SetTailnet(addr: Option<SocketAddr>, now: nat)
      requires DistinctAddresses(candidates)
      modifies this
      ensures candidates == TailnetSet(old(candidates), addr, now) && DistinctAddresses(candidates)
    {
      FilterKeepsDistinct(candidates, NotTailnet);
      candidates := Filter(candidates, NotTailnet);
      if addr.Some? {
        Upsert(Candidate(addr.value, Tailnet, Some(now)));
      }
    }

    /** A sorted copy; ties keep their stored order. */
    method DialOrder() returns (ordered: seq<Candidate>)
      ensures multiset(ordered) == multiset(candidates) && SortedBy(ordered, DialBefore)
      ensures forall p :: Filter(ordered, p) == Sort(Filter(candidates, p), DialBefore)
      ensures DialsInOrder(ordered)
    {
      ordered := Sort(candidates, DialBefore);
      hide Sort;
      SortPermutes(candidates, DialBefore);
      SortSorts(candidates, DialBefore);
      forall p ensures Filter(ordered, p) == Sort(Filter(candidates, p), DialBefore) {
        SortFilterCommute(candidates, DialBefore, p);
      }
      SortedDialsInOrder(ordered);
    }
  }

  // ---- what every run keeps ---------------------------------------------------------

  lemma {:induction false} UpsertKeepsDistinct(list: seq<Candidate>, c: Candidate)
    requires DistinctAddresses(list)
    ensures DistinctAddresses(Upserted(list, c))
  {
  }

  lemma {:induction false} KeptAll(list: seq<Candidate>, n: nat)
    requires n <= |list|
    ensures Kept(list, {}, n) == list[..n]
  {
    if n > 0 {
      KeptAll(list, n - 1);
      assert list[..n] == list[..n - 1] + [list[n - 1]];
    }
  }

  lemma {:induction false} KeptMembers(list: seq<Candidate>, doomed: set<nat>, n: nat, c: Candidate)
    requires n <= |list|
    ensures c in Kept(list, doomed, n) <==> exists i :: 0 <= i < n && i !in doomed && list[i] == c
  {
    if n > 0 {
      KeptMembers(list, doomed, n - 1, c);
    }
  }

  lemma {:induction false} KeptKeepsDistinct(list: seq<Candidate>, doomed: set<nat>, n: nat)
    requires n <= |list| && DistinctAddresses(list)
    ensures DistinctAddresses(Kept(list, doomed, n))
  {
    if n > 0 {
      KeptKeepsDistinct(list, doomed, n - 1);
      var front := Kept(list, doomed, n - 1);
      forall k | 0 <= k < |front| ensures front[k].addr != list[n - 1].addr {
        KeptMembers(list, doomed, n - 1, front[k]);
      }
    }
  }

  function OtherAddr(a: Candidate, b: Candidate): bool { a.addr != b.addr }

  lemma {:induction false} FilterKeepsDistinct(list: seq<Candidate>, p: Candidate -> bool)
    requires DistinctAddresses(list)
    ensures DistinctAddresses(Filter(list, p))
  {
    FilterPairwise(list, p, OtherAddr);
    var f := Filter(list, p);
    assert forall i, j :: 0 <= i < j < |f| ==> OtherAddr(f[i], f[j]);
  }

  lemma {:induction false} SightingsKeepDistinct(list: seq<Candidate>, found: seq<SocketAddr>, now: nat, n: nat)
    requires n <= |found| && DistinctAddresses(list)
    ensures DistinctAddresses(Sighted(list, found, now, n))
  {
    if n > 0 {
      SightingsKeepDistinct(list, found, now, n - 1);
      UpsertKeepsDistinct(Sighted(list, found, now, n - 1), Candidate(found[n - 1], Lan, Some(now)));
    }
  }

  datatype Op =
    | UpsertOp(c: Candidate)
    | RefreshOp(found: seq<SocketAddr>, now: nat)
    | TailnetOp(addr: Option<SocketAddr>, now: nat)

  function Step(list: seq<Candidate>, op: Op): (r: seq<Candidate>)
  {
    match op
    case UpsertOp(c) => Upserted(list, c)
    case RefreshOp(found, now) => Refreshed(list, found, now)
    case TailnetOp(addr, now) => TailnetSet(list, addr, now)
  }

  function Run(ops: seq<Op>): (r: seq<Candidate>)
  {
    if ops == [] then [] else Step(Run(ops[..|ops| - 1]), ops[|ops| - 1])
  }

  /** On every run an address is listed at most once. */
  lemma {:induction false} EveryRunKeepsAddressesDistinct(ops: seq<Op>)
    ensures DistinctAddresses(Run(ops))
  {
    hide Upserted, Kept, Doomed;
    if ops != [] {
      var list := Run(ops[..|ops| - 1]);
      EveryRunKeepsAddressesDistinct(ops[..|ops| - 1]);
      match ops[|ops| - 1]
      case UpsertOp(c) => UpsertKeepsDistinct(list, c);
      case RefreshOp(found, now) =>
        SightingsKeepDistinct(list, found, now, |found|);
        var all := Sighted(list, found, now, |found|);
        KeptKeepsDistinct(all, Doomed(all), |all|);
      case TailnetOp(addr, now) =>
        FilterKeepsDistinct(list, NotTailnet);
        if addr.Some? { UpsertKeepsDistinct(Filter(list, NotTailnet), Candidate(addr.value, Tailnet, Some(now))); }
    }
  }

  /** Learning an address: it is listed once, on the LAN if it was known there or is now, and seen at the later
      of the two times; a new one goes to the end; no other entry changes. */
  lemma {:induction false} UpsertMeans(list: seq<Candidate>, c: Candidate)
    requires DistinctAddresses(list)
    ensures var r := Upserted(list, c);
      && |list| <= |r| <= |list| + 1
      && (forall i :: 0 <= i < |list| && list[i].addr != c.addr ==> r[i] == list[i])
      && (forall i :: 0 <= i < |list| && list[i].addr == c.addr ==>
            && r[i].addr == c.addr && |r| == |list|
            && (r[i].reach == Lan <==> list[i].reach == Lan || c.reach == Lan)
            && (r[i].lastSeen == list[i].lastSeen || r[i].lastSeen == c.lastSeen)
            && (list[i].lastSeen.Some? ==> r[i].lastSeen.Some? && r[i].lastSeen.value >= list[i].lastSeen.value)
            && (c.lastSeen.Some? ==> r[i].lastSeen.Some? && r[i].lastSeen.value >= c.lastSeen.value))
      && ((forall i :: 0 <= i < |list| ==> list[i].addr != c.addr) ==> r == list + [c])
  {
    hide Find;
    var k := Find(list, c.addr);
  }

  /** A list made of some candidates lists every one of their addresses. */
  lemma {:induction false} EveryAddressIsListed(initial: seq<Candidate>, k: nat)
    requires k < |initial|
    ensures exists i :: 0 <= i < |Listing(initial)| && Listing(initial)[i].addr == initial[k].addr
  {
    var front, last := initial[..|initial| - 1], initial[|initial| - 1];
    var before := Listing(front);
    hide Find;
    assert Listing(initial) == Upserted(before, last);
    var j := Find(before, last.addr);
    if k < |front| {
      EveryAddressIsListed(front, k);
      var i :| 0 <= i < |before| && before[i].addr == front[k].addr;
      assert Listing(initial)[i].addr == before[i].addr;
    } else {
      assert Listing(initial)[j].addr == last.addr;
    }
  }

  // ---- pruning ------------------------------------------------------------------------

  ghost predicate ListsLan(ages: seq<Age>, list: seq<Candidate>, n: nat)
    requires n <= |list|
  {
    && Distinct(ages)
    && (forall k :: 0 <= k < |ages| ==> ages[k].0 < n && IsLan(list[ages[k].0]) && ages[k].1 == list[ages[k].0].lastSeen)
    && (forall i :: 0 <= i < n && IsLan(list[i]) ==> (i, list[i].lastSeen) in ages)
  }

  lemma {:induction false} LanAgesListed(list: seq<Candidate>, n: nat)
    requires n <= |list|
    ensures ListsLan(LanAges(list, n), list, n)
  {
    if n > 0 {
      LanAgesListed(list, n - 1);
      if IsLan(list[n - 1]) { ListOneMore(LanAges(list, n - 1), list, n); } else { assert LanAges(list, n) == LanAges(list, n - 1); }
    }
  }

  lemma {:induction false} ListOneMore(ages: seq<Age>, list: seq<Candidate>, n: nat)
    requires 0 < n <= |list| && IsLan(list[n - 1]) && ListsLan(ages, list, n - 1)
    ensures ListsLan(ages + [(n - 1, list[n - 1].lastSeen)], list, n)
  {
    var more := ages + [(n - 1, list[n - 1].lastSeen)];
    assert more[|ages|] == (n - 1, list[n - 1].lastSeen);
    forall i | 0 <= i < n && IsLan(list[i]) ensures (i, list[i].lastSeen) in more {
      if i < n - 1 { assert (i, list[i].lastSeen) in ages; }
    }
  }

  lemma {:induction false} LanAgesCount(list: seq<Candidate>, n: nat)
    requires n <= |list|
    ensures |LanAges(list, n)| == |Filter(list[..n], IsLan)|
  {
    if n > 0 {
      LanAgesCount(list, n - 1);
      assert list[..n] == list[..n - 1] + [list[n - 1]];
      FilterConcat(list[..n - 1], [list[n - 1]], IsLan);
    }
  }

  /** Ages in dial order: the same entries, distinct indexes, freshest first. */
  lemma {:induction false} ByAgeListed(list: seq<Candidate>)
    ensures var ages := ByAge(list);
      && ListsLan(ages, list, |list|) && SortedBy(ages, FresherFirst)
      && (forall i, j :: 0 <= i < j < |ages| ==> ages[i].0 != ages[j].0)
      && |ages| == |Filter(list, IsLan)|
  {
    var lan := LanAges(list, |list|);
    LanAgesListed(list, |list|);
    LanAgesCount(list, |list|);
    assert list[..|list|] == list;
    hide Sort, LanAges, Filter;
    var ages := ByAge(list);
    SortSorts(lan, FresherFirst);
    SortPermutes(lan, FresherFirst);
    DistinctFromMultiset(lan, ages);
    forall k | 0 <= k < |ages| ensures ages[k] in lan { SortMembers(lan, FresherFirst, ages[k]); }
    forall i | 0 <= i < |list| && IsLan(list[i]) ensures (i, list[i].lastSeen) in ages {
      SortMembers(lan, FresherFirst, (i, list[i].lastSeen));
    }
  }

  lemma {:induction false} DoomedPosition(list: seq<Candidate>, i: nat) returns (k: nat)
    requires i in Doomed(list)
    ensures MAX_LAN_CANDIDATES <= k < |ByAge(list)| && ByAge(list)[k].0 == i
  {
    hide ByAge;
    var tail := ByAge(list)[MAX_LAN_CANDIDATES..];
    k :| 0 <= k < |tail| && tail[k].0 == i;
    k := MAX_LAN_CANDIDATES + k;
  }

  lemma {:induction false} PastTheLimit(list: seq<Candidate>, k: nat)
    requires MAX_LAN_CANDIDATES <= k < |ByAge(list)|
    ensures ByAge(list)[k].0 in Doomed(list)
  {
    hide ByAge;
    var ages := ByAge(list);
    assert ages[MAX_LAN_CANDIDATES..][k - MAX_LAN_CANDIDATES].0 == ages[k].0;
  }

  lemma {:induction false} SparedPosition(list: seq<Candidate>, j: nat) returns (m: nat)
    requires j < |list| && IsLan(list[j]) && j !in Doomed(list)
    ensures m < MAX_LAN_CANDIDATES && m < |ByAge(list)| && ByAge(list)[m] == (j, list[j].lastSeen)
  {
    hide ByAge, Doomed;
    ByAgeListed(list);
    var ages := ByAge(list);
    m :| 0 <= m < |ages| && ages[m] == (j, list[j].lastSeen);
    if m >= MAX_LAN_CANDIDATES {
      PastTheLimit(list, m);
      assert false;
    }
  }

  /** Only LAN entries are doomed, and none of them is fresher than a LAN entry that stays. */
  lemma {:induction false} DoomedAreOldest(list: seq<Candidate>, i: nat, j: nat)
    requires i < |list| && j < |list| && i in Doomed(list)
    ensures IsLan(list[i])
    ensures IsLan(list[j]) && j !in Doomed(list) ==> Rank(list[i].lastSeen) <= Rank(list[j].lastSeen)
  {
    hide ByAge, Doomed;
    ByAgeListed(list);
    var ages := ByAge(list);
    var k := DoomedPosition(list, i);
    if IsLan(list[j]) && j !in Doomed(list) {
      var m := SparedPosition(list, j);
      assert FresherFirst(ages[m], ages[k]);
    }
  }

  /** LAN indexes among the first `n` that survive. */
  function SparedLan(list: seq<Candidate>, doomed: set<nat>, n: nat): (r: set<nat>)
    requires n <= |list|
  {
    set i: nat | i < n && IsLan(list[i]) && i !in doomed
  }

  lemma {:induction false} KeptLanCount(list: seq<Candidate>, doomed: set<nat>, n: nat)
    requires n <= |list|
    ensures |Filter(Kept(list, doomed, n), IsLan)| == |SparedLan(list, doomed, n)|
  {
    if n > 0 {
      KeptLanCount(list, doomed, n - 1);
      var front, c := Kept(list, doomed, n - 1), list[n - 1];
      FilterConcat(front, [c], IsLan);
      assert n - 1 in doomed ==> Kept(list, doomed, n) == front;
      var before, after := SparedLan(list, doomed, n - 1), SparedLan(list, doomed, n);
      assert after == if IsLan(c) && n - 1 !in doomed then before + {n - 1} else before;
      assert Filter([c], IsLan) == if IsLan(c) then [c] else [];
      hide Filter, SparedLan;
    }
  }

  function NotLan(c: Candidate): bool { !IsLan(c) }

  lemma {:induction false} KeptOthers(list: seq<Candidate>, doomed: set<nat>, n: nat)
    requires n <= |list| && forall i :: 0 <= i < n && i in doomed ==> IsLan(list[i])
    ensures Filter(Kept(list, doomed, n), NotLan) == Filter(list[..n], NotLan)
  {
    if n > 0 {
      KeptOthers(list, doomed, n - 1);
      assert list[..n] == list[..n - 1] + [list[n - 1]];
      FilterConcat(list[..n - 1], [list[n - 1]], NotLan);
      FilterConcat(Kept(list, doomed, n - 1), if n - 1 in doomed then [] else [list[n - 1]], NotLan);
    }
  }

  function AtMostSix(n: nat): nat { if n < 6 then n else 6 }

  lemma {:induction false} SparedAreFirst(list: seq<Candidate>)
    ensures SparedLan(list, Doomed(list), |list|) == KeysOf(ByAge(list)[..AtMostSix(|ByAge(list)|)])
  {
    hide ByAge, Doomed;
    ByAgeListed(list);
    var ages := ByAge(list);
    var n := AtMostSix(|ages|);
    forall i | i in SparedLan(list, Doomed(list), |list|) ensures i in KeysOf(ages[..n]) {
      var m := SparedPosition(list, i);
      assert ages[..n][m].0 == i;
    }
    forall i | i in KeysOf(ages[..n]) ensures i in SparedLan(list, Doomed(list), |list|) {
      var m :| 0 <= m < n && ages[..n][m].0 == i;
      assert ages[m].0 == i && IsLan(list[i]);
      if i in Doomed(list) {
        var k := DoomedPosition(list, i);
        assert false;
      }
    }
  }

  /** Pruning keeps six LAN entries, or all if there are fewer. */
  lemma {:induction false} PruneKeepsSix(list: seq<Candidate>)
    ensures |Filter(Pruned(list), IsLan)| == AtMostSix(|Filter(list, IsLan)|)
    ensures Filter(Pruned(list), NotLan) == Filter(list, NotLan)
  {
    hide ByAge, Doomed, Kept, Filter, SparedLan, KeysOf;
    var doomed, ages := Doomed(list), ByAge(list);
    ByAgeListed(list);
    KeptLanCount(list, doomed, |list|);
    SparedAreFirst(list);
    KeyCount(ages[..AtMostSix(|ages|)]);
    forall i | 0 <= i < |list| && i in doomed ensures IsLan(list[i]) { DoomedAreOldest(list, i, i); }
    KeptOthers(list, doomed, |list|);
    assert list[..|list|] == list;
  }

  /** What pruning drops is a LAN entry no fresher than any LAN entry it keeps. */
  lemma {:induction false} PruneDropsOldest(list: seq<Candidate>, dropped: Candidate, kept: Candidate)
    requires dropped in list && dropped !in Pruned(list)
    ensures IsLan(dropped)
    ensures kept in Pruned(list) ==> kept in list && (IsLan(kept) ==> Rank(dropped.lastSeen) <= Rank(kept.lastSeen))
  {
    hide Doomed, Kept;
    var i :| 0 <= i < |list| && list[i] == dropped;
    KeptMembers(list, Doomed(list), |list|, dropped);
    KeptMembers(list, Doomed(list), |list|, kept);
    DoomedAreOldest(list, i, i);
    if kept in Pruned(list) {
      var j :| 0 <= j < |list| && j !in Doomed(list) && list[j] == kept;
      DoomedAreOldest(list, i, j);
    }
  }

  // ---- fresh sightings survive -----------------------------------------------------------

  /** After the sightings: an entry has the new time exactly when its address was found, and then it
      is a LAN entry; every found address is listed. */
  ghost predicate Stamped(list: seq<Candidate>, found: set<SocketAddr>, now: nat)
  {
    && (forall i :: 0 <= i < |list| ==> Rank(list[i].lastSeen) <= now + 1)
    && (forall i :: 0 <= i < |list| ==> (Rank(list[i].lastSeen) == now + 1 <==> list[i].addr in found))
    && (forall i :: 0 <= i < |list| && list[i].addr in found ==> IsLan(list[i]))
    && (forall a :: a in found ==> Find(list, a) < |list|)
  }

  function Firsts(found: seq<SocketAddr>, n: nat): (r: set<SocketAddr>)
    requires n <= |found|
  {
    set k | 0 <= k < n :: found[k]
  }

  lemma {:induction false} UpsertStamps(list: seq<Candidate>, found: set<SocketAddr>, addr: SocketAddr, now: nat)
    requires DistinctAddresses(list) && Stamped(list, found, now)
    ensures Stamped(Upserted(list, Candidate(addr, Lan, Some(now))), found + {addr}, now)
  {
    hide Find;
    var r := Upserted(list, Candidate(addr, Lan, Some(now)));
    var k := Find(list, addr);
    assert r[k].addr == addr;
    forall a | a in found + {addr} ensures Find(r, a) < |r| {
      var j := if a == addr then k else Find(list, a);
      assert r[j].addr == a;
    }
  }

  lemma {:induction false} SightingsStamp(list: seq<Candidate>, found: seq<SocketAddr>, now: nat, n: nat)
    requires n <= |found| && DistinctAddresses(list)
    requires forall i :: 0 <= i < |list| ==> Rank(list[i].lastSeen) <= now
    ensures Stamped(Sighted(list, found, now, n), Firsts(found, n), now)
  {
    hide Upserted, Find;
    if n > 0 {
      SightingsStamp(list, found, now, n - 1);
      SightingsKeepDistinct(list, found, now, n - 1);
      UpsertStamps(Sighted(list, found, now, n - 1), Firsts(found, n - 1), found[n - 1], now);
      assert Firsts(found, n) == Firsts(found, n - 1) + {found[n - 1]};
    }
  }

  function AddressesAt(list: seq<Candidate>, ages: seq<Age>): (r: set<SocketAddr>)
    requires forall k :: 0 <= k < |ages| ==> ages[k].0 < |list|
  {
    set k | 0 <= k < |ages| :: list[ages[k].0].addr
  }

  lemma {:induction false} AddressCount(list: seq<Candidate>, ages: seq<Age>)
    requires forall k :: 0 <= k < |ages| ==> ages[k].0 < |list|
    requires DistinctAddresses(list) && forall i, j :: 0 <= i < j < |ages| ==> ages[i].0 != ages[j].0
    ensures |AddressesAt(list, ages)| == |ages|
  {
    if ages == [] {
      assert AddressesAt(list, ages) == {};
    } else {
      var front, last := ages[..|ages| - 1], ages[|ages| - 1];
      AddressCount(list, front);
      assert ages == front + [last];
      assert AddressesAt(list, ages) == AddressesAt(list, front) + {list[last.0].addr};
      assert list[last.0].addr !in AddressesAt(list, front);
    }
  }

  /** With at most six stamped addresses, none of them is doomed: a doomed one would come after six
      others at least as fresh, which makes seven. */
  lemma {:induction false} StampedAreSpared(list: seq<Candidate>, found: set<SocketAddr>, now: nat, i: nat)
    requires DistinctAddresses(list) && Stamped(list, found, now) && |found| <= MAX_LAN_CANDIDATES
    requires i < |list| && list[i].addr in found
    ensures i !in Doomed(list)
  {
    hide ByAge, Doomed, Find;
    if i in Doomed(list) {
      var k := DoomedPosition(list, i);
      ByAgeListed(list);
      var ages := ByAge(list)[..k + 1];
      forall m | 0 <= m < |ages| ensures list[ages[m].0].addr in found {
        assert m == k || FresherFirst(ByAge(list)[m], ByAge(list)[k]);
      }
      AddressCount(list, ages);
      SubsetSize(AddressesAt(list, ages), found);
      assert false;
    }
  }

  /** Up to six addresses discovered at a time newer than every earlier sighting are all listed
      afterwards, as LAN entries seen at that time. */
  lemma {:induction false} FreshSightingsSurvive(list: seq<Candidate>, found: seq<SocketAddr>, now: nat, k: nat)
    requires DistinctAddresses(list) && k < |found| && |Firsts(found, |found|)| <= MAX_LAN_CANDIDATES
    requires forall i :: 0 <= i < |list| ==> Rank(list[i].lastSeen) <= now
    ensures Candidate(found[k], Lan, Some(now)) in Refreshed(list, found, now)
  {
    hide Sighted, Doomed, Kept, Find;
    var all, stamped := Sighted(list, found, now, |found|), Firsts(found, |found|);
    SightingsStamp(list, found, now, |found|);
    SightingsKeepDistinct(list, found, now, |found|);
    assert found[k] in stamped;
    var i := Find(all, found[k]);
    StampedAreSpared(all, stamped, now, i);
    KeptMembers(all, Doomed(all), |all|, all[i]);
    assert all[i] == Candidate(found[k], Lan, Some(now));
  }

  /** Setting the tailnet address leaves at most one tailnet entry: the given one, unless that
      address is known on the LAN; LAN addresses all stay. */
  lemma {:induction false} TailnetIsReplaced(list: seq<Candidate>, addr: Option<SocketAddr>, now: nat)
    requires DistinctAddresses(list)
    ensures var r := TailnetSet(list, addr, now);
      && (forall i :: 0 <= i < |r| && r[i].reach == Tailnet ==> addr == Some(r[i].addr) && r[i].lastSeen == Some(now))
      && (forall i :: 0 <= i < |list| && IsLan(list[i]) ==>
            exists j :: 0 <= j < |r| && r[j].addr == list[i].addr && IsLan(r[j]))
  {
    hide Filter, Find;
    var rest, r := Filter(list, NotTailnet), TailnetSet(list, addr, now);
    assert forall i :: 0 <= i < |rest| ==> NotTailnet(rest[i]);
    forall i | 0 <= i < |list| && IsLan(list[i])
      ensures exists j :: 0 <= j < |r| && r[j].addr == list[i].addr && IsLan(r[j])
    {
      assert NotTailnet(list[i]);
      var j :| 0 <= j < |rest| && rest[j] == list[i];
      assert r[j].addr == list[i].addr && IsLan(r[j]);
    }
  }
}
