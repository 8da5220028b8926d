/** Hybrid logical clocks (crates/clipse-core/src/hlc.rs), after Kulkarni et al.,
    "Logical Physical Clocks" (2014), with drift clamping and a saturating counter. */
module HybridClock {
  import opened Bytes

  const MAX_CLOCK_DRIFT_MS: nat := 60_000
  const COUNTER_MAX: nat := U32_LIMIT - 1
  const WALL_MAX: nat := U64_LIMIT - 1

  type Wall = w: nat | w < U64_LIMIT
  type Counter = c: nat | c < U32_LIMIT
  type DeviceId = d: seq<Byte> | |d| == 16 witness seq(16, _ => 0)

  datatype Hlc = Hlc(wall: Wall, counter: Counter, device: DeviceId)

  /** The order of stamps: wall time, then counter, then the device id's bytes. */
  predicate Less(a: Hlc, b: Hlc)
  {
    a.wall < b.wall || (a.wall == b.wall &&
    (a.counter < b.counter || (a.counter == b.counter && LexLess(a.device, b.device))))
  }

  /** The tie-break on the device makes the order total: of two distinct stamps exactly one is smaller. */
  lemma {:induction false} StampOrderIsTotal(a: Hlc, b: Hlc)
    ensures Less(a, b) || Less(b, a) || a == b
    ensures !(Less(a, b) && Less(b, a))
    ensures !Less(a, a)
  {
    LexTrichotomy(a.device, b.device);
  }

  lemma {:induction false} StampOrderIsTransitive(a: Hlc, b: Hlc, c: Hlc)
    requires Less(a, b) && Less(b, c)
    ensures Less(a, c)
  {
    if a.wall == b.wall == c.wall && a.counter == b.counter == c.counter {
      LexTransitive(a.device, b.device, c.device);
    }
  }

  lemma {:induction false} NotLessTransitive(a: Hlc, b: Hlc, c: Hlc)
    ensures !Less(a, b) && !Less(b, c) ==> !Less(a, c)
    ensures !Less(a, b) && Less(a, c) ==> Less(b, c)
    ensures Less(a, b) && !Less(c, b) ==> Less(a, c)
  {
    hide Less;
    StampOrderIsTotal(a, b);
    StampOrderIsTotal(b, c);
    StampOrderIsTotal(a, c);
    StampOrderIsTotal(c, c);
    if Less(b, a) && Less(c, b) { StampOrderIsTransitive(c, b, a); }
    if Less(b, a) && Less(a, c) { StampOrderIsTransitive(b, a, c); }
    if Less(a, b) && Less(b, c) { StampOrderIsTransitive(a, b, c); }
  }

  // ---- one clock ----------------------------------------------------------

  datatype State = State(wall: Wall, counter: Counter)

  function SaturatingIncrement(c: Counter): (r: Counter)
    ensures c < COUNTER_MAX ==> r == c + 1
    ensures c == COUNTER_MAX ==> r == c
  {
    if c < COUNTER_MAX then c + 1 else c
  }

  function Max(a: nat, b: nat): nat { if a < b then b else a }

  /** What a local event does to the clock. */
  function NowState(s: State, physical: Wall): (r: State)
  {
    if physical > s.wall then State(physical, 0)
    else State(s.wall, SaturatingIncrement(s.counter))
  }

  /** A remote stamp further ahead than the allowed drift. */
  predicate Clamped(physical: Wall, remote: Hlc)
  {
    remote.wall > physical + MAX_CLOCK_DRIFT_MS
  }

  /** What receiving a remote stamp does to the clock. */
  function ObserveState(s: State, physical: Wall, remote: Hlc): (r: State)
  {
    var remoteWall: Wall := if Clamped(physical, remote) then physical else remote.wall;
    var maxWall: Wall := Max(Max(s.wall, remoteWall), physical);
    var counter: Counter :=
      if maxWall == s.wall && maxWall == remoteWall then SaturatingIncrement(Max(s.counter, remote.counter))
      else if maxWall == s.wall then SaturatingIncrement(s.counter)
      else if maxWall == remoteWall then SaturatingIncrement(remote.counter)
      else 0;
    State(maxWall, counter)
  }

  /** The clock object: `now` and `observe` advance it in place and return the new stamp. */
  class HlcClock {
    const device: DeviceId
    var wall: Wall
    var counter: Counter

    constructor (device: DeviceId)
      ensures this.device == device && wall == 0 && counter == 0
    {
      this.device := device;
      wall, counter := 0, 0;
    }

    function Current(): State
      reads this
    {
      State(wall, counter)
    }

    method Now(physical: Wall) returns (h: Hlc)
      modifies this
      ensures Current() == NowState(old(Current()), physical)
      ensures h == Hlc(wall, counter, device)
      ensures Less(Hlc(old(wall), old(counter), device), h) <==> physical > old(wall) || old(counter) < COUNTER_MAX
    {
      StampOrderIsTotal(Hlc(wall, counter, device), Hlc(wall, counter, device));
      if physical > wall {
        wall := physical;
        counter := 0;
      } else {
        counter := SaturatingIncrement(counter);
      }
      h := Hlc(wall, counter, device);
    }

    method Observe(physical: Wall, remote: Hlc) returns (h: Hlc)
      modifies this
      ensures Current() == ObserveState(old(Current()), physical, remote)
      ensures h == Hlc(wall, counter, device)
    {
      var limit: Wall := if physical + MAX_CLOCK_DRIFT_MS > WALL_MAX then WALL_MAX else physical + MAX_CLOCK_DRIFT_MS;
      var remoteWall: Wall := if remote.wall > limit then physical else remote.wall;
      var maxWall: Wall := Max(Max(wall, remoteWall), physical);
      counter := match (maxWall == wall, maxWall == remoteWall)
        case (true, true) => SaturatingIncrement(Max(counter, remote.counter))
        case (true, false) => SaturatingIncrement(counter)
        case (false, true) => SaturatingIncrement(remote.counter)
        case (false, false) => 0;
      wall := maxWall;
      h := Hlc(wall, counter, device);
    }
  }

  // ---- every run of one clock ---------------------------------------------

  datatype Tick = LocalTick(physical: Wall) | RemoteTick(physical: Wall, remote: Hlc)

  function Advance(s: State, t: Tick): (r: State)
  {
    match t
    case LocalTick(p) => NowState(s, p)
    case RemoteTick(p, h) => ObserveState(s, p, h)
  }

  /** The clock after the first `n` ticks of a run, starting as `HlcClock` does. */
  function After(ticks: seq<Tick>, n: nat): (r: State)
    requires n <= |ticks|
  {
    if n == 0 then State(0, 0) else Advance(After(ticks, n - 1), ticks[n - 1])
  }

  predicate StateLess(a: State, b: State)
  {
    a.wall < b.wall || (a.wall == b.wall && a.counter < b.counter)
  }

  /** The greatest physical reading among the first `n` ticks. */
  function MaxPhysical(ticks: seq<Tick>, n: nat): (r: nat)
    requires n <= |ticks|
    ensures forall i :: 0 <= i < n ==> ticks[i].physical <= r
    ensures n > 0 ==> exists i :: 0 <= i < n && ticks[i].physical == r
  {
    if n == 0 then 0 else
      var m := MaxPhysical(ticks, n - 1);
      assert n == 1 || exists i :: 0 <= i < n - 1 && ticks[i].physical == m;
      if n == 1 || ticks[n - 1].physical > m then ticks[n - 1].physical else m
  }

  lemma {:induction false} AdvanceStep(s: State, t: Tick)
    ensures var r := Advance(s, t);
      && (r == s || StateLess(s, r))
      && (StateLess(s, r) <==> s.counter < COUNTER_MAX || s.wall < r.wall)
      && r.wall <= Max(s.wall, t.physical + MAX_CLOCK_DRIFT_MS)
  {
  }

  /** Whatever the readings and the remote stamps, a run never goes back; two points of it are
      strictly ordered exactly unless the counter was already full and the wall part has not moved
      since; and the wall part stays within the drift of the greatest physical reading so far. */
  lemma {:induction false} ClockRunIsMonotoneAndBounded(ticks: seq<Tick>, i: nat, j: nat)
    requires i <= j <= |ticks|
    ensures var a, b := After(ticks, i), After(ticks, j);
      && (a == b || StateLess(a, b))
      && (i < j ==> (StateLess(a, b) <==> a.counter < COUNTER_MAX || a.wall < b.wall))
      && b.wall <= MaxPhysical(ticks, j) + MAX_CLOCK_DRIFT_MS
    decreases j
  {
    if j > 0 {
      var m := if i < j then i else j - 1;
      ClockRunIsMonotoneAndBounded(ticks, m, j - 1);
      AdvanceStep(After(ticks, j - 1), ticks[j - 1]);
    }
  }

  /** The remote stamp of a tick as the clock takes it: one more than a minute ahead of the physical clock
      counts as made at the physical reading. */
  function Heeded(t: Tick): (r: Option<Hlc>)
  {
    if t.LocalTick? then None
    else if t.remote.wall > t.physical + 60_000 then Some(t.remote.(wall := t.physical))
    else Some(t.remote)
  }

  /** The clock follows time. After every tick of every run the wall part is the latest of what it was, the
      physical reading and the remote stamp. The counter starts again at 0 exactly when the reading is later
      than both; else it is one more than that of a stamp with that very wall part, and no less than one
      more than any of them, as far as it can count. */
  lemma {:induction false} ClockFollowsTime(ticks: seq<Tick>, n: nat)
    requires 0 < n <= |ticks|
    ensures var s, t, r := After(ticks, n - 1), ticks[n - 1], After(ticks, n);
      var heard := Heeded(t);
      && r.wall >= t.physical && r.wall >= s.wall && (heard.Some? ==> r.wall >= heard.value.wall)
      && (r.wall == t.physical || r.wall == s.wall || (heard.Some? && r.wall == heard.value.wall))
      && (r.counter == 0 <==> t.physical > s.wall && (heard.Some? ==> t.physical > heard.value.wall))
      && (r.wall == s.wall ==> r.counter > s.counter || r.counter == COUNTER_MAX)
      && (heard.Some? && r.wall == heard.value.wall ==> r.counter > heard.value.counter || r.counter == COUNTER_MAX)
      && (|| r.counter == 0
          || (r.wall == s.wall && r.counter <= s.counter + 1)
          || (heard.Some? && r.wall == heard.value.wall && r.counter <= heard.value.counter + 1))
  {
  }

  /** So it is never behind any reading it was given, and without remote stamps it is the latest of them. */
  lemma {:induction false} ClockKeepsUp(ticks: seq<Tick>, n: nat)
    requires n <= |ticks|
    ensures forall i :: 0 <= i < n ==> ticks[i].physical <= After(ticks, n).wall
    ensures (forall i :: 0 <= i < n ==> ticks[i].LocalTick?) ==> After(ticks, n).wall == MaxPhysical(ticks, n)
  {
    hide Advance;
    if n > 0 {
      ClockKeepsUp(ticks, n - 1);
      ClockFollowsTime(ticks, n);
      if forall i :: 0 <= i < n ==> ticks[i].LocalTick? { assert Heeded(ticks[n - 1]).None?; }
    }
  }

  /** `observe` lands strictly after the remote stamp exactly when: a remote stamp too far ahead was
      already behind the local clock; any other one left room in its counter, or is older than both
      the local clock and the physical one, or loses the tie on the device id. */
  lemma {:induction false} ObserveOrdersAfterRemote(s: State, physical: Wall, remote: Hlc, device: DeviceId)
    ensures var r := ObserveState(s, physical, remote);
      Less(remote, Hlc(r.wall, r.counter, device)) <==>
        if Clamped(physical, remote) then Less(remote, Hlc(s.wall, SaturatingIncrement(s.counter), device))
        else remote.counter < COUNTER_MAX || Max(s.wall, physical) > remote.wall || LexLess(remote.device, device)
  {
  }

  /** With a full counter the promise fails: the stamp returned can be the stamp received. */
  lemma {:induction false} SaturationBreaksOrder(device: DeviceId)
    ensures var remote := Hlc(5, COUNTER_MAX, device);
      var r := ObserveState(State(0, 0), 0, remote);
      !Less(remote, Hlc(r.wall, r.counter, device))
  {
    LexTrichotomy(device, device);
  }

  // ---- any number of clocks -----------------------------------------------

  /** One event of a distributed run. A receipt names the earlier event whose stamp it carries. */
  datatype Event = Local(device: DeviceId, physical: Wall) | Receive(device: DeviceId, physical: Wall, from: nat)

  predicate WellFormed(run: seq<Event>)
  {
    forall j :: 0 <= j < |run| && run[j].Receive? ==> run[j].from < j
  }

  /** The clock of `d` after the first `n` events. */
  function ClockOf(run: seq<Event>, n: nat, d: DeviceId): (r: State)
    requires WellFormed(run) && n <= |run|
    decreases n, 0
  {
    if n == 0 then State(0, 0)
    else if run[n - 1].device != d then ClockOf(run, n - 1, d)
    else StepState(run, n - 1)
  }

  /** The clock of the acting device just after event `j`. */
  function StepState(run: seq<Event>, j: nat): (r: State)
    requires WellFormed(run) && j < |run|
    decreases j, 1
  {
    var s := ClockOf(run, j, run[j].device);
    match run[j]
    case Local(_, p) => NowState(s, p)
    case Receive(_, p, from) => ObserveState(s, p, Stamp(run, from))
  }

  function Stamp(run: seq<Event>, j: nat): (r: Hlc)
    requires WellFormed(run) && j < |run|
    decreases j, 2
  {
    var s := StepState(run, j);
    Hlc(s.wall, s.counter, run[j].device)
  }

  /** The event would have to increment a counter that is already full. */
  predicate Saturates(run: seq<Event>, j: nat)
    requires WellFormed(run) && j < |run|
  {
    var s, p := ClockOf(run, j, run[j].device), run[j].physical;
    match run[j]
    case Local(_, _) => p <= s.wall && s.counter == COUNTER_MAX
    case Receive(_, _, from) =>
      var remote := Stamp(run, from);
      || (s.wall >= Max(remote.wall, p) && s.counter == COUNTER_MAX)
      || (remote.wall >= Max(s.wall, p) && remote.counter == COUNTER_MAX)
  }

  /** No event of the run clamps the remote stamp or has to increment a full counter. */
  ghost predicate Unexceptional(run: seq<Event>)
    requires WellFormed(run)
  {
    forall j :: 0 <= j < |run| ==>
      && !Saturates(run, j)
      && (run[j].Receive? ==> !Clamped(run[j].physical, Stamp(run, run[j].from)))
  }

  /** One link of happened-before: program order on a device, or a message. */
  predicate Edge(run: seq<Event>, i: nat, j: nat)
    requires j < |run|
  {
    i < j && (run[i].device == run[j].device || (run[j].Receive? && run[j].from == i))
  }

  ghost predicate HappenedBefore(run: seq<Event>, i: nat, j: nat)
    requires j < |run|
    decreases j
  {
    Edge(run, i, j) || exists k :: i < k < j && HappenedBefore(run, i, k) && Edge(run, k, j)
  }

  lemma {:induction false} ClockOnlyAdvances(run: seq<Event>, i: nat, n: nat)
    requires WellFormed(run) && i < n <= |run|
    ensures var s, t := StepState(run, i), ClockOf(run, n, run[i].device);
      s == t || StateLess(s, t)
    decreases n
  {
    if n > i + 1 {
      ClockOnlyAdvances(run, i, n - 1);
      var e, s := run[n - 1], ClockOf(run, n - 1, run[n - 1].device);
      AdvanceStep(s, if e.Local? then LocalTick(e.physical) else RemoteTick(e.physical, Stamp(run, e.from)));
      hide NowState, ObserveState, Stamp;
    }
  }

  lemma {:induction false} EdgeIncreases(run: seq<Event>, i: nat, j: nat)
    requires WellFormed(run) && Unexceptional(run) && j < |run| && Edge(run, i, j)
    ensures Less(Stamp(run, i), Stamp(run, j))
  {
    assert !Saturates(run, j);
    if run[i].device == run[j].device {
      ClockOnlyAdvances(run, i, j);
    }
  }

  /** Causality: on every run of any number of devices in which nothing is clamped or saturated,
      an event that happened before another carries a strictly smaller stamp. */
  lemma {:induction false} HappenedBeforeImpliesSmallerStamp(run: seq<Event>, i: nat, j: nat)
    requires WellFormed(run) && Unexceptional(run)
    requires j < |run| && i < |run| && HappenedBefore(run, i, j)
    ensures Less(Stamp(run, i), Stamp(run, j))
    decreases j
  {
    if Edge(run, i, j) {
      EdgeIncreases(run, i, j);
    } else {
      var k :| i < k < j && HappenedBefore(run, i, k) && Edge(run, k, j);
      HappenedBeforeImpliesSmallerStamp(run, i, k);
      EdgeIncreases(run, k, j);
      StampOrderIsTransitive(Stamp(run, i), Stamp(run, k), Stamp(run, j));
    }
  }
}
