/** Weighted build times: the event sweep that charges every build step its share of the
    elapsed time (rps-serve/tools/report_build_time_ninja.py). */
module BuildTimes {
  import opened Sums

  /** One build step. The times are fixed when the step is read; the outputs and the weighted
      duration are filled in later. */
  class Target {
    const start: real
    const end: real
    var targets: seq<string>
    var weightedDuration: real

    constructor (start: real, end: real)
      ensures this.start == start && this.end == end
      ensures targets == [] && weightedDuration == 0.0
    {
      this.start := start;
      this.end := end;
      targets := [];
      weightedDuration := 0.0;
    }

    function Duration(): real { end - start }

    method SetWeightedDuration(d: real)
      modifies this`weightedDuration
      ensures weightedDuration == d
    {
      weightedDuration := d;
    }
  }

  datatype Kind = Start | Stop
  datatype Event = Event(time: real, kind: Kind, target: Target)

  // ---------------------------------------------------------------- sorting the events

  /** The sort key is the pair (time, kind), and "start" precedes "stop" in the alphabet. */
  predicate KeyLe(e: Event, f: Event) {
    e.time < f.time || (e.time == f.time && (e.kind.Start? || f.kind.Stop?))
  }

  ghost predicate Sorted(evs: seq<Event>) {
    forall i, j :: 0 <= i < j < |evs| ==> KeyLe(evs[i], evs[j])
  }

  function EventsOf(entries: seq<Target>): seq<Event> {
    if entries == [] then []
    else
      var t := entries[|entries| - 1];
      EventsOf(entries[..|entries| - 1]) + [Event(t.start, Start, t), Event(t.end, Stop, t)]
  }

  /** Any order the sort may produce; ties are left open. */
  ghost predicate Schedule(evs: seq<Event>, entries: seq<Target>) {
    Sorted(evs) && multiset(evs) == multiset(EventsOf(entries))
  }

  function Insert(e: Event, evs: seq<Event>): (r: seq<Event>)
    requires Sorted(evs)
    ensures Sorted(r) && multiset(r) == multiset(evs) + multiset{e}
  {
    if evs == [] then [e]
    else if KeyLe(evs[|evs| - 1], e) then evs + [e]
    else
      var last := evs[|evs| - 1];
      assert evs == evs[..|evs| - 1] + [last];
      var r := Insert(e, evs[..|evs| - 1]);
      assert forall x :: x in r ==> x in multiset(r);
      assert forall x :: x in evs[..|evs| - 1] ==> KeyLe(x, last);
      assert forall x :: x in r ==> KeyLe(x, last);
      r + [last]
  }

  /** A stable insertion sort, standing for the library sort. */
  function SortEvents(evs: seq<Event>): (r: seq<Event>)
    ensures Sorted(r) && multiset(r) == multiset(evs)
  {
    if evs == [] then []
    else
      assert evs == evs[..|evs| - 1] + [evs[|evs| - 1]];
      Insert(evs[|evs| - 1], SortEvents(evs[..|evs| - 1]))
  }

  // ---------------------------------------------------------------- what the sweep tracks

  /** The keys of running_tasks after the first k events. */
  ghost function Running(evs: seq<Event>, k: nat): set<Target>
    requires k <= |evs|
  {
    if k == 0 then {}
    else if evs[k - 1].kind.Start? then Running(evs, k - 1) + {evs[k - 1].target}
    else Running(evs, k - 1) - {evs[k - 1].target}
  }

  /** Event k does not raise a KeyError: if it is a stop event, its task is running. */
  ghost predicate StopFound(evs: seq<Event>, k: nat)
    requires k < |evs|
  {
    evs[k].kind.Stop? ==> evs[k].target in Running(evs, k)
  }

  ghost predicate NoKeyError(evs: seq<Event>) {
    forall k :: 0 <= k < |evs| ==> StopFound(evs, k)
  }

  /** What the running total gains between events k and k + 1. */
  ghost function Gain(evs: seq<Event>, k: int): real {
    if 0 <= k < |evs| - 1 then PerTask(evs[k + 1].time - evs[k].time, |Running(evs, k + 1)|) else 0.0
  }

  function PerTask(span: real, n: nat): real {
    if n > 0 then span / n as real else 0.0
  }

  /** The running total of weighted time at event k. */
  ghost function Reading(evs: seq<Event>, k: nat): real {
    Sum(k, j => Gain(evs, j))
  }

  // ---------------------------------------------------------------- the direct definitions

  ghost predicate Distinct(entries: seq<Target>) {
    forall i, j :: 0 <= i < j < |entries| ==> entries[i] != entries[j]
  }

  ghost predicate WellFormed(entries: seq<Target>) {
    Distinct(entries) && forall t :: t in entries ==> t.start <= t.end
  }

  /** Task t runs throughout [lo, hi]. */
  predicate Covers(t: Target, lo: real, hi: real) { t.start <= lo && hi <= t.end }

  /** How many tasks run throughout [lo, hi]. */
  ghost function Load(entries: seq<Target>, lo: real, hi: real): nat {
    Count(|entries|, i => 0 <= i < |entries| && Covers(entries[i], lo, hi))
  }

  /** The share of [lo, hi] that belongs to task t: the slice divided by the load on it. */
  ghost function Share(entries: seq<Target>, t: Target, lo: real, hi: real): real {
    if Covers(t, lo, hi) then PerTask(hi - lo, Load(entries, lo, hi)) else 0.0
  }

  ghost function Times(evs: seq<Event>): seq<real> { seq(|evs|, i requires 0 <= i < |evs| => evs[i].time) }

  function Slices(pts: seq<real>): nat { if |pts| == 0 then 0 else |pts| - 1 }

  ghost function ShareAt(entries: seq<Target>, t: Target, pts: seq<real>, k: int): real {
    if 0 <= k < Slices(pts) then Share(entries, t, pts[k], pts[k + 1]) else 0.0
  }

  ghost function BusyAt(entries: seq<Target>, pts: seq<real>, k: int): real {
    if 0 <= k < Slices(pts) && Load(entries, pts[k], pts[k + 1]) > 0 then pts[k + 1] - pts[k] else 0.0
  }

  /** The weighted duration of t, summed directly over the elementary slices between time stamps. */
  ghost function Weighted(entries: seq<Target>, t: Target, pts: seq<real>): real {
    Sum(Slices(pts), k => ShareAt(entries, t, pts, k))
  }

  /** Total length of the elementary slices during which at least one task runs. */
  ghost function Busy(entries: seq<Target>, pts: seq<real>): real {
    Sum(Slices(pts), k => BusyAt(entries, pts, k))
  }

  // ---------------------------------------------------------------- events and entries

  lemma {:induction false} EventsOfMembers(entries: seq<Target>, e: Event)
    ensures e in EventsOf(entries) <==>
      e.target in entries && e.time == (if e.kind.Start? then e.target.start else e.target.end)
    ensures |EventsOf(entries)| == 2 * |entries|
  {
    if entries != [] {
      var n := |entries| - 1;
      assert entries == entries[..n] + [entries[n]];
      EventsOfMembers(entries[..n], e);
    }
  }

  lemma {:induction false} EventsOfOnce(entries: seq<Target>, e: Event)
    requires Distinct(entries)
    ensures multiset(EventsOf(entries))[e] <= 1
  {
    if entries != [] {
      var n := |entries| - 1;
      assert entries[n] !in entries[..n];
      EventsOfOnce(entries[..n], e);
      EventsOfMembers(entries[..n], e);
      var two := [Event(entries[n].start, Start, entries[n]), Event(entries[n].end, Stop, entries[n])];
      assert multiset(two)[e] <= 1;
      if e in two {
        assert e !in EventsOf(entries[..n]);
      }
    }
  }

  /** A member of multiplicity one has one index. */
  lemma OneIndex<T>(s: seq<T>, i: int, j: int)
    requires 0 <= i < j < |s| && s[i] == s[j]
    ensures multiset(s)[s[i]] >= 2
  {
    assert s == s[..i] + [s[i]] + s[i + 1..j] + [s[j]] + s[j + 1..];
  }

  lemma ScheduleMembers(evs: seq<Event>, entries: seq<Target>)
    requires Schedule(evs, entries)
    ensures |evs| == 2 * |entries|
    ensures forall k :: 0 <= k < |evs| ==> evs[k].target in entries
    ensures forall k :: 0 <= k < |evs| ==>
      evs[k].time == (if evs[k].kind.Start? then evs[k].target.start else evs[k].target.end)
    ensures forall t :: t in entries ==> Event(t.start, Start, t) in evs && Event(t.end, Stop, t) in evs
  {
    assert |evs| == |multiset(evs)| == |EventsOf(entries)|;
    if entries != [] { EventsOfMembers(entries, Event(0.0, Start, entries[0])); }
    forall k | 0 <= k < |evs|
      ensures evs[k].target in entries &&
        evs[k].time == (if evs[k].kind.Start? then evs[k].target.start else evs[k].target.end)
    {
      assert evs[k] in multiset(evs);
      EventsOfMembers(entries, evs[k]);
    }
    forall t | t in entries ensures Event(t.start, Start, t) in evs && Event(t.end, Stop, t) in evs {
      EventsOfMembers(entries, Event(t.start, Start, t));
      EventsOfMembers(entries, Event(t.end, Stop, t));
      assert Event(t.start, Start, t) in multiset(evs) && Event(t.end, Stop, t) in multiset(evs);
    }
  }

  /** With distinct entries no event occurs twice. */
  lemma ScheduleUnique(evs: seq<Event>, entries: seq<Target>, i: int, j: int)
    requires Schedule(evs, entries) && Distinct(entries)
    requires 0 <= i < |evs| && 0 <= j < |evs|
    requires evs[i].kind == evs[j].kind && evs[i].target == evs[j].target
    ensures i == j
  {
    ScheduleMembers(evs, entries);
    assert evs[i] == evs[j];
    EventsOfOnce(entries, evs[i]);
    if i < j { OneIndex(evs, i, j); } else if j < i { OneIndex(evs, j, i); }
  }

  ghost function IndexOf(evs: seq<Event>, e: Event): (k: int)
    ensures e in evs ==> 0 <= k < |evs| && evs[k] == e
  {
    if e in evs then var k :| 0 <= k < |evs| && evs[k] == e; k else -1
  }

  /** Where t starts and stops in the schedule. */
  ghost function StartAt(evs: seq<Event>, t: Target): int { IndexOf(evs, Event(t.start, Start, t)) }

  ghost function StopAt(evs: seq<Event>, t: Target): int { IndexOf(evs, Event(t.end, Stop, t)) }

  /** The facts about one entry's two events that the proofs use. */
  lemma Located(evs: seq<Event>, entries: seq<Target>, t: Target)
    requires Schedule(evs, entries) && WellFormed(entries) && t in entries
    ensures 0 <= StartAt(evs, t) < StopAt(evs, t) < |evs|
    ensures evs[StartAt(evs, t)] == Event(t.start, Start, t) && evs[StopAt(evs, t)] == Event(t.end, Stop, t)
    ensures forall k :: 0 <= k < |evs| && evs[k].target == t ==>
      k == if evs[k].kind.Start? then StartAt(evs, t) else StopAt(evs, t)
  {
    ScheduleMembers(evs, entries);
    forall k | 0 <= k < |evs| && evs[k].target == t
      ensures k == if evs[k].kind.Start? then StartAt(evs, t) else StopAt(evs, t)
    {
      ScheduleUnique(evs, entries, k, if evs[k].kind.Start? then StartAt(evs, t) else StopAt(evs, t));
    }
  }

  // ---------------------------------------------------------------- safety of the sweep

  lemma {:induction false} RunningMember(evs: seq<Event>, k: nat, t: Target)
    requires k <= |evs|
    ensures t in Running(evs, k) <==>
      exists j :: 0 <= j < k && evs[j] == Event(evs[j].time, Start, t) && NoStopIn(evs, j, k, t)
  {
    if k > 0 {
      RunningMember(evs, k - 1, t);
      if evs[k - 1].target == t {
        assert NoStopIn(evs, k - 1, k, t) <==> evs[k - 1].kind.Start?;
      } else {
        forall j | 0 <= j < k - 1 ensures NoStopIn(evs, j, k, t) == NoStopIn(evs, j, k - 1, t) {}
      }
      if evs[k - 1].target == t && evs[k - 1].kind.Stop? {
        forall j | 0 <= j < k ensures !NoStopIn(evs, j, k, t) {}
      } else {
        forall j | 0 <= j < k - 1 ensures NoStopIn(evs, j, k, t) == NoStopIn(evs, j, k - 1, t) {}
      }
    }
  }

  ghost predicate NoStopIn(evs: seq<Event>, lo: nat, hi: nat, t: Target)
    requires lo <= hi <= |evs|
  {
    forall m :: lo <= m < hi && evs[m].target == t ==> evs[m].kind.Start?
  }

  /** With well-formed entries, a task is running exactly between its two events. */
  lemma {:induction false} RunningBetween(evs: seq<Event>, entries: seq<Target>, t: Target, k: nat)
    requires Schedule(evs, entries) && WellFormed(entries) && t in entries && k <= |evs|
    ensures t in Running(evs, k) <==> StartAt(evs, t) < k <= StopAt(evs, t)
  {
    Located(evs, entries, t);
    RunningMember(evs, k, t);
    if StartAt(evs, t) < k <= StopAt(evs, t) {
      assert NoStopIn(evs, StartAt(evs, t), k, t);
    }
  }

  /** The sweep stops only running tasks exactly when the entries are distinct and none ends
      before it starts, in whatever order the sort leaves ties. */
  lemma {:induction false} SweepSafety(evs: seq<Event>, entries: seq<Target>)
    requires Schedule(evs, entries)
    ensures NoKeyError(evs) <==> WellFormed(entries)
    ensures WellFormed(entries) ==> Running(evs, |evs|) == {}
  {
    if WellFormed(entries) {
      WellFormedRuns(evs, entries);
    } else if !Distinct(entries) {
      var i, j :| 0 <= i < j < |entries| && entries[i] == entries[j];
      RepeatedEntry(evs, entries, i, j);
    } else {
      var t :| t in entries && !(t.start <= t.end);
      BackwardEntry(evs, entries, t);
    }
  }

  lemma {:induction false} WellFormedRuns(evs: seq<Event>, entries: seq<Target>)
    requires Schedule(evs, entries) && WellFormed(entries)
    ensures NoKeyError(evs)
    ensures Running(evs, |evs|) == {}
  {
    forall k | 0 <= k < |evs| ensures StopFound(evs, k) {
      if evs[k].kind.Stop? { StopFindsTarget(evs, entries, k); }
    }
    NothingLeft(evs, entries);
  }

  lemma {:induction false} StopFindsTarget(evs: seq<Event>, entries: seq<Target>, k: nat)
    requires Schedule(evs, entries) && WellFormed(entries)
    requires k < |evs| && evs[k].kind.Stop?
    ensures evs[k].target in Running(evs, k)
  {
    assert evs[k].target in entries by { ScheduleMembers(evs, entries); }
    Located(evs, entries, evs[k].target);
    RunningBetween(evs, entries, evs[k].target, k);
  }

  lemma {:induction false} NothingLeft(evs: seq<Event>, entries: seq<Target>)
    requires Schedule(evs, entries) && WellFormed(entries)
    ensures Running(evs, |evs|) == {}
  {
    if Running(evs, |evs|) != {} {
      var t :| t in Running(evs, |evs|);
      RunningListed(evs, entries, |evs|, t);
      Located(evs, entries, t);
      RunningBetween(evs, entries, t, |evs|);
    }
  }

  lemma {:induction false} RunningListed(evs: seq<Event>, entries: seq<Target>, k: nat, t: Target)
    requires Schedule(evs, entries) && k <= |evs| && t in Running(evs, k)
    ensures t in entries
  {
    RunningMember(evs, k, t);
    ScheduleMembers(evs, entries);
  }

  /** The stop of an entry that ends before it starts sorts ahead of all its starts. */
  lemma BackwardEntry(evs: seq<Event>, entries: seq<Target>, t: Target)
    requires Schedule(evs, entries) && t in entries && t.end < t.start
    ensures !NoKeyError(evs)
  {
    ScheduleMembers(evs, entries);
    var k :| 0 <= k < |evs| && evs[k] == Event(t.end, Stop, t);
    RunningMember(evs, k, t);
    assert !StopFound(evs, k);
  }

  /** An entry listed twice has two equal stop events, and the second finds nothing to stop. */
  lemma RepeatedEntry(evs: seq<Event>, entries: seq<Target>, i: int, j: int)
    requires Schedule(evs, entries)
    requires 0 <= i < j < |entries| && entries[i] == entries[j]
    ensures !NoKeyError(evs)
  {
    var t := entries[i];
    CopiesTwice(entries, i, j);
    StopPerCopy(entries, t);
    var p, q := TwoIndices(evs, Event(t.end, Stop, t));
    RunningMember(evs, q, t);
    forall m | 0 <= m < q && evs[m] == Event(evs[m].time, Start, t) ensures !NoStopIn(evs, m, q, t) {
      assert m < p;
    }
    assert !StopFound(evs, q);
  }

  ghost function Copies(entries: seq<Target>, t: Target): nat {
    if entries == [] then 0
    else Copies(entries[..|entries| - 1], t) + if entries[|entries| - 1] == t then 1 else 0
  }

  lemma {:induction false} CopiesTwice(entries: seq<Target>, i: int, j: int)
    requires 0 <= i <= j < |entries| && entries[i] == entries[j]
    ensures Copies(entries, entries[i]) >= if i < j then 2 else 1
  {
    var n := |entries| - 1;
    if j < n { CopiesTwice(entries[..n], i, j); } else if i < j { CopiesTwice(entries[..n], i, i); }
  }

  /** There are as many stop events of a target as entries for it. */
  lemma {:induction false} StopPerCopy(entries: seq<Target>, t: Target)
    ensures multiset(EventsOf(entries))[Event(t.end, Stop, t)] == Copies(entries, t)
  {
    if entries != [] {
      StopPerCopy(entries[..|entries| - 1], t);
      EventsOfLast(entries, t);
    }
  }

  lemma {:induction false} EventsOfLast(entries: seq<Target>, t: Target)
    requires entries != []
    ensures var e, n := Event(t.end, Stop, t), |entries| - 1;
      multiset(EventsOf(entries))[e] == multiset(EventsOf(entries[..n]))[e] + if entries[n] == t then 1 else 0
  {
    var u := entries[|entries| - 1];
    var a, b := Event(u.start, Start, u), Event(u.end, Stop, u);
    assert multiset([a, b]) == multiset{a} + multiset{b};
  }

  lemma TwoIndices<T>(s: seq<T>, x: T) returns (p: int, q: int)
    requires multiset(s)[x] >= 2
    ensures 0 <= p < q < |s| && s[p] == x == s[q]
  {
    p :| 0 <= p < |s| && s[p] == x;
    assert s == s[..p] + [x] + s[p + 1..];
    var rest := s[..p] + s[p + 1..];
    assert multiset(s) == multiset(rest) + multiset{x};
    assert x in rest;
    var r :| 0 <= r < |rest| && rest[r] == x;
    if r < p { q := p; p := r; } else { q := r + 1; }
  }

  // ---------------------------------------------------------------- the sweep refines the direct definition

  /** On a slice of positive length the running tasks are those that cover it. */
  lemma SliceCover(evs: seq<Event>, entries: seq<Target>, t: Target, k: nat)
    requires Schedule(evs, entries) && WellFormed(entries) && t in entries
    requires k + 1 < |evs| && evs[k].time < evs[k + 1].time
    ensures StartAt(evs, t) <= k < StopAt(evs, t) <==> Covers(t, evs[k].time, evs[k + 1].time)
  {
    Located(evs, entries, t);
    assert forall i, j :: 0 <= i < j < |evs| ==> KeyLe(evs[i], evs[j]);
  }

  lemma SliceLoad(evs: seq<Event>, entries: seq<Target>, k: nat)
    requires Schedule(evs, entries) && WellFormed(entries)
    requires k + 1 < |evs| && evs[k].time < evs[k + 1].time
    ensures |Running(evs, k + 1)| == Load(entries, evs[k].time, evs[k + 1].time)
  {
    var p := i => 0 <= i < |entries| && Covers(entries[i], evs[k].time, evs[k + 1].time);
    var s := Running(evs, k + 1);
    forall i | 0 <= i < |entries| ensures p(i) <==> entries[i] in s {
      SliceCover(evs, entries, entries[i], k);
      RunningBetween(evs, entries, entries[i], k + 1);
    }
    forall t | t in s ensures exists i :: 0 <= i < |entries| && p(i) && entries[i] == t {
      RunningListed(evs, entries, k + 1, t);
      var i :| 0 <= i < |entries| && entries[i] == t;
      assert p(i);
    }
    CountIsCardinality(entries, p, s);
  }

  /** What the sweep charges a task that is running between events lo and hi for slice k. */
  ghost function Charge(evs: seq<Event>, lo: int, hi: int, k: int): real {
    if lo <= k < hi then Gain(evs, k) else 0.0
  }

  lemma ChargeIsShare(evs: seq<Event>, entries: seq<Target>, t: Target, k: int)
    requires Schedule(evs, entries) && WellFormed(entries) && t in entries && 0 <= k < |evs| - 1
    ensures Charge(evs, StartAt(evs, t), StopAt(evs, t), k) == ShareAt(entries, t, Times(evs), k)
  {
    var lo, hi := evs[k].time, evs[k + 1].time;
    assert KeyLe(evs[k], evs[k + 1]);
    if lo < hi {
      SliceCover(evs, entries, t, k);
      SliceLoad(evs, entries, k);
    } else {
      NoSpan(|Running(evs, k + 1)|);
      NoSpan(Load(entries, lo, hi));
    }
  }

  lemma NoSpan(n: nat)
    ensures PerTask(0.0, n) == 0.0
  {}

  /** The difference of the two readings taken at a task's own events. */
  ghost function Elapsed(evs: seq<Event>, t: Target): real {
    var a, b := StartAt(evs, t), StopAt(evs, t);
    if 0 <= a <= b then Reading(evs, b) - Reading(evs, a) else 0.0
  }

  /** The one subtraction per task computes the task's direct weighted duration. */
  lemma SweepRefinesDirect(evs: seq<Event>, entries: seq<Target>, t: Target)
    requires Schedule(evs, entries) && WellFormed(entries) && t in entries
    ensures Elapsed(evs, t) == Weighted(entries, t, Times(evs))
  {
    InRange(evs, entries, t);
    var a, b := StartAt(evs, t), StopAt(evs, t);
    var gain, charge := k => Gain(evs, k), k => Charge(evs, a, b, k);
    ChargesAreShares(evs, entries, t, charge);
    ReadingSums(evs, a, gain);
    ReadingSums(evs, b, gain);
    SumWindow(Slices(Times(evs)), gain, a, b, charge);
  }

  ghost predicate IsGain(evs: seq<Event>, gain: int -> real) {
    forall k {:trigger Gain(evs, k)} :: gain(k) == Gain(evs, k)
  }

  lemma {:induction false} ReadingSums(evs: seq<Event>, k: nat, gain: int -> real)
    requires IsGain(evs, gain)
    ensures Reading(evs, k) == Sum(k, gain)
  {
    forall j | 0 <= j < k ensures gain(j) == (j => Gain(evs, j))(j) {
      assert gain(j) == Gain(evs, j);
    }
    SumExt(k, gain, j => Gain(evs, j));
  }

  lemma InRange(evs: seq<Event>, entries: seq<Target>, t: Target)
    requires Schedule(evs, entries) && WellFormed(entries) && t in entries
    ensures 0 <= StartAt(evs, t) < StopAt(evs, t) < |evs|
  {
    Located(evs, entries, t);
  }

  lemma ChargesAreShares(evs: seq<Event>, entries: seq<Target>, t: Target, charge: int -> real)
    requires Schedule(evs, entries) && WellFormed(entries) && t in entries
    requires forall k :: charge(k) == Charge(evs, StartAt(evs, t), StopAt(evs, t), k)
    ensures Sum(Slices(Times(evs)), charge) == Weighted(entries, t, Times(evs))
  {
    var share := k => ShareAt(entries, t, Times(evs), k);
    forall k | 0 <= k < |evs| - 1 ensures charge(k) == share(k) {
      ChargeIsShare(evs, entries, t, k);
    }
    SumExt(Slices(Times(evs)), charge, share);
  }

  // ---------------------------------------------------------------- conservation

  /** Within a slice all running tasks are charged alike, together the whole slice, and no others. */
  lemma {:induction false} ShareFair(entries: seq<Target>, t: Target, u: Target, lo: real, hi: real)
    requires t in entries && t.start <= lo && hi <= t.end
    ensures u.start <= lo && hi <= u.end ==> Share(entries, u, lo, hi) == Share(entries, t, lo, hi)
    ensures u.start > lo || hi > u.end ==> Share(entries, u, lo, hi) == 0.0
    ensures Load(entries, lo, hi) > 0 && Share(entries, t, lo, hi) * Load(entries, lo, hi) as real == hi - lo
  {
    var i :| 0 <= i < |entries| && entries[i] == t;
    var covers := (i: int) => 0 <= i < |entries| && Covers(entries[i], lo, hi);
    assert covers(i);
    CountPositive(|entries|, covers);
    CountExt(|entries|, covers, i => 0 <= i < |entries| && Covers(entries[i], lo, hi));
    PerTaskTimes(hi - lo, Load(entries, lo, hi));
  }

  /** Whatever the time stamps, the direct weighted durations of all tasks add up to the busy time. */
  lemma {:induction false} Conservation(entries: seq<Target>, pts: seq<real>, w: int -> real)
    requires forall i :: 0 <= i < |entries| ==> w(i) == Weighted(entries, entries[i], pts)
    ensures Sum(|entries|, w) == Busy(entries, pts)
  {
    var f := (i: int, k: int) => if 0 <= i < |entries| then ShareAt(entries, entries[i], pts, k) else 0.0;
    var busy := k => BusyAt(entries, pts, k);
    forall i | 0 <= i < |entries| ensures w(i) == Sum(Slices(pts), k => f(i, k)) {
      SumExt(Slices(pts), k => ShareAt(entries, entries[i], pts, k), k => f(i, k));
    }
    forall k | 0 <= k < Slices(pts) ensures busy(k) == Sum(|entries|, i => f(i, k)) {
      SharesFillSlice(entries, pts[k], pts[k + 1], i => f(i, k));
    }
    SumSwap(|entries|, Slices(pts), f, w, busy);
  }

  lemma {:induction false} SharesFillSlice(entries: seq<Target>, lo: real, hi: real, f: int -> real)
    requires forall i :: 0 <= i < |entries| ==> f(i) == Share(entries, entries[i], lo, hi)
    ensures Sum(|entries|, f) == if Load(entries, lo, hi) > 0 then hi - lo else 0.0
  {
    var p := i => 0 <= i < |entries| && Covers(entries[i], lo, hi);
    var n := Load(entries, lo, hi);
    CountExt(|entries|, p, i => 0 <= i < |entries| && Covers(entries[i], lo, hi));
    SumIndicator(|entries|, p, PerTask(hi - lo, n), f);
    PerTaskTimes(hi - lo, n);
  }

  lemma PerTaskTimes(x: real, n: nat)
    ensures PerTask(x, n) * n as real == if n > 0 then x else 0.0
    ensures x >= 0.0 ==> 0.0 <= PerTask(x, n) <= x
  {}

  // ---------------------------------------------------------------- bounds

  ghost predicate Ascending(pts: seq<real>) {
    forall i, j :: 0 <= i <= j < |pts| ==> pts[i] <= pts[j]
  }

  lemma {:induction false} Telescope(pts: seq<real>, n: nat, f: int -> real)
    requires n < |pts|
    requires forall k :: 0 <= k < n ==> f(k) == pts[k + 1] - pts[k]
    ensures Sum(n, f) == pts[n] - pts[0]
  {
    if n > 0 { Telescope(pts, n - 1, f); }
  }

  /** A task's weighted duration lies between zero and its duration. */
  lemma WeightedBound(entries: seq<Target>, t: Target, pts: seq<real>)
    requires Ascending(pts) && |pts| > 0 && t.start <= t.end
    requires t.start in pts && t.end in pts
    ensures 0.0 <= Weighted(entries, t, pts) <= t.Duration()
  {
    var share := k => ShareAt(entries, t, pts, k);
    var clipped := seq(|pts|, k requires 0 <= k < |pts| => Clip(t, pts[k]));
    var f := k => if 0 <= k < Slices(pts) then clipped[k + 1] - clipped[k] else 0.0;
    forall k | 0 <= k < Slices(pts) ensures 0.0 <= share(k) <= f(k) {
      ShareClipped(entries, t, pts[k], pts[k + 1]);
    }
    Telescope(clipped, Slices(pts), f);
    SumNonNegative(Slices(pts), share);
    SumLe(Slices(pts), share, f);
  }

  function Clip(t: Target, x: real): real {
    if x < t.start then t.start else if x > t.end then t.end else x
  }

  lemma ShareClipped(entries: seq<Target>, t: Target, lo: real, hi: real)
    requires t.start <= t.end && lo <= hi
    ensures 0.0 <= Share(entries, t, lo, hi) <= Clip(t, hi) - Clip(t, lo)
  {
    PerTaskTimes(hi - lo, Load(entries, lo, hi));
  }

  /** Some task runs at instant x. */
  ghost predicate RunsAt(entries: seq<Target>, x: real) {
    exists i :: 0 <= i < |entries| && Covers(entries[i], x, x)
  }

  ghost function IdleAt(entries: seq<Target>, pts: seq<real>, k: int): real {
    if 0 <= k < Slices(pts) && Load(entries, pts[k], pts[k + 1]) == 0 then pts[k + 1] - pts[k] else 0.0
  }

  /** The busy time is the elapsed time less the idle slices. */
  lemma BusyPlusIdle(entries: seq<Target>, pts: seq<real>)
    requires Ascending(pts) && |pts| > 0
    ensures Busy(entries, pts) + Sum(Slices(pts), k => IdleAt(entries, pts, k)) == pts[|pts| - 1] - pts[0]
    ensures forall k :: 0 <= k < Slices(pts) ==> IdleAt(entries, pts, k) >= 0.0
  {
    var whole := k => if 0 <= k < Slices(pts) then pts[k + 1] - pts[k] else 0.0;
    SumPlus(Slices(pts), k => BusyAt(entries, pts, k), k => IdleAt(entries, pts, k), whole);
    Telescope(pts, Slices(pts), whole);
  }

  /** The busy time is all of the elapsed time exactly when some task runs at every instant
      between the first and the last time stamp. */
  lemma BusyIsSpanIffNoGap(entries: seq<Target>, pts: seq<real>)
    requires Ascending(pts) && |pts| > 0
    requires forall t :: t in entries ==> t.start in pts && t.end in pts
    requires forall x :: x in pts ==> RunsAt(entries, x)
    ensures Busy(entries, pts) <= pts[|pts| - 1] - pts[0]
    ensures Busy(entries, pts) == pts[|pts| - 1] - pts[0]
      <==> forall x: real :: pts[0] <= x <= pts[|pts| - 1] ==> RunsAt(entries, x)
  {
    var idle := k => IdleAt(entries, pts, k);
    BusyPlusIdle(entries, pts);
    SumNonNegative(Slices(pts), idle);
    if k :| 0 <= k < Slices(pts) && idle(k) != 0.0 {
      SumTerm(Slices(pts), idle, k);
      IdleMidpoint(entries, pts, k);
    } else {
      SumZero(Slices(pts), idle);
      assert forall k :: 0 <= k < Slices(pts) ==> idle(k) == IdleAt(entries, pts, k);
      forall x: real | pts[0] <= x <= pts[|pts| - 1] ensures RunsAt(entries, x) {
        NoIdleSlice(entries, pts, x);
      }
    }
  }

  lemma NoIdleSlice(entries: seq<Target>, pts: seq<real>, x: real)
    requires Ascending(pts) && |pts| > 0 && pts[0] <= x <= pts[|pts| - 1]
    requires forall x :: x in pts ==> RunsAt(entries, x)
    requires forall k :: 0 <= k < Slices(pts) ==> IdleAt(entries, pts, k) == 0.0
    ensures RunsAt(entries, x)
  {
    var k := SliceOf(pts, x, |pts| - 1);
    if pts[k] < x {
      assert IdleAt(entries, pts, k) == 0.0;
      LoadedSlice(entries, pts[k], pts[k + 1]);
      var i :| 0 <= i < |entries| && Covers(entries[i], pts[k], pts[k + 1]);
      assert Covers(entries[i], x, x);
    } else {
      assert x in pts;
    }
  }

  lemma LoadedSlice(entries: seq<Target>, lo: real, hi: real)
    ensures Load(entries, lo, hi) > 0 <==> exists i :: 0 <= i < |entries| && Covers(entries[i], lo, hi)
  {
    var p := i => 0 <= i < |entries| && Covers(entries[i], lo, hi);
    CountPositive(|entries|, p);
    CountExt(|entries|, p, i => 0 <= i < |entries| && Covers(entries[i], lo, hi));
    if exists i :: 0 <= i < |entries| && Covers(entries[i], lo, hi) {
      var i :| 0 <= i < |entries| && Covers(entries[i], lo, hi);
      assert p(i);
    }
  }

  lemma IdleMidpoint(entries: seq<Target>, pts: seq<real>, k: int)
    requires Ascending(pts) && 0 <= k < |pts| - 1 && IdleAt(entries, pts, k) != 0.0
    requires forall t :: t in entries ==> t.start in pts && t.end in pts
    ensures exists x: real :: pts[0] <= x <= pts[|pts| - 1] && !RunsAt(entries, x)
  {
    var x := (pts[k] + pts[k + 1]) / 2.0;
    assert pts[k] < x < pts[k + 1];
    LoadedSlice(entries, pts[k], pts[k + 1]);
    forall i | 0 <= i < |entries| ensures !Covers(entries[i], x, x) {
      var t := entries[i];
      assert t in entries;
      var p :| 0 <= p < |pts| && pts[p] == t.start;
      var q :| 0 <= q < |pts| && pts[q] == t.end;
      assert !Covers(t, pts[k], pts[k + 1]);
      assert p <= k ==> pts[p] <= pts[k];
      assert k + 1 <= p ==> pts[k + 1] <= pts[p];
      assert q <= k ==> pts[q] <= pts[k];
      assert k + 1 <= q ==> pts[k + 1] <= pts[q];
    }
    assert !RunsAt(entries, x);
  }

  /** The slice that ends at or after x and starts at or before it. */
  lemma {:induction false} SliceOf(pts: seq<real>, x: real, n: nat) returns (k: nat)
    requires Ascending(pts) && n < |pts| && pts[0] <= x <= pts[n]
    ensures k <= n && pts[k] <= x
    ensures pts[k] < x ==> k < n && x <= pts[k + 1]
  {
    if n == 0 || pts[n] == x { k := n; }
    else if pts[n - 1] <= x { k := n - 1; }
    else { k := SliceOf(pts, x, n - 1); }
  }

  // ---------------------------------------------------------------- tie order does not matter

  /** Any two schedules of the same entries have the same time stamps. */
  lemma TieOrderIrrelevant(evs: seq<Event>, evs': seq<Event>, entries: seq<Target>)
    requires Schedule(evs, entries) && Schedule(evs', entries)
    ensures Times(evs) == Times(evs')
  {
    TimesMultiset(evs, evs');
    forall i, j | 0 <= i <= j < |evs| ensures Times(evs)[i] <= Times(evs)[j] {
      if i < j { assert KeyLe(evs[i], evs[j]); }
    }
    forall i, j | 0 <= i <= j < |evs'| ensures Times(evs')[i] <= Times(evs')[j] {
      if i < j { assert KeyLe(evs'[i], evs'[j]); }
    }
    AscendingUnique(Times(evs), Times(evs'));
  }

  lemma TimesJoin(u: seq<Event>, e: Event, v: seq<Event>)
    ensures multiset(Times(u + [e] + v)) == multiset(Times(u + v)) + multiset{e.time}
  {
    assert Times(u + [e] + v) == Times(u) + [e.time] + Times(v);
    assert Times(u + v) == Times(u) + Times(v);
  }

  lemma SplitAt<T>(q: seq<T>, e: T) returns (u: seq<T>, v: seq<T>)
    requires e in q
    ensures q == u + [e] + v && multiset(u + v) == multiset(q) - multiset{e}
  {
    var j :| 0 <= j < |q| && q[j] == e;
    u, v := q[..j], q[j + 1..];
    assert q == u + [e] + v;
  }

  lemma {:induction false} TimesMultiset(p: seq<Event>, q: seq<Event>)
    requires multiset(p) == multiset(q)
    ensures multiset(Times(p)) == multiset(Times(q))
    decreases |p|
  {
    if p == [] {
      assert |q| == |multiset(q)| == 0;
    } else {
      var e := p[0];
      assert e in multiset(q);
      var u, v := SplitAt(p, e);
      var w, x := SplitAt(q, e);
      TimesJoin(u, e, v);
      TimesJoin(w, e, x);
      TimesMultiset(u + v, w + x);
    }
  }

  lemma WithoutLast<T>(p: seq<T>)
    requires p != []
    ensures var n := |p| - 1; p == p[..n] + [p[n]] && multiset(p[..n]) == multiset(p) - multiset{p[n]}
  {
    assert p == p[..|p| - 1] + [p[|p| - 1]];
  }

  lemma {:induction false} AscendingUnique(p: seq<real>, q: seq<real>)
    requires Ascending(p) && Ascending(q) && multiset(p) == multiset(q)
    ensures p == q
  {
    assert |p| == |multiset(p)| == |multiset(q)| == |q|;
    if p != [] {
      var n := |p| - 1;
      MaxLast(p, q);
      MaxLast(q, p);
      var p', q' := p[..n], q[..n];
      WithoutLast(p);
      WithoutLast(q);
      AscendsBefore(p, p');
      AscendsBefore(q, q');
      AscendingUnique(p', q');
      assert p == p' + [p[n]] && q == q' + [q[n]];
    }
  }

  lemma AscendsBefore(p: seq<real>, before: seq<real>)
    requires Ascending(p) && p != [] && before == p[..|p| - 1]
    ensures Ascending(before)
  {
    assert forall i :: 0 <= i < |before| ==> before[i] == p[i];
  }

  lemma MaxLast(p: seq<real>, q: seq<real>)
    requires Ascending(q) && multiset(p) == multiset(q) && |p| == |q| > 0
    ensures p[|p| - 1] <= q[|q| - 1]
  {
    assert p[|p| - 1] in multiset(q);
    var i :| 0 <= i < |q| && q[i] == p[|p| - 1];
  }

  // ---------------------------------------------------------------- the sweep itself

  /** The weight that event j adds to the total. */
  ghost function Booking(evs: seq<Event>, weights: map<Target, real>, j: int): real {
    if 0 <= j < |evs| && evs[j].kind.Stop? && evs[j].target in weights then weights[evs[j].target] else 0.0
  }

  /** readings[k] is the running total at event k. */
  ghost predicate ReadingIs(evs: seq<Event>, readings: seq<real>, k: nat)
    requires k < |evs| == |readings|
  {
    readings[k] == Reading(evs, k)
  }

  ghost predicate AreReadings(evs: seq<Event>, readings: seq<real>) {
    |readings| == |evs| && forall k :: 0 <= k < |evs| ==> ReadingIs(evs, readings, k)
  }

  /** Event k finds its task in begin and weights: begin is the place of its start event, and
      weights holds the difference that its stop event books. */
  ghost predicate Linked(evs: seq<Event>, readings: seq<real>, begin: map<Target, nat>, weights: map<Target, real>,
                         k: nat)
    requires k < |evs| == |readings|
  {
    var t := evs[k].target;
    && t in begin && t in weights && begin[t] < |evs|
    && (evs[k].kind.Start? ==> begin[t] == k)
    && (evs[k].kind.Stop? ==> weights[t] == readings[k] - readings[begin[t]])
  }

  ghost predicate AllLinked(evs: seq<Event>, readings: seq<real>, begin: map<Target, nat>, weights: map<Target, real>) {
    |readings| == |evs| && forall k :: 0 <= k < |evs| ==> Linked(evs, readings, begin, weights, k)
  }

  ghost predicate HasWeight(t: Target, weights: map<Target, real>)
    reads t
  {
    t in weights && t.weightedDuration == weights[t]
  }

  /** The running total is brought up to event k before the event is handled. */
  method Advance(evs: seq<Event>, k: nat, running: map<Target, real>, lastTime: real, lastWeighted: real,
                 ghost readings: seq<real>)
    returns (weighted: real)
    requires k < |evs| && running.Keys == Running(evs, k) && AreReadings(evs, readings)
    requires lastTime == evs[if k == 0 then 0 else k - 1].time
    requires lastWeighted == readings[if k == 0 then 0 else k - 1]
    ensures weighted == readings[k]
  {
    var numRunning := |running.Keys|;
    weighted := lastWeighted + PerTask(evs[k].time - lastTime, numRunning);
    ReadingAdvances(evs, k, readings, evs[k].time - lastTime, numRunning);
  }

  lemma {:induction false} ReadingAdvances(evs: seq<Event>, k: nat, readings: seq<real>, span: real, n: nat)
    requires k < |evs| && AreReadings(evs, readings) && n == |Running(evs, k)|
    requires span == evs[k].time - evs[if k == 0 then 0 else k - 1].time
    ensures readings[k] == readings[if k == 0 then 0 else k - 1] + PerTask(span, n)
  {
    assert ReadingIs(evs, readings, k);
    if k > 0 {
      assert ReadingIs(evs, readings, k - 1);
      ReadingNext(evs, k - 1, span, n);
    }
  }

  lemma {:induction false} ReadingNext(evs: seq<Event>, k: nat, span: real, n: nat)
    requires k + 1 < |evs| && span == evs[k + 1].time - evs[k].time && n == |Running(evs, k + 1)|
    ensures Reading(evs, k + 1) == Reading(evs, k) + PerTask(span, n)
  {}

  /** The scan over the sorted events. It fails exactly when some stop event finds its task not
      running; otherwise each task gets the difference of the two readings at its own events. */
  method Scan(evs: seq<Event>, ghost tasks: set<Target>, ghost readings: seq<real>, ghost begin: map<Target, nat>,
              ghost weights: map<Target, real>)
    returns (ok: bool, weightedTotal: real, remaining: set<Target>)
    requires |evs| > 0 && forall k :: 0 <= k < |evs| ==> evs[k].target in tasks
    requires AreReadings(evs, readings)
    modifies tasks`weightedDuration
    ensures ok <==> NoKeyError(evs)
    ensures ok ==> remaining == Running(evs, |evs|)
    ensures ok && AllLinked(evs, readings, begin, weights) ==> forall k :: 0 <= k < |evs| && evs[k].kind.Stop? ==>
      HasWeight(evs[k].target, weights)
    ensures ok && AllLinked(evs, readings, begin, weights) ==>
      weightedTotal == Sum(|evs|, j => Booking(evs, weights, j))
  {
    ghost var good := AllLinked(evs, readings, begin, weights);
    assert ReadingIs(evs, readings, 0);
    var running: map<Target, real> := map[];
    var lastTime := evs[0].time;
    var lastWeighted := 0.0;
    weightedTotal := 0.0;
    var k := 0;
    while k < |evs|
      invariant 0 <= k <= |evs|
      invariant running.Keys == Running(evs, k)
      invariant lastTime == evs[if k == 0 then 0 else k - 1].time
      invariant lastWeighted == readings[if k == 0 then 0 else k - 1]
      invariant forall j :: 0 <= j < k ==> StopFound(evs, j)
      invariant good ==> forall t :: t in running ==> t in begin && begin[t] < |evs| && running[t] == readings[begin[t]]
      invariant good ==> forall j :: 0 <= j < k && evs[j].kind.Stop? ==> HasWeight(evs[j].target, weights)
      invariant good ==> weightedTotal == Sum(k, j => Booking(evs, weights, j))
    {
      var Event(time, kind, target) := evs[k];
      lastWeighted := Advance(evs, k, running, lastTime, lastWeighted, readings);
      assert good ==> Linked(evs, readings, begin, weights, k);
      if kind == Start {
        running := running[target := lastWeighted];
      } else {
        if target !in running {
          assert !StopFound(evs, k);
          return false, weightedTotal, running.Keys;
        }
        var weightedDuration := lastWeighted - running[target];
        target.SetWeightedDuration(weightedDuration);
        weightedTotal := weightedTotal + weightedDuration;
        running := running - {target};
      }
      lastTime := time;
      k := k + 1;
    }
    ok := true;
    remaining := running.Keys;
  }

  // ---------------------------------------------------------------- the summary

  /** The time stamps of all starts and stops in ascending order. */
  ghost function TimeStamps(entries: seq<Target>): seq<real> { Times(SortEvents(EventsOf(entries))) }

  ghost predicate IsStamp(entries: seq<Target>, x: real) { exists t :: t in entries && (x == t.start || x == t.end) }

  ghost predicate StampsOf(pts: seq<real>, entries: seq<Target>) {
    && Ascending(pts) && |pts| == 2 * |entries|
    && (forall t :: t in entries ==> t.start in pts && t.end in pts)
    && (forall x {:trigger IsStamp(entries, x)} :: x in pts ==> IsStamp(entries, x))
  }

  lemma ScheduleStamps(evs: seq<Event>, entries: seq<Target>)
    requires Schedule(evs, entries)
    ensures StampsOf(Times(evs), entries)
  {
    var pts := Times(evs);
    SortedAscends(evs);
    ScheduleMembers(evs, entries);
    forall t | t in entries ensures t.start in pts && t.end in pts {
      StampOf(evs, Event(t.start, Start, t));
      StampOf(evs, Event(t.end, Stop, t));
    }
    forall x | x in pts ensures IsStamp(entries, x) {
      var k :| 0 <= k < |pts| && pts[k] == x;
      assert evs[k].target in entries;
    }
  }

  lemma StampOf(evs: seq<Event>, e: Event)
    requires e in evs
    ensures e.time in Times(evs)
  {
    var i :| 0 <= i < |evs| && evs[i] == e;
    assert Times(evs)[i] == e.time;
  }

  lemma SortedAscends(evs: seq<Event>)
    requires Sorted(evs)
    ensures Ascending(Times(evs))
  {
    forall i, j | 0 <= i <= j < |evs| ensures Times(evs)[i] <= Times(evs)[j] {
      if i < j { assert KeyLe(evs[i], evs[j]); }
    }
  }

  /** The values that the first loop leaves in earliest and latest. */
  ghost function Earliest(entries: seq<Target>): real {
    if entries == [] then -1.0
    else
      var e, t := Earliest(entries[..|entries| - 1]), entries[|entries| - 1];
      if e < 0.0 || t.start < e then t.start else e
  }

  ghost function Latest(entries: seq<Target>): real {
    if entries == [] then 0.0
    else
      var l, t := Latest(entries[..|entries| - 1]), entries[|entries| - 1];
      if t.end > l then t.end else l
  }

  ghost predicate IsMinStart(entries: seq<Target>, x: real) {
    (exists t :: t in entries && t.start == x) && forall t :: t in entries ==> x <= t.start
  }

  ghost predicate IsMaxEnd(entries: seq<Target>, x: real) {
    (exists t :: t in entries && t.end == x) && forall t :: t in entries ==> t.end <= x
  }

  /** Since -1 stands for "none yet", a negative earliest is overwritten by the next entry: the
      result is the first start exactly when no start is negative or the last entry starts first. */
  lemma {:induction false} EarliestExact(entries: seq<Target>)
    requires entries != []
    ensures IsMinStart(entries, Earliest(entries)) <==>
      (forall t :: t in entries ==> t.start >= 0.0) || IsMinStart(entries, entries[|entries| - 1].start)
    ensures (exists t :: t in entries && t.start == Earliest(entries)) &&
      (Earliest(entries) < 0.0 ==> Earliest(entries) == entries[|entries| - 1].start)
  {
    var n := |entries| - 1;
    var t := entries[n];
    assert entries == entries[..n] + [t];
    if n > 0 { EarliestExact(entries[..n]); }
  }

  /** Since latest starts at zero, it is the last end exactly when some end is not negative. */
  lemma {:induction false} LatestExact(entries: seq<Target>)
    ensures IsMaxEnd(entries, Latest(entries)) <==> exists t :: t in entries && t.end >= 0.0
    ensures Latest(entries) >= 0.0 && forall t :: t in entries ==> t.end <= Latest(entries)
    ensures Latest(entries) == 0.0 || exists t :: t in entries && t.end == Latest(entries)
  {
    if entries != [] {
      var n := |entries| - 1;
      assert entries == entries[..n] + [entries[n]];
      LatestExact(entries[..n]);
    }
  }

  /** The weighted total never exceeds the time from the first start to the last end, and equals
      it exactly when some task runs at every instant in between. */
  lemma TotalIsSpanIffNoGap(entries: seq<Target>, first: real, last: real)
    requires WellFormed(entries) && IsMinStart(entries, first) && IsMaxEnd(entries, last)
    ensures Busy(entries, TimeStamps(entries)) <= last - first
    ensures Busy(entries, TimeStamps(entries)) == last - first
      <==> forall x: real :: first <= x <= last ==> RunsAt(entries, x)
  {
    ScheduleStamps(SortEvents(EventsOf(entries)), entries);
    SpanOfStamps(entries, TimeStamps(entries), first, last);
  }

  lemma SpanOfStamps(entries: seq<Target>, pts: seq<real>, first: real, last: real)
    requires WellFormed(entries) && IsMinStart(entries, first) && IsMaxEnd(entries, last)
    requires StampsOf(pts, entries)
    ensures Busy(entries, pts) <= last - first
    ensures Busy(entries, pts) == last - first <==> forall x: real :: first <= x <= last ==> RunsAt(entries, x)
  {
    EndsOfStamps(entries, pts, first, last);
    StampedSpan(entries, pts, first, last);
  }

  lemma StampedSpan(entries: seq<Target>, pts: seq<real>, first: real, last: real)
    requires WellFormed(entries) && StampsOf(pts, entries)
    requires |pts| > 0 && pts[0] == first && pts[|pts| - 1] == last
    ensures Busy(entries, pts) <= last - first
    ensures Busy(entries, pts) == last - first <==> forall x: real :: first <= x <= last ==> RunsAt(entries, x)
  {
    StampsRun(entries, pts);
    BusyIsSpanIffNoGap(entries, pts);
  }

  lemma StampsRun(entries: seq<Target>, pts: seq<real>)
    requires WellFormed(entries) && StampsOf(pts, entries)
    ensures forall x :: x in pts ==> RunsAt(entries, x)
  {
    forall x | x in pts ensures RunsAt(entries, x) {
      assert IsStamp(entries, x);
      var t :| t in entries && (x == t.start || x == t.end);
      var i :| 0 <= i < |entries| && entries[i] == t;
      assert Covers(entries[i], x, x);
    }
  }

  lemma EndsOfStamps(entries: seq<Target>, pts: seq<real>, first: real, last: real)
    requires WellFormed(entries) && StampsOf(pts, entries)
    requires IsMinStart(entries, first) && IsMaxEnd(entries, last)
    ensures |pts| > 0 && pts[0] == first && pts[|pts| - 1] == last
  {
    FirstStamp(entries, pts, first);
    LastStamp(entries, pts, last);
  }

  lemma FirstStamp(entries: seq<Target>, pts: seq<real>, first: real)
    requires WellFormed(entries) && StampsOf(pts, entries) && IsMinStart(entries, first)
    ensures |pts| > 0 && pts[0] == first
  {
    assert first in pts;
    var i :| 0 <= i < |pts| && pts[i] == first;
    assert pts[0] <= pts[i] && pts[0] in pts && IsStamp(entries, pts[0]);
  }

  lemma LastStamp(entries: seq<Target>, pts: seq<real>, last: real)
    requires WellFormed(entries) && StampsOf(pts, entries) && IsMaxEnd(entries, last)
    ensures |pts| > 0 && pts[|pts| - 1] == last
  {
    assert last in pts;
    var j :| 0 <= j < |pts| && pts[j] == last;
    assert pts[j] <= pts[|pts| - 1] && pts[|pts| - 1] in pts && IsStamp(entries, pts[|pts| - 1]);
  }

  datatype Outcome =
    | Summary(length: real, totalCpuTime: real, weightedTotal: real)
    | IndexError      // no entries: there is no first event
    | KeyError        // a stop event for a task that is not running
    | AssertionError  // tasks left running at the end
    | ZeroDivisionError  // no time has passed: the parallelism is a quotient by the length

  ghost function TotalDuration(entries: seq<Target>): real {
    if entries == [] then 0.0 else TotalDuration(entries[..|entries| - 1]) + entries[|entries| - 1].Duration()
  }

  /** The total is the sum of the differences between end and start. */
  lemma {:induction false} TotalIsSum(entries: seq<Target>, span: int -> real)
    requires forall i :: 0 <= i < |entries| ==> span(i) == entries[i].end - entries[i].start
    ensures TotalDuration(entries) == Sum(|entries|, span)
  {
    if entries != [] { TotalIsSum(entries[..|entries| - 1], span); }
  }

  method CollectEvents(entries: seq<Target>) returns (events: seq<Event>, length: real, totalCpuTime: real)
    ensures events == EventsOf(entries)
    ensures length == Latest(entries) - Earliest(entries)
    ensures totalCpuTime == TotalDuration(entries)
  {
    events := [];
    var earliest, latest := -1.0, 0.0;
    totalCpuTime := 0.0;
    for i := 0 to |entries|
      invariant events == EventsOf(entries[..i])
      invariant earliest == Earliest(entries[..i]) && latest == Latest(entries[..i])
      invariant totalCpuTime == TotalDuration(entries[..i])
    {
      var target := entries[i];
      assert entries[..i + 1][..i] == entries[..i];
      if earliest < 0.0 || target.start < earliest {
        earliest := target.start;
      }
      if target.end > latest {
        latest := target.end;
      }
      totalCpuTime := totalCpuTime + target.Duration();
      events := events + [Event(target.start, Start, target), Event(target.end, Stop, target)];
    }
    assert entries[..|entries|] == entries;
    length := latest - earliest;
  }

  /** What a completed summary leaves in the entries and reports as the total. */
  ghost predicate Summarized(entries: seq<Target>, weightedTotal: real)
    reads entries
  {
    Weighed(entries) && weightedTotal == Busy(entries, TimeStamps(entries))
  }

  /** What a completed sweep leaves in the entries. */
  ghost predicate Weighed(entries: seq<Target>)
    reads entries
  {
    forall t :: t in entries ==>
        && t.weightedDuration == Weighted(entries, t, TimeStamps(entries))
        && 0.0 <= t.weightedDuration <= t.Duration()
  }

  ghost predicate OneInstant(entries: seq<Target>, x: real) { forall t :: t in entries ==> t.start == t.end == x }

  /** Without negative times the reported length is zero exactly when all entries start and end at one
      instant. */
  lemma {:induction false} LengthZeroIff(entries: seq<Target>)
    requires entries != [] && WellFormed(entries) && forall t :: t in entries ==> t.start >= 0.0
    ensures Latest(entries) == Earliest(entries) <==> exists x :: OneInstant(entries, x)
  {
    EarliestExact(entries);
    LatestExact(entries);
    var first := entries[0];
    assert first.end >= first.start;
    if Latest(entries) == Earliest(entries) {
      assert OneInstant(entries, Latest(entries));
    }
  }

  /** The whole sweep. It completes exactly on a non-empty list of distinct entries none of which
      ends before it starts; then every entry has its direct weighted duration, the assertion on
      leftover tasks holds, and the total is the busy time. Only the report at its end can still fail,
      when the length is zero. */
  method SummarizeEntries(entries: seq<Target>) returns (r: Outcome)
    modifies entries`weightedDuration
    ensures r.IndexError? <==> entries == []
    ensures r.Summary? <==> entries != [] && WellFormed(entries) && Latest(entries) != Earliest(entries)
    ensures r.ZeroDivisionError? <==> entries != [] && WellFormed(entries) && Latest(entries) == Earliest(entries)
    ensures r.KeyError? <==> entries != [] && !WellFormed(entries)
    ensures r.Summary? ==> Summarized(entries, r.weightedTotal)
    ensures r.ZeroDivisionError? ==> Weighed(entries)
    ensures r.Summary? ==> r.length == Latest(entries) - Earliest(entries) && r.totalCpuTime == TotalDuration(entries)
  {
    var events, length, totalCpuTime := CollectEvents(entries);
    events := SortEvents(events);
    TargetsListed(events, entries);
    if events == [] {
      return IndexError;
    }
    SweepSafety(events, entries);
    ghost var readings, begin, weights := Linking(events, entries);
    var ok, weightedTotal, remaining := Scan(events, (set t | t in entries), readings, begin, weights);
    if !ok {
      return KeyError;
    }
    if |remaining| != 0 {
      return AssertionError;
    }
    Finish(events, entries, weights, weightedTotal);
    r := if length == 0.0 then ZeroDivisionError else Summary(length, totalCpuTime, weightedTotal);
  }

  lemma TargetsListed(evs: seq<Event>, entries: seq<Target>)
    requires Schedule(evs, entries)
    ensures evs == [] <==> entries == []
    ensures forall k :: 0 <= k < |evs| ==> evs[k].target in (set t | t in entries)
  {
    ScheduleMembers(evs, entries);
  }

  lemma Linking(evs: seq<Event>, entries: seq<Target>)
    returns (readings: seq<real>, begin: map<Target, nat>, weights: map<Target, real>)
    requires Schedule(evs, entries)
    ensures AreReadings(evs, readings)
    ensures WellFormed(entries) ==> AllLinked(evs, readings, begin, weights)
    ensures weights.Keys == set t | t in entries
    ensures forall t :: t in weights ==> weights[t] == Elapsed(evs, t)
  {
    readings := seq(|evs|, k requires 0 <= k < |evs| => Reading(evs, k));
    begin := map t | t in entries :: if StartAt(evs, t) < 0 then 0 else StartAt(evs, t);
    weights := map t | t in entries :: Elapsed(evs, t);
    if WellFormed(entries) {
      forall k | 0 <= k < |evs| ensures Linked(evs, readings, begin, weights, k) {
        assert evs[k].target in entries by { ScheduleMembers(evs, entries); }
        Located(evs, entries, evs[k].target);
      }
    }
  }

  /** The event order in which weights are added up does not matter: every task is booked once. */
  lemma {:induction false} BookingsAreWeights(evs: seq<Event>, entries: seq<Target>, weights: map<Target, real>,
                                              w: int -> real)
    requires Schedule(evs, entries) && WellFormed(entries)
    requires forall t :: t in entries ==> t in weights && weights[t] == Elapsed(evs, t)
    requires forall i :: 0 <= i < |entries| ==> w(i) == Elapsed(evs, entries[i])
    ensures Sum(|evs|, j => Booking(evs, weights, j)) == Sum(|entries|, w)
  {
    var f := (i: int, j: int) => if 0 <= i < |entries| && StopAt(evs, entries[i]) == j then w(i) else 0.0;
    forall i | 0 <= i < |entries| ensures w(i) == Sum(|evs|, j => f(i, j)) {
      Located(evs, entries, entries[i]);
      SumSingle(|evs|, j => f(i, j), StopAt(evs, entries[i]));
    }
    forall j | 0 <= j < |evs| ensures Booking(evs, weights, j) == Sum(|entries|, i => f(i, j)) {
      BookedOnce(evs, entries, weights, j, i => f(i, j));
    }
    SumSwap(|entries|, |evs|, f, w, j => Booking(evs, weights, j));
  }

  lemma StopsAt(evs: seq<Event>, entries: seq<Target>, t: Target, j: nat)
    requires Schedule(evs, entries) && WellFormed(entries) && j < |evs| && t in entries
    ensures StopAt(evs, t) == j <==> evs[j].kind.Stop? && evs[j].target == t
  {
    Located(evs, entries, t);
  }

  lemma {:induction false} BookedOnce(evs: seq<Event>, entries: seq<Target>, weights: map<Target, real>, j: nat,
                                      f: int -> real)
    requires Schedule(evs, entries) && WellFormed(entries) && j < |evs|
    requires forall t :: t in entries ==> t in weights && weights[t] == Elapsed(evs, t)
    requires forall i :: 0 <= i < |entries| ==>
      f(i) == if StopAt(evs, entries[i]) == j then Elapsed(evs, entries[i]) else 0.0
    ensures Booking(evs, weights, j) == Sum(|entries|, f)
  {
    forall i | 0 <= i < |entries|
      ensures f(i) == if evs[j].kind.Stop? && evs[j].target == entries[i] then weights[entries[i]] else 0.0
    {
      StopsAt(evs, entries, entries[i], j);
    }
    assert evs[j].target in entries by { ScheduleMembers(evs, entries); }
    PickOne(entries, evs[j], weights, f);
  }

  lemma {:induction false} PickOne(entries: seq<Target>, e: Event, weights: map<Target, real>, f: int -> real)
    requires Distinct(entries) && e.target in entries && forall t :: t in entries ==> t in weights
    requires forall i :: 0 <= i < |entries| ==>
      f(i) == if e.kind.Stop? && e.target == entries[i] then weights[entries[i]] else 0.0
    ensures Sum(|entries|, f) == if e.kind.Stop? then weights[e.target] else 0.0
  {
    var i :| 0 <= i < |entries| && entries[i] == e.target;
    SumSingle(|entries|, f, i);
  }

  lemma FinishWeight(evs: seq<Event>, entries: seq<Target>, weights: map<Target, real>, t: Target)
    requires Schedule(evs, entries) && WellFormed(entries) && t in entries
    requires t in weights && weights[t] == Elapsed(evs, t)
    requires forall k :: 0 <= k < |evs| && evs[k].kind.Stop? ==> HasWeight(evs[k].target, weights)
    ensures t.weightedDuration == Weighted(entries, t, Times(evs)) && 0.0 <= t.weightedDuration <= t.Duration()
  {
    assert HasWeight(t, weights) by { Located(evs, entries, t); }
    SweepRefinesDirect(evs, entries, t);
    ScheduleStamps(evs, entries);
    WeightedBound(entries, t, Times(evs));
  }

  lemma {:induction false} FinishTotal(evs: seq<Event>, entries: seq<Target>, weights: map<Target, real>)
    requires Schedule(evs, entries) && WellFormed(entries)
    requires forall t :: t in entries ==> t in weights && weights[t] == Elapsed(evs, t)
    ensures Sum(|evs|, j => Booking(evs, weights, j)) == Busy(entries, Times(evs))
  {
    var w := i => if 0 <= i < |entries| then Elapsed(evs, entries[i]) else 0.0;
    BookingsAreWeights(evs, entries, weights, w);
    forall i | 0 <= i < |entries| ensures w(i) == Weighted(entries, entries[i], Times(evs)) {
      SweepRefinesDirect(evs, entries, entries[i]);
    }
    Conservation(entries, Times(evs), w);
  }

  lemma {:induction false} Finish(evs: seq<Event>, entries: seq<Target>, weights: map<Target, real>,
                                  weightedTotal: real)
    requires Schedule(evs, entries) && WellFormed(entries)
    requires forall t :: t in entries ==> t in weights && weights[t] == Elapsed(evs, t)
    requires forall k :: 0 <= k < |evs| && evs[k].kind.Stop? ==> HasWeight(evs[k].target, weights)
    requires weightedTotal == Sum(|evs|, j => Booking(evs, weights, j))
    ensures Summarized(entries, weightedTotal)
  {
    TieOrderIrrelevant(evs, SortEvents(EventsOf(entries)), entries);
    FinishTotal(evs, entries, weights);
    forall t | t in entries
      ensures t.weightedDuration == Weighted(entries, t, TimeStamps(entries)) &&
        0.0 <= t.weightedDuration <= t.Duration()
    {
      FinishWeight(evs, entries, weights, t);
    }
  }
}
