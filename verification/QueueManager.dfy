/** The scheduler's combined queue (rps-serve/vllm/v1/core/sched/queue_manager.py): running and waiting
    requests in one list by priority, with the position of the last running and of the first waiting
    request kept up to date step by step. */
module QueueManager {
  import opened Wrappers

  type Id = string

  /** preempted is the status that a request of the running queue may already have. */
  datatype Request = Request(id: Id, priority: int, preempted: bool)

  datatype Queues = Queues(combined: seq<Request>, running: set<Id>, waiting: set<Id>, preempted: set<Id>,
                           ignored: set<Id>, skipped: set<Id>, last: Option<nat>, first: Option<nat>)

  datatype Error = AssertionError | KeyError

  datatype Outcome = Fine(q: Queues) | Raised(error: Error)

  // ---------------------------------------------------------------- positions

  /** The greatest position below n of a request in s. */
  function LastBelow(c: seq<Request>, s: set<Id>, n: nat): (o: Option<nat>)
    requires n <= |c|
    ensures o.Some? ==> o.value < n && c[o.value].id in s && forall i :: o.value < i < n ==> c[i].id !in s
    ensures o.None? ==> forall i :: 0 <= i < n ==> c[i].id !in s
  {
    if n == 0 then None else if c[n - 1].id in s then Some(n - 1) else LastBelow(c, s, n - 1)
  }

  /** The least position from k on of a request in s. */
  function FirstFrom(c: seq<Request>, s: set<Id>, k: nat): (o: Option<nat>)
    requires k <= |c|
    ensures o.Some? ==> k <= o.value < |c| && c[o.value].id in s && forall i :: k <= i < o.value ==> c[i].id !in s
    ensures o.None? ==> forall i :: k <= i < |c| ==> c[i].id !in s
    decreases |c| - k
  {
    if k == |c| then None else if c[k].id in s then Some(k) else FirstFrom(c, s, k + 1)
  }

  function Pending(q: Queues): set<Id> { q.waiting + q.preempted }

  /** The ids are those of distinct requests, each in at most one of the sets of the current step. */
  ghost predicate Sound(q: Queues) {
    && (forall i, j :: 0 <= i < j < |q.combined| ==> q.combined[i].id != q.combined[j].id)
    && q.running !! q.waiting && q.running !! q.preempted && q.waiting !! q.preempted
    && (q.last.Some? ==> q.last.value < |q.combined|) && (q.first.Some? ==> q.first.value < |q.combined|)
  }

  /** Both positions are what a search from scratch would find. */
  ghost predicate Exact(q: Queues) {
    q.last == LastBelow(q.combined, q.running, |q.combined|) && q.first == FirstFrom(q.combined, Pending(q), 0)
  }

  /** Every request is running or pending: none was ignored or skipped in this step. */
  ghost predicate Covered(q: Queues) {
    forall i :: 0 <= i < |q.combined| ==> q.combined[i].id in q.running || q.combined[i].id in Pending(q)
  }

  // ---------------------------------------------------------------- the updates

  /** The last running request becomes a preempted one. */
  function Preempt(q: Queues): (o: Outcome)
    requires Sound(q)
    ensures o.Fine? ==> Sound(o.q) && o.q.combined == q.combined
  {
    if q.last.None? then Fine(q)
    else
      var l := q.last.value;
      var id := q.combined[l].id;
      if id !in q.running then Raised(KeyError)
      else
        var running, preempted := q.running - {id}, q.preempted + {id};
        var last := LastBelow(q.combined, running, l + 1);
        var moved := q.(running := running, preempted := preempted, last := last);
        if last.None? && q.waiting + preempted != {} then
          (if q.first == Some(0) then Fine(moved) else Raised(AssertionError))
        else if q.first.Some? && l < q.first.value then Fine(moved.(first := Some(l)))
        else if q.first.None? then Fine(moved.(first := Some(|q.combined| - 1)))
        else Fine(moved)
  }

  /** The first pending request becomes a running one. */
  function Schedule(q: Queues): (o: Outcome)
    requires Sound(q)
    ensures o.Fine? ==> Sound(o.q) && o.q.combined == q.combined
  {
    if q.first.None? then Fine(q)
    else
      var f := q.first.value;
      var id := q.combined[f].id;
      var waiting, preempted, running := q.waiting - {id}, q.preempted - {id}, q.running + {id};
      var first := FirstFrom(q.combined, waiting + preempted, f);
      var moved := q.(waiting := waiting, preempted := preempted, running := running, first := first);
      if first.None? && running != {} then Fine(moved.(last := Some(|q.combined| - 1)))
      else if q.last.Some? && f > q.last.value then Fine(moved.(last := Some(f)))
      else if q.last.None? then Fine(moved.(last := Some(0)))
      else Fine(moved)
  }

  /** The first pending request is set aside, as ignored or as skipped. */
  function SetAside(q: Queues, ignore: bool): (o: Outcome)
    requires Sound(q)
    ensures o.Fine? ==> Sound(o.q) && o.q.combined == q.combined
  {
    if q.first.None? then Fine(q)
    else
      var f := q.first.value;
      var id := q.combined[f].id;
      if id !in q.waiting then Raised(KeyError)
      else
        var waiting := q.waiting - {id};
        var first := FirstFrom(q.combined, waiting + q.preempted, f);
        Fine(if ignore then q.(waiting := waiting, ignored := q.ignored + {id}, first := first)
             else q.(waiting := waiting, skipped := q.skipped + {id}, first := first))
  }

  // ---------------------------------------------------------------- when the positions stay exact

  /** A position is the last one exactly when it is in the set and none after it is. */
  lemma {:induction false} LastIs(c: seq<Request>, s: set<Id>, o: Option<nat>)
    ensures LastBelow(c, s, |c|) == o <==>
      (if o.Some? then o.value < |c| && c[o.value].id in s && forall i :: o.value < i < |c| ==> c[i].id !in s
       else forall i :: 0 <= i < |c| ==> c[i].id !in s)
  {
    var l := LastBelow(c, s, |c|);
    if l.Some? && o.Some? && l != o && o.value < |c| {
      assert l.value < o.value || o.value < l.value;
      assert c[l.value].id in s;
    }
  }

  lemma {:induction false} FirstIs(c: seq<Request>, s: set<Id>, o: Option<nat>)
    ensures FirstFrom(c, s, 0) == o <==>
      (if o.Some? then o.value < |c| && c[o.value].id in s && forall i :: 0 <= i < o.value ==> c[i].id !in s
       else forall i :: 0 <= i < |c| ==> c[i].id !in s)
  {
    var f := FirstFrom(c, s, 0);
    if f.Some? && o.Some? && f != o && o.value < |c| {
      assert f.value < o.value || o.value < f.value;
      assert c[f.value].id in s;
    }
  }

  /** No request before the last running one is running. */
  predicate SoleRunner(q: Queues)
    requires Sound(q) && q.last.Some?
  {
    LastBelow(q.combined, q.running, q.last.value).None?
  }

  lemma PreemptLast(q: Queues)
    requires Sound(q) && Exact(q) && q.last.Some?
    ensures Preempt(q).Raised? <==> SoleRunner(q) && q.first != Some(0)
    ensures Preempt(q).Fine? ==> var q' := Preempt(q).q; q'.last == LastBelow(q'.combined, q'.running, |q'.combined|)
  {
    var l := q.last.value;
    OthersKept(q.combined, q.running, q.running - {q.combined[l].id}, l, l + 1);
    if Preempt(q).Fine? { LastIs(q.combined, Preempt(q).q.running, Preempt(q).q.last); }
  }

  lemma PreemptFirst(q: Queues)
    requires Sound(q) && Exact(q) && q.last.Some? && Preempt(q).Fine?
    ensures var q' := Preempt(q).q; q'.first == FirstFrom(q'.combined, Pending(q'), 0) <==>
      q.first.None? ==> q.last.value == |q.combined| - 1
  {
    var q' := Preempt(q).q;
    PendingAfter(q, q.last.value);
    FirstIs(q.combined, Pending(q'), q'.first);
    FirstIs(q.combined, Pending(q), q.first);
  }

  /** Preempting goes through and keeps the positions exact exactly when: if the request is the only
      running one, a pending request stands at the head of the queue; and if nothing is pending, it is
      the last of the queue. Otherwise an assertion fails or a position drifts. */
  lemma PreemptSafeIff(q: Queues)
    requires Sound(q) && Exact(q) && q.last.Some?
    ensures Preempt(q).Fine? && Exact(Preempt(q).q) <==>
      if SoleRunner(q) then q.first == Some(0) else q.first.None? ==> q.last.value == |q.combined| - 1
  {
    PreemptLast(q);
    if Preempt(q).Fine? { PreemptFirst(q); }
  }

  /** Removing one request's id leaves the search below it unchanged. */
  lemma {:induction false} OthersKept(c: seq<Request>, s: set<Id>, t: set<Id>, l: nat, n: nat)
    requires l < |c| && n <= l + 1 && t == s - {c[l].id}
    requires forall i, j :: 0 <= i < j < |c| ==> c[i].id != c[j].id
    ensures LastBelow(c, t, n) == if n <= l then LastBelow(c, s, n) else LastBelow(c, s, l)
  {
    if n > 0 { OthersKept(c, s, t, l, n - 1); }
  }

  lemma PendingAfter(q: Queues, l: nat)
    requires Sound(q) && l < |q.combined|
    ensures forall i :: 0 <= i < |q.combined| ==>
      (q.combined[i].id in q.waiting + (q.preempted + {q.combined[l].id}) <==> q.combined[i].id in Pending(q) || i == l)
  {}

  /** Scheduling never fails; it keeps the positions exact exactly when: if nothing stays pending, the
      queue ends in a running request; and if nothing was running, the request stands at the head. */
  lemma ScheduleSafeIff(q: Queues)
    requires Sound(q) && Exact(q) && q.first.Some?
    ensures Schedule(q).Fine?
    ensures var q', f, n := Schedule(q).q, q.first.value, |q.combined|;
      Exact(q') <==>
        if FirstFrom(q.combined, Pending(q), f + 1).None? then f == n - 1 || q.combined[n - 1].id in q.running
        else q.last.None? ==> f == 0
  {
    ScheduleFirst(q);
    ScheduleLast(q);
    ScheduleRest(q);
  }

  /** Nothing stays pending exactly when nothing behind the scheduled request is pending. */
  lemma ScheduleRest(q: Queues)
    requires Sound(q) && q.first.Some?
    ensures Schedule(q).Fine? && (Schedule(q).q.first.None? <==>
      FirstFrom(q.combined, Pending(q), q.first.value + 1).None?)
  {
    var c, f, q' := q.combined, q.first.value, Schedule(q).q;
    assert forall i :: f < i < |c| ==> (c[i].id in q'.waiting + q'.preempted <==> c[i].id in Pending(q));
    assert c[f].id !in q'.waiting + q'.preempted;
    SameFrom(c, q'.waiting + q'.preempted, Pending(q), f + 1);
  }

  lemma {:induction false} SameFrom(c: seq<Request>, s: set<Id>, t: set<Id>, k: nat)
    requires k <= |c| && forall i :: k <= i < |c| ==> (c[i].id in s <==> c[i].id in t)
    ensures FirstFrom(c, s, k) == FirstFrom(c, t, k)
    decreases |c| - k
  {
    if k < |c| { SameFrom(c, s, t, k + 1); }
  }

  lemma ScheduleFirst(q: Queues)
    requires Sound(q) && Exact(q) && q.first.Some?
    ensures Schedule(q).Fine?
    ensures var q' := Schedule(q).q; q'.first == FirstFrom(q'.combined, Pending(q'), 0)
  {
    var q' := Schedule(q).q;
    FirstIs(q.combined, Pending(q'), q'.first);
  }

  lemma ScheduleLast(q: Queues)
    requires Sound(q) && Exact(q) && q.first.Some?
    ensures var q', f, n := Schedule(q).q, q.first.value, |q.combined|;
      q'.last == LastBelow(q'.combined, q'.running, n) <==>
        if q'.first.None? then f == n - 1 || q.combined[n - 1].id in q.running else q.last.None? ==> f == 0
  {
    var q', f := Schedule(q).q, q.first.value;
    assert forall i :: 0 <= i < |q.combined| ==>
      (q.combined[i].id in q'.running <==> q.combined[i].id in q.running || i == f);
    LastIs(q.combined, q'.running, q'.last);
    LastIs(q.combined, q.running, q.last);
  }

  /** Setting aside fails exactly on a preempted request, and otherwise keeps the positions exact. */
  lemma SetAsideSafeIff(q: Queues, ignore: bool)
    requires Sound(q) && Exact(q) && q.first.Some?
    ensures SetAside(q, ignore).Fine? <==> q.combined[q.first.value].id in q.waiting
    ensures SetAside(q, ignore).Fine? ==> Exact(SetAside(q, ignore).q)
  {
    if SetAside(q, ignore).Fine? {
      var q' := SetAside(q, ignore).q;
      FirstIs(q.combined, Pending(q'), q'.first);
    }
  }

  // ---------------------------------------------------------------- runs of updates

  datatype Update = Preempting | Scheduling | Ignoring | Skipping

  function Apply(q: Queues, u: Update): (o: Outcome)
    requires Sound(q)
    ensures o.Fine? ==> Sound(o.q) && o.q.combined == q.combined
  {
    match u
    case Preempting => Preempt(q)
    case Scheduling => Schedule(q)
    case Ignoring => SetAside(q, true)
    case Skipping => SetAside(q, false)
  }

  ghost function RunUpdates(q: Queues, us: seq<Update>): (o: Outcome)
    requires Sound(q)
    ensures o.Fine? ==> Sound(o.q) && o.q.combined == q.combined
  {
    if us == [] then Fine(q)
    else
      var o := RunUpdates(q, us[..|us| - 1]);
      if o.Raised? then o else Apply(o.q, us[|us| - 1])
  }

  lemma CoveredStep(q: Queues, u: Update)
    requires Sound(q) && Exact(q) && Covered(q) && (u.Preempting? || u.Scheduling?)
    ensures Apply(q, u).Raised? <==> u.Preempting? && q.last.Some? && SoleRunner(q) && q.first != Some(0)
    ensures Apply(q, u).Fine? ==> Exact(Apply(q, u).q) && Covered(Apply(q, u).q)
  {
    if u.Preempting? && q.last.Some? {
      PreemptLast(q);
      PreemptSafeIff(q);
    } else if u.Scheduling? && q.first.Some? {
      ScheduleSafeIff(q);
    }
  }

  /** What the callers of one update rely on. */
  lemma UpdateKeeps(q: Queues, u: Update)
    requires Sound(q)
    ensures Exact(q) && Covered(q) && Apply(q, u).Fine? && (u.Preempting? || u.Scheduling?) ==>
      Exact(Apply(q, u).q) && Covered(Apply(q, u).q)
    ensures Exact(q) && Apply(q, u).Fine? && (u.Ignoring? || u.Skipping?) ==> Exact(Apply(q, u).q)
  {
    if Exact(q) {
      if u.Ignoring? || u.Skipping? {
        if q.first.Some? { SetAsideSafeIff(q, u.Ignoring?); }
      } else if Covered(q) {
        CoveredStep(q, u);
      }
    }
  }

  /** Where no request is ignored or skipped, the positions are exact after any run of preemptions and
      schedulings that raises nothing, so the short updates refine searching from scratch. */
  lemma {:induction false} RunExact(q: Queues, us: seq<Update>)
    requires Sound(q) && Exact(q) && Covered(q) && forall i :: 0 <= i < |us| ==> us[i].Preempting? || us[i].Scheduling?
    requires RunUpdates(q, us).Fine?
    ensures Exact(RunUpdates(q, us).q) && Covered(RunUpdates(q, us).q)
  {
    if us != [] {
      RunExact(q, us[..|us| - 1]);
      CoveredStep(RunUpdates(q, us[..|us| - 1]).q, us[|us| - 1]);
    }
  }

  /** The positions found by searching from scratch. */
  function Rescan(q: Queues): (r: Queues)
    requires Sound(q)
    ensures Sound(r) && (r == q <==> Exact(q))
  {
    q.(last := LastBelow(q.combined, q.running, |q.combined|), first := FirstFrom(q.combined, Pending(q), 0))
  }

  /** The slow form of a run: after every update both positions are searched for again. */
  ghost function RunRescanning(q: Queues, us: seq<Update>): (o: Outcome)
    requires Sound(q)
    ensures o.Fine? ==> Sound(o.q) && Exact(o.q)
  {
    if us == [] then Fine(Rescan(q))
    else
      var o := RunRescanning(q, us[..|us| - 1]);
      if o.Raised? then o
      else
        var o' := Apply(o.q, us[|us| - 1]);
        if o'.Raised? then o' else Fine(Rescan(o'.q))
  }

  /** When an update of a queue with exact positions goes through and keeps them exact. */
  ghost predicate Safe(q: Queues, u: Update)
    requires Sound(q)
  {
    var c, n := q.combined, |q.combined|;
    match u
    case Preempting =>
      q.last.Some? ==>
        if SoleRunner(q) then q.first == Some(0) else q.first.None? ==> q.last.value == n - 1
    case Scheduling =>
      q.first.Some? ==>
        if FirstFrom(c, Pending(q), q.first.value + 1).None?
        then q.first.value == n - 1 || c[n - 1].id in q.running
        else q.last.None? ==> q.first.value == 0
    case _ => q.first.Some? ==> c[q.first.value].id in q.waiting
  }

  lemma StepSafeIff(q: Queues, u: Update)
    requires Sound(q) && Exact(q)
    ensures Apply(q, u).Fine? && Exact(Apply(q, u).q) <==> Safe(q, u)
  {
    match u
    case Preempting => if q.last.Some? { PreemptSafeIff(q); }
    case Scheduling => if q.first.Some? { ScheduleSafeIff(q); }
    case Ignoring => if q.first.Some? { SetAsideSafeIff(q, true); }
    case Skipping => if q.first.Some? { SetAsideSafeIff(q, false); }
  }

  /** At every step of the run the short updates raise nothing and have the state of the slow form. */
  ghost predicate Agrees(q: Queues, us: seq<Update>)
    requires Sound(q)
  {
    && RunUpdates(q, us).Fine? && RunUpdates(q, us) == RunRescanning(q, us)
    && (us != [] ==> Agrees(q, us[..|us| - 1]))
  }

  /** Every update is safe in the state that the slow form has before it. */
  ghost predicate AllSafe(q: Queues, us: seq<Update>)
    requires Sound(q)
  {
    us == [] || (
      var before := RunRescanning(q, us[..|us| - 1]);
      AllSafe(q, us[..|us| - 1]) && before.Fine? && Safe(before.q, us[|us| - 1]))
  }

  /** Over every run, requests set aside included, the short updates refine searching from scratch
      exactly when every update is safe. */
  lemma {:induction false} RunExactIff(q: Queues, us: seq<Update>)
    requires Sound(q) && Exact(q)
    ensures Agrees(q, us) <==> AllSafe(q, us)
  {
    if us != [] {
      var before, u := us[..|us| - 1], us[|us| - 1];
      RunExactIff(q, before);
      if RunUpdates(q, before).Fine? && RunUpdates(q, before) == RunRescanning(q, before) {
        StepSafeIff(RunUpdates(q, before).q, u);
        LastStepAgrees(q, us, before, u);
      }
    }
  }

  lemma {:induction false} LastStepAgrees(q: Queues, us: seq<Update>, before: seq<Update>, u: Update)
    requires Sound(q) && us != [] && before == us[..|us| - 1] && u == us[|us| - 1]
    requires RunUpdates(q, before).Fine? && RunUpdates(q, before) == RunRescanning(q, before)
    ensures RunUpdates(q, us).Fine? && RunUpdates(q, us) == RunRescanning(q, us) <==>
      var o := Apply(RunUpdates(q, before).q, u); o.Fine? && Exact(o.q)
  {}

  /** Three waiting requests. */
  function ThreeWaiting(a: Id, b: Id, c: Id): Queues {
    Queues([Request(a, 1, false), Request(b, 2, false), Request(c, 3, false)], {}, {a, b, c}, {}, {}, {}, None, Some(0))
  }

  /** After a request was ignored at the head, scheduling the next one leaves the position of the last
      running request at the ignored one. */
  lemma IgnoredDrifts(a: Id, b: Id, c: Id)
    requires a != b && b != c && a != c
    ensures var q := ThreeWaiting(a, b, c);
      && Sound(q) && Exact(q) && Covered(q)
      && SetAside(q, true).Fine?
      && var o := Schedule(SetAside(q, true).q);
         o.Fine? && o.q.last == Some(0) && a !in o.q.running && !Exact(o.q)
  {
    var q := ThreeWaiting(a, b, c);
    assert q.combined[0].id == a && q.combined[1].id == b && q.combined[2].id == c;
    assert Sound(q) && Exact(q) && Covered(q);
    SetAsideSafeIff(q, true);
    var q1 := SetAside(q, true).q;
    FirstIs(q1.combined, Pending(q1), Some(1));
    ScheduleSafeIff(q1);
    var q2 := Schedule(q1).q;
    FirstIs(q2.combined, Pending(q2), Some(2));
  }

  // ---------------------------------------------------------------- splitting the queue again

  datatype Split = Parts(running: seq<Request>, waiting: seq<Request>) | Failed

  /** The requests in s, or those not in s, in order. */
  function Keep(c: seq<Request>, s: set<Id>, inside: bool): seq<Request> {
    if c == [] then []
    else
      var r := c[|c| - 1];
      Keep(c[..|c| - 1], s, inside) + if (r.id in s) == inside then [r] else []
  }

  /** By going through the whole queue if any request was ever ignored or skipped, else by position. */
  function UpdateQueues(q: Queues): Split
    requires Sound(q)
  {
    if q.ignored != {} || q.skipped != {} then
      Parts(Keep(q.combined, q.running, true), Keep(q.combined, q.running, false))
    else if q.last.Some? && q.first.Some? then
      (if q.last.value != q.first.value - 1 then Failed
       else Parts(q.combined[..q.first.value], q.combined[q.first.value..]))
    else if q.last.Some? then Parts(q.combined, [])
    else if q.first.Some? then Parts([], q.combined)
    else Parts([], [])
  }

  /** A running request stands behind one that is not. */
  ghost predicate Inverted(q: Queues) {
    exists i, j :: 0 <= i < j < |q.combined| && q.combined[i].id !in q.running && q.combined[j].id in q.running
  }

  lemma {:induction false} KeepAll(c: seq<Request>, s: set<Id>, inside: bool)
    requires forall i :: 0 <= i < |c| ==> (c[i].id in s) == inside
    ensures Keep(c, s, inside) == c && Keep(c, s, !inside) == []
  {
    if c != [] {
      KeepAll(c[..|c| - 1], s, inside);
      assert c[..|c| - 1] + [c[|c| - 1]] == c;
    }
  }

  lemma {:induction false} KeepJoin(a: seq<Request>, b: seq<Request>, s: set<Id>, inside: bool)
    ensures Keep(a + b, s, inside) == Keep(a, s, inside) + Keep(b, s, inside)
  {
    if b == [] {
      assert a + b == a;
    } else {
      assert (a + b)[..|a + b| - 1] == a + b[..|b| - 1];
      KeepJoin(a, b[..|b| - 1], s, inside);
    }
  }

  /** The short way of splitting by position gives what going through the queue would; it fails
      exactly when a running request stands behind one that is not. */
  lemma UpdateQueuesExact(q: Queues)
    requires Sound(q) && Exact(q) && Covered(q)
    ensures UpdateQueues(q) == Failed <==> q.ignored == {} && q.skipped == {} && Inverted(q)
    ensures UpdateQueues(q) != Failed ==>
      UpdateQueues(q) == Parts(Keep(q.combined, q.running, true), Keep(q.combined, q.running, false))
  {
    var c := q.combined;
    if q.ignored == {} && q.skipped == {} {
      SplitAt(q);
    }
  }

  lemma SplitAt(q: Queues)
    requires Sound(q) && Exact(q) && Covered(q) && q.ignored == {} && q.skipped == {}
    ensures UpdateQueues(q) == Failed <==> Inverted(q)
    ensures UpdateQueues(q) != Failed ==>
      UpdateQueues(q) == Parts(Keep(q.combined, q.running, true), Keep(q.combined, q.running, false))
  {
    var c := q.combined;
    forall i | 0 <= i < |c| ensures c[i].id in Pending(q) <==> c[i].id !in q.running {}
    if q.first.None? {
      KeepAll(c, q.running, true);
    } else if q.last.None? {
      KeepAll(c, q.running, false);
    } else {
      SplitBetween(q, q.last.value, q.first.value);
    }
  }

  lemma SplitBetween(q: Queues, l: nat, f: nat)
    requires Sound(q) && Exact(q) && Covered(q) && q.last == Some(l) && q.first == Some(f)
    ensures l + 1 == f <==> !Inverted(q)
    ensures l + 1 == f ==>
      Keep(q.combined, q.running, true) == q.combined[..f] && Keep(q.combined, q.running, false) == q.combined[f..]
  {
    var c := q.combined;
    assert c[f].id in Pending(q) && c[f].id !in q.running && c[l].id in q.running;
    NoGap(c, q.running, Pending(q), l, f);
    if l + 1 == f {
      forall i | 0 <= i < f ensures c[i].id in q.running { assert c[i].id !in Pending(q); }
      KeepPrefix(c, q.running, f);
    }
  }

  lemma NoGap(c: seq<Request>, running: set<Id>, pending: set<Id>, l: nat, f: nat)
    requires l < |c| && f < |c| && l != f
    requires forall i :: l < i < |c| ==> c[i].id !in running
    requires forall i :: 0 <= i < f ==> c[i].id !in pending
    requires forall i :: 0 <= i < |c| ==> c[i].id in running || c[i].id in pending
    ensures f < l || l + 1 == f
  {
    if l + 1 < |c| {
      var r := c[l + 1];
      assert r.id !in running;
    }
  }

  lemma {:induction false} KeepPrefix(c: seq<Request>, s: set<Id>, f: nat)
    requires f <= |c| && (forall i :: 0 <= i < f ==> c[i].id in s) && (forall i :: f <= i < |c| ==> c[i].id !in s)
    ensures Keep(c, s, true) == c[..f] && Keep(c, s, false) == c[f..]
  {
    assert c[..f] + c[f..] == c;
    KeepBoth(c[..f], c[f..], s);
  }

  lemma {:induction false} KeepBoth(a: seq<Request>, b: seq<Request>, s: set<Id>)
    requires (forall i :: 0 <= i < |a| ==> a[i].id in s) && (forall i :: 0 <= i < |b| ==> b[i].id !in s)
    ensures Keep(a + b, s, true) == a && Keep(a + b, s, false) == b
  {
    KeepAll(a, s, true);
    KeepAll(b, s, false);
    KeepJoin(a, b, s, true);
    KeepJoin(a, b, s, false);
  }

  /** No request is lost or duplicated by the split. */
  lemma {:induction false} KeepConserves(c: seq<Request>, s: set<Id>)
    ensures multiset(Keep(c, s, true)) + multiset(Keep(c, s, false)) == multiset(c)
  {
    if c != [] {
      var b, r := c[..|c| - 1], c[|c| - 1];
      KeepConserves(b, s);
      KeepLast(c, b, r, s);
      OneMore(Keep(b, s, true), Keep(b, s, false), b, r, r.id in s, Keep(c, s, true), Keep(c, s, false), c);
    }
  }

  lemma {:induction false} KeepLast(c: seq<Request>, b: seq<Request>, r: Request, s: set<Id>)
    requires c != [] && b == c[..|c| - 1] && r == c[|c| - 1]
    ensures Keep(c, s, true) == Keep(b, s, true) + if r.id in s then [r] else []
    ensures Keep(c, s, false) == Keep(b, s, false) + if r.id in s then [] else [r]
  {}

  lemma OneMore(kept: seq<Request>, other: seq<Request>, b: seq<Request>, r: Request, inside: bool,
                kept': seq<Request>, other': seq<Request>, c: seq<Request>)
    requires multiset(kept) + multiset(other) == multiset(b)
    requires kept' == kept + (if inside then [r] else []) && other' == other + if inside then [] else [r]
    requires c != [] && b == c[..|c| - 1] && r == c[|c| - 1]
    ensures multiset(kept') + multiset(other') == multiset(c)
  {
    assert c == b + [r] && kept + [] == kept && other + [] == other;
  }

  /** The running requests and the others, each in the order of the queue, with none lost or duplicated. */
  ghost predicate Divides(parts: Split, c: seq<Request>, s: set<Id>)
    requires parts.Parts?
  {
    && parts.running == Keep(c, s, true) && parts.waiting == Keep(c, s, false)
    && multiset(parts.running) + multiset(parts.waiting) == multiset(c)
  }

  lemma SplitDivides(q: Queues)
    requires Sound(q)
    ensures UpdateQueues(q).Parts? && Exact(q) && Covered(q) ==> Divides(UpdateQueues(q), q.combined, q.running)
  {
    if Exact(q) && Covered(q) {
      UpdateQueuesExact(q);
      KeepConserves(q.combined, q.running);
    }
  }

  // ---------------------------------------------------------------- requests that were set aside

  /** No request is lost sight of: each is running, pending, ignored or skipped. */
  ghost predicate Accounted(q: Queues) {
    forall i :: 0 <= i < |q.combined| ==> AccountedAt(q, q.combined[i].id)
  }

  ghost predicate AccountedAt(q: Queues, id: Id) {
    id in q.running || id in Pending(q) || id in q.ignored || id in q.skipped
  }

  /** Setting aside moves the first pending request's id from the waiting ones to the ignored or to the
      skipped ones, and changes no other set. */
  lemma SetAsideRecords(q: Queues, ignore: bool)
    requires Sound(q) && q.first.Some? && SetAside(q, ignore).Fine?
    ensures var q', id := SetAside(q, ignore).q, q.combined[q.first.value].id;
      && q'.waiting == q.waiting - {id} && q'.running == q.running && q'.preempted == q.preempted
      && q'.ignored == (if ignore then q.ignored + {id} else q.ignored)
      && q'.skipped == (if ignore then q.skipped else q.skipped + {id})
  {}

  lemma AccountedStep(q: Queues, u: Update)
    requires Sound(q) && Accounted(q) && Apply(q, u).Fine?
    ensures Accounted(Apply(q, u).q)
  {
    var q' := Apply(q, u).q;
    forall i | 0 <= i < |q'.combined| ensures AccountedAt(q', q'.combined[i].id) {
      assert AccountedAt(q, q.combined[i].id);
    }
  }

  /** The id that an ignoring or skipping update sets aside. */
  ghost function AsideNow(q: Queues, u: Update): set<Id>
    requires Sound(q)
  {
    if (u.Ignoring? || u.Skipping?) && q.first.Some? then {q.combined[q.first.value].id} else {}
  }

  lemma RecordedStep(q: Queues, u: Update, recorded: set<Id>)
    requires Sound(q) && Apply(q, u).Fine? && recorded <= q.ignored + q.skipped
    ensures recorded + AsideNow(q, u) <= Apply(q, u).q.ignored + Apply(q, u).q.skipped
  {
    if (u.Ignoring? || u.Skipping?) && q.first.Some? { SetAsideRecords(q, u.Ignoring?); }
  }

  /** The ids that the ignoring and skipping updates of a run have set aside. */
  ghost function AsideBy(q: Queues, us: seq<Update>): set<Id>
    requires Sound(q)
  {
    if us == [] then {}
    else
      var o, u := RunUpdates(q, us[..|us| - 1]), us[|us| - 1];
      AsideBy(q, us[..|us| - 1]) + if o.Fine? then AsideNow(o.q, u) else {}
  }

  ghost predicate FirstExact(q: Queues) { q.first == FirstFrom(q.combined, Pending(q), 0) }

  /** A preemption with nothing pending takes the last request of the queue; otherwise the position of the
      first pending request is set to a request that is not pending. */
  ghost predicate KeepsFirst(q: Queues, u: Update) {
    u.Preempting? && q.last.Some? && q.first.None? ==> q.last.value == |q.combined| - 1
  }

  lemma FirstStep(q: Queues, u: Update)
    requires Sound(q) && FirstExact(q) && Apply(q, u).Fine?
    ensures FirstExact(Apply(q, u).q) <==> KeepsFirst(q, u)
  {
    var q' := Apply(q, u).q;
    FirstIs(q.combined, Pending(q), q.first);
    FirstIs(q.combined, Pending(q'), q'.first);
    if u.Preempting? && q.last.Some? { PendingAfter(q, q.last.value); }
  }

  /** Every preemption of the run keeps that position. */
  ghost predicate AllKeepFirst(q: Queues, us: seq<Update>)
    requires Sound(q)
  {
    us == [] || (
      var before := RunUpdates(q, us[..|us| - 1]);
      AllKeepFirst(q, us[..|us| - 1]) && before.Fine? && KeepsFirst(before.q, us[|us| - 1]))
  }

  /** What holds of the ids set aside so far: they are recorded, and neither running nor pending. */
  ghost predicate StayOut(aside: set<Id>, q: Queues) {
    aside <= q.ignored + q.skipped && aside !! q.running && aside !! Pending(q)
  }

  lemma StayOutStep(aside: set<Id>, q: Queues, u: Update)
    requires Sound(q) && FirstExact(q) && StayOut(aside, q) && Apply(q, u).Fine?
    ensures StayOut(aside + AsideNow(q, u), Apply(q, u).q)
  {
    if (u.Ignoring? || u.Skipping?) && q.first.Some? { SetAsideRecords(q, u.Ignoring?); }
  }

  /** In every run whose preemptions keep the position of the first pending request, the requests that were
      set aside stay recorded as such and are never among the running or the pending ones. */
  lemma {:induction false} AsideStaysOut(q: Queues, us: seq<Update>)
    requires Sound(q) && FirstExact(q) && RunUpdates(q, us).Fine? && AllKeepFirst(q, us)
    ensures FirstExact(RunUpdates(q, us).q) && StayOut(AsideBy(q, us), RunUpdates(q, us).q)
  {
    if us != [] {
      var before, u := us[..|us| - 1], us[|us| - 1];
      AsideStaysOut(q, before);
      FirstStep(RunUpdates(q, before).q, u);
      StayOutStep(AsideBy(q, before), RunUpdates(q, before).q, u);
    }
  }

  /** Over every run all requests stay accounted for, and the records of those set aside only grow. */
  lemma {:induction false} RunAccounted(q: Queues, us: seq<Update>)
    requires Sound(q) && Accounted(q) && RunUpdates(q, us).Fine?
    ensures Accounted(RunUpdates(q, us).q)
    ensures AsideBy(q, us) + q.ignored + q.skipped <= RunUpdates(q, us).q.ignored + RunUpdates(q, us).q.skipped
  {
    if us != [] {
      var before, u := us[..|us| - 1], us[|us| - 1];
      var q' := RunUpdates(q, before).q;
      RunAccounted(q, before);
      AccountedStep(q', u);
      RecordedStep(q', u, AsideBy(q, before) + q.ignored + q.skipped);
    }
  }

  /** After a run that has set a request aside, the split never fails, whatever the positions, and hands out
      exactly the running requests and the others, each in the order of the queue, none lost or duplicated;
      if the preemptions of the run keep the position of the first pending request, no request that was set
      aside is handed out as running. */
  lemma {:induction false} SplitAfterAside(q: Queues, us: seq<Update>)
    requires Sound(q) && FirstExact(q) && Accounted(q) && RunUpdates(q, us).Fine? && AsideBy(q, us) != {}
    ensures var q' := RunUpdates(q, us).q;
      UpdateQueues(q').Parts? && Divides(UpdateQueues(q'), q'.combined, q'.running)
    ensures var parts := UpdateQueues(RunUpdates(q, us).q);
      && (forall r :: r in parts.running ==> r.id in RunUpdates(q, us).q.running)
      && (AllKeepFirst(q, us) ==> forall r :: r in parts.running ==> r.id !in AsideBy(q, us))
  {
    var q' := RunUpdates(q, us).q;
    RunAccounted(q, us);
    assert q'.ignored + q'.skipped != {};
    SplitAside(q');
    if AllKeepFirst(q, us) { AsideStaysOut(q, us); }
    forall r | r in Keep(q'.combined, q'.running, true) ensures r.id in q'.running {
      KeepMembers(q'.combined, q'.running, true, r);
    }
  }

  /** Once a request was set aside, the split goes through the whole queue and never fails. */
  lemma SplitAside(q: Queues)
    requires Sound(q) && (q.ignored != {} || q.skipped != {})
    ensures UpdateQueues(q).Parts? && Divides(UpdateQueues(q), q.combined, q.running)
  {
    KeepConserves(q.combined, q.running);
  }

  lemma {:induction false} KeepMembers(c: seq<Request>, s: set<Id>, inside: bool, r: Request)
    ensures r in Keep(c, s, inside) <==> r in c && (r.id in s) == inside
  {
    if c != [] {
      var n := |c| - 1;
      assert c == c[..n] + [c[n]];
      KeepMembers(c[..n], s, inside, r);
    }
  }

  /** Keeping goes request by request, in order. */
  lemma {:induction false} KeepOne(c: seq<Request>, r: Request, s: set<Id>, inside: bool)
    ensures Keep([r], s, inside) == if (r.id in s) == inside then [r] else []
    ensures Keep(c + [r], s, inside) == Keep(c, s, inside) + Keep([r], s, inside)
  {
    assert [r][..0] == [];
    KeepJoin(c, [r], s, inside);
  }

  /** Two running requests in front of a waiting one. */
  function TwoRunning(a: Id, b: Id, c: Id): Queues {
    var combined := [Request(a, 1, false), Request(b, 2, false), Request(c, 3, false)];
    Queues(combined, {a, b}, {c}, {}, {}, {}, Some(1), Some(2))
  }

  /** The waiting request is ignored, and one of the running ones preempted: then the first pending request
      is taken to be the ignored one, and scheduling makes it a running one. */
  lemma IgnoredRuns(a: Id, b: Id, c: Id)
    requires a != b && b != c && a != c
    ensures var q := TwoRunning(a, b, c);
      && Sound(q) && Exact(q) && Covered(q)
      && var o := RunUpdates(q, [Ignoring, Preempting, Scheduling]);
         o.Fine? && c in o.q.ignored && c in o.q.running
  {
    var q := TwoRunning(a, b, c);
    LastIs(q.combined, q.running, Some(1));
    FirstIs(q.combined, Pending(q), Some(2));
    var q1 := SetAside(q, true).q;
    assert q1.first == None;
    var q2 := Preempt(q1).q;
    assert q1.running - {b} == {a} && q2.last == Some(0) && q2.first == Some(2);
    RunThree(q, q1, q2, Schedule(q2).q);
  }

  lemma {:induction false} RunThree(q: Queues, q1: Queues, q2: Queues, q3: Queues)
    requires Sound(q) && SetAside(q, true) == Fine(q1) && Preempt(q1) == Fine(q2) && Schedule(q2) == Fine(q3)
    ensures RunUpdates(q, [Ignoring, Preempting, Scheduling]) == Fine(q3)
  {
    var us := [Ignoring, Preempting, Scheduling];
    assert us[..2] == [Ignoring, Preempting] && us[..2][..1] == [Ignoring] && [Ignoring][..0] == [];
    assert RunUpdates(q, []) == Fine(q);
    assert RunUpdates(q, [Ignoring]) == Fine(q1);
    assert RunUpdates(q, us[..2]) == Fine(q2);
  }

  // ---------------------------------------------------------------- preempting what the budget left over

  /** The scheduler's last pass (scheduler.py): for each request from position index on whose status is
      running, the last running request is preempted. */
  function PreemptRest(q: Queues, statuses: set<Id>, index: nat): (o: Outcome)
    requires Sound(q) && index <= |q.combined|
    ensures o.Fine? ==> Sound(o.q) && o.q.combined == q.combined
    decreases |q.combined| - index
  {
    if index == |q.combined| then Fine(q)
    else if q.combined[index].id !in statuses then PreemptRest(q, statuses, index + 1)
    else
      var o := Preempt(q);
      if o.Raised? then o else PreemptRest(o.q, statuses, index + 1)
  }

  ghost function CountFrom(c: seq<Request>, s: set<Id>, k: nat): nat
    requires k <= |c|
    decreases |c| - k
  {
    if k == |c| then 0 else CountFrom(c, s, k + 1) + if c[k].id in s then 1 else 0
  }

  lemma {:induction false} CountSome(c: seq<Request>, s: set<Id>, k: nat)
    requires k <= |c|
    ensures CountFrom(c, s, k) > 0 <==> exists i :: k <= i < |c| && c[i].id in s
    decreases |c| - k
  {
    if k < |c| { CountSome(c, s, k + 1); }
  }

  lemma {:induction false} CountRemove(c: seq<Request>, s: set<Id>, k: nat, l: nat)
    requires k <= |c| && l < |c| && c[l].id in s
    requires forall i, j :: 0 <= i < j < |c| ==> c[i].id != c[j].id
    ensures CountFrom(c, s - {c[l].id}, k) == CountFrom(c, s, k) - if k <= l then 1 else 0
    decreases |c| - k
  {
    if k < |c| { CountRemove(c, s, k + 1, l); }
  }

  ghost predicate SomeBelow(c: seq<Request>, s: set<Id>, k: nat) { exists i :: 0 <= i < k && i < |c| && c[i].id in s }

  /** The pass goes through exactly when there is nothing to preempt, or a running request stays below
      the position it starts from, or the head of the queue is not running; then exactly the running
      requests below that position are left. */
  lemma {:induction false} PreemptRestExact(q: Queues, start: nat)
    requires Sound(q) && Exact(q) && Covered(q) && start <= |q.combined|
    ensures var o := PreemptRest(q, q.running, start);
      && (o.Fine? <==> CountFrom(q.combined, q.running, start) == 0 || SomeBelow(q.combined, q.running, start)
                       || q.combined[0].id !in q.running)
      && (o.Fine? ==> Exact(o.q) && Covered(o.q) && OnlyBelow(q, o.q, start))
  {
    PreemptRestFrom(q, q, start, start);
  }

  ghost predicate OnlyBelow(q: Queues, q': Queues, start: nat) {
    q'.combined == q.combined
    && forall i :: 0 <= i < |q.combined| ==>
       (q.combined[i].id in q'.running <==> i < start && q.combined[i].id in q.running)
  }

  /** What the pass keeps: as many running requests remain from start on as it has yet to meet. */
  ghost predicate Passing(q0: Queues, q: Queues, start: nat, index: nat) {
    && q.combined == q0.combined && start <= index <= |q.combined|
    && CountFrom(q.combined, q.running, start) == CountFrom(q.combined, q0.running, index)
    && (forall i :: 0 <= i < start ==> (q.combined[i].id in q.running <==> q.combined[i].id in q0.running))
  }

  lemma {:induction false} PreemptRestFrom(q0: Queues, q: Queues, start: nat, index: nat)
    requires Sound(q) && Exact(q) && Covered(q) && Passing(q0, q, start, index)
    ensures PassEnds(q0, q, start, PreemptRest(q, q0.running, index))
    decreases |q.combined| - index
  {
    if index == |q.combined| {
      PassOver(q0, q, start);
    } else if q.combined[index].id !in q0.running {
      PreemptRestFrom(q0, q, start, index + 1);
    } else {
      var o := Preempt(q);
      PassOnce(q0, q, start, index, o);
      if o.Fine? {
        PreemptRestFrom(q0, o.q, start, index + 1);
        PassEndsBefore(q0, q, o.q, start, PreemptRest(o.q, q0.running, index + 1));
      }
    }
  }

  lemma PassOver(q0: Queues, q: Queues, start: nat)
    requires Exact(q) && Covered(q) && Passing(q0, q, start, |q.combined|)
    ensures PassEnds(q0, q, start, Fine(q))
  {
    CountSome(q.combined, q.running, start);
  }

  lemma {:induction false} PassOnce(q0: Queues, q: Queues, start: nat, index: nat, o: Outcome)
    requires Sound(q) && Exact(q) && Covered(q) && Passing(q0, q, start, index) && o == Preempt(q)
    requires index < |q.combined| && q.combined[index].id in q0.running
    ensures o.Fine? ==> Exact(o.q) && Covered(o.q) && Passing(q0, o.q, start, index + 1)
    ensures o.Fine? ==> CountFrom(q.combined, q.running, start) > 0 && Taken(q, o.q, start)
    ensures o.Raised? ==> PassEnds(q0, q, start, o)
  {
    PreemptOnce(q, start);
    if o.Fine? { PassingNext(q0, q, o.q, start, index); }
  }

  /** How the pass ends, seen from a state in which it is under way. */
  ghost predicate PassEnds(q0: Queues, q: Queues, start: nat, o: Outcome)
    requires start <= |q.combined|
  {
    && (o.Fine? <==> CountFrom(q.combined, q.running, start) == 0 || SomeBelow(q.combined, q.running, start)
                     || q.combined[0].id !in q.running)
    && (o.Fine? ==> Exact(o.q) && Covered(o.q) && OnlyBelow(q0, o.q, start))
  }

  lemma {:induction false} PassEndsBefore(q0: Queues, q: Queues, q': Queues, start: nat, o: Outcome)
    requires start <= |q.combined| && CountFrom(q.combined, q.running, start) > 0 && Taken(q, q', start)
    requires PassEnds(q0, q', start, o)
    ensures PassEnds(q0, q, start, o)
  {
    assert SomeBelow(q.combined, q'.running, start) <==> SomeBelow(q.combined, q.running, start);
  }

  lemma PassingNext(q0: Queues, q: Queues, q': Queues, start: nat, index: nat)
    requires Passing(q0, q, start, index) && index < |q.combined| && q.combined[index].id in q0.running &&
      Taken(q, q', start)
    ensures Passing(q0, q', start, index + 1)
    ensures SomeBelow(q.combined, q'.running, start) <==> SomeBelow(q.combined, q.running, start)
  {}

  /** One preemption of the pass: it takes away one running request from start on, and fails only on
      the last one of all, at the head. */
  lemma {:induction false} PreemptOnce(q: Queues, start: nat)
    requires Sound(q) && Exact(q) && Covered(q) && start <= |q.combined| && CountFrom(q.combined, q.running, start) > 0
    ensures var o := Preempt(q);
      && (o.Raised? ==> !SomeBelow(q.combined, q.running, start) && q.combined[0].id in q.running)
      && (o.Fine? ==> Exact(o.q) && Covered(o.q) && Taken(q, o.q, start))
  {
    CountSome(q.combined, q.running, start);
    CoveredStep(q, Preempting);
    FirstIs(q.combined, Pending(q), Some(0));
    if Preempt(q).Fine? { PreemptTakes(q, start); }
  }

  lemma {:induction false} PreemptTakes(q: Queues, start: nat)
    requires Sound(q) && Exact(q) && Covered(q) && start <= |q.combined| && CountFrom(q.combined, q.running, start) > 0
    requires Preempt(q).Fine?
    ensures Taken(q, Preempt(q).q, start)
  {
    var c := q.combined;
    CountSome(c, q.running, start);
    var l := q.last.value;
    var running := q.running - {c[l].id};
    CountRemove(c, q.running, start, l);
    CountSome(c, running, start);
    if CountFrom(c, running, start) == 0 { TakenLast(q, start, l); } else { HeadKept(q, start, l); }
  }

  lemma HeadKept(q: Queues, start: nat, l: nat)
    requires Sound(q) && Exact(q) && q.last == Some(l) && start <= |q.combined|
    requires exists i :: start <= i < |q.combined| && q.combined[i].id in q.running - {q.combined[l].id}
    ensures q.combined[0].id in q.running - {q.combined[l].id} <==> q.combined[0].id in q.running
  {
    var i :| start <= i < |q.combined| && q.combined[i].id in q.running - {q.combined[l].id};
    assert i < l;
  }

  lemma TakenLast(q: Queues, start: nat, l: nat)
    requires Sound(q) && Exact(q) && Covered(q) && q.last == Some(l) && start <= |q.combined| && Preempt(q).Fine?
    requires forall i :: start <= i < |q.combined| ==> q.combined[i].id !in q.running - {q.combined[l].id}
    ensures SomeBelow(q.combined, q.running, start) || q.combined[0].id !in q.running
  {
    PreemptLast(q);
    if SoleRunner(q) {
      FirstIs(q.combined, Pending(q), Some(0));
    } else {
      var k := LastBelow(q.combined, q.running, l).value;
      assert q.combined[k].id in q.running - {q.combined[l].id};
    }
  }

  ghost predicate Taken(q: Queues, q': Queues, start: nat)
    requires start <= |q.combined|
  {
    && q'.combined == q.combined
    && CountFrom(q.combined, q'.running, start) == CountFrom(q.combined, q.running, start) - 1
    && (forall i :: 0 <= i < start ==> (q.combined[i].id in q'.running <==> q.combined[i].id in q.running))
    && (CountFrom(q.combined, q'.running, start) > 0 ==>
         (q.combined[0].id in q'.running <==> q.combined[0].id in q.running))
    && (CountFrom(q.combined, q'.running, start) == 0 ==>
         SomeBelow(q.combined, q.running, start) || q.combined[0].id !in q.running)
  }

  /** When every request below the position is running, the pass and the split hand out exactly the
      requests below it as running and the others as waiting; only from the head it may fail. */
  lemma {:induction false} BudgetSplit(q: Queues, start: nat)
    requires Sound(q) && Exact(q) && Covered(q) && start <= |q.combined|
    requires forall i :: 0 <= i < start ==> q.combined[i].id in q.running
    ensures var o := PreemptRest(q, q.running, start);
      && (o.Raised? <==> start == 0 && q.combined != [] && q.combined[0].id in q.running)
      && (o.Fine? ==> UpdateQueues(o.q) == Parts(q.combined[..start], q.combined[start..]))
  {
    var o := PreemptRest(q, q.running, start);
    PreemptRestExact(q, start);
    CountSome(q.combined, q.running, start);
    assert start > 0 ==> q.combined[0].id in q.running;
    if o.Fine? {
      UpdateQueuesExact(o.q);
      KeepPrefix(q.combined, o.q.running, start);
    }
  }

  // ---------------------------------------------------------------- combining

  /** kind: 0 for a running request, 1 for a preempted one, 2 for a waiting one. */
  datatype Entry = Entry(kind: nat, req: Request)

  predicate NotAfter(a: Entry, b: Entry) {
    a.req.priority < b.req.priority || (a.req.priority == b.req.priority && a.kind <= b.kind)
  }

  function Insert(es: seq<Entry>, e: Entry): seq<Entry> {
    if es == [] || NotAfter(es[|es| - 1], e) then es + [e] else Insert(es[..|es| - 1], e) + [es[|es| - 1]]
  }

  /** The stable sort by priority and then by kind. */
  function Sort(es: seq<Entry>): seq<Entry> {
    if es == [] then [] else Insert(Sort(es[..|es| - 1]), es[|es| - 1])
  }

  ghost predicate Ordered(es: seq<Entry>) { forall i, j :: 0 <= i < j < |es| ==> NotAfter(es[i], es[j]) }

  ghost predicate AllNotAfter(es: seq<Entry>, x: Entry) { forall i :: 0 <= i < |es| ==> NotAfter(es[i], x) }

  lemma {:induction false} InsertBelow(es: seq<Entry>, e: Entry, x: Entry)
    requires AllNotAfter(es, x) && NotAfter(e, x)
    ensures AllNotAfter(Insert(es, e), x)
  {
    if es != [] { InsertBelow(es[..|es| - 1], e, x); }
  }

  lemma OrderedNext(es: seq<Entry>, x: Entry)
    requires Ordered(es) && AllNotAfter(es, x)
    ensures Ordered(es + [x])
  {}

  lemma {:induction false} InsertOrdered(es: seq<Entry>, e: Entry)
    requires Ordered(es)
    ensures Ordered(Insert(es, e))
  {
    if es == [] || NotAfter(es[|es| - 1], e) {
      OrderedNext(es, e);
    } else {
      var n := |es| - 1;
      InsertOrdered(es[..n], e);
      InsertBelow(es[..n], e, es[n]);
      OrderedNext(Insert(es[..n], e), es[n]);
    }
  }

  lemma {:induction false} InsertConserves(es: seq<Entry>, e: Entry)
    ensures multiset(Insert(es, e)) == multiset(es) + multiset{e}
  {
    if es != [] && !NotAfter(es[|es| - 1], e) {
      InsertConserves(es[..|es| - 1], e);
      assert es == es[..|es| - 1] + [es[|es| - 1]];
    }
  }

  lemma {:induction false} SortOrdered(es: seq<Entry>)
    ensures Ordered(Sort(es)) && multiset(Sort(es)) == multiset(es)
  {
    if es != [] {
      SortOrdered(es[..|es| - 1]);
      InsertOrdered(Sort(es[..|es| - 1]), es[|es| - 1]);
      InsertConserves(Sort(es[..|es| - 1]), es[|es| - 1]);
      assert es == es[..|es| - 1] + [es[|es| - 1]];
    }
  }

  predicate HasKey(e: Entry, priority: int, kind: nat) { e.req.priority == priority && e.kind == kind }

  /** The entries of one priority and kind, in order. */
  function OfKey(es: seq<Entry>, priority: int, kind: nat): seq<Entry> {
    if es == [] then []
    else
      var e := es[|es| - 1];
      OfKey(es[..|es| - 1], priority, kind) + if HasKey(e, priority, kind) then [e] else []
  }

  lemma {:induction false} OfKeyNext(es: seq<Entry>, e: Entry, priority: int, kind: nat)
    ensures OfKey(es + [e], priority, kind) == OfKey(es, priority, kind) +
      if HasKey(e, priority, kind) then [e] else []
  {
    assert (es + [e])[..|es|] == es;
  }

  lemma {:induction false} InsertStable(es: seq<Entry>, e: Entry, priority: int, kind: nat)
    requires Ordered(es)
    ensures OfKey(Insert(es, e), priority, kind) == OfKey(es, priority, kind) +
      if HasKey(e, priority, kind) then [e] else []
  {
    if es == [] || NotAfter(es[|es| - 1], e) {
      OfKeyNext(es, e, priority, kind);
    } else {
      var before, last := es[..|es| - 1], es[|es| - 1];
      InsertStable(before, e, priority, kind);
      OfKeyNext(Insert(before, e), last, priority, kind);
      Commute(OfKey(before, priority, kind), if HasKey(e, priority, kind) then [e] else [],
              if HasKey(last, priority, kind) then [last] else []);
    }
  }

  lemma Commute(es: seq<Entry>, a: seq<Entry>, b: seq<Entry>)
    requires a == [] || b == []
    ensures es + a + b == es + b + a
  {
    assert es + a + [] == es + [] + a && es + b + [] == es + [] + b;
  }

  /** Requests of the same priority and kind keep their order. */
  lemma {:induction false} SortStable(es: seq<Entry>, priority: int, kind: nat)
    ensures OfKey(Sort(es), priority, kind) == OfKey(es, priority, kind)
  {
    if es != [] {
      SortStable(es[..|es| - 1], priority, kind);
      SortOrdered(es[..|es| - 1]);
      InsertStable(Sort(es[..|es| - 1]), es[|es| - 1], priority, kind);
    }
  }

  function EntryOf(r: Request, fromRunning: bool): Entry {
    Entry(if !fromRunning then 2 else if r.preempted then 1 else 0, r)
  }

  function Entries(running: seq<Request>, waiting: seq<Request>): seq<Entry> {
    seq(|running|, i requires 0 <= i < |running| => EntryOf(running[i], true)) +
    seq(|waiting|, i requires 0 <= i < |waiting| => EntryOf(waiting[i], false))
  }

  function Requests(es: seq<Entry>): seq<Request> { seq(|es|, i requires 0 <= i < |es| => es[i].req) }

  function Ids(es: seq<Entry>, kind: nat): set<Id> { set e | e in es && e.kind == kind :: e.req.id }

  function Combine(q: Queues, running: seq<Request>, waiting: seq<Request>): Queues {
    var es := Entries(running, waiting);
    var c := Requests(Sort(es));
    Queues(c, Ids(es, 0), Ids(es, 2), Ids(es, 1), q.ignored, q.skipped,
           LastBelow(c, Ids(es, 0), |c|), FirstFrom(c, Ids(es, 2) + Ids(es, 1), 0))
  }

  ghost predicate DistinctEntries(es: seq<Entry>) { forall i, j :: 0 <= i < j < |es| ==> es[i].req.id != es[j].req.id }

  ghost predicate FreshFor(es: seq<Entry>, x: Entry) { forall i :: 0 <= i < |es| ==> es[i].req.id != x.req.id }

  lemma {:induction false} InsertFresh(es: seq<Entry>, e: Entry, x: Entry)
    requires FreshFor(es, x) && e.req.id != x.req.id
    ensures FreshFor(Insert(es, e), x)
  {
    if es != [] { InsertFresh(es[..|es| - 1], e, x); }
  }

  lemma {:induction false} InsertDistinct(es: seq<Entry>, e: Entry)
    requires DistinctEntries(es) && FreshFor(es, e)
    ensures DistinctEntries(Insert(es, e))
  {
    if es != [] && !NotAfter(es[|es| - 1], e) {
      var n := |es| - 1;
      InsertDistinct(es[..n], e);
      InsertFresh(es[..n], e, es[n]);
    }
  }

  lemma {:induction false} SortMembers(es: seq<Entry>, x: Entry)
    ensures x in Sort(es) <==> x in es
  {
    SortOrdered(es);
    assert x in Sort(es) <==> x in multiset(Sort(es));
    assert x in es <==> x in multiset(es);
  }

  lemma {:induction false} SortDistinct(es: seq<Entry>)
    requires DistinctEntries(es)
    ensures DistinctEntries(Sort(es))
  {
    if es != [] {
      var n := |es| - 1;
      SortDistinct(es[..n]);
      forall i | 0 <= i < |Sort(es[..n])| ensures Sort(es[..n])[i].req.id != es[n].req.id {
        SortMembers(es[..n], Sort(es[..n])[i]);
      }
      InsertDistinct(Sort(es[..n]), es[n]);
    }
  }

  /** Combining two queues of distinct requests gives a sound queue with exact positions in which each
      request is running or pending: a permutation of the two, by priority and then by kind. */
  lemma CombineExact(q: Queues, running: seq<Request>, waiting: seq<Request>)
    requires DistinctEntries(Entries(running, waiting))
    ensures var q' := Combine(q, running, waiting); Sound(q') && Exact(q') && Covered(q') && Accounted(q')
    ensures var es := Sort(Entries(running, waiting));
      Combine(q, running, waiting).combined == Requests(es) && Ordered(es) &&
        multiset(es) == multiset(Entries(running, waiting))
  {
    var es := Entries(running, waiting);
    var q' := Combine(q, running, waiting);
    SortOrdered(es);
    SortDistinct(es);
    forall i | 0 <= i < |q'.combined| ensures q'.combined[i].id in q'.running || q'.combined[i].id in Pending(q') {
      SortMembers(es, Sort(es)[i]);
      SomeKind(es, running, waiting, Sort(es)[i]);
    }
    IdsDisjoint(es, 0, 1);
    IdsDisjoint(es, 0, 2);
    IdsDisjoint(es, 2, 1);
  }

  lemma SomeKind(es: seq<Entry>, running: seq<Request>, waiting: seq<Request>, e: Entry)
    requires es == Entries(running, waiting) && e in es
    ensures e.req.id in Ids(es, 0) || e.req.id in Ids(es, 2) + Ids(es, 1)
  {
    EntryFrom(es, running, waiting, e);
    assert e.req.id in Ids(es, e.kind);
  }

  /** Where a combined request comes from: it counts as running if it was handed in as running and not
      preempted, as preempted if it was handed in as running and preempted, and as waiting otherwise. */
  lemma CombinedSets(q: Queues, running: seq<Request>, waiting: seq<Request>, id: Id)
    ensures var q' := Combine(q, running, waiting);
      && (id in q'.running <==> exists r :: r in running && r.id == id && !r.preempted)
      && (id in q'.preempted <==> exists r :: r in running && r.id == id && r.preempted)
      && (id in q'.waiting <==> exists r :: r in waiting && r.id == id)
      && q'.ignored == q.ignored && q'.skipped == q.skipped
  {
    KindSets(Entries(running, waiting), running, waiting, id, 0);
    KindSets(Entries(running, waiting), running, waiting, id, 1);
    KindSets(Entries(running, waiting), running, waiting, id, 2);
  }

  ghost predicate OfKind(r: Request, running: seq<Request>, waiting: seq<Request>, kind: nat) {
    match kind
    case 0 => r in running && !r.preempted
    case 1 => r in running && r.preempted
    case 2 => r in waiting
    case _ => false
  }

  lemma KindSets(es: seq<Entry>, running: seq<Request>, waiting: seq<Request>, id: Id, kind: nat)
    requires es == Entries(running, waiting)
    ensures id in Ids(es, kind) <==> exists r: Request :: r.id == id && OfKind(r, running, waiting, kind)
  {
    if id in Ids(es, kind) {
      var e :| e in es && e.kind == kind && e.req.id == id;
      EntryFrom(es, running, waiting, e);
      assert OfKind(e.req, running, waiting, kind);
    }
    if r: Request :| r.id == id && OfKind(r, running, waiting, kind) {
      EntryFrom(es, running, waiting, Entry(kind, r));
      assert Entry(kind, r) in es;
    }
  }

  lemma EntryFrom(es: seq<Entry>, running: seq<Request>, waiting: seq<Request>, e: Entry)
    requires es == Entries(running, waiting)
    ensures e in es <==> OfKind(e.req, running, waiting, e.kind)
  {
    if e in es {
      var i :| 0 <= i < |es| && es[i] == e;
      assert es[i] == if i < |running| then EntryOf(running[i], true) else EntryOf(waiting[i - |running|], false);
    }
    if OfKind(e.req, running, waiting, e.kind) {
      if e.kind == 2 {
        var i :| 0 <= i < |waiting| && waiting[i] == e.req;
        assert es[|running| + i] == e;
      } else {
        var i :| 0 <= i < |running| && running[i] == e.req;
        assert es[i] == e;
      }
    }
  }

  /** In the combined queue the smaller priority number comes first, and among equal ones the running
      requests precede the preempted ones and these the waiting ones. */
  lemma CombinedOrder(q: Queues, running: seq<Request>, waiting: seq<Request>, i: nat, j: nat)
    requires DistinctEntries(Entries(running, waiting)) && i < j < |Combine(q, running, waiting).combined|
    ensures var q' := Combine(q, running, waiting);
      var a, b := q'.combined[i], q'.combined[j];
      && a.priority <= b.priority
      && (a.priority == b.priority && b.id in q'.running ==> a.id in q'.running)
      && (a.priority == b.priority && a.id in q'.waiting ==> b.id in q'.waiting)
  {
    var all := Entries(running, waiting);
    SortOrdered(all);
    SortMembers(all, Sort(all)[i]);
    SortMembers(all, Sort(all)[j]);
    KindOf(all, Sort(all)[i]);
    KindOf(all, Sort(all)[j]);
    OrderOfKinds(Sort(all), i, j);
  }

  lemma OrderOfKinds(es: seq<Entry>, i: nat, j: nat)
    requires Ordered(es) && i < j < |es|
    ensures es[i].req.priority <= es[j].req.priority
    ensures es[i].req.priority == es[j].req.priority ==> es[i].kind <= es[j].kind
  {}

  lemma KindOf(es: seq<Entry>, x: Entry)
    requires DistinctEntries(es) && x in es
    ensures x.req.id in Ids(es, 0) <==> x.kind == 0
    ensures x.req.id in Ids(es, 2) <==> x.kind == 2
  {
    forall y | y in es && y.req.id == x.req.id ensures y == x {
      var i :| 0 <= i < |es| && es[i] == x;
      var j :| 0 <= j < |es| && es[j] == y;
    }
  }

  lemma IdsDisjoint(es: seq<Entry>, a: nat, b: nat)
    requires DistinctEntries(es) && a != b
    ensures Ids(es, a) !! Ids(es, b)
  {
    forall id | id in Ids(es, a) ensures id !in Ids(es, b) {
      var x :| x in es && x.kind == a && x.req.id == id;
      forall y | y in es && y.kind == b ensures y.req.id != id {
        var i :| 0 <= i < |es| && es[i] == x;
        var j :| 0 <= j < |es| && es[j] == y;
        assert i != j;
      }
    }
  }

  const EMPTY := Queues([], {}, {}, {}, {}, {}, None, None)

  /** A queue of one running request: preempting it, or having no budget for it, fails the assertion. */
  lemma SoleRunnerRaises(a: Id)
    ensures var q := Combine(EMPTY, [Request(a, 1, false)], []);
      && Sound(q) && Preempt(q) == Raised(AssertionError) && PreemptRest(q, q.running, 0) == Raised(AssertionError)
  {
    var r := Request(a, 1, false);
    OneEntry(r);
    assert Requests([Entry(0, r)]) == [r] && Ids([Entry(0, r)], 0) == {a};
    var q := Combine(EMPTY, [r], []);
    assert q.combined == [r] && q.running == {a} && q.waiting == {} && q.preempted == {};
    assert q.last == Some(0) && q.first == None;
    assert q.running - {a} == {} && q.preempted + {a} == {a};
  }

  lemma OneEntry(r: Request)
    requires !r.preempted
    ensures Entries([r], []) == [Entry(0, r)] == Sort([Entry(0, r)])
  {
    assert [Entry(0, r)][..0] == [] && Sort([]) == [];
  }

  /** A waiting request of higher priority than a running one: the queue cannot be split by position. */
  lemma InvertedSplitFails(a: Id, b: Id)
    requires a != b
    ensures var q := Combine(EMPTY, [Request(b, 2, false)], [Request(a, 1, false)]);
      Sound(q) && UpdateQueues(q) == Failed
  {
    var r, w := Request(b, 2, false), Request(a, 1, false);
    var es := [Entry(0, r), Entry(2, w)];
    assert Entries([r], [w]) == es;
    SortTwo(Entry(0, r), Entry(2, w));
    var q := Combine(EMPTY, [r], [w]);
    assert q.combined == [w, r];
    IdsOfTwo(es, r, w);
    WaitingFirst(q, a, b);
  }

  lemma IdsOfTwo(es: seq<Entry>, r: Request, w: Request)
    requires es == [Entry(0, r), Entry(2, w)]
    ensures Ids(es, 0) == {r.id} && Ids(es, 1) == {} && Ids(es, 2) == {w.id}
  {
    assert es[0] in es && es[1] in es;
  }

  lemma WaitingFirst(q: Queues, a: Id, b: Id)
    requires a != b && q.combined == [Request(a, 1, false), Request(b, 2, false)]
    requires q.running == {b} && q.waiting == {a} && q.preempted == q.ignored == q.skipped == {}
    requires q.last == LastBelow(q.combined, {b}, 2) && q.first == FirstFrom(q.combined, {a} + {}, 0)
    ensures Sound(q) && UpdateQueues(q) == Failed
  {
    assert q.last == Some(1) && q.first == Some(0);
  }

  lemma SortTwo(e: Entry, f: Entry)
    requires !NotAfter(e, f)
    ensures Sort([e, f]) == [f, e]
  {
    assert [e, f][..1] == [e] && [e][..0] == [] && Sort([]) == [] && Sort([e]) == [e];
    assert Insert([e], f) == Insert([], f) + [e];
  }

  // ---------------------------------------------------------------- the manager

  /** The manager itself. A method that returns false has raised an exception half-way. */
  class Manager {
    var combined: seq<Request>
    var runningIds: set<Id>
    var waitingIds: set<Id>
    var preemptedIds: set<Id>
    var ignoredIds: set<Id>
    var skippedIds: set<Id>
    var lastRunning: Option<nat>
    var firstWaiting: Option<nat>

    constructor ()
      ensures State() == Queues([], {}, {}, {}, {}, {}, None, None)
    {
      combined, runningIds, waitingIds, preemptedIds, ignoredIds, skippedIds := [], {}, {}, {}, {}, {};
      lastRunning, firstWaiting := None, None;
    }

    function State(): Queues
      reads this
    {
      Queues(combined, runningIds, waitingIds, preemptedIds, ignoredIds, skippedIds, lastRunning, firstWaiting)
    }

    method SearchLast(n: nat) returns (o: Option<nat>)
      requires n <= |combined|
      ensures o == LastBelow(combined, runningIds, n)
    {
      var i := n;
      while i > 0
        invariant 0 <= i <= n && LastBelow(combined, runningIds, n) == LastBelow(combined, runningIds, i)
      {
        i := i - 1;
        if combined[i].id in runningIds {
          return Some(i);
        }
      }
      return None;
    }

    method SearchFirst(k: nat) returns (o: Option<nat>)
      requires k <= |combined|
      ensures o == FirstFrom(combined, waitingIds + preemptedIds, k)
    {
      for i := k to |combined|
        invariant FirstFrom(combined, waitingIds + preemptedIds, k) == FirstFrom(combined, waitingIds + preemptedIds, i)
      {
        if combined[i].id in waitingIds || combined[i].id in preemptedIds {
          return Some(i);
        }
      }
      return None;
    }

    /** The entries of both queues, and their ids by kind. */
    method Collect(running: seq<Request>, waiting: seq<Request>) returns (es: seq<Entry>)
      modifies `runningIds, `waitingIds, `preemptedIds
      ensures es == Entries(running, waiting)
      ensures runningIds == Ids(es, 0) && preemptedIds == Ids(es, 1) && waitingIds == Ids(es, 2)
    {
      runningIds, waitingIds, preemptedIds := {}, {}, {};
      es := [];
      for i := 0 to |running|
        invariant es == Entries(running[..i], [])
        invariant runningIds == Ids(es, 0) && preemptedIds == Ids(es, 1) && waitingIds == Ids(es, 2)
      {
        EntriesNext(running, i);
        IdsNext(es, EntryOf(running[i], true));
        es := es + [EntryOf(running[i], true)];
        if running[i].preempted {
          preemptedIds := preemptedIds + {running[i].id};
        } else {
          runningIds := runningIds + {running[i].id};
        }
      }
      assert running[..|running|] == running;
      for i := 0 to |waiting|
        invariant es == Entries(running, waiting[..i])
        invariant runningIds == Ids(es, 0) && preemptedIds == Ids(es, 1) && waitingIds == Ids(es, 2)
      {
        IdsNext(es, EntryOf(waiting[i], false));
        es := es + [EntryOf(waiting[i], false)];
        waitingIds := waitingIds + {waiting[i].id};
      }
      assert waiting[..|waiting|] == waiting;
    }

    method CombineQueues(running: seq<Request>, waiting: seq<Request>)
      modifies this
      ensures State() == Combine(old(State()), running, waiting)
      ensures DistinctEntries(Entries(running, waiting)) ==>
        Sound(State()) && Exact(State()) && Covered(State()) && Accounted(State())
    {
      if DistinctEntries(Entries(running, waiting)) { CombineExact(State(), running, waiting); }
      var es := Collect(running, waiting);
      combined := Requests(Sort(es));
      lastRunning := SearchLast(|combined|);
      firstWaiting := SearchFirst(0);
    }

    method UpdateIdxsAfterPreemption() returns (ok: bool)
      requires Sound(State())
      modifies this
      ensures ok <==> Preempt(old(State())).Fine?
      ensures ok ==> State() == Preempt(old(State())).q
      ensures ok && Exact(old(State())) && Covered(old(State())) ==> Exact(State()) && Covered(State())
    {
      UpdateKeeps(State(), Preempting);
      if lastRunning.None? {
        return true;
      }
      var l := lastRunning.value;
      var id := combined[l].id;
      if id !in runningIds {
        return false;
      }
      runningIds := runningIds - {id};
      preemptedIds := preemptedIds + {id};
      lastRunning := SearchLast(l + 1);
      if lastRunning.None? && waitingIds + preemptedIds != {} {
        return firstWaiting == Some(0);
      }
      if firstWaiting.Some? && l < firstWaiting.value {
        firstWaiting := Some(l);
        return true;
      }
      if firstWaiting.None? {
        firstWaiting := Some(|combined| - 1);
      }
      return true;
    }

    method UpdateIdxsAfterNewScheduling() returns (ok: bool)
      requires Sound(State())
      modifies this
      ensures ok && State() == Schedule(old(State())).q
      ensures Exact(old(State())) && Covered(old(State())) ==> Exact(State()) && Covered(State())
    {
      UpdateKeeps(State(), Scheduling);
      ok := true;
      if firstWaiting.None? {
        return;
      }
      var f := firstWaiting.value;
      var id := combined[f].id;
      waitingIds := waitingIds - {id};
      preemptedIds := preemptedIds - {id};
      runningIds := runningIds + {id};
      firstWaiting := SearchFirst(f);
      if firstWaiting.None? && runningIds != {} {
        lastRunning := Some(|combined| - 1);
        return;
      }
      if lastRunning.Some? && f > lastRunning.value {
        lastRunning := Some(f);
        return;
      }
      if lastRunning.None? {
        lastRunning := Some(0);
      }
    }

    method UpdateIdxsAfterIgnored() returns (ok: bool)
      requires Sound(State())
      modifies this
      ensures ok <==> SetAside(old(State()), true).Fine?
      ensures ok ==> State() == SetAside(old(State()), true).q
      ensures ok && old(firstWaiting).Some? ==>
        && ignoredIds == old(ignoredIds) + {old(combined[firstWaiting.value].id)} && skippedIds == old(skippedIds)
        && waitingIds == old(waitingIds) - {old(combined[firstWaiting.value].id)}
      ensures ok && Accounted(old(State())) ==> Accounted(State())
      ensures ok && Exact(old(State())) ==> Exact(State())
    {
      UpdateKeeps(State(), Ignoring);
      if Accounted(State()) && SetAside(State(), true).Fine? { AccountedStep(State(), Ignoring); }
      if firstWaiting.None? {
        return true;
      }
      var f := firstWaiting.value;
      var id := combined[f].id;
      if id !in waitingIds {
        return false;
      }
      waitingIds, ignoredIds := waitingIds - {id}, ignoredIds + {id};
      firstWaiting := SearchFirst(f);
      return true;
    }

    method UpdateIdxsAfterSkipped() returns (ok: bool)
      requires Sound(State())
      modifies this
      ensures ok <==> SetAside(old(State()), false).Fine?
      ensures ok ==> State() == SetAside(old(State()), false).q
      ensures ok && old(firstWaiting).Some? ==>
        && skippedIds == old(skippedIds) + {old(combined[firstWaiting.value].id)} && ignoredIds == old(ignoredIds)
        && waitingIds == old(waitingIds) - {old(combined[firstWaiting.value].id)}
      ensures ok && Accounted(old(State())) ==> Accounted(State())
      ensures ok && Exact(old(State())) ==> Exact(State())
    {
      UpdateKeeps(State(), Skipping);
      if Accounted(State()) && SetAside(State(), false).Fine? { AccountedStep(State(), Skipping); }
      if firstWaiting.None? {
        return true;
      }
      var f := firstWaiting.value;
      var id := combined[f].id;
      if id !in waitingIds {
        return false;
      }
      waitingIds, skippedIds := waitingIds - {id}, skippedIds + {id};
      firstWaiting := SearchFirst(f);
      return true;
    }

    /** The waiting part is listed in the order in which it is handed to the request queue. */
    method SplitQueues() returns (parts: Split)
      requires Sound(State())
      ensures parts == UpdateQueues(State())
      ensures parts.Parts? && Exact(State()) && Covered(State()) ==> Divides(parts, combined, runningIds)
      ensures ignoredIds != {} || skippedIds != {} ==> parts.Parts? && Divides(parts, combined, runningIds)
    {
      SplitDivides(State());
      if ignoredIds != {} || skippedIds != {} { SplitAside(State()); }
      if ignoredIds != {} || skippedIds != {} {
        parts := SplitOneByOne();
      } else if lastRunning.Some? && firstWaiting.Some? {
        if lastRunning.value != firstWaiting.value - 1 {
          return Failed;
        }
        parts := Parts(combined[..firstWaiting.value], combined[firstWaiting.value..]);
      } else if lastRunning.Some? {
        parts := Parts(combined, []);
      } else if firstWaiting.Some? {
        parts := Parts([], combined);
      } else {
        parts := Parts([], []);
      }
    }

    method SplitOneByOne() returns (parts: Split)
      ensures parts == Parts(Keep(combined, runningIds, true), Keep(combined, runningIds, false))
    {
      var running, waiting := [], [];
      for i := 0 to |combined|
        invariant running == Keep(combined[..i], runningIds, true) && waiting == Keep(combined[..i], runningIds, false)
      {
        assert combined[..i + 1][..i] == combined[..i];
        if combined[i].id in runningIds {
          running := running + [combined[i]];
        } else {
          waiting := waiting + [combined[i]];
        }
      }
      assert combined[..|combined|] == combined;
      parts := Parts(running, waiting);
    }

    /** The scheduler's last pass, with the statuses as they are when it begins. */
    method PreemptLeftOver(start: nat) returns (ok: bool)
      requires Sound(State()) && start <= |combined|
      modifies this
      ensures ok <==> PreemptRest(old(State()), old(runningIds), start).Fine?
      ensures ok ==> State() == PreemptRest(old(State()), old(runningIds), start).q
      ensures ok && Exact(old(State())) && Covered(old(State())) ==>
        Exact(State()) && Covered(State()) && OnlyBelow(old(State()), State(), start)
    {
      if Exact(State()) && Covered(State()) { PreemptRestExact(State(), start); }
      var statuses := runningIds;
      for index := start to |combined|
        invariant Sound(State()) && combined == old(combined)
        invariant PreemptRest(old(State()), statuses, start) == PreemptRest(State(), statuses, index)
      {
        if combined[index].id in statuses {
          var done := UpdateIdxsAfterPreemption();
          if !done {
            return false;
          }
        }
      }
      return true;
    }
  }

  lemma EntriesNext(running: seq<Request>, i: nat)
    requires i < |running|
    ensures Entries(running[..i + 1], []) == Entries(running[..i], []) + [EntryOf(running[i], true)]
  {}

  lemma IdsNext(es: seq<Entry>, e: Entry)
    ensures Ids(es + [e], e.kind) == Ids(es, e.kind) + {e.req.id}
    ensures forall kind: nat :: kind != e.kind ==> Ids(es + [e], kind) == Ids(es, kind)
  {
    assert e in es + [e];
    forall x ensures x in es + [e] <==> x in es || x == e {}
  }
}
