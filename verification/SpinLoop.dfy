/** Waiting for a store to a shared buffer (rps-serve/csrc/spinloop.cpp): a waiter that checks, arms
    a monitor, checks again and sleeps, interleaved with a writer and with the passing of time. */
module SpinLoop {
  import opened Sums

  type Buffer = seq<int>

  /** What the callback does; only the object True counts as true. */
  datatype Answer = IsTrue | NotTrue | Raises

  /** The callback depends on the buffer alone. */
  datatype Config = Config(callback: Buffer -> Answer, timeout: real, bufferLength: nat, maxLine: nat, monitorx: bool)

  datatype Outcome = ReturnsTrue | ReturnsFalse | CallbackError | ClockError

  datatype Pc = Starting | Calling | Clocking | Arming | Rechecking | Asleep | Pausing | Done(outcome: Outcome)

  /** iteration is the 32-bit counter, passes the number of passes it stands for. */
  datatype State = State(buffer: Buffer, now: real, start: real, iteration: nat, passes: nat, pc: Pc,
                         armed: bool, triggered: bool)

  /** Go, Clock and Wake are steps of the waiter; Wake may be due to the timer of the wait. A store
      triggers the monitor if it is armed. */
  datatype Step = Go | Clock(works: bool) | Wake(timer: bool) | Store(value: Buffer) | Tick(span: real)

  predicate HasTimeout(c: Config) { c.timeout > 0.000000001 }

  predicate Monitors(c: Config) { c.bufferLength <= c.maxLine && c.monitorx }

  function Initial(buffer: Buffer, now: real): State { State(buffer, now, now, 0, 0, Starting, false, false) }

  predicate Enabled(s: State, step: Step) {
    match step
    case Go => s.pc.Calling? || s.pc.Arming? || s.pc.Rechecking? || s.pc.Pausing?
    case Clock(_) => s.pc.Starting? || s.pc.Clocking?
    case Wake(timer) => s.pc.Asleep? && (timer || s.triggered)
    case Store(_) => true
    case Tick(span) => span >= 0.0
  }

  function Bump(c: Config, s: State): State {
    s.(iteration := (s.iteration + 1) % 0x1_0000_0000, passes := s.passes + 1,
       pc := if Monitors(c) then Arming else Pausing)
  }

  function Proceed(c: Config, s: State): State {
    match s.pc
    case Calling =>
      (match c.callback(s.buffer)
       case Raises => s.(pc := Done(CallbackError))
       case IsTrue => s.(pc := Done(ReturnsTrue))
       case NotTrue => if HasTimeout(c) && s.iteration % 16 == 0 then s.(pc := Clocking) else Bump(c, s))
    case Arming => s.(pc := Rechecking, armed := true, triggered := false)
    case Rechecking =>
      (match c.callback(s.buffer)
       case Raises => s.(pc := Done(CallbackError))
       case IsTrue => s.(pc := Done(ReturnsTrue))
       case NotTrue => s.(pc := Asleep))
    case _ => s.(pc := Calling)
  }

  function Next(c: Config, s: State, step: Step): State
    requires Enabled(s, step)
  {
    match step
    case Go => Proceed(c, s)
    case Clock(works) =>
      if !works then s.(pc := Done(ClockError))
      else if s.pc.Starting? then s.(start := s.now, pc := Calling)
      else if s.now - s.start >= c.timeout then s.(pc := Done(ReturnsFalse))
      else Bump(c, s)
    case Wake(_) => s.(pc := Calling, armed := false, triggered := false)
    case Store(value) => s.(buffer := value, triggered := s.triggered || s.armed)
    case Tick(span) => s.(now := s.now + span)
  }

  /** The states a run passes through, one more than its steps. */
  ghost predicate Trace(c: Config, states: seq<State>, steps: seq<Step>) {
    && |states| == |steps| + 1
    && states[0] == Initial(states[0].buffer, states[0].now)
    && forall k :: 0 <= k < |steps| ==> Follows(c, states[k], steps[k], states[k + 1])
  }

  ghost predicate Follows(c: Config, s: State, step: Step, s': State) { Enabled(s, step) && Next(c, s, step) == s' }

  function Last(states: seq<State>): State
    requires states != []
  {
    states[|states| - 1]
  }

  lemma Shorter(c: Config, states: seq<State>, steps: seq<Step>)
    requires Trace(c, states, steps) && steps != []
    ensures Trace(c, states[..|steps|], steps[..|steps| - 1])
    ensures Follows(c, Last(states[..|steps|]), steps[|steps| - 1], Last(states))
  {
    var n := |steps| - 1;
    assert Follows(c, states[n], steps[n], states[n + 1]);
    forall k | 0 <= k < n ensures Follows(c, states[..n + 1][k], steps[..n][k], states[..n + 1][k + 1]) {
      assert Follows(c, states[k], steps[k], states[k + 1]);
    }
  }

  // ---------------------------------------------------------------- no wake-up is lost

  /** A waiter that sleeps by an untriggered monitor last saw the buffer as it still is. */
  ghost predicate Sound(c: Config, s: State) {
    && (s.pc.Arming? || s.pc.Rechecking? || s.pc.Asleep? ==> Monitors(c))
    && (s.pc.Rechecking? || s.pc.Asleep? ==> s.armed)
    && (s.pc.Asleep? && !s.triggered ==> c.callback(s.buffer) == NotTrue)
    && (s.pc.Clocking? ==> HasTimeout(c) && s.passes % 16 == 0)
    && s.iteration == s.passes % 0x1_0000_0000
    && (s.pc.Starting? ==> s.passes == 0)
    && (s.pc.Pausing? ==> !Monitors(c))
    && (!s.pc.Rechecking? && !s.pc.Asleep? && !s.pc.Done? ==> !s.armed)
    && (s.triggered ==> s.armed)
  }

  lemma WrapKeepsSixteen(n: nat)
    ensures n % 0x1_0000_0000 % 16 == n % 16
    ensures (n % 0x1_0000_0000 + 1) % 0x1_0000_0000 == (n + 1) % 0x1_0000_0000
  {
    var q, m := n / 0x1_0000_0000, n % 0x1_0000_0000;
    SameSixteenth(q * 0x1000_0000, m, n);
    NextWraps(q, m, n);
  }

  lemma SameSixteenth(a: nat, m: nat, n: nat)
    requires n == 16 * a + m
    ensures m % 16 == n % 16
  {}

  lemma NextWraps(q: nat, m: nat, n: nat)
    requires n == 0x1_0000_0000 * q + m && m < 0x1_0000_0000
    ensures (m + 1) % 0x1_0000_0000 == (n + 1) % 0x1_0000_0000
  {}

  lemma SoundStep(c: Config, s: State, step: Step)
    requires Sound(c, s) && Enabled(s, step)
    ensures Sound(c, Next(c, s, step))
  {
    if step.Go? {
      SoundProceed(c, s);
    } else if step.Clock? {
      BumpSound(c, s);
    }
  }

  lemma SoundProceed(c: Config, s: State)
    requires Sound(c, s) && Enabled(s, Go)
    ensures Sound(c, Proceed(c, s))
  {
    if s.pc.Calling? { BumpSound(c, s); }
  }

  lemma BumpSound(c: Config, s: State)
    requires Sound(c, s) && (s.pc.Starting? || s.pc.Calling? || s.pc.Clocking?)
    ensures s.iteration % 16 == s.passes % 16
    ensures Sound(c, Bump(c, s))
  {
    WrapKeepsSixteen(s.passes);
  }

  lemma {:induction false} AlwaysSound(c: Config, states: seq<State>, steps: seq<Step>)
    requires Trace(c, states, steps)
    ensures Sound(c, Last(states))
  {
    if steps != [] {
      Shorter(c, states, steps);
      AlwaysSound(c, states[..|steps|], steps[..|steps| - 1]);
      SoundStep(c, states[|steps| - 1], steps[|steps| - 1]);
    }
  }

  /** In no reachable state does the waiter sleep by an untriggered monitor while the condition holds. */
  lemma NoLostWakeUp(c: Config, states: seq<State>, steps: seq<Step>)
    requires Trace(c, states, steps) && Last(states).pc.Asleep? && c.callback(Last(states).buffer) == IsTrue
    ensures Last(states).triggered && Enabled(Last(states), Wake(false))
  {
    AlwaysSound(c, states, steps);
  }

  // ---------------------------------------------------------------- every outcome has its cause

  predicate Consults(s: State, step: Step) { step.Go? && (s.pc.Calling? || s.pc.Rechecking?) }

  predicate ReadsClock(s: State, step: Step) { step.Clock? && s.pc.Clocking? }

  /** The step that decides on the outcome. */
  predicate Decides(c: Config, s: State, step: Step, outcome: Outcome) {
    match outcome
    case ReturnsTrue => Consults(s, step) && c.callback(s.buffer) == IsTrue
    case CallbackError => Consults(s, step) && c.callback(s.buffer) == Raises
    case ReturnsFalse => ReadsClock(s, step) && step.works && s.now - s.start >= c.timeout
    case ClockError => step == Clock(false)
  }

  lemma DecidesExact(c: Config, s: State, step: Step, outcome: Outcome)
    requires Enabled(s, step)
    ensures Next(c, s, step).pc == Done(outcome) <==> s.pc == Done(outcome) || Decides(c, s, step, outcome)
  {}

  /** Step k decides; no call of the callback before it was true or raised, and nothing changes the
      outcome after it. */
  ghost predicate Decided(c: Config, states: seq<State>, steps: seq<Step>, k: nat, outcome: Outcome)
    requires k < |steps| < |states|
  {
    && Decides(c, states[k], steps[k], outcome)
    && (outcome.ReturnsFalse? ==> HasTimeout(c) && states[k].passes % 16 == 0)
    && (forall j :: 0 <= j < k ==> AnswersNo(c, states[j], steps[j]))
    && (forall j :: k < j < |states| ==> states[j].pc == Done(outcome))
  }

  ghost predicate AnswersNo(c: Config, s: State, step: Step) { Consults(s, step) ==> c.callback(s.buffer) == NotTrue }

  /** As long as the waiter is at work, no call of the callback has been true or raised. */
  lemma {:induction false} NoSoFar(c: Config, states: seq<State>, steps: seq<Step>)
    requires Trace(c, states, steps) && !Last(states).pc.Done?
    ensures forall j :: 0 <= j < |steps| ==> AnswersNo(c, states[j], steps[j])
  {
    if steps != [] {
      var n := |steps| - 1;
      Shorter(c, states, steps);
      NoSoFar(c, states[..n + 1], steps[..n]);
      forall j | 0 <= j < |steps| ensures AnswersNo(c, states[j], steps[j]) {
        if j < n { assert AnswersNo(c, states[..n + 1][j], steps[..n][j]); }
      }
    }
  }

  /** True is returned only after the callback returned True, False only when the timeout has passed at
      a reading of the clock, and so on for the errors. */
  lemma {:induction false} OutcomeHasCause(c: Config, states: seq<State>, steps: seq<Step>, outcome: Outcome)
    requires Trace(c, states, steps) && Last(states).pc == Done(outcome)
    ensures exists k :: 0 <= k < |steps| && Decided(c, states, steps, k, outcome)
  {
    var n := |steps| - 1;
    Shorter(c, states, steps);
    var s := states[n];
    DecidesExact(c, s, steps[n], outcome);
    if s.pc == Done(outcome) {
      OutcomeHasCause(c, states[..n + 1], steps[..n], outcome);
      var k :| 0 <= k < |steps[..n]| && Decided(c, states[..n + 1], steps[..n], k, outcome);
      DecidedLonger(c, states, steps, k, outcome);
    } else {
      AlwaysSound(c, states[..n + 1], steps[..n]);
      NoSoFar(c, states[..n + 1], steps[..n]);
      forall j | 0 <= j < n ensures AnswersNo(c, states[j], steps[j]) {
        assert AnswersNo(c, states[..n + 1][j], steps[..n][j]);
      }
      assert Decided(c, states, steps, n, outcome);
    }
  }

  lemma DecidedLonger(c: Config, states: seq<State>, steps: seq<Step>, k: nat, outcome: Outcome)
    requires |states| == |steps| + 1 && k < |steps| - 1 && Last(states).pc == Done(outcome)
    requires Decided(c, states[..|steps|], steps[..|steps| - 1], k, outcome)
    ensures Decided(c, states, steps, k, outcome)
  {
    var n := |steps| - 1;
    forall j | 0 <= j < k ensures AnswersNo(c, states[j], steps[j]) {
      assert AnswersNo(c, states[..n + 1][j], steps[..n][j]);
    }
    forall j | k < j < |states| ensures states[j].pc == Done(outcome) {
      if j <= n { assert states[..n + 1][j].pc == Done(outcome); }
    }
  }

  // ---------------------------------------------------------------- what the state records of the run

  /** From step k on the buffer is the value stored there, unless another is stored later. */
  lemma {:induction false} BufferIsLastStored(c: Config, states: seq<State>, steps: seq<Step>, k: nat)
    requires Trace(c, states, steps) && k <= |steps| && (k > 0 ==> steps[k - 1].Store?)
    requires forall j :: k <= j < |steps| ==> !steps[j].Store?
    ensures Last(states).buffer == if k > 0 then steps[k - 1].value else states[0].buffer
  {
    var n := |steps| - 1;
    if steps != [] {
      Shorter(c, states, steps);
      if k <= n { BufferIsLastStored(c, states[..n + 1], steps[..n], k); }
    }
  }

  /** The clock shows the time that has passed since the beginning, and nothing else moves it. */
  lemma {:induction false} NowIsElapsed(c: Config, states: seq<State>, steps: seq<Step>, span: int -> real)
    requires Trace(c, states, steps)
    requires forall i :: 0 <= i < |steps| ==> span(i) == if steps[i].Tick? then steps[i].span else 0.0
    ensures Last(states).now == states[0].now + Sum(|steps|, span)
  {
    if steps != [] {
      Shorter(c, states, steps);
      NowIsElapsed(c, states[..|steps|], steps[..|steps| - 1], span);
    }
  }

  /** Step k is the reading of the clock with which the waiter begins. */
  ghost predicate BeginsAt(states: seq<State>, steps: seq<Step>, k: nat)
    requires k < |steps| <= |states|
  {
    states[k].pc.Starting? && steps[k] == Clock(true)
  }

  lemma BeginStep(c: Config, s: State, step: Step)
    requires Enabled(s, step)
    ensures var s' := Next(c, s, step);
      if !s.pc.Starting? then s'.start == s.start && !s'.pc.Starting?
      else if step == Clock(true) then s'.start == s.now && !s'.pc.Starting?
      else s'.pc.Starting? || s'.pc == Done(ClockError)
  {}

  /** The timeout counts from the reading of the clock with which the waiter began. */
  lemma {:induction false} StartIsFirstReading(c: Config, states: seq<State>, steps: seq<Step>) returns (k: nat)
    requires Trace(c, states, steps) && !Last(states).pc.Starting? && Last(states).pc != Done(ClockError)
    ensures k < |steps| && BeginsAt(states, steps, k) && Last(states).start == states[k].now
  {
    var n := |steps| - 1;
    var states', steps' := states[..|steps|], steps[..n];
    Shorter(c, states, steps);
    BeginStep(c, states[n], steps[n]);
    if states[n].pc.Starting? {
      k := n;
    } else {
      if states[n].pc.Done? { EndedStays(c, states[n], steps[n]); }
      k := StartIsFirstReading(c, states', steps');
      assert BeginsAt(states', steps', k);
    }
  }

  lemma EndedStays(c: Config, s: State, step: Step)
    requires Enabled(s, step) && s.pc.Done?
    ensures Next(c, s, step).pc == s.pc
  {}

  /** A timeout of a nanosecond or less is none: the clock is not looked at and False never returned. Only
      a buffer that fits a line is watched by the monitor, and any other is waited for by pausing. */
  lemma WaitsAsConfigured(c: Config, states: seq<State>, steps: seq<Step>)
    requires Trace(c, states, steps)
    ensures c.timeout <= 0.000000001 ==> !Last(states).pc.Clocking?
    ensures Last(states).pc.Asleep? || Last(states).pc.Rechecking? ==> c.bufferLength <= c.maxLine && c.monitorx
    ensures Last(states).pc.Pausing? ==> c.bufferLength > c.maxLine || !c.monitorx
  {
    AlwaysSound(c, states, steps);
  }

  lemma {:induction false} NoTimeoutNoFalse(c: Config, states: seq<State>, steps: seq<Step>)
    requires Trace(c, states, steps) && c.timeout <= 0.000000001
    ensures Last(states).pc != Done(ReturnsFalse)
  {
    if steps != [] {
      Shorter(c, states, steps);
      NoTimeoutNoFalse(c, states[..|steps|], steps[..|steps| - 1]);
      WaitsAsConfigured(c, states[..|steps|], steps[..|steps| - 1]);
      DecidesExact(c, states[|steps| - 1], steps[|steps| - 1], ReturnsFalse);
    }
  }

  /** Step k stores while the monitor is armed, and it has been armed ever since. */
  ghost predicate StoredArmed(states: seq<State>, steps: seq<Step>, k: nat)
    requires k < |steps| < |states|
  {
    steps[k].Store? && forall j :: k <= j <= |steps| ==> states[j].armed
  }

  /** The monitor is triggered exactly when something was stored since it was armed. */
  lemma {:induction false} TriggeredExact(c: Config, states: seq<State>, steps: seq<Step>)
    requires Trace(c, states, steps)
    ensures Last(states).triggered <==> exists k :: 0 <= k < |steps| && StoredArmed(states, steps, k)
  {
    if steps != [] {
      var n := |steps| - 1;
      var states', steps' := states[..n + 1], steps[..n];
      Shorter(c, states, steps);
      TriggeredExact(c, states', steps');
      AlwaysSound(c, states', steps');
      TriggeredStep(c, states[n], steps[n]);
      if k :| 0 <= k < n && StoredArmed(states', steps', k) { ArmedLonger(states, steps, n, k); }
      if k :| 0 <= k < n && StoredArmed(states, steps, k) { ArmedLonger(states, steps, n, k); }
      StoredNow(states, steps, n);
    }
  }

  lemma StoredNow(states: seq<State>, steps: seq<Step>, n: nat)
    requires |states| == |steps| + 1 && n == |steps| - 1
    ensures StoredArmed(states, steps, n) <==> steps[n].Store? && states[n].armed && Last(states).armed
  {
    assert states[n + 1] == Last(states);
  }

  lemma TriggeredStep(c: Config, s: State, step: Step)
    requires Sound(c, s) && Enabled(s, step)
    ensures var s' := Next(c, s, step);
      s'.triggered <==> (s.triggered && s'.armed) || (step.Store? && s.armed && s'.armed)
  {}

  lemma ArmedLonger(states: seq<State>, steps: seq<Step>, n: nat, k: nat)
    requires |states| == |steps| + 1 && k < n == |steps| - 1
    ensures StoredArmed(states, steps, k) <==> StoredArmed(states[..n + 1], steps[..n], k) && Last(states).armed
  {
    if StoredArmed(states[..n + 1], steps[..n], k) && Last(states).armed {
      forall j | k <= j <= |steps| ensures states[j].armed {
        if j <= n { assert states[..n + 1][j].armed; }
      }
    }
  }

  // ---------------------------------------------------------------- the clock is read every 16 passes

  ghost function ClockReads(states: seq<State>, steps: seq<Step>): nat
    requires |states| == |steps| + 1
  {
    if steps == [] then 0
    else
      var n := |steps| - 1;
      ClockReads(states[..n + 1], steps[..n]) + if ReadsClock(states[n], steps[n]) then 1 else 0
  }

  lemma ClockStep(c: Config, s: State, step: Step)
    requires Sound(c, s) && Enabled(s, step)
    ensures var s' := Next(c, s, step);
      !s'.pc.Done? ==> !s.pc.Done? && s'.passes == s.passes + if PassEnds(s, s') then 1 else 0
    ensures ReadsClock(s, step) ==> HasTimeout(c) && s.passes % 16 == 0
    ensures PassEnds(s, Next(c, s, step)) && !ReadsClock(s, step) ==> !HasTimeout(c) || s.passes % 16 != 0
    ensures var s' := Next(c, s, step); ReadsClock(s, step) && !s'.pc.Done? ==> PassEnds(s, s')
  {
    WrapKeepsSixteen(s.passes);
  }

  predicate PassEnds(s: State, s': State) { s'.passes == s.passes + 1 }

  lemma SixteenStep(n: nat)
    ensures (n + 1 + 15) / 16 == (n + 15) / 16 + if n % 16 == 0 then 1 else 0
  {}

  /** A waiter at work has read the clock once for every sixteen passes begun, if it has a timeout. */
  lemma {:induction false} ClockEverySixteen(c: Config, states: seq<State>, steps: seq<Step>)
    requires Trace(c, states, steps) && !Last(states).pc.Done?
    ensures ClockReads(states, steps) == if c.timeout > 0.000000001 then (Last(states).passes + 15) / 16 else 0
  {
    if steps != [] {
      var n := |steps| - 1;
      Shorter(c, states, steps);
      ClockEverySixteen(c, states[..n + 1], steps[..n]);
      AlwaysSound(c, states[..n + 1], steps[..n]);
      ClockStep(c, states[n], steps[n]);
      SixteenStep(states[n].passes);
    }
  }

  // ---------------------------------------------------------------- the waiter gets there

  predicate IsWaiter(step: Step) { step.Go? || step.Clock? || step.Wake? }

  /** Steps the waiter still needs once the condition holds. */
  function ToGo(s: State): nat {
    match s.pc
    case Starting => 2
    case Calling => 1
    case Clocking => 3
    case Arming => 2
    case Rechecking => 1
    case Asleep => 2
    case Pausing => 2
    case Done(_) => 0
  }

  /** Until it is done, the waiter can always step; if the condition holds it needs no timer for that. */
  lemma NeverStuck(c: Config, states: seq<State>, steps: seq<Step>)
    requires Trace(c, states, steps) && !Last(states).pc.Done?
    ensures exists step ::
      && IsWaiter(step) && Enabled(Last(states), step)
      && (c.callback(Last(states).buffer) == IsTrue ==> step != Wake(true))
  {
    AlwaysSound(c, states, steps);
    var s := Last(states);
    var step := if s.pc.Starting? || s.pc.Clocking? then Clock(true)
                else if s.pc.Asleep? then (if s.triggered then Wake(false) else Wake(true)) else Go;
    assert Enabled(s, step);
  }

  ghost function WaiterSteps(steps: seq<Step>): nat {
    if steps == [] then 0 else WaiterSteps(steps[..|steps| - 1]) + if IsWaiter(steps[|steps| - 1]) then 1 else 0
  }

  ghost predicate NoStores(steps: seq<Step>) { forall step :: step in steps ==> !step.Store? }

  lemma ReadyStep(c: Config, s: State, step: Step)
    requires Enabled(s, step) && !step.Store? && c.callback(s.buffer) == IsTrue
    ensures var s' := Next(c, s, step);
      ToGo(s') + (if IsWaiter(step) then 1 else 0) <= ToGo(s) && s'.buffer == s.buffer
  {}

  /** Once the condition holds and stays, the waiter is done after three steps of its own at most. */
  lemma {:induction false} ReadyEnds(c: Config, states: seq<State>, steps: seq<Step>, k: nat)
    requires Trace(c, states, steps) && k <= |steps| && NoStores(steps[k..]) && c.callback(states[k].buffer) == IsTrue
    ensures WaiterSteps(steps[k..]) + ToGo(Last(states)) <= ToGo(states[k]) <= 3
    ensures Last(states).buffer == states[k].buffer
  {
    var n := |steps| - 1;
    if k <= n {
      Shorter(c, states, steps);
      TailNext(steps, k);
      ReadyEnds(c, states[..n + 1], steps[..n], k);
      ReadyStep(c, states[n], steps[n]);
    }
  }

  lemma TailNext(steps: seq<Step>, k: nat)
    requires k < |steps|
    ensures var n := |steps| - 1;
      && WaiterSteps(steps[k..]) == WaiterSteps(steps[..n][k..]) + (if IsWaiter(steps[n]) then 1 else 0)
      && (NoStores(steps[k..]) ==> NoStores(steps[..n][k..]) && !steps[n].Store?)
  {
    var n, tail := |steps| - 1, steps[k..];
    assert tail[..n - k] == steps[..n][k..];
    assert tail[n - k] == steps[n] && steps[n] in tail;
    assert forall step :: step in tail[..n - k] ==> step in tail;
  }

  /** Passes until the clock is read next. */
  function PassesToClock(s: State): nat { if s.passes % 16 == 0 then 0 else 16 - s.passes % 16 }

  /** Steps the waiter still needs, at most, once the timeout has passed. */
  function ToExpire(s: State): nat {
    match s.pc
    case Calling => 4 * PassesToClock(s) + 2
    case Clocking => 1
    case Arming => 4 * PassesToClock(s) + 5
    case Rechecking => 4 * PassesToClock(s) + 4
    case Asleep => 4 * PassesToClock(s) + 3
    case Pausing => 4 * PassesToClock(s) + 3
    case _ => 0
  }

  lemma OnePassLess(s: State, s': State)
    requires s'.passes == s.passes + 1 && s.passes % 16 != 0
    ensures PassesToClock(s') == PassesToClock(s) - 1
  {
    assert s'.passes % 16 == if s.passes % 16 == 15 then 0 else s.passes % 16 + 1;
  }

  lemma ExpireStep(c: Config, s: State, step: Step)
    requires Sound(c, s) && Enabled(s, step) && HasTimeout(c) && s.now - s.start >= c.timeout && !s.pc.Starting?
    ensures var s' := Next(c, s, step);
      ToExpire(s') + (if IsWaiter(step) then 1 else 0) <= ToExpire(s) && s'.now - s'.start >= c.timeout &&
        !s'.pc.Starting?
  {
    WrapKeepsSixteen(s.passes);
    if s.pc.Calling? && s.passes % 16 != 0 { OnePassLess(s, Bump(c, s)); }
  }

  /** Once the timeout has passed, the waiter is done after 65 steps of its own at most, whatever the
      writer does. */
  lemma {:induction false} TimeoutEnds(c: Config, states: seq<State>, steps: seq<Step>, k: nat)
    requires Trace(c, states, steps) && k <= |steps| && c.timeout > 0.000000001
    requires states[k].now - states[k].start >= c.timeout && !states[k].pc.Starting?
    ensures WaiterSteps(steps[k..]) + ToExpire(Last(states)) <= ToExpire(states[k]) <= 65
    ensures Last(states).now - Last(states).start >= c.timeout && !Last(states).pc.Starting?
  {
    var n := |steps| - 1;
    if k <= n {
      Shorter(c, states, steps);
      assert steps[k..][..n - k] == steps[..n][k..];
      TimeoutEnds(c, states[..n + 1], steps[..n], k);
      AlwaysSound(c, states[..n + 1], steps[..n]);
      ExpireStep(c, states[n], steps[n]);
    }
  }
}
