/** How long a supervisor of the relay service pauses between two runs of FFmpeg. */
module RelayPauses {
  import opened Basics
  import opened RelayService
  import F = RelayFailures

  /** Waits at most double from one attempt to the next, never shrink, and never exceed 30 seconds. */
  lemma DelayStep(base: real, attempt: nat)
    requires base >= 0.0 && attempt >= 1
    ensures 0.0 <= Delay(base, attempt) <= Delay(base, attempt + 1) <= 2.0 * Delay(base, attempt)
    ensures Delay(base, attempt) <= BACKOFF_MAX_SECS
  {
    var n := if attempt - 1 < 5 then attempt - 1 else 5;
    var power := Pow2(n);
    assert Pow2(n + 1) == 2 * power;
    assert base * (2 * power) as real == 2.0 * (base * power as real);
    assert base * power as real >= 0.0;
  }

  lemma {:induction false} DelaysGrow(base: real, a: nat, b: nat)
    requires base >= 0.0 && 1 <= a <= b
    ensures Delay(base, a) <= Delay(base, b) <= BACKOFF_MAX_SECS
    decreases b - a
  {
    hide Delay;
    DelayStep(base, a);
    if a < b { DelaysGrow(base, a + 1, b); }
  }

  /** A pausing supervisor waits as its count of failed runs says. */
  predicate Paused(r: Relay, base: real) {
    r.pc.Backoff? ==> r.attempt >= 1 && r.pc.wait == Delay(base, r.attempt)
  }

  ghost predicate PauseInv(m: Manager) {
    forall k :: 0 <= k < |m.objects| ==> Paused(m.objects[k], m.base)
  }

  lemma PausedAfter(m: Manager, step: Step, k: nat)
    requires Enabled(m, step) && k < |m.objects| && Paused(m.objects[k], m.base)
    ensures k < |Next(m, step).objects| && Paused(Next(m, step).objects[k], m.base)
    ensures step != GoesLive(k) ==> m.objects[k].attempt <= Next(m, step).objects[k].attempt
  {
    hide Delay, DoEnsure, DoStop;
    if step.Ensure? { EnsureStopsAtMost(m, step.call, step.room, step.target, k); }
    if step.Stop? { StopStopsAtMost(m, step.call, step.room, k); }
  }

  lemma NewOnesDoNotPause(m: Manager, step: Step, k: nat)
    requires Enabled(m, step) && |m.objects| <= k < |Next(m, step).objects|
    ensures Paused(Next(m, step).objects[k], m.base)
  {
    hide Delay, DoEnsure, DoStop;
    if step.Ensure? { EnsureCreatesIdle(m, step.call, step.room, step.target, k); }
    if step.Stop? && |m.objects| > 0 { StopStopsAtMost(m, step.call, step.room, 0); }
    if step.Stop? && |m.objects| == 0 { NothingToStop(m, step.call, step.room); }
  }

  lemma BaseStays(m: Manager, step: Step)
    requires Enabled(m, step)
    ensures Next(m, step).base == m.base
  {
    hide Delay;
  }

  lemma PauseStep(m: Manager, step: Step)
    requires PauseInv(m) && Enabled(m, step)
    ensures PauseInv(Next(m, step)) && Next(m, step).base == m.base
  {
    hide Enabled, Next, Paused;
    forall k | 0 <= k < |Next(m, step).objects| ensures Paused(Next(m, step).objects[k], m.base) {
      if k < |m.objects| { PausedAfter(m, step, k); } else { NewOnesDoNotPause(m, step, k); }
    }
    BaseStays(m, step);
  }

  /** Between two reports of going live a relay's pauses never get shorter, and none is above 30 seconds. */
  lemma {:induction false} PausesGrow(m: Manager, steps: seq<Step>, end: Manager, k: nat)
    requires m.base >= 0.0 && PauseInv(m) && Run(m, steps, end) && k < |m.objects| && GoesLive(k) !in steps
    ensures end.base == m.base && PauseInv(end)
    ensures k < |end.objects| && m.objects[k].attempt <= end.objects[k].attempt
    ensures m.objects[k].pc.Backoff? && end.objects[k].pc.Backoff? ==>
              m.objects[k].pc.wait <= end.objects[k].pc.wait <= BACKOFF_MAX_SECS
    decreases |steps|
  {
    if steps != [] {
      hide Delay, Next, Enabled;
      PauseStep(m, steps[0]);
      PausedAfter(m, steps[0], k);
      assert forall step :: step in steps[1..] ==> step in steps;
      PausesGrow(Next(m, steps[0]), steps[1..], end, k);
    }
    if m.objects[k].pc.Backoff? && end.objects[k].pc.Backoff? {
      hide Delay;
      DelaysGrow(m.base, m.objects[k].attempt, end.objects[k].attempt);
    }
  }

  /** The pause after the n-th run in a row that never went live, in its own terms: the base at first, then
      twice the one before up to the sixth, never above 30 seconds. */
  function Pause(base: real, n: nat): real
    requires n >= 1
  {
    var next := if n == 1 then base else if n <= 6 then 2.0 * Pause(base, n - 1) else Pause(base, n - 1);
    if next < 30.0 then next else 30.0
  }

  lemma Doubles(base: real, power: nat)
    ensures base * (2 * power) as real == 2.0 * (base * power as real)
    ensures base >= 0.0 ==> base * power as real >= 0.0
  {
  }

  lemma DelayDoubles(base: real, n: nat)
    requires base >= 0.0 && 2 <= n <= 6
    ensures var twice := 2.0 * Delay(base, n - 1); Delay(base, n) == if twice < 30.0 then twice else 30.0
  {
    var power := Pow2(n - 2);
    assert Pow2(n - 1) == 2 * power;
    hide Pow2;
    Doubles(base, power);
    var delay := base * power as real;
    assert base * (2 * power) as real == 2.0 * delay;
  }

  lemma DelaySettles(base: real, n: nat)
    requires n >= 1
    ensures n > 6 ==> Delay(base, n) == Delay(base, n - 1)
    ensures Delay(base, 1) == if base < 30.0 then base else 30.0
    ensures Delay(base, n) <= 30.0
  {
    assert Pow2(0) == 1;
  }

  lemma {:induction false} DelayIsPause(base: real, n: nat)
    requires base >= 0.0 && n >= 1
    ensures Delay(base, n) == Pause(base, n)
  {
    hide Delay;
    DelaySettles(base, n);
    if n > 1 {
      DelayIsPause(base, n - 1);
      if n <= 6 { DelayDoubles(base, n); }
    }
  }

  /** The runs of relay k that ended since it last went live, `so` of them before the steps. */
  function RunsInARow(steps: seq<Step>, k: nat, so: nat): nat {
    if steps == [] then so
    else
      var now := if steps[0] == AfterRun(k) then so + 1 else if steps[0] == GoesLive(k) then 0 else so;
      RunsInARow(steps[1..], k, now)
  }

  lemma AttemptStep(m: Manager, step: Step, k: nat)
    requires Enabled(m, step) && k < |m.objects| && !Next(m, step).objects[k].stopped
    ensures Next(m, step).objects[k].attempt
            == if step == AfterRun(k) then m.objects[k].attempt + 1
               else if step == GoesLive(k) then 0 else m.objects[k].attempt
    ensures step == AfterRun(k) ==>
              Next(m, step).objects[k].pc == Backoff(Delay(m.base, m.objects[k].attempt + 1))
  {
    hide Delay, DoEnsure, DoStop;
    F.ObjectsStay(m, step, k);
    if step.Ensure? { EnsureStopsAtMost(m, step.call, step.room, step.target, k); }
    if step.Stop? { StopStopsAtMost(m, step.call, step.room, k); }
  }

  lemma {:induction false} AttemptsCount(m: Manager, steps: seq<Step>, end: Manager, k: nat)
    requires Run(m, steps, end) && k < |m.objects| && k < |end.objects| && !end.objects[k].stopped
    ensures end.base == m.base && end.objects[k].attempt == RunsInARow(steps, k, m.objects[k].attempt)
    decreases |steps|
  {
    if steps != [] {
      hide Enabled, Next;
      F.ObjectsStay(m, steps[0], k);
      F.StoppedForGood(Next(m, steps[0]), steps[1..], end, k);
      AttemptStep(m, steps[0], k);
      BaseStays(m, steps[0]);
      AttemptsCount(Next(m, steps[0]), steps[1..], end, k);
    }
  }

  /** On every run, when one more run of an unstopped relay is over, its supervisor pauses as the number of
      runs since it last went live says. */
  lemma PauseExactly(m: Manager, steps: seq<Step>, end: Manager, k: nat)
    requires m.base >= 0.0 && Run(m, steps, end) && k < |m.objects| && k < |end.objects|
    requires Enabled(end, AfterRun(k)) && !end.objects[k].stopped
    ensures Next(end, AfterRun(k)).objects[k].pc
            == Backoff(Pause(m.base, RunsInARow(steps, k, m.objects[k].attempt) + 1))
  {
    hide Run, Delay, Pause, RunsInARow;
    AttemptsCount(m, steps, end, k);
    AttemptStep(end, AfterRun(k), k);
    DelayIsPause(m.base, end.objects[k].attempt + 1);
  }

  /** A new relay starts without any: with a base of one second it pauses 1, 2, 4, 8, 16 and then 30 seconds. */
  lemma PausesFromOne(m: Manager, room: nat, target: Target)
    ensures Create(m, room, target).objects[|m.objects|].attempt == 0
    ensures Pause(1.0, 1) == 1.0 && Pause(1.0, 2) == 2.0 && Pause(1.0, 3) == 4.0 && Pause(1.0, 4) == 8.0
    ensures Pause(1.0, 5) == 16.0 && Pause(1.0, 6) == 30.0 && Pause(1.0, 7) == 30.0
  {
    assert Pause(1.0, 3) == 4.0;
    assert Pause(1.0, 5) == 16.0;
  }
}
