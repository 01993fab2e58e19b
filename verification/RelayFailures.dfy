/** What a failed spawn does to the relay service: the supervisor returns, the relay stays registered, and no
    request for the same target brings it back. */
module RelayFailures {
  import opened Wrappers
  import opened RelayService

  /** The relay's supervisor has returned. */
  ghost predicate Gone(m: Manager, k: nat) { k < |m.objects| && m.objects[k].pc == Exited }

  ghost predicate Registered(m: Manager, room: nat, k: nat) {
    room in m.relays && m.relays[room] == k && k < |m.objects|
  }

  /** The room is listed, and nothing will ever run for it. */
  ghost predicate Dead(m: Manager, room: nat, k: nat) { Registered(m, room, k) && Gone(m, k) }

  // ---- Why a supervisor returns ----

  lemma EnsureLeavesStopped(m: Manager, call: nat, room: nat, target: Target, k: nat)
    requires k < |m.objects| && m.objects[k].stopped
    ensures k < |DoEnsure(m, call, room, target).objects| && DoEnsure(m, call, room, target).objects[k].stopped
  {
  }

  lemma StopLeavesStopped(m: Manager, call: nat, room: nat, k: nat)
    requires k < |m.objects| && m.objects[k].stopped
    ensures k < |DoStop(m, call, room).objects| && DoStop(m, call, room).objects[k].stopped
  {
  }

  /** Relays are never dropped, and stopping one is for good. */
  lemma ObjectsStay(m: Manager, step: Step, k: nat)
    requires Enabled(m, step) && k < |m.objects|
    ensures k < |Next(m, step).objects| && Next(m, step).objects[k].target == m.objects[k].target
    ensures m.objects[k].stopped ==> Next(m, step).objects[k].stopped
  {
    hide Delay, DoEnsure, DoStop;
    if step.Ensure? {
      EnsureStopsAtMost(m, step.call, step.room, step.target, k);
      if m.objects[k].stopped { EnsureLeavesStopped(m, step.call, step.room, step.target, k); }
    } else if step.Stop? {
      StopStopsAtMost(m, step.call, step.room, k);
      if m.objects[k].stopped { StopLeavesStopped(m, step.call, step.room, k); }
    }
  }

  lemma {:induction false} StoppedForGood(m: Manager, steps: seq<Step>, end: Manager, k: nat)
    requires Run(m, steps, end) && k < |m.objects|
    ensures k < |end.objects| && end.objects[k].target == m.objects[k].target
    ensures m.objects[k].stopped ==> end.objects[k].stopped
    decreases |steps|
  {
    if steps != [] {
      hide Enabled, Next;
      ObjectsStay(m, steps[0], k);
      StoppedForGood(Next(m, steps[0]), steps[1..], end, k);
    }
  }

  /** The supervisor of an unstopped relay returns in a step exactly if the step is its failed spawn. */
  lemma ExitStep(m: Manager, step: Step, k: nat)
    requires Enabled(m, step) && k < |Next(m, step).objects| && !Next(m, step).objects[k].stopped
    ensures Gone(Next(m, step), k) <==> Gone(m, k) || step == SpawnFails(k)
  {
    hide Delay, DoEnsure, DoStop;
    if step.Ensure? {
      if k < |m.objects| {
        EnsureStopsAtMost(m, step.call, step.room, step.target, k);
      } else {
        EnsureCreatesIdle(m, step.call, step.room, step.target, k);
      }
    } else if step.Stop? && m.objects == [] {
      NothingToStop(m, step.call, step.room);
    } else if step.Stop? {
      StopStopsAtMost(m, step.call, step.room, if k < |m.objects| then k else 0);
    }
  }

  lemma NotYetThere(m: Manager, step: Step, k: nat)
    requires Enabled(m, step) && k >= |Next(m, step).objects|
    ensures !Gone(m, k) && step != SpawnFails(k)
  {
    if k < |m.objects| { ObjectsStay(m, step, k); }
  }

  /** Over every run, the supervisor of a relay that is still unstopped has returned if and only if its spawn
      failed once, or it had returned before. */
  lemma {:induction false} ExitedExactly(m: Manager, steps: seq<Step>, end: Manager, k: nat)
    requires Run(m, steps, end) && k < |end.objects| && !end.objects[k].stopped
    ensures Gone(end, k) <==> Gone(m, k) || SpawnFails(k) in steps
    decreases |steps|
  {
    if steps != [] {
      hide Enabled, Next, Gone;
      var m1 := Next(m, steps[0]);
      assert SpawnFails(k) in steps <==> SpawnFails(k) == steps[0] || SpawnFails(k) in steps[1..];
      ExitedExactly(m1, steps[1..], end, k);
      if k < |m1.objects| {
        StoppedForGood(m1, steps[1..], end, k);
        ExitStep(m, steps[0], k);
      } else {
        NotYetThere(m, steps[0], k);
      }
    }
  }

  // ---- What replaces a relay ----

  /** A stop of the room, or a request for another target. */
  predicate Replaces(step: Step, room: nat, target: Target) {
    match step
    case Stop(_, r) => r == room
    case Ensure(_, r, t) => r == room && t != target
    case _ => false
  }

  lemma ReplaceStep(m: Manager, step: Step, room: nat, k: nat)
    requires Inv(m) && Enabled(m, step) && Registered(m, room, k)
    ensures Registered(Next(m, step), room, k) <==> !Replaces(step, room, m.objects[k].target)
    ensures Replaces(step, room, m.objects[k].target) ==>
              k < |Next(m, step).objects| && Next(m, step).objects[k].stopped
  {
    hide Delay, RelayInv;
    ObjectsStay(m, step, k);
  }

  ghost predicate NeverReplaced(steps: seq<Step>, room: nat, target: Target) {
    forall step :: step in steps ==> !Replaces(step, room, target)
  }

  lemma NeverReplacedFrom(steps: seq<Step>, room: nat, target: Target)
    requires steps != []
    ensures NeverReplaced(steps, room, target)
            <==> !Replaces(steps[0], room, target) && NeverReplaced(steps[1..], room, target)
  {
    hide Replaces;
    assert forall step :: step in steps <==> step == steps[0] || step in steps[1..];
  }

  lemma StoppedIsUnregistered(m: Manager, room: nat, k: nat)
    requires Inv(m) && k < |m.objects| && m.objects[k].stopped
    ensures !Registered(m, room, k)
  {
    hide RelayInv;
  }

  /** Over every run a relay keeps its room if and only if no step replaces it. */
  lemma {:induction false} ReplacedExactly(m: Manager, steps: seq<Step>, end: Manager, room: nat, k: nat)
    requires Inv(m) && Run(m, steps, end) && Registered(m, room, k)
    ensures Registered(end, room, k) <==> NeverReplaced(steps, room, m.objects[k].target)
    ensures k < |end.objects| && end.objects[k].target == m.objects[k].target
    decreases |steps|
  {
    if steps != [] {
      var m1, target := Next(m, steps[0]), m.objects[k].target;
      hide Enabled, Next, Inv, Replaces, NeverReplaced;
      StepKeepsInv(m, steps[0]);
      ObjectsStay(m, steps[0], k);
      ReplaceStep(m, steps[0], room, k);
      NeverReplacedFrom(steps, room, target);
      if Replaces(steps[0], room, target) {
        StoppedForGood(m1, steps[1..], end, k);
        ReachableInv(m1, steps[1..], end);
        StoppedIsUnregistered(end, room, k);
      } else {
        ReplacedExactly(m1, steps[1..], end, room, k);
      }
    }
  }

  // ---- A dead room ----

  /** A dead room has no process, and once its ensure and stop calls returned no other relay has one either. */
  lemma DeadHasNoProcess(m: Manager, room: nat, k: nat, p: nat)
    requires Inv(m) && Dead(m, room, k) && p in m.live
    ensures m.live[p] != k
    ensures Quiet(m, room) ==> m.objects[m.live[p]].room != room
  {
    NoOrphan(m, p, p);
    if Quiet(m, room) && m.objects[m.live[p]].room == room { OneProcessPerRoom(m, room, p); }
  }

  /** A dead room stays dead, and listed with its target, on every run until a step replaces its relay:
      requests for the same target, supervisors and dying processes do nothing for it. */
  lemma DeadExactly(m: Manager, steps: seq<Step>, end: Manager, room: nat, k: nat)
    requires Inv(m) && Run(m, steps, end) && Dead(m, room, k)
    ensures Dead(end, room, k) <==> NeverReplaced(steps, room, m.objects[k].target)
    ensures Dead(end, room, k) ==> room in Listing(end) && Listing(end)[room] == Listing(m)[room]
  {
    hide Run, NeverReplaced;
    ReplacedExactly(m, steps, end, room, k);
    ReachableInv(m, steps, end);
    if Registered(end, room, k) {
      assert !end.objects[k].stopped;
      ExitedExactly(m, steps, end, k);
    }
  }

  lemma ThreeSteps(m: Manager, a: Step, b: Step, c: Step)
    requires Enabled(m, a) && Enabled(Next(m, a), b) && Enabled(Next(Next(m, a), b), c)
    ensures Run(m, [a, b, c], Next(Next(Next(m, a), b), c))
  {
    hide Enabled, Next;
    var m1, steps := Next(m, a), [a, b, c];
    assert steps[1..] == [b, c] && [b, c][1..] == [c] && [c][1..] == [];
    var end := Next(Next(m1, b), c);
    assert Run(Next(m1, b), [c], end);
    assert Run(m1, [b, c], end);
  }

  /** What is left of a new room whose first spawn failed. */
  function Failed(m: Manager, room: nat, target: Target): Manager {
    m.(objects := m.objects + [Relay(room, target, false, Exited, None, 0, 0)], relays := m.relays[room := |m.objects|])
  }

  lemma FailedSteps(m: Manager, call: nat, room: nat, target: Target)
    requires room !in m.relays && |m.relays| < m.max && call !in m.joins
    ensures var k := |m.objects|;
            && Enabled(m, Ensure(call, room, target)) && DoEnsure(m, call, room, target) == Create(m, room, target)
            && (var m1 := Create(m, room, target);
                && Enabled(m1, TestStop(k)) && Next(m1, TestStop(k)) == WithPc(m1, k, Spawning)
                && Enabled(WithPc(m1, k, Spawning), SpawnFails(k))
                && Next(WithPc(m1, k, Spawning), SpawnFails(k)) == Failed(m, room, target))
  {
    hide Delay;
  }

  lemma FailedIsDead(m: Manager, again: nat, room: nat, target: Target)
    ensures var end := Failed(m, room, target);
            && Dead(end, room, |m.objects|) && end.live == m.live && end.joins == m.joins
            && DoEnsure(end, again, room, target) == end && !Full(end, room)
  {
  }

  lemma FailedIsListed(m: Manager, room: nat, target: Target)
    requires Inv(m)
    ensures Listing(Failed(m, room, target)) == Listing(m)[room := target]
  {
    CreateOnListing(m, room, target);
    hide Inv;
    assert Listing(Failed(m, room, target)) == Listing(Create(m, room, target));
  }

  /** Any new room dies so: its first spawn fails. Asking again answers 200 and changes nothing. */
  lemma SpawnFailureKills(m: Manager, call: nat, again: nat, room: nat, target: Target)
    returns (steps: seq<Step>, end: Manager)
    requires Inv(m) && room !in m.relays && |m.relays| < m.max && call !in m.joins
    ensures steps == [Ensure(call, room, target), TestStop(|m.objects|), SpawnFails(|m.objects|)]
    ensures Run(m, steps, end) && Inv(end) && Dead(end, room, |m.objects|) && end.live == m.live
    ensures Listing(end) == Listing(m)[room := target]
    ensures DoEnsure(end, again, room, target) == end && !Full(end, room)
  {
    var k := |m.objects|;
    steps := [Ensure(call, room, target), TestStop(k), SpawnFails(k)];
    end := Failed(m, room, target);
    FailedSteps(m, call, room, target);
    FailedIsDead(m, again, room, target);
    FailedIsListed(m, room, target);
    hide Inv, Run, Dead, Listing, Failed, WithPc, DoStop, RanOut, StopLocked, Kill;
    ThreeSteps(m, steps[0], steps[1], steps[2]);
    ReachableInv(m, steps, end);
  }
}
