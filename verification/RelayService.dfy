/** program-relay/relay.py: RelayManager as interleaved steps of request threads and one supervisor
    thread per relay. A section under the manager's lock is one step; so is each stretch of a
    supervisor between two points where another thread can act. Relay IDs are the room numbers they spell. */
module RelayService {
  import opened Basics
  import opened Wrappers

  /** Where a supervisor thread is. */
  datatype Pc =
    | AtLoop              // before `while not relay.stop.is_set()`
    | Spawning            // past the test, before the process exists
    | Spawned(proc: nat)  // the process exists, its locked registration has not run
    | Running(proc: nat)  // registered; reading progress until the process is gone
    | Reaped              // the process was waited for, stop not yet tested
    | Backoff(wait: real) // in relay.stop.wait(...), for that long at most
    | Exited

  datatype Status = Running200 | Capacity503

  datatype Target = Target(source: string, fingerprint: string)

  datatype Relay = Relay(
    room: nat, target: Target, stopped: bool, pc: Pc, process: Option<nat>, restarts: nat, attempt: nat)

  /** `base` is backoff_base. `objects` are all relays ever created; `relays` maps a room to its registered
      one. `live` maps each running FFmpeg process to the relay that spawned it. `joins` are the ensure and
      stop calls that left the lock and wait for a supervisor to exit. */
  datatype Manager = Manager(
    max: nat, base: real, relays: map<nat, nat>, objects: seq<Relay>, live: map<nat, nat>, nextProc: nat,
    joins: map<nat, nat>)

  datatype Step =
    | Ensure(call: nat, room: nat, target: Target)
    | Stop(call: nat, room: nat)
    | Joined(call: nat)
    | TestStop(k: nat)        // AtLoop
    | SpawnFails(k: nat)      // Spawning, OSError
    | Spawn(k: nat)           // Spawning
    | Register(k: nat)        // Spawned, under the lock
    | GoesLive(k: nat)        // Running, a progress report after the header
    | Reap(k: nat)            // Running, once the process is gone
    | AfterRun(k: nat)        // Reaped
    | Wake(k: nat)            // Backoff
    | ProcessDies(proc: nat)  // on its own, or terminated by the watchdog

  ghost function Initial(max: nat, base: real): Manager {
    Manager(max, base, map[], [], map[], 0, map[])
  }

  const BACKOFF_MAX_SECS := 30.0

  /** The wait after the attempt-th run in a row that never went live. */
  function Delay(base: real, attempt: nat): real
    requires attempt >= 1
  {
    var delay := base * Pow2(if attempt - 1 < 5 then attempt - 1 else 5) as real;
    if delay < BACKOFF_MAX_SECS then delay else BACKOFF_MAX_SECS
  }

  predicate Supervises(step: Step, k: nat) {
    match step
    case TestStop(j) => j == k
    case SpawnFails(j) => j == k
    case Spawn(j) => j == k
    case Register(j) => j == k
    case GoesLive(j) => j == k
    case Reap(j) => j == k
    case AfterRun(j) => j == k
    case Wake(j) => j == k
    case _ => false
  }

  predicate At(m: Manager, k: nat, pc: Pc) { k < |m.objects| && m.objects[k].pc == pc }

  predicate Enabled(m: Manager, step: Step) {
    match step
    case Ensure(call, _, _) => call !in m.joins
    case Stop(call, _) => call !in m.joins
    case Joined(call) => call in m.joins && At(m, m.joins[call], Exited)
    case TestStop(k) => At(m, k, AtLoop)
    case SpawnFails(k) => At(m, k, Spawning)
    case Spawn(k) => At(m, k, Spawning)
    case Register(k) => k < |m.objects| && m.objects[k].pc.Spawned?
    case GoesLive(k) => k < |m.objects| && m.objects[k].pc.Running?
    case Reap(k) => k < |m.objects| && m.objects[k].pc.Running? && m.objects[k].pc.proc !in m.live
    case AfterRun(k) => At(m, k, Reaped)
    case Wake(k) => k < |m.objects| && m.objects[k].pc.Backoff?
    case ProcessDies(proc) => proc in m.live
  }

  function WithPc(m: Manager, k: nat, pc: Pc): Manager
    requires k < |m.objects|
  {
    m.(objects := m.objects[k := m.objects[k].(pc := pc)])
  }

  function Kill(m: Manager, proc: Option<nat>): Manager {
    match proc case None => m case Some(p) => m.(live := m.live - {p})
  }

  /** _stop_locked. */
  function StopLocked(m: Manager, k: nat): Manager
    requires k < |m.objects|
  {
    Kill(m.(objects := m.objects[k := m.objects[k].(stopped := true)]), m.objects[k].process)
  }

  predicate Current(m: Manager, room: nat) { room in m.relays && m.relays[room] < |m.objects| }

  predicate Unchanged(m: Manager, room: nat, target: Target) {
    Current(m, room) && m.objects[m.relays[room]].target == target
  }

  predicate Full(m: Manager, room: nat) { room !in m.relays && |m.relays| >= m.max }

  function Create(m: Manager, room: nat, target: Target): Manager {
    m.(objects := m.objects + [Relay(room, target, false, AtLoop, None, 0, 0)], relays := m.relays[room := |m.objects|])
  }

  function DoEnsure(m: Manager, call: nat, room: nat, target: Target): Manager {
    if Unchanged(m, room, target) || Full(m, room) then m
    else if !Current(m, room) then Create(m, room, target)
    else
      var prev := m.relays[room];
      var r := Create(StopLocked(m, prev), room, target);
      r.(joins := r.joins[call := prev])
  }

  function DoStop(m: Manager, call: nat, room: nat): Manager {
    if !Current(m, room) then m
    else
      var prev := m.relays[room];
      var r := StopLocked(m, prev);
      r.(relays := r.relays - {room}, joins := r.joins[call := prev])
  }

  /** One more run is over: wait before the next. */
  function RanOut(m: Manager, k: nat): Manager
    requires k < |m.objects|
  {
    var r := m.objects[k];
    m.(objects := m.objects[k := r.(pc := Backoff(Delay(m.base, r.attempt + 1)), restarts := r.restarts + 1,
                                    attempt := r.attempt + 1)])
  }

  function Next(m: Manager, step: Step): Manager
    requires Enabled(m, step)
  {
    match step
    case Ensure(call, room, target) => DoEnsure(m, call, room, target)
    case Stop(call, room) => DoStop(m, call, room)
    case Joined(call) => m.(joins := m.joins - {call})
    case TestStop(k) => WithPc(m, k, if m.objects[k].stopped then Exited else Spawning)
    case SpawnFails(k) => WithPc(m, k, Exited)
    case Spawn(k) =>
      WithPc(m, k, Spawned(m.nextProc)).(live := m.live[m.nextProc := k], nextProc := m.nextProc + 1)
    case Register(k) =>
      var p := m.objects[k].pc.proc;
      if m.objects[k].stopped then Kill(WithPc(m, k, Exited), Some(p))
      else m.(objects := m.objects[k := m.objects[k].(pc := Running(p), process := Some(p))])
    case GoesLive(k) => m.(objects := m.objects[k := m.objects[k].(attempt := 0)])
    case Reap(k) => WithPc(m, k, Reaped)
    case AfterRun(k) => if m.objects[k].stopped then WithPc(m, k, Exited) else RanOut(m, k)
    case Wake(k) => WithPc(m, k, AtLoop)
    case ProcessDies(p) => Kill(m, Some(p))
  }

  /** The sections under the manager's lock, on its fields. A request that has to join the old supervisor
      is noted under its call. */
  class RelayManager {
    const max: nat
    const base: real
    var relays: map<nat, nat>
    var objects: seq<Relay>
    var live: map<nat, nat>
    var nextProc: nat
    var joins: map<nat, nat>

    constructor (max: nat, base: real)
      ensures Value() == Initial(max, base)
    {
      this.max, this.base, relays, objects, live, nextProc, joins := max, base, map[], [], map[], 0, map[];
    }

    ghost function Value(): Manager
      reads this
    {
      Manager(max, base, relays, objects, live, nextProc, joins)
    }

    method Terminate(process: Option<nat>)
      modifies this`live
      ensures Value() == Kill(old(Value()), process)
    {
      if process.Some? { live := live - {process.value}; }
    }

    method StopRelay(k: nat)
      requires k < |objects|
      modifies this`objects, this`live
      ensures Value() == StopLocked(old(Value()), k)
    {
      objects := objects[k := objects[k].(stopped := true)];
      Terminate(objects[k].process);
    }

    method EnsureRelay(call: nat, room: nat, target: Target) returns (status: Status)
      requires Inv(Value())
      modifies this
      ensures Value() == DoEnsure(old(Value()), call, room, target)
      ensures status.Capacity503? <==> Full(old(Value()), room)
    {
      if room in relays && objects[relays[room]].target == target { return Running200; }
      if room !in relays && |relays| >= max { return Capacity503; }
      var current := if room in relays then Some(relays[room]) else None;
      if current.Some? { StopRelay(current.value); }
      objects, relays := objects + [Relay(room, target, false, AtLoop, None, 0, 0)], relays[room := |objects|];
      if current.Some? { joins := joins[call := current.value]; }
      return Running200;
    }

    method Stop(call: nat, room: nat) returns (found: bool)
      requires Inv(Value())
      modifies this
      ensures Value() == DoStop(old(Value()), call, room) && (found <==> room in old(relays))
    {
      if room !in relays { return false; }
      var relay := relays[room];
      relays := relays - {room};
      StopRelay(relay);
      joins := joins[call := relay];
      return true;
    }

    /** The supervisor's first locked section after a spawn; whether it goes on. */
    method RegisterProcess(k: nat) returns (goesOn: bool)
      requires k < |objects| && objects[k].pc.Spawned?
      modifies this
      ensures Value() == Next(old(Value()), Register(k)) && (goesOn <==> !old(objects)[k].stopped)
    {
      var process := objects[k].pc.proc;
      if objects[k].stopped {
        Terminate(Some(process));
        objects := objects[k := objects[k].(pc := Exited)];
        return false;
      }
      objects := objects[k := objects[k].(pc := Running(process), process := Some(process))];
      return true;
    }
  }

  // ---- The invariant ----

  ghost predicate Inv(m: Manager) {
    && |m.relays| <= m.max
    && (forall room :: room in m.relays ==>
          m.relays[room] < |m.objects| && m.objects[m.relays[room]].room == room && !m.objects[m.relays[room]].stopped)
    && (forall k :: 0 <= k < |m.objects| ==> RelayInv(m, k))
    && (forall p :: p in m.live ==> p < m.nextProc && m.live[p] < |m.objects| && Owns(m.objects[m.live[p]], p))
    && (forall call :: call in m.joins ==> m.joins[call] < |m.objects| && m.objects[m.joins[call]].stopped)
  }

  /** The relay's supervisor is between spawning `p` and waiting for it. */
  ghost predicate Owns(r: Relay, p: nat) {
    r.pc == Spawned(p) || r.pc == Running(p)
  }

  ghost predicate OwnedIfLive(m: Manager, p: nat, k: nat) {
    p in m.live ==> m.live[p] == k
  }

  ghost predicate RelayInv(m: Manager, k: nat)
    requires k < |m.objects|
  {
    var r := m.objects[k];
    // Unstopped relays are exactly the registered ones.
    && (!r.stopped ==> r.room in m.relays && m.relays[r.room] == k)
    // A stopped relay whose supervisor still runs is being waited for.
    && (r.stopped && r.pc != Exited ==> exists call :: call in m.joins && m.joins[call] == k)
    // The processes a relay knows are its own.
    && (r.process.Some? ==> r.process.value < m.nextProc && OwnedIfLive(m, r.process.value, k))
    && (r.pc.Spawned? || r.pc.Running? ==> r.pc.proc < m.nextProc && OwnedIfLive(m, r.pc.proc, k))
    && (r.pc.Running? ==> r.process == Some(r.pc.proc) && (r.stopped ==> r.pc.proc !in m.live))
  }

  /** A step of supervisor k that leaves every other relay, the registry and the waiting calls alone. */
  lemma SupervisorKeepsInv(m: Manager, k: nat, m': Manager)
    requires Inv(m) && k < |m.objects| && m'.max == m.max && m'.relays == m.relays && m'.joins == m.joins
    requires |m'.objects| == |m.objects| && m'.nextProc >= m.nextProc
    requires forall j :: 0 <= j < |m.objects| && j != k ==> m'.objects[j] == m.objects[j]
    requires m'.objects[k].room == m.objects[k].room && m'.objects[k].stopped == m.objects[k].stopped
    requires m.objects[k].pc == Exited ==> m'.objects[k].pc == Exited
    requires RelayInv(m', k)
    requires forall p :: p in m'.live && p < m.nextProc ==> p in m.live && m'.live[p] == m.live[p]
    requires forall p :: p in m'.live && p >= m.nextProc ==> p < m'.nextProc && m'.live[p] == k
    requires forall p :: p in m'.live && m'.live[p] == k ==> Owns(m'.objects[k], p)
    ensures Inv(m')
  {
    forall j | 0 <= j < |m'.objects| && j != k ensures RelayInv(m', j) { assert RelayInv(m, j); }
  }

  lemma NewPcKeepsInv(m: Manager, step: Step, k: nat)
    requires Inv(m) && Enabled(m, step) && Supervises(step, k) && !step.Register? && !step.Spawn?
    ensures Inv(Next(m, step))
  {
    hide Delay, DoEnsure, DoStop;
    var m' := Next(m, step);
    assert RelayInv(m, k);
    assert forall p :: p in m.live && m.live[p] == k ==> Owns(m.objects[k], p);
    SupervisorKeepsInv(m, k, m');
  }

  lemma SpawnKeepsInv(m: Manager, k: nat)
    requires Inv(m) && Enabled(m, Spawn(k))
    ensures Inv(Next(m, Spawn(k)))
  {
    assert RelayInv(m, k);
    assert forall p :: p in m.live ==> m.live[p] != k;
    SupervisorKeepsInv(m, k, Next(m, Spawn(k)));
  }

  lemma DeathKeepsInv(m: Manager, p: nat)
    requires Inv(m)
    ensures Inv(Kill(m, Some(p)))
  {
    var m' := Kill(m, Some(p));
    forall k | 0 <= k < |m.objects| ensures RelayInv(m', k) { assert RelayInv(m, k); }
  }

  lemma ExitKeepsInv(m: Manager, k: nat)
    requires Inv(m) && k < |m.objects| && forall p :: p in m.live ==> m.live[p] != k
    ensures Inv(WithPc(m, k, Exited))
  {
    assert RelayInv(m, k);
    SupervisorKeepsInv(m, k, WithPc(m, k, Exited));
  }

  /** A supervisor that finds its relay stopped kills the process it has just spawned. */
  lemma AbandonKeepsInv(m: Manager, k: nat)
    requires Inv(m) && Enabled(m, Register(k)) && m.objects[k].stopped
    ensures Inv(Next(m, Register(k)))
  {
    var killed := Kill(m, Some(m.objects[k].pc.proc));
    DeathKeepsInv(m, m.objects[k].pc.proc);
    forall p | p in killed.live ensures killed.live[p] != k { assert Owns(m.objects[m.live[p]], p); }
    ExitKeepsInv(killed, k);
    assert Next(m, Register(k)) == WithPc(killed, k, Exited);
  }

  lemma RegisterKeepsInv(m: Manager, k: nat)
    requires Inv(m) && Enabled(m, Register(k))
    ensures Inv(Next(m, Register(k)))
  {
    if m.objects[k].stopped {
      AbandonKeepsInv(m, k);
    } else {
      assert RelayInv(m, k);
      assert forall p :: p in m.live && m.live[p] == k ==> Owns(m.objects[k], p);
      SupervisorKeepsInv(m, k, Next(m, Register(k)));
    }
  }

  lemma StopLockedFacts(m: Manager, k: nat)
    requires Inv(m) && k < |m.objects|
    ensures var r := StopLocked(m, k);
            && r.objects == m.objects[k := m.objects[k].(stopped := true)]
            && r.relays == m.relays && r.joins == m.joins && r.max == m.max && r.nextProc == m.nextProc
            && (forall p :: p in r.live ==> p in m.live && r.live[p] == m.live[p])
            && (m.objects[k].pc.Running? ==> m.objects[k].pc.proc !in r.live)
  {
    assert RelayInv(m, k);
  }

  lemma OneLess(relays: map<nat, nat>, room: nat)
    requires room in relays
    ensures |relays - {room}| == |relays| - 1
  {
    assert (relays - {room}).Keys == relays.Keys - {room};
  }

  lemma RetiredRelays(m: Manager, call: nat, room: nat, k: nat)
    requires Inv(m) && call !in m.joins && room in m.relays && k < |m.objects|
    ensures k < |DoStop(m, call, room).objects| && RelayInv(DoStop(m, call, room), k)
  {
    var m' := DoStop(m, call, room);
    StopLockedFacts(m, m.relays[room]);
    assert RelayInv(m, k);
    if k == m.relays[room] {
      assert m'.joins[call] == k;
    } else if m.objects[k].stopped && m.objects[k].pc != Exited {
      var c :| c in m.joins && m.joins[c] == k;
      assert m'.joins[c] == k;
    }
  }

  lemma RetireKeepsInv(m: Manager, call: nat, room: nat)
    requires Inv(m) && call !in m.joins && room in m.relays
    ensures Inv(DoStop(m, call, room)) && room !in DoStop(m, call, room).relays
    ensures |DoStop(m, call, room).relays| == |m.relays| - 1
  {
    StopLockedFacts(m, m.relays[room]);
    OneLess(m.relays, room);
    forall k | 0 <= k < |m.objects| ensures RelayInv(DoStop(m, call, room), k) { RetiredRelays(m, call, room, k); }
  }

  lemma OneMore(relays: map<nat, nat>, room: nat, k: nat)
    requires room !in relays
    ensures |relays[room := k]| == |relays| + 1
  {
    assert relays[room := k].Keys == relays.Keys + {room};
  }

  lemma CreateKeepsInv(m: Manager, room: nat, target: Target)
    requires Inv(m) && room !in m.relays && |m.relays| < m.max
    ensures Inv(Create(m, room, target))
  {
    var m' := Create(m, room, target);
    var n := |m.objects|;
    OneMore(m.relays, room, n);
    assert forall k :: 0 <= k < n ==> m'.objects[k] == m.objects[k];
    forall k | 0 <= k < n ensures RelayInv(m', k) {
      assert RelayInv(m, k);
      assert m.objects[k].stopped || m.objects[k].room != room;
    }
    assert RelayInv(m', n);
  }

  /** Replacing a relay is retiring it and creating the new one. */
  lemma EnsureIsRetireThenCreate(m: Manager, call: nat, room: nat, target: Target)
    requires Inv(m) && room in m.relays && !Unchanged(m, room, target)
    ensures DoEnsure(m, call, room, target) == Create(DoStop(m, call, room), room, target)
  {
    StopLockedFacts(m, m.relays[room]);
    assert (m.relays - {room})[room := |m.objects|] == m.relays[room := |m.objects|];
  }

  lemma EnsureKeepsInv(m: Manager, call: nat, room: nat, target: Target)
    requires Inv(m) && call !in m.joins
    ensures Inv(DoEnsure(m, call, room, target))
  {
    if Unchanged(m, room, target) || Full(m, room) {
    } else if room in m.relays {
      EnsureIsRetireThenCreate(m, call, room, target);
      RetireKeepsInv(m, call, room);
      CreateKeepsInv(DoStop(m, call, room), room, target);
    } else {
      CreateKeepsInv(m, room, target);
    }
  }

  lemma JoinedKeepsInv(m: Manager, call: nat)
    requires Inv(m) && Enabled(m, Joined(call))
    ensures Inv(Next(m, Joined(call)))
  {
    var m' := Next(m, Joined(call));
    forall k | 0 <= k < |m.objects| ensures RelayInv(m', k) {
      assert RelayInv(m, k);
      if m.objects[k].stopped && m.objects[k].pc != Exited {
        var c :| c in m.joins && m.joins[c] == k;
        assert c in m'.joins && m'.joins[c] == k;
      }
    }
  }

  lemma StepKeepsInv(m: Manager, step: Step)
    requires Inv(m) && Enabled(m, step)
    ensures Inv(Next(m, step))
  {
    match step
    case Ensure(call, room, target) => EnsureKeepsInv(m, call, room, target);
    case Stop(call, room) => if room in m.relays { RetireKeepsInv(m, call, room); }
    case Joined(call) => JoinedKeepsInv(m, call);
    case TestStop(k) => NewPcKeepsInv(m, step, k);
    case SpawnFails(k) => NewPcKeepsInv(m, step, k);
    case Spawn(k) => SpawnKeepsInv(m, k);
    case Register(k) => RegisterKeepsInv(m, k);
    case GoesLive(k) => NewPcKeepsInv(m, step, k);
    case Reap(k) => NewPcKeepsInv(m, step, k);
    case AfterRun(k) => NewPcKeepsInv(m, step, k);
    case Wake(k) => NewPcKeepsInv(m, step, k);
    case ProcessDies(p) => DeathKeepsInv(m, p);
  }

  /** `end` is reached from `m` by the steps, in an order any scheduling of the threads can produce. */
  ghost predicate Run(m: Manager, steps: seq<Step>, end: Manager)
    decreases |steps|
  {
    if steps == [] then m == end else Enabled(m, steps[0]) && Run(Next(m, steps[0]), steps[1..], end)
  }

  lemma {:induction false} ReachableInv(m: Manager, steps: seq<Step>, end: Manager)
    requires Inv(m) && Run(m, steps, end)
    ensures Inv(end)
    decreases |steps|
  {
    if steps != [] {
      StepKeepsInv(m, steps[0]);
      ReachableInv(Next(m, steps[0]), steps[1..], end);
    }
  }

  lemma InitialInv(max: nat, base: real)
    ensures Inv(Initial(max, base))
  {
  }

  // ---- What the manager promises ----

  /** At most max relays are unstopped, exactly the registered ones, and at most one per room. */
  lemma UnstoppedAreRegistered(m: Manager, k: nat)
    requires Inv(m) && k < |m.objects|
    ensures !m.objects[k].stopped <==> m.objects[k].room in m.relays && m.relays[m.objects[k].room] == k
    ensures |m.relays| <= m.max
  {
    assert RelayInv(m, k);
  }

  /** A relay has at most one live process; a stopped one has it only between the spawn and the locked
      registration check, and one whose supervisor exited has none. */
  lemma NoOrphan(m: Manager, p: nat, q: nat)
    requires Inv(m) && p in m.live && q in m.live && m.live[p] == m.live[q]
    ensures p == q
    ensures m.objects[m.live[p]].stopped ==> m.objects[m.live[p]].pc == Spawned(p)
    ensures m.objects[m.live[p]].pc != Exited
  {
    assert RelayInv(m, m.live[p]);
  }

  /** No ensure or stop call is still waiting for a relay of the room. */
  ghost predicate Quiet(m: Manager, room: nat) {
    forall call :: call in m.joins && m.joins[call] < |m.objects| ==> m.objects[m.joins[call]].room != room
  }

  /** Once every ensure and stop for a room has returned, the room has no live process but at most one,
      of its registered relay; after a stop, none. */
  lemma OneProcessPerRoom(m: Manager, room: nat, p: nat)
    requires Inv(m) && Quiet(m, room) && p in m.live && m.objects[m.live[p]].room == room
    ensures room in m.relays && m.live[p] == m.relays[room]
    ensures forall q :: q in m.live && m.objects[m.live[q]].room == room ==> q == p
  {
    forall q | q in m.live && m.objects[m.live[q]].room == room ensures m.objects[m.live[q]].stopped == false {
      assert RelayInv(m, m.live[q]);
    }
    assert RelayInv(m, m.live[p]);
    forall q | q in m.live && m.objects[m.live[q]].room == room ensures q == p {
      assert RelayInv(m, m.live[q]);
    }
  }

  /** How many more of its own steps a stopped relay's supervisor can take. */
  function StepsLeft(r: Relay): nat {
    match r.pc
    case Exited => 0
    case AtLoop => 1
    case Spawned(_) => 1
    case Reaped => 1
    case Spawning => 2
    case Running(_) => 2
    case Backoff(_) => 2
  }

  /** A join ends: a stopped relay's supervisor always has a step to take, which no process can hold up, */
  lemma StoppedSupervisorCanStep(m: Manager, k: nat) returns (step: Step)
    requires Inv(m) && k < |m.objects| && m.objects[k].stopped && m.objects[k].pc != Exited
    ensures Supervises(step, k) && Enabled(m, step) && !step.GoesLive?
  {
    assert RelayInv(m, k);
    step := match m.objects[k].pc
      case AtLoop => TestStop(k)
      case Spawning => Spawn(k)
      case Spawned(_) => Register(k)
      case Running(_) => Reap(k)
      case Reaped => AfterRun(k)
      case _ => Wake(k);
  }

  /** each of its steps but a progress report brings it closer to its exit, */
  lemma StoppedSupervisorExits(m: Manager, k: nat, step: Step)
    requires k < |m.objects| && m.objects[k].stopped && Enabled(m, step) && Supervises(step, k) && !step.GoesLive?
    ensures Next(m, step).objects[k].stopped && StepsLeft(Next(m, step).objects[k]) < StepsLeft(m.objects[k])
  {
  }

  /** and no other thread moves it back. */
  lemma StoppedStays(m: Manager, k: nat, step: Step)
    requires Inv(m) && k < |m.objects| && m.objects[k].stopped && Enabled(m, step) && !Supervises(step, k)
    ensures k < |Next(m, step).objects| && Next(m, step).objects[k] == m.objects[k]
  {
    if step.Ensure? && Current(m, step.room) { StopLockedFacts(m, m.relays[step.room]); }
    if step.Stop? && Current(m, step.room) { StopLockedFacts(m, m.relays[step.room]); }
  }

  // ---- What ensure and stop leave of a relay ----

  lemma EnsureStopsAtMost(m: Manager, call: nat, room: nat, target: Target, k: nat)
    requires k < |m.objects|
    ensures var m' := DoEnsure(m, call, room, target);
            k < |m'.objects| && m'.objects[k].(stopped := false) == m.objects[k].(stopped := false)
  {
  }

  lemma StopStopsAtMost(m: Manager, call: nat, room: nat, k: nat)
    requires k < |m.objects|
    ensures var m' := DoStop(m, call, room);
            |m'.objects| == |m.objects| && m'.objects[k].(stopped := false) == m.objects[k].(stopped := false)
  {
  }

  lemma EnsureCreatesIdle(m: Manager, call: nat, room: nat, target: Target, k: nat)
    requires |m.objects| <= k < |DoEnsure(m, call, room, target).objects|
    ensures DoEnsure(m, call, room, target).objects[k].pc == AtLoop
  {
  }

  lemma NothingToStop(m: Manager, call: nat, room: nat)
    requires m.objects == []
    ensures DoStop(m, call, room) == m
  {
  }

  // ---- One round of a supervisor ----

  /** From m to after relay k became r and the processes `live`, and nothing else a request can see changed. */
  ghost predicate Moved(m: Manager, after: Manager, k: nat, r: Relay, live: map<nat, nat>)
    requires k < |m.objects|
  {
    && after.relays == m.relays && after.joins == m.joins && after.max == m.max && after.live == live
    && after.objects == m.objects[k := r]
  }

  /** How the supervisor of an unstopped relay goes round: it starts one new process, knows it and waits until
      that very process is gone, counts one more restart, pauses and begins again. Each move changes its relay
      and that process only. */
  lemma SupervisorMoves(m: Manager, k: nat)
    requires k < |m.objects| && !m.objects[k].stopped
    ensures var r := m.objects[k];
            match r.pc
            case AtLoop =>
              Enabled(m, TestStop(k)) && Moved(m, Next(m, TestStop(k)), k, r.(pc := Spawning), m.live)
            case Spawning =>
              && Enabled(m, Spawn(k))
              && Moved(m, Next(m, Spawn(k)), k, r.(pc := Spawned(m.nextProc)), m.live[m.nextProc := k])
              && Next(m, Spawn(k)).nextProc > m.nextProc
            case Spawned(p) =>
              && Enabled(m, Register(k))
              && Moved(m, Next(m, Register(k)), k, r.(pc := Running(p), process := Some(p)), m.live)
            case Running(p) =>
              && (Enabled(m, ProcessDies(p)) <==> p in m.live) && (Enabled(m, Reap(k)) <==> p !in m.live)
              && (p in m.live ==> Moved(m, Next(m, ProcessDies(p)), k, r, m.live - {p}))
              && (p !in m.live ==> Moved(m, Next(m, Reap(k)), k, r.(pc := Reaped), m.live))
            case Reaped =>
              && Enabled(m, AfterRun(k))
              && var after := Next(m, AfterRun(k));
                 Moved(m, after, k, after.objects[k], m.live) && after.objects[k].pc.Backoff?
                 && after.objects[k].restarts == r.restarts + 1
            case Backoff(_) => Enabled(m, Wake(k)) && Moved(m, Next(m, Wake(k)), k, r.(pc := AtLoop), m.live)
            case Exited => true
  {
    hide Delay, DoEnsure, DoStop;
  }

  /** A call returns once the supervisor it waits for has exited, and waits no longer. */
  lemma JoinReturns(m: Manager, call: nat)
    ensures Enabled(m, Joined(call)) <==>
              call in m.joins && m.joins[call] < |m.objects| && m.objects[m.joins[call]].pc == Exited
    ensures Enabled(m, Joined(call)) ==>
              call !in Next(m, Joined(call)).joins
              && Next(m, Joined(call)) == m.(joins := Next(m, Joined(call)).joins)
              && forall other :: other != call && other in m.joins ==>
                                   other in Next(m, Joined(call)).joins
                                   && Next(m, Joined(call)).joins[other] == m.joins[other]
  {
    hide DoEnsure, DoStop;
  }

  // ---- The registry the control API shows ----

  function Listing(m: Manager): map<nat, Target> {
    map room | room in m.relays && Current(m, room) :: m.objects[m.relays[room]].target
  }

  /** What ensure does to the listed relays, and the status it answers with. */
  function EnsureOn(listing: map<nat, Target>, max: nat, room: nat, target: Target): (map<nat, Target>, Status) {
    if room in listing && listing[room] == target then (listing, Running200)
    else if room !in listing && |listing| >= max then (listing, Capacity503)
    else (listing[room := target], Running200)
  }

  lemma StopOnListing(m: Manager, call: nat, room: nat)
    requires Inv(m)
    ensures Listing(DoStop(m, call, room)) == Listing(m) - {room}
  {
    if Current(m, room) { StopLockedFacts(m, m.relays[room]); }
  }

  lemma CreateOnListing(m: Manager, room: nat, target: Target)
    requires Inv(m)
    ensures Listing(Create(m, room, target)) == Listing(m)[room := target]
  {
    var m' := Create(m, room, target);
    assert forall x :: x in m.relays && x != room ==> m'.objects[m'.relays[x]] == m.objects[m.relays[x]];
  }

  lemma ListingFacts(m: Manager, room: nat)
    requires Inv(m)
    ensures |Listing(m)| == |m.relays| && (room in Listing(m) <==> room in m.relays)
    ensures room in m.relays ==> Current(m, room) && Listing(m)[room] == m.objects[m.relays[room]].target
  {
    assert Listing(m).Keys == m.relays.Keys;
  }

  lemma ReplaceOnListing(m: Manager, call: nat, room: nat, target: Target)
    requires Inv(m) && call !in m.joins && room in m.relays && !Unchanged(m, room, target)
    ensures Listing(DoEnsure(m, call, room, target)) == Listing(m)[room := target]
  {
    EnsureIsRetireThenCreate(m, call, room, target);
    RetireKeepsInv(m, call, room);
    StopOnListing(m, call, room);
    CreateOnListing(DoStop(m, call, room), room, target);
  }

  /** The control API's view: ensure answers 503 exactly for a room without a relay when every slot is
      taken, and otherwise lists the room with what was asked for. */
  lemma EnsureOnListing(m: Manager, call: nat, room: nat, target: Target)
    requires Inv(m) && call !in m.joins
    ensures Listing(DoEnsure(m, call, room, target)) == EnsureOn(Listing(m), m.max, room, target).0
    ensures EnsureOn(Listing(m), m.max, room, target).1 == Capacity503 <==> Full(m, room)
  {
    ListingFacts(m, room);
    if room !in m.relays {
      CreateOnListing(m, room, target);
    } else if !Unchanged(m, room, target) {
      ReplaceOnListing(m, call, room, target);
    }
  }

  /** Ensuring or stopping one room leaves every other room's relays and live processes alone. */
  lemma OtherRoomsUntouched(m: Manager, call: nat, room: nat, target: Target, k: nat, p: nat)
    requires Inv(m) && k < |m.objects| && m.objects[k].room != room
    requires p in m.live && m.objects[m.live[p]].room != room
    ensures DoEnsure(m, call, room, target).objects[k] == m.objects[k] && p in DoEnsure(m, call, room, target).live
    ensures DoStop(m, call, room).objects[k] == m.objects[k] && p in DoStop(m, call, room).live
  {
    if Current(m, room) { assert RelayInv(m, m.relays[room]); }
  }

  /** A request naming what already runs touches neither the relay, its process nor anybody else's. */
  lemma EnsureIsIdempotent(m: Manager, call: nat, again: nat, room: nat, target: Target)
    requires Inv(m) && call !in m.joins
    ensures var m' := DoEnsure(m, call, room, target); DoEnsure(m', again, room, target) == m'
  {
  }
}
