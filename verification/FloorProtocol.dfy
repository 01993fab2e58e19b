/** portal/program_ingest.py across rooms: any number of publish authorisations in flight, interleaved with
    takeovers, revocations, sender sessions, reconciliation and crashes. A step is what one task does
    between two points where another task can act. */
module FloorProtocol {
  import opened Basics
  import opened Wrappers
  import opened ProgramIngest

  /** Where an authorisation is. It holds its room's lock at every point, and the cross-room capacity lock
      at Checked and Counted. */
  datatype Pc =
    | Held     // first phase done
    | Checked  // the room was read again under the capacity lock
    | Counted  // the reserved rooms were counted and there is a place
    | Written  // the reservation is stored, the health record not yet

  /** `wall` is the wall clock when the credential was last checked. */
  datatype Call = Call(room: nat, session: nat, protocol: Protocol, digest: nat, wall: real, pc: Pc)

  /** `good` is history: when a room last was admitted, opened for a browser sender or seen connected. */
  datatype State = State(
    floors: map<nat, Floor>, locks: map<nat, nat>, capacity: Option<nat>, calls: map<nat, Call>, now: real,
    good: map<nat, real>)

  datatype Step =
    | Authorize(call: nat, room: nat, session: nat, protocol: Protocol, digest: nat, wall: real, path: Option<Path>)
    | Check(call: nat, wall: real)
    | Count(call: nat)
    | Write(call: nat)
    | Finish(call: nat)
    | Abort(call: nat)  // an exception or a cancelled request
    | Configure(room: nat, action: Action, secret: Credential)
    | RevokeFirst(room: nat)
    | Open(room: nat, path: Option<Path>, secret: Credential)
    | Close(room: nat, presented: Option<nat>, kicked: bool)
    | Reconcile(room: nat, path: Option<Path>, wall: real, kicks: (bool, bool))
    | Forget(room: nat)  // reconcile_once drops a health record, holding no lock
    | Create(room: nat)
    | Delete(room: nat)
    | Restart
    | Tick(elapsed: real)

  function Initial(now: real): State { State(map[], map[], None, map[], now, map[]) }

  predicate Unlocked(s: State, room: nat) { room in s.floors && room !in s.locks }

  predicate At(s: State, call: nat, pc: Pc) { call in s.calls && s.calls[call].pc == pc }

  predicate Admissible(cfg: Settings, row: Row, step: Step)
    requires step.Authorize?
  {
    row.programIngest && cfg.ingestEnabled && PublishPermitted(cfg, row, step.protocol, step.digest, step.wall)
  }

  predicate Enabled(cfg: Settings, s: State, step: Step) {
    match step
    case Authorize(call, room, _, _, _, _, _) =>
      call !in s.calls && Unlocked(s, room) && Admissible(cfg, s.floors[room].row, step)
    case Check(call, _) => At(s, call, Held) && s.capacity == None
    case Count(call) => At(s, call, Checked)
    case Write(call) => At(s, call, Counted)
    case Finish(call) => At(s, call, Written)
    case Abort(call) => call in s.calls
    case Configure(room, action, _) => Unlocked(s, room) && ActionAllowed(cfg, s.floors[room].row, action)
    case RevokeFirst(room) => Unlocked(s, room) && ActionAllowed(cfg, s.floors[room].row, Revoke)
    case Open(room, path, _) => Unlocked(s, room) && cfg.ingestEnabled && !SenderRefused(s.floors[room], path, s.now)
    case Close(room, _, _) => Unlocked(s, room)
    case Reconcile(room, _, _, _) => Unlocked(s, room) && s.floors[room].row.programIngest
    case Forget(room) => room in s.floors
    case Create(room) => room !in s.floors && room !in s.locks
    case Delete(room) => room in s.floors
    case Restart => true
    case Tick(elapsed) => elapsed >= 0.0
  }

  function WithFloor(s: State, room: nat, f: Floor): State { s.(floors := s.floors[room := f]) }

  /** The call leaves every lock it holds. */
  function Released(s: State, call: nat): State
    requires call in s.calls
  {
    s.(locks := s.locks - {s.calls[call].room},
       calls := s.calls - {call},
       capacity := if s.capacity == Some(call) then None else s.capacity)
  }

  function Moved(s: State, call: nat, pc: Pc): State
    requires call in s.calls
  {
    s.(calls := s.calls[call := s.calls[call].(pc := pc)])
  }

  /** The rooms the capacity query counts. */
  function Reserved(floors: map<nat, Floor>): set<nat> {
    set r | r in floors && floors[r].row.programIngest && floors[r].row.session.Some?
  }

  function DoAuthorize(s: State, step: Step): State
    requires step.Authorize? && step.room in s.floors
  {
    var f := ClearStale(s.floors[step.room], step.session, s.now, step.path);
    if !Free(f.row, step.session) then s
    else
      WithFloor(s, step.room, f).(
        locks := s.locks[step.room := step.call],
        calls := s.calls[step.call := Call(step.room, step.session, step.protocol, step.digest, step.wall, Held)])
  }

  function DoCheck(cfg: Settings, s: State, call: nat, wall: real): State
    requires call in s.calls
  {
    var c := s.calls[call];
    if c.room !in s.floors || !PublishPermitted(cfg, s.floors[c.room].row, c.protocol, c.digest, wall)
       || !Free(s.floors[c.room].row, c.session)
    then Released(s, call)
    else s.(calls := s.calls[call := c.(pc := Checked, wall := wall)], capacity := Some(call))
  }

  function DoCount(cfg: Settings, s: State, call: nat): State
    requires call in s.calls
  {
    var room := s.calls[call].room;
    if room !in s.floors || (s.floors[room].row.session.None? && |Reserved(s.floors)| >= cfg.maxRooms)
    then Released(s, call)
    else Moved(s, call, Counted)
  }

  function DoWrite(s: State, call: nat): State
    requires call in s.calls
  {
    var c := s.calls[call];
    if c.room !in s.floors then Released(s, call)
    else
      var f := s.floors[c.room];
      WithFloor(Moved(s, call, Written), c.room, f.(row := f.row.(session := Some(c.session)))).(capacity := None)
  }

  function DoFinish(s: State, call: nat): State
    requires call in s.calls
  {
    var room := s.calls[call].room;
    if room !in s.floors then Released(s, call)
    else Good(WithFloor(Released(s, call), room, s.floors[room].(health := Some(Health(Some(s.now), None)))), room)
  }

  function Good(s: State, room: nat): State { s.(good := s.good[room := s.now]) }

  function DoReconcile(cfg: Settings, s: State, step: Step): State
    requires step.Reconcile? && step.room in s.floors
  {
    var f := s.floors[step.room];
    var r := WithFloor(s, step.room, Reconciled(cfg, f, step.path, s.now, step.wall, step.kicks));
    if Connected(cfg, f.row, step.path, step.wall) then Good(r, step.room) else r
  }

  function DoRestart(s: State): State {
    s.(floors := map r | r in s.floors :: s.floors[r].(health := None),
       locks := map[], capacity := None, calls := map[])
  }

  function Next(cfg: Settings, s: State, step: Step): State
    requires Enabled(cfg, s, step)
  {
    match step
    case Authorize(_, _, _, _, _, _, _) => DoAuthorize(s, step)
    case Check(call, wall) => DoCheck(cfg, s, call, wall)
    case Count(call) => DoCount(cfg, s, call)
    case Write(call) => DoWrite(s, call)
    case Finish(call) => DoFinish(s, call)
    case Abort(call) => Released(s, call)
    case Configure(room, action, secret) => WithFloor(s, room, Configured(s.floors[room], action, secret))
    case RevokeFirst(room) => WithFloor(s, room, Revoked(s.floors[room]))
    case Open(room, _, secret) => Good(WithFloor(s, room, Opened(s.floors[room], secret, s.now)), room)
    case Close(room, secret, kicked) => WithFloor(s, room, Closed(s.floors[room], secret, kicked))
    case Reconcile(_, _, _, _) => DoReconcile(cfg, s, step)
    case Forget(room) => WithFloor(s, room, s.floors[room].(health := None))
    case Create(room) => WithFloor(s, room, Floor(Row(false, false, None, None, None), None)).(good := s.good - {room})
    case Delete(room) => s.(floors := s.floors - {room})
    case Restart => DoRestart(s)
    case Tick(elapsed) => s.(now := s.now + elapsed)
  }

  // ---- The invariant ----

  ghost predicate LockInv(s: State) {
    && (forall c :: c in s.calls ==> s.calls[c].room in s.locks && s.locks[s.calls[c].room] == c)
    && (forall c :: c in s.calls && (s.calls[c].pc.Checked? || s.calls[c].pc.Counted?) ==> s.capacity == Some(c))
    && (s.capacity.Some? ==> At(s, s.capacity.value, Checked) || At(s, s.capacity.value, Counted))
    && (forall r :: r in s.locks ==> s.locks[r] in s.calls && s.calls[s.locks[r]].room == r)
  }

  /** What a call knows about its room while it holds the lock. */
  ghost predicate CallInv(cfg: Settings, row: Row, call: Call) {
    && cfg.ingestEnabled && row.programIngest && Free(row, call.session)
    && PublishPermitted(cfg, row, call.protocol, call.digest, call.wall)
  }

  ghost predicate CallsInv(cfg: Settings, s: State) {
    forall c :: c in s.calls && s.calls[c].room in s.floors ==> CallInv(cfg, s.floors[s.calls[c].room].row, s.calls[c])
  }

  ghost predicate RowsInv(floors: map<nat, Floor>) {
    forall r :: r in floors && floors[r].row.session.Some? ==> floors[r].row.programIngest
  }

  /** A call that counted a place still has it. */
  ghost predicate PlaceKept(cfg: Settings, s: State) {
    s.capacity.Some? && At(s, s.capacity.value, Counted) ==>
      var room := s.calls[s.capacity.value].room;
      room in s.floors && s.floors[room].row.session.None? ==> |Reserved(s.floors)| < cfg.maxRooms
  }

  ghost predicate HealthInv(f: Floor, now: real, good: Option<real>) {
    f.health.Some? ==>
      var h := f.health.value;
      && (h.reservation.Some? ==> h.reservation.value <= now && (good.Some? ==> good.value <= h.reservation.value))
      && (h.missing.Some? ==> h.missing.value <= now && (good.Some? ==> good.value <= h.missing.value))
  }

  function GoodOf(s: State, room: nat): Option<real> { if room in s.good then Some(s.good[room]) else None }

  ghost predicate ClockInv(s: State) {
    && (forall r :: r in s.good ==> s.good[r] <= s.now)
    && (forall r :: r in s.floors ==> HealthInv(s.floors[r], s.now, GoodOf(s, r)))
  }

  ghost predicate Inv(cfg: Settings, s: State) {
    && LockInv(s) && CallsInv(cfg, s) && RowsInv(s.floors) && ClockInv(s)
    && |Reserved(s.floors)| <= cfg.maxRooms && PlaceKept(cfg, s)
  }

  // ---- Counting rooms ----

  lemma ReservedShrinks(before: map<nat, Floor>, after: map<nat, Floor>)
    requires forall r :: r in Reserved(after) ==> r in Reserved(before)
    ensures |Reserved(after)| <= |Reserved(before)|
  {
    SubsetSize(Reserved(after), Reserved(before));
  }

  lemma ReservedGrows(floors: map<nat, Floor>, room: nat, f: Floor)
    ensures |Reserved(floors[room := f])| <= |Reserved(floors)| + 1
  {
    var after := Reserved(floors[room := f]);
    assert after - {room} <= Reserved(floors);
    SubsetSize(after - {room}, Reserved(floors));
    assert after <= (after - {room}) + {room};
    SubsetSize(after, (after - {room}) + {room});
  }

  // ---- Every step keeps the invariant ----

  /** A task without any call in flight for the room rewrites its row, reserving nothing. */
  lemma RewriteKeepsInv(cfg: Settings, s: State, room: nat, f: Floor)
    requires Inv(cfg, s) && room !in s.locks
    requires f.row.session.Some? ==>
               f.row.programIngest && room in s.floors && f.row.session == s.floors[room].row.session
    requires HealthInv(f, s.now, GoodOf(s, room))
    ensures Inv(cfg, WithFloor(s, room, f))
  {
    var s' := WithFloor(s, room, f);
    assert forall c :: c in s.calls ==> s.calls[c].room != room;
    ReservedShrinks(s.floors, s'.floors);
  }

  lemma GoodKeepsInv(cfg: Settings, s: State, room: nat)
    requires Inv(cfg, s)
    requires room in s.floors && s.floors[room].health.Some? ==>
               var h := s.floors[room].health.value;
               (h.reservation.Some? ==> h.reservation.value == s.now) && h.missing.None?
    ensures Inv(cfg, Good(s, room))
  {
    var s' := Good(s, room);
    forall r | r in s'.floors ensures HealthInv(s'.floors[r], s'.now, GoodOf(s', r)) {
      assert HealthInv(s.floors[r], s.now, GoodOf(s, r));
    }
  }

  lemma ReleaseKeepsInv(cfg: Settings, s: State, call: nat)
    requires Inv(cfg, s) && call in s.calls
    ensures Inv(cfg, Released(s, call))
    ensures s.calls[call].room !in Released(s, call).locks
  {
  }

  lemma BeginKeepsInv(cfg: Settings, s: State, step: Step)
    requires Inv(cfg, s) && step.Authorize? && step.call !in s.calls && Unlocked(s, step.room)
    requires Admissible(cfg, s.floors[step.room].row, step) && Free(s.floors[step.room].row, step.session)
    ensures Inv(cfg, s.(
      locks := s.locks[step.room := step.call],
      calls := s.calls[step.call := Call(step.room, step.session, step.protocol, step.digest, step.wall, Held)]))
  {
  }

  lemma AuthorizeKeepsInv(cfg: Settings, s: State, step: Step)
    requires Inv(cfg, s) && step.Authorize? && Enabled(cfg, s, step)
    ensures Inv(cfg, Next(cfg, s, step))
  {
    var room := step.room;
    var f := ClearStale(s.floors[room], step.session, s.now, step.path);
    assert HealthInv(s.floors[room], s.now, GoodOf(s, room));
    if Free(f.row, step.session) {
      RewriteKeepsInv(cfg, s, room, f);
      BeginKeepsInv(cfg, WithFloor(s, room, f), step);
    }
  }

  lemma CheckKeepsInv(cfg: Settings, s: State, call: nat, wall: real)
    requires Inv(cfg, s) && Enabled(cfg, s, Check(call, wall))
    ensures Inv(cfg, DoCheck(cfg, s, call, wall))
  {
    ReleaseKeepsInv(cfg, s, call);
  }

  lemma CountKeepsInv(cfg: Settings, s: State, call: nat)
    requires Inv(cfg, s) && Enabled(cfg, s, Count(call))
    ensures Inv(cfg, DoCount(cfg, s, call))
  {
    ReleaseKeepsInv(cfg, s, call);
  }

  lemma WriteFits(cfg: Settings, s: State, call: nat)
    requires Inv(cfg, s) && Enabled(cfg, s, Write(call)) && s.calls[call].room in s.floors
    ensures |Reserved(DoWrite(s, call).floors)| <= cfg.maxRooms
  {
    var room := s.calls[call].room;
    var s' := DoWrite(s, call);
    if s.floors[room].row.session.None? {
      ReservedGrows(s.floors, room, s'.floors[room]);
    } else {
      ReservedShrinks(s.floors, s'.floors);
    }
  }

  lemma WriteKeepsCalls(cfg: Settings, s: State, call: nat)
    requires Inv(cfg, s) && Enabled(cfg, s, Write(call)) && s.calls[call].room in s.floors
    ensures CallsInv(cfg, DoWrite(s, call)) && LockInv(DoWrite(s, call))
  {
    hide Reserved, ClockInv;
    assert forall c :: c in s.calls && s.calls[c].room == s.calls[call].room ==> c == call;
  }

  lemma WriteKeepsInv(cfg: Settings, s: State, call: nat)
    requires Inv(cfg, s) && Enabled(cfg, s, Write(call))
    ensures Inv(cfg, DoWrite(s, call))
  {
    hide Reserved, PublishPermitted;
    var room := s.calls[call].room;
    if room !in s.floors {
      ReleaseKeepsInv(cfg, s, call);
    } else {
      assert HealthInv(s.floors[room], s.now, GoodOf(s, room));
      WriteFits(cfg, s, call);
      WriteKeepsCalls(cfg, s, call);
    }
  }

  lemma FinishKeepsInv(cfg: Settings, s: State, call: nat)
    requires Inv(cfg, s) && Enabled(cfg, s, Finish(call))
    ensures Inv(cfg, DoFinish(s, call))
  {
    var room := s.calls[call].room;
    ReleaseKeepsInv(cfg, s, call);
    if room in s.floors {
      var r := Released(s, call);
      var f := s.floors[room].(health := Some(Health(Some(s.now), None)));
      RewriteKeepsInv(cfg, r, room, f);
      GoodKeepsInv(cfg, WithFloor(r, room, f), room);
    }
  }

  lemma OpenKeepsInv(cfg: Settings, s: State, room: nat, secret: Credential)
    requires Inv(cfg, s) && Unlocked(s, room)
    ensures Inv(cfg, Good(WithFloor(s, room, Opened(s.floors[room], secret, s.now)), room))
  {
    var f := Opened(s.floors[room], secret, s.now);
    RewriteKeepsInv(cfg, s, room, f);
    GoodKeepsInv(cfg, WithFloor(s, room, f), room);
  }

  lemma ReconciledFacts(
    cfg: Settings, f: Floor, path: Option<Path>, now: real, wall: real, kicks: (bool, bool), good: Option<real>)
    requires HealthInv(f, now, good) && (good.Some? ==> good.value <= now)
    ensures var g := Reconciled(cfg, f, path, now, wall, kicks);
            && HealthInv(g, now, good)
            && g.row == f.row.(session := g.row.session) && (g.row.session.Some? ==> g.row == f.row)
            && (Connected(cfg, f.row, path, wall) ==> g == Floor(f.row, Some(NO_HEALTH)))
  {
  }

  lemma ReconcileKeepsInv(cfg: Settings, s: State, step: Step)
    requires Inv(cfg, s) && step.Reconcile? && Enabled(cfg, s, step)
    ensures Inv(cfg, DoReconcile(cfg, s, step))
  {
    var f := s.floors[step.room];
    assert HealthInv(f, s.now, GoodOf(s, step.room));
    ReconciledFacts(cfg, f, step.path, s.now, step.wall, step.kicks, GoodOf(s, step.room));
    var g := Reconciled(cfg, f, step.path, s.now, step.wall, step.kicks);
    RewriteKeepsInv(cfg, s, step.room, g);
    if Connected(cfg, f.row, step.path, step.wall) { GoodKeepsInv(cfg, WithFloor(s, step.room, g), step.room); }
  }

  lemma ForgetKeepsInv(cfg: Settings, s: State, room: nat)
    requires Inv(cfg, s) && room in s.floors
    ensures Inv(cfg, WithFloor(s, room, s.floors[room].(health := None)))
  {
    ReservedShrinks(s.floors, WithFloor(s, room, s.floors[room].(health := None)).floors);
  }

  lemma CreateKeepsInv(cfg: Settings, s: State, room: nat)
    requires Inv(cfg, s) && Enabled(cfg, s, Create(room))
    ensures Inv(cfg, Next(cfg, s, Create(room)))
  {
    var f := Floor(Row(false, false, None, None, None), None);
    RewriteKeepsInv(cfg, s, room, f);
    var s' := Next(cfg, s, Create(room));
    forall r | r in s'.floors ensures HealthInv(s'.floors[r], s'.now, GoodOf(s', r)) {
      assert HealthInv(WithFloor(s, room, f).floors[r], s.now, GoodOf(s, r));
    }
  }

  lemma DeleteKeepsInv(cfg: Settings, s: State, room: nat)
    requires Inv(cfg, s)
    ensures Inv(cfg, s.(floors := s.floors - {room}))
  {
    ReservedShrinks(s.floors, s.floors - {room});
  }

  lemma RestartKeepsInv(cfg: Settings, s: State)
    requires Inv(cfg, s)
    ensures Inv(cfg, DoRestart(s))
  {
    ReservedShrinks(s.floors, DoRestart(s).floors);
  }

  lemma TickKeepsInv(cfg: Settings, s: State, elapsed: real)
    requires Inv(cfg, s) && elapsed >= 0.0
    ensures Inv(cfg, s.(now := s.now + elapsed))
  {
    var s' := s.(now := s.now + elapsed);
    forall r | r in s'.floors ensures HealthInv(s'.floors[r], s'.now, GoodOf(s', r)) {
      assert HealthInv(s.floors[r], s.now, GoodOf(s, r));
    }
  }

  lemma RevokeKeepsInv(cfg: Settings, s: State, room: nat)
    requires Inv(cfg, s) && Unlocked(s, room)
    ensures Inv(cfg, WithFloor(s, room, Revoked(s.floors[room])))
  {
    assert HealthInv(s.floors[room], s.now, GoodOf(s, room));
    RewriteKeepsInv(cfg, s, room, Revoked(s.floors[room]));
  }

  lemma CloseKeepsInv(cfg: Settings, s: State, room: nat, secret: Option<nat>, kicked: bool)
    requires Inv(cfg, s) && Unlocked(s, room)
    ensures Inv(cfg, WithFloor(s, room, Closed(s.floors[room], secret, kicked)))
  {
    assert HealthInv(s.floors[room], s.now, GoodOf(s, room));
    RewriteKeepsInv(cfg, s, room, Closed(s.floors[room], secret, kicked));
  }

  lemma StepKeepsInv(cfg: Settings, s: State, step: Step)
    requires Inv(cfg, s) && Enabled(cfg, s, step)
    ensures Inv(cfg, Next(cfg, s, step))
  {
    hide Inv;
    match step
    case Authorize(_, _, _, _, _, _, _) => AuthorizeKeepsInv(cfg, s, step);
    case Check(call, wall) => CheckKeepsInv(cfg, s, call, wall);
    case Count(call) => CountKeepsInv(cfg, s, call);
    case Write(call) => WriteKeepsInv(cfg, s, call);
    case Finish(call) => FinishKeepsInv(cfg, s, call);
    case Abort(call) => ReleaseKeepsInv(cfg, s, call);
    case Configure(room, action, secret) => RewriteKeepsInv(cfg, s, room, Configured(s.floors[room], action, secret));
    case RevokeFirst(room) => RevokeKeepsInv(cfg, s, room);
    case Open(room, _, secret) => OpenKeepsInv(cfg, s, room, secret);
    case Close(room, secret, kicked) => CloseKeepsInv(cfg, s, room, secret, kicked);
    case Reconcile(_, _, _, _) => ReconcileKeepsInv(cfg, s, step);
    case Forget(room) => ForgetKeepsInv(cfg, s, room);
    case Create(room) => CreateKeepsInv(cfg, s, room);
    case Delete(room) => DeleteKeepsInv(cfg, s, room);
    case Restart => RestartKeepsInv(cfg, s);
    case Tick(elapsed) => TickKeepsInv(cfg, s, elapsed);
  }

  lemma InitialInv(cfg: Settings, now: real)
    ensures Inv(cfg, Initial(now))
  {
    assert Reserved(map[]) == {};
  }

  /** The states a run goes through, from `states[0]` on. */
  ghost predicate IsRun(cfg: Settings, states: seq<State>, steps: seq<Step>) {
    && |states| == |steps| + 1
    && forall i :: 0 <= i < |steps| ==>
         Enabled(cfg, states[i], steps[i]) && Next(cfg, states[i], steps[i]) == states[i + 1]
  }

  lemma StepOfRun(cfg: Settings, states: seq<State>, steps: seq<Step>, n: nat)
    requires IsRun(cfg, states, steps) && n < |steps|
    ensures |states| == |steps| + 1
    ensures Enabled(cfg, states[n], steps[n]) && Next(cfg, states[n], steps[n]) == states[n + 1]
  {
    hide Enabled, Next;
  }

  lemma {:induction false} ReachableInv(cfg: Settings, states: seq<State>, steps: seq<Step>, n: nat)
    requires IsRun(cfg, states, steps) && Inv(cfg, states[0]) && n < |states|
    ensures Inv(cfg, states[n])
  {
    if n > 0 {
      ReachableInv(cfg, states, steps, n - 1);
      StepKeepsInv(cfg, states[n - 1], steps[n - 1]);
    }
  }

  // ---- What it means ----

  /** Capacity, over every run of every interleaving: the rooms with a reservation never exceed the limit. */
  lemma CapacityHolds(cfg: Settings, states: seq<State>, steps: seq<Step>, n: nat, now: real)
    requires IsRun(cfg, states, steps) && states[0] == Initial(now) && n < |states|
    ensures |Reserved(states[n].floors)| <= cfg.maxRooms
    ensures forall r :: r in states[n].floors && states[n].floors[r].row.session.Some? ==>
                          r in Reserved(states[n].floors)
  {
    InitialInv(cfg, now);
    ReachableInv(cfg, states, steps, n);
  }

  ghost predicate Holds(s: State, room: nat, session: nat) {
    room in s.floors && s.floors[room].row.session == Some(session)
  }

  /** What the invariant says about a step and a room it may write. */
  ghost predicate Known(cfg: Settings, s: State, step: Step, room: nat) {
    && (room in s.floors && s.floors[room].row.session.Some? ==> s.floors[room].row.programIngest)
    && (step.Write? && At(s, step.call, Counted) && s.calls[step.call].room == room && room in s.floors ==>
          CallInv(cfg, s.floors[room].row, s.calls[step.call])
          && (s.floors[room].row.session.None? ==> |Reserved(s.floors)| < cfg.maxRooms))
  }

  lemma InvKnows(cfg: Settings, s: State, step: Step, room: nat)
    requires Inv(cfg, s)
    ensures Known(cfg, s, step, room)
  {
  }

  lemma HolderIsFree(cfg: Settings, s: State, call: nat)
    requires Inv(cfg, s) && call in s.calls && s.calls[call].room in s.floors
    ensures Free(s.floors[s.calls[call].room].row, s.calls[call].session)
  {
  }

  /** A room never passes from one session to another in one step. */
  lemma NoHandover(cfg: Settings, s: State, step: Step, room: nat, a: nat, b: nat)
    requires Inv(cfg, s) && Enabled(cfg, s, step) && Holds(s, room, a) && Holds(Next(cfg, s, step), room, b)
    ensures a == b
  {
    hide Inv, Reserved, CallInv, PublishPermitted, Admissible;
    InvKnows(cfg, s, step, room);
    if step.Write? && s.calls[step.call].room == room { HolderIsFree(cfg, s, step.call); }
  }

  /** Between two different sessions of a room the reservation was given up: at some moment in between the
      room had none (or was deleted). */
  lemma {:induction false} ReleasedInBetween(
    cfg: Settings, states: seq<State>, steps: seq<Step>, i: nat, j: nat, room: nat, a: nat, b: nat) returns (k: nat)
    requires IsRun(cfg, states, steps) && Inv(cfg, states[0]) && i <= j < |states| && a != b
    requires Holds(states[i], room, a) && Holds(states[j], room, b)
    ensures i < k < j && forall x :: !Holds(states[k], room, x)
    decreases j - i
  {
    ReachableInv(cfg, states, steps, i);
    if i == j {
      assert false;
    } else if room in states[i + 1].floors && states[i + 1].floors[room].row.session.Some? {
      var next := states[i + 1].floors[room].row.session.value;
      NoHandover(cfg, states[i], steps[i], room, a, next);
      k := ReleasedInBetween(cfg, states, steps, i + 1, j, room, a, b);
    } else {
      k := i + 1;
    }
  }

  /** The conflict check of the second phase never fires: the room's lock kept the first one's answer. Only
      the clock or the room's deletion can still refuse the call there. */
  lemma SecondCheckIsDead(cfg: Settings, s: State, call: nat, wall: real)
    requires Inv(cfg, s) && Enabled(cfg, s, Check(call, wall)) && s.calls[call].room in s.floors
    ensures Free(s.floors[s.calls[call].room].row, s.calls[call].session)
    ensures var c := s.calls[call];
            && (call in DoCheck(cfg, s, call, wall).calls <==>
                  PublishPermitted(cfg, s.floors[c.room].row, c.protocol, c.digest, wall))
            // What is checked again is the credential at this moment.
            && (call in DoCheck(cfg, s, call, wall).calls ==>
                  DoCheck(cfg, s, call, wall).calls[call] == c.(pc := Checked, wall := wall))
  {
    assert CallInv(cfg, s.floors[s.calls[call].room].row, s.calls[call]);
  }

  /** A reservation is stored only for a credential that the room accepts on that transport when it is
      stored - nobody can revoke it in between - and in a room that takes program ingest. */
  lemma AdmissionIsPermitted(cfg: Settings, s: State, step: Step, room: nat, session: nat)
    requires Inv(cfg, s) && Enabled(cfg, s, step)
    requires !Holds(s, room, session) && Holds(Next(cfg, s, step), room, session)
    ensures step.Write? && s.calls[step.call].room == room && s.calls[step.call].session == session
    ensures cfg.ingestEnabled && room in s.floors && s.floors[room].row.session.None?
    ensures |Reserved(s.floors)| < cfg.maxRooms
    ensures var c := s.calls[step.call];
            PublishPermitted(cfg, s.floors[room].row, c.protocol, c.digest, c.wall)
  {
    hide Inv, Reserved, PublishPermitted;
    InvKnows(cfg, s, step, room);
  }

  /** Every step that ends a reservation, and exactly when it does. */
  ghost predicate Ends(cfg: Settings, s: State, step: Step, room: nat)
    requires room in s.floors
  {
    var f := s.floors[room];
    match step
    case Authorize(_, r, session, _, _, _, path) =>
      r == room && f.row.session != Some(session) && SourceGone(path) && !Recent(f.health, s.now, RESERVATION_RECENT)
    case Configure(r, _, _) => r == room
    case RevokeFirst(r) => r == room
    case Open(r, path, _) => r == room && SourceGone(path) && !Recent(f.health, s.now, SENDER_PENDING_SECS)
    case Close(r, secret, kicked) =>
      r == room && kicked && secret.Some? && f.row.sender.Some? && f.row.sender.value.digest == secret.value
    case Reconcile(r, path, wall, kicks) =>
      r == room && kicks.1 && (kicks.0 || !Intruder(cfg, f.row, path, wall)) && !Connected(cfg, f.row, path, wall)
      && s.now - GraceStart(Missed(f.health, s.now)) >= cfg.grace
    case Delete(r) => r == room
    case _ => false
  }

  lemma EndsExactly(cfg: Settings, s: State, step: Step, room: nat, session: nat)
    requires Inv(cfg, s) && Enabled(cfg, s, step) && Holds(s, room, session)
    ensures !Holds(Next(cfg, s, step), room, session) <==> Ends(cfg, s, step, room)
  {
    hide Inv, Reserved, PublishPermitted;
    InvKnows(cfg, s, step, room);
  }

  /** The reconciler gives a publisher the whole grace period: it takes no reservation away earlier than
      `grace` after the room was last admitted, opened or seen connected. */
  lemma GraceIsRespected(cfg: Settings, s: State, step: Step, session: nat)
    requires Inv(cfg, s) && Enabled(cfg, s, step) && step.Reconcile?
    requires Holds(s, step.room, session) && !Holds(Next(cfg, s, step), step.room, session)
    ensures step.room in s.good ==> s.now - s.good[step.room] >= cfg.grace
    ensures !Connected(cfg, s.floors[step.room].row, step.path, step.wall)
  {
    EndsExactly(cfg, s, step, step.room, session);
    assert HealthInv(s.floors[step.room], s.now, GoodOf(s, step.room));
  }

  /** The moments the grace period counts from: an admission, an opened sender, a look that sees the room's own
      session publish. No other step moves it, and only a new room has none. */
  lemma GoodMoments(cfg: Settings, s: State, step: Step, room: nat)
    requires Enabled(cfg, s, step) && room in s.floors
    ensures var good := match step
                        case Finish(call) => s.calls[call].room == room
                        case Open(r, _, _) => r == room
                        case Reconcile(r, path, wall, _) =>
                          r == room && path.Some? && path.value.ready && path.value.source.Some?
                          && path.value.source == s.floors[room].row.session && cfg.ingestEnabled
                        case _ => false;
            GoodOf(Next(cfg, s, step), room) == if good then Some(s.now) else GoodOf(s, room)
  {
    hide Reserved, PublishPermitted, Admissible, Reconciled;
    if step.Reconcile? { ConnectedExactly(cfg, s.floors[step.room].row, step.path, step.wall); }
    hide Connected;
  }

  /** A restarted portal has no health records, no locks and nothing in flight; every row is as it was. */
  lemma RestartMeaning(cfg: Settings, s: State, room: nat)
    ensures var r := Next(cfg, s, Restart);
            && r.locks == map[] && r.capacity.None? && r.calls == map[] && r.now == s.now
            && r.floors.Keys == s.floors.Keys
            && (room in s.floors ==> r.floors[room] == Floor(s.floors[room].row, None))
  {
  }

  /** An authorisation that raises, is cancelled or finds its room deleted is over: it gives up its locks and
      changes nothing else. */
  lemma BrokenOff(cfg: Settings, s: State, step: Step)
    requires Inv(cfg, s) && Enabled(cfg, s, step)
    requires step.Abort? || ((step.Write? || step.Finish?) && s.calls[step.call].room !in s.floors)
    ensures var after := Next(cfg, s, step);
            && after.calls == s.calls - {step.call} && after.locks == s.locks - {s.calls[step.call].room}
            && after.capacity != Some(step.call) && (s.capacity != Some(step.call) ==> after.capacity == s.capacity)
            && after.floors == s.floors && after.now == s.now
  {
    hide Reserved, PublishPermitted;
  }

  /** A new room takes no ingest and has no credential, session or health record; a dropped record leaves the
      row alone; a deleted room is gone. */
  lemma RoomsComeAndGo(cfg: Settings, s: State, room: nat)
    ensures Enabled(cfg, s, Create(room)) ==>
              Next(cfg, s, Create(room)).floors == s.floors[room := Floor(Row(false, false, None, None, None), None)]
    ensures Enabled(cfg, s, Forget(room)) ==>
              Next(cfg, s, Forget(room)).floors == s.floors[room := Floor(s.floors[room].row, None)]
    ensures Enabled(cfg, s, Delete(room)) ==> Next(cfg, s, Delete(room)).floors == s.floors - {room}
  {
  }

  /** Authorisations never wait for each other in a circle: if one is in flight, some authorisation can
      take its next step. */
  lemma NoDeadlock(cfg: Settings, s: State, call: nat, wall: real) returns (step: Step)
    requires Inv(cfg, s) && call in s.calls
    ensures Enabled(cfg, s, step) && (step.Check? || step.Count? || step.Write? || step.Finish?)
  {
    match s.calls[call].pc
    case Checked => step := Count(call);
    case Counted => step := Write(call);
    case Written => step := Finish(call);
    case Held =>
      if s.capacity.None? { step := Check(call, wall); }
      else if At(s, s.capacity.value, Checked) { step := Count(s.capacity.value); }
      else { step := Write(s.capacity.value); }
  }

  /** An authorisation left alone in its room ends with the reservation exactly if its credential is still
      good and the room has a place: the second phase as one transaction. */
  lemma AdmittedExactly(cfg: Settings, s: State, call: nat, wall: real)
    requires Inv(cfg, s) && At(s, call, Held) && s.capacity.None? && s.calls[call].room in s.floors
    ensures var c := s.calls[call];
            var row := s.floors[c.room].row;
            var checked := DoCheck(cfg, s, call, wall);
            var counted := if call in checked.calls then DoCount(cfg, checked, call) else checked;
            var done := if call in counted.calls then DoFinish(DoWrite(counted, call), call) else counted;
            Holds(done, c.room, c.session) <==>
              row.session == Some(c.session)
              || (PublishPermitted(cfg, row, c.protocol, c.digest, wall) && |Reserved(s.floors)| < cfg.maxRooms)
  {
    var c := s.calls[call];
    assert CallInv(cfg, s.floors[c.room].row, c);
  }

  // ---- A fresh admission ----

  /** For its first five seconds an admission is safe from every other session, whatever the media server
      says of the path; from then on exactly a path without a source lets another one through. (A reservation
      at 0.0 on the clock counts as none.) */
  lemma RivalWaitsExactly(cfg: Settings, s: State, call: nat, elapsed: real, rival: Step)
    requires Inv(cfg, s) && At(s, call, Written) && elapsed >= 0.0
    requires Holds(s, s.calls[call].room, s.calls[call].session)
    requires rival.Authorize? && rival.room == s.calls[call].room && rival.session != s.calls[call].session
    requires Enabled(cfg, Next(cfg, Next(cfg, s, Finish(call)), Tick(elapsed)), rival)
    ensures var later := Next(cfg, Next(cfg, s, Finish(call)), Tick(elapsed));
            var after := Next(cfg, later, rival);
            && (after == later <==> (s.now != 0.0 && elapsed < 5.0) || !SourceGone(rival.path))
            && (after != later <==> !Holds(after, rival.room, s.calls[call].session))
  {
    hide Inv, Reserved, PublishPermitted, Admissible;
  }

  /** Whoever runs the floor, and not another publisher: an operator, a closing sender, the reconciler, a
      crash. */
  predicate Administers(step: Step, room: nat) {
    match step
    case Configure(r, _, _) => r == room
    case RevokeFirst(r) => r == room
    case Open(r, _, _) => r == room
    case Close(r, _, _) => r == room
    case Reconcile(r, _, _, _) => r == room
    case Forget(r) => r == room
    case Delete(r) => r == room
    case Restart => true
    case _ => false
  }

  /** The session has the room, since a moment not before `since`. */
  ghost predicate FreshlyHolds(s: State, room: nat, session: nat, since: real) {
    && Holds(s, room, session) && since <= s.now
    && s.floors[room].health.Some? && s.floors[room].health.value.reservation.Some?
    && s.floors[room].health.value.reservation.value >= since
  }

  lemma FreshStep(cfg: Settings, s: State, step: Step, room: nat, session: nat, since: real)
    requires Inv(cfg, s) && Enabled(cfg, s, step) && !Administers(step, room)
    requires FreshlyHolds(s, room, session, since) && 0.0 < since && s.now - since < 5.0
    ensures FreshlyHolds(Next(cfg, s, step), room, session, since)
  {
    hide Inv, Reserved, PublishPermitted, Admissible, Connected, Intruder;
    InvKnows(cfg, s, step, room);
  }

  lemma FinishIsFresh(cfg: Settings, s: State, call: nat)
    requires Enabled(cfg, s, Finish(call)) && Holds(s, s.calls[call].room, s.calls[call].session)
    ensures FreshlyHolds(Next(cfg, s, Finish(call)), s.calls[call].room, s.calls[call].session, s.now)
  {
  }

  /** The second phase of a request with nothing in its way: whether it is admitted, and the state it leaves. */
  function SecondPhase(cfg: Settings, s: State, call: nat, wall: real): (bool, State)
    requires At(s, call, Held) && s.capacity.None?
  {
    var checked := Next(cfg, s, Check(call, wall));
    if call !in checked.calls then (false, checked)
    else
      var counted := Next(cfg, checked, Count(call));
      if call !in counted.calls then (false, counted)
      else (true, Next(cfg, Next(cfg, counted, Write(call)), Finish(call)))
  }

  /** From its arrival to its answer. */
  function Alone(cfg: Settings, s: State, request: Step, wall: real): (bool, State)
    requires request.Authorize? && s.capacity.None?
  {
    if !Enabled(cfg, s, request) then (false, s)
    else
      var held := Next(cfg, s, request);
      if request.call !in held.calls then (false, held) else SecondPhase(cfg, held, request.call, wall)
  }

  lemma SecondPhaseExactly(cfg: Settings, s: State, call: nat, wall: real)
    requires At(s, call, Held) && s.capacity.None? && s.calls[call].room in s.floors
    requires Free(s.floors[s.calls[call].room].row, s.calls[call].session)
    ensures var c := s.calls[call];
            var row := s.floors[c.room].row;
            var good := PublishPermitted(cfg, row, c.protocol, c.digest, wall)
                        && (row.session.Some? || |Reserved(s.floors)| < cfg.maxRooms);
            var f := Floor(row.(session := Some(c.session)), Some(Health(Some(s.now), None)));
            SecondPhase(cfg, s, call, wall)
            == if good then (true, Good(WithFloor(Released(s, call), c.room, f), c.room))
               else (false, Released(s, call))
  {
    hide Reserved, PublishPermitted;
    var c := s.calls[call];
    var checked := DoCheck(cfg, s, call, wall);
    if call in checked.calls {
      assert checked.floors == s.floors;
      var counted := DoCount(cfg, checked, call);
      if call in counted.calls {
        var done := DoFinish(DoWrite(counted, call), call);
        assert done.calls == s.calls - {call};
        assert done.floors == Good(WithFloor(Released(s, call), c.room, done.floors[c.room]), c.room).floors;
      } else {
        assert counted.calls == s.calls - {call};
      }
    }
  }

  lemma SessionIsNoCredential(cfg: Settings, row: Row, session: Option<nat>, p: Protocol, digest: nat, wall: real)
    ensures PublishPermitted(cfg, row.(session := session), p, digest, wall)
            == PublishPermitted(cfg, row, p, digest, wall)
  {
  }

  lemma ReservedElsewhere(floors: map<nat, Floor>, room: nat, f: Floor)
    requires f.row.session.None?
    ensures Reserved(floors[room := f]) == Reserved(floors) - {room}
  {
  }

  /** A request with nothing in its way is admitted exactly if the portal takes ingest, the credential is good
      at both looks, the room is free, its own, or held by a session that is neither fresh nor publishing, and
      the other rooms leave a place. */
  lemma AnsweredExactly(cfg: Settings, s: State, request: Step, wall: real)
    requires request.Authorize? && s.capacity.None? && request.call !in s.calls
    requires request.room in s.floors && request.room !in s.locks
    ensures var f := s.floors[request.room];
            var own := f.row.session == Some(request.session);
            Alone(cfg, s, request, wall).0 <==>
              && cfg.ingestEnabled
              && PublishPermitted(cfg, f.row, request.protocol, request.digest, request.wall)
              && PublishPermitted(cfg, f.row, request.protocol, request.digest, wall)
              && (f.row.session.None? || own || (!Recent(f.health, s.now, 5.0) && SourceGone(request.path)))
              && (own || |Reserved(s.floors) - {request.room}| < cfg.maxRooms)
  {
    var room, f := request.room, s.floors[request.room];
    assert PublishPermitted(cfg, f.row, request.protocol, request.digest, request.wall) ==> f.row.programIngest;
    hide PublishPermitted, Recent, Reserved, SourceGone;
    var g := ClearStale(f, request.session, s.now, request.path);
    if Enabled(cfg, s, request) && Free(g.row, request.session) {
      var held := DoAuthorize(s, request);
      SecondPhaseExactly(cfg, held, request.call, wall);
      hide SecondPhase;
      SessionIsNoCredential(cfg, f.row, None, request.protocol, request.digest, wall);
      if g.row.session.None? { ReservedElsewhere(s.floors, room, g); }
    }
  }

  lemma ArrivalKeepsOthers(s: State, request: Step)
    requires request.Authorize? && request.call !in s.calls && request.room in s.floors && request.room !in s.locks
    ensures var held := DoAuthorize(s, request);
            && held.capacity == s.capacity && held.now == s.now && held.floors.Keys == s.floors.Keys
            && held.locks - {request.room} == s.locks && held.calls - {request.call} == s.calls
            && forall other :: other in s.floors && other != request.room ==> held.floors[other] == s.floors[other]
    ensures var held := DoAuthorize(s, request);
            if request.call in held.calls then
              At(held, request.call, Held) && held.calls[request.call].room == request.room
              && Free(held.floors[request.room].row, held.calls[request.call].session)
            else held == s
  {
    hide ClearStale;
  }

  /** Its answer leaves no lock and no other room changed. */
  lemma AnswerKeepsOthers(cfg: Settings, s: State, request: Step, wall: real)
    requires request.Authorize? && s.capacity.None? && request.call !in s.calls
    requires request.room in s.floors && request.room !in s.locks
    ensures var after := Alone(cfg, s, request, wall).1;
            && after.locks == s.locks && after.calls == s.calls && after.capacity.None? && after.now == s.now
            && after.floors.Keys == s.floors.Keys
            && forall other :: other in s.floors && other != request.room ==> after.floors[other] == s.floors[other]
  {
    ArrivalKeepsOthers(s, request);
    hide DoAuthorize, Admissible, PublishPermitted, Reserved, Free;
    if request.call in DoAuthorize(s, request).calls {
      SecondPhaseExactly(cfg, DoAuthorize(s, request), request.call, wall);
    }
    hide SecondPhase;
  }

  /** Admitted, the room's reservation starts now; refused, a stale one may be gone. */
  lemma AnswerSettles(cfg: Settings, s: State, request: Step, wall: real)
    requires request.Authorize? && s.capacity.None? && request.call !in s.calls
    requires request.room in s.floors && request.room !in s.locks
    ensures var f, answer := s.floors[request.room], Alone(cfg, s, request, wall);
            && request.room in answer.1.floors
            && var g := answer.1.floors[request.room];
               if answer.0 then g == Floor(f.row.(session := Some(request.session)), Some(Health(Some(s.now), None)))
               else
                 g == f || (g == Floor(f.row.(session := None), None) && f.row.session != Some(request.session)
                            && SourceGone(request.path) && !Recent(f.health, s.now, 5.0))
  {
    hide PublishPermitted, Recent, Reserved, SourceGone;
    var held := DoAuthorize(s, request);
    if Enabled(cfg, s, request) && request.call in held.calls {
      SecondPhaseExactly(cfg, held, request.call, wall);
      hide SecondPhase;
    }
  }

  /** On every run no other publisher takes a room within five seconds of its admission, however many try and
      whatever else goes on in other rooms. */
  lemma {:induction false} AdmissionIsSafe(
    cfg: Settings, states: seq<State>, steps: seq<Step>, m: nat, n: nat, room: nat, session: nat, since: real)
    requires IsRun(cfg, states, steps) && Inv(cfg, states[0]) && m <= n < |states|
    requires FreshlyHolds(states[m], room, session, since) && 0.0 < since
    requires forall i :: m <= i < n ==> !Administers(steps[i], room) && states[i].now - since < 5.0
    ensures FreshlyHolds(states[n], room, session, since)
  {
    hide FreshlyHolds, Administers, Enabled, Next, Inv;
    if m < n {
      AdmissionIsSafe(cfg, states, steps, m, n - 1, room, session, since);
      StepOfRun(cfg, states, steps, n - 1);
      ReachableInv(cfg, states, steps, n - 1);
      hide IsRun;
      FreshStep(cfg, states[n - 1], steps[n - 1], room, session, since);
    }
  }

  // ---- Browser senders ----

  ghost predicate SenderIs(s: State, room: nat, secret: Credential) {
    room in s.floors && s.floors[room].row.sender == Some(secret)
  }

  /** What ends a browser sender's right to publish: a change of source or credential, another sender, the
      room's deletion, or a close that presents its very secret. */
  ghost predicate EndsSender(step: Step, room: nat, secret: Credential) {
    match step
    case Configure(r, _, _) => r == room
    case RevokeFirst(r) => r == room
    case Open(r, _, newer) => r == room && newer != secret
    case Close(r, presented, _) => r == room && presented == Some(secret.digest)
    case Delete(r) => r == room
    case _ => false
  }

  lemma SenderEndsExactly(cfg: Settings, s: State, step: Step, room: nat, secret: Credential)
    requires Enabled(cfg, s, step) && SenderIs(s, room, secret)
    ensures !SenderIs(Next(cfg, s, step), room, secret) <==> EndsSender(step, room, secret)
  {
    hide Reserved, PublishPermitted, Admissible, Intruder, Connected;
  }

  /** On every run nothing else does: no delayed or foreign close, publisher, reconciliation, crash or
      restart takes a sender's secret away. */
  lemma {:induction false} SenderIsBound(
    cfg: Settings, states: seq<State>, steps: seq<Step>, m: nat, n: nat, room: nat, secret: Credential)
    requires IsRun(cfg, states, steps) && m <= n < |states| && SenderIs(states[m], room, secret)
    requires forall i :: m <= i < n ==> !EndsSender(steps[i], room, secret)
    ensures SenderIs(states[n], room, secret)
  {
    hide SenderIs, EndsSender, Enabled, Next;
    if m < n {
      SenderIsBound(cfg, states, steps, m, n - 1, room, secret);
      StepOfRun(cfg, states, steps, n - 1);
      hide IsRun;
      SenderEndsExactly(cfg, states[n - 1], steps[n - 1], room, secret);
    }
  }
}
