/** portal/notifications.py: the e-mail outbox. Every function below is one transaction; any number of
    workers, some long past their claim, run them in any order, and a crash is a worker that stops. */
module Outbox {
  import opened Basics
  import opened Wrappers

  datatype Status = Pending | Sending | Accepted | Failed | Expired | Suppressed | Disabled

  /** A queued message. Times are seconds; `hasContent` says that the rendered text is still stored. */
  datatype Delivery = Delivery(
    status: Status, attempts: nat, scheduled: real, expires: Option<real>, claimUntil: Option<real>,
    created: real, hasContent: bool, hasToken: bool, key: Option<string>)

  type Rows = map<nat, Delivery>

  const CLAIM_DURATION := 120.0
  const MAX_ATTEMPTS := 4
  const CONTENT_RETENTION := 2592000.0

  predicate Finished(status: Status) { !status.Pending? && !status.Sending? }

  // ---- One row ----

  predicate Lapsed(d: Delivery, now: real) {
    d.status.Sending? && d.claimUntil.Some? && d.claimUntil.value < now
  }

  predicate Overdue(d: Delivery, now: real) {
    d.status.Pending? && d.expires.Some? && d.expires.value <= now
  }

  predicate Due(d: Delivery, now: real) {
    d.status.Pending? && d.scheduled <= now && (d.expires.None? || d.expires.value > now)
  }

  function Released(d: Delivery, now: real): Delivery {
    if Lapsed(d, now) then d.(status := Pending, claimUntil := None) else d
  }

  /** The two updates that open a claim: lapsed claims are given back, then overdue messages expire. */
  function Swept(d: Delivery, now: real): Delivery {
    var r := Released(d, now);
    if Overdue(r, now) then r.(status := Expired) else r
  }

  function Claimed(d: Delivery, now: real): Delivery {
    d.(status := Sending, attempts := d.attempts + 1, claimUntil := Some(now + CLAIM_DURATION))
  }

  /** The worker's first look: its linked token, its key and its content decide whether it is sent. */
  function Looked(d: Delivery, tokenGood: bool, decrypts: bool): Delivery {
    if !d.status.Sending? then d
    else if d.hasToken && !tokenGood then d.(status := Suppressed, claimUntil := None)
    else if !decrypts || !d.hasContent then d.(status := Failed, claimUntil := None)
    else d
  }

  function Unconfigured(d: Delivery): Delivery { if d.status.Sending? then d.(status := Disabled) else d }

  function Delivered(d: Delivery): Delivery {
    if d.status.Sending? then d.(status := Accepted, claimUntil := None) else d
  }

  function Delay(attempts: nat): real {
    var delay := if attempts == 0 then 7.5 else (15 * Pow2(attempts - 1)) as real;
    if delay < 300.0 then delay else 300.0
  }

  function Unsent(d: Delivery, now: real): Delivery {
    if !d.status.Sending? then d
    else if d.attempts >= MAX_ATTEMPTS then d.(status := Failed, claimUntil := None)
    else d.(status := Pending, claimUntil := None, scheduled := now + Delay(d.attempts))
  }

  predicate Erasable(d: Delivery, now: real) {
    Finished(d.status) && d.created < now - CONTENT_RETENTION && d.hasContent
  }

  function Erased(d: Delivery, now: real): Delivery { if Erasable(d, now) then d.(hasContent := false) else d }

  // ---- The table ----

  function SweptAll(rows: Rows, now: real): Rows { map id | id in rows :: Swept(rows[id], now) }

  function ErasedAll(rows: Rows, now: real): Rows { map id | id in rows :: Erased(rows[id], now) }

  /** A transaction on one row. */
  function With(rows: Rows, id: nat, f: Delivery -> Delivery): Rows {
    if id in rows then rows[id := f(rows[id])] else rows
  }

  predicate Earlier(a: Delivery, i: nat, b: Delivery, j: nat) {
    a.scheduled < b.scheduled || (a.scheduled == b.scheduled && i <= j)
  }

  /** The due message that was scheduled first, the older of two at the same time. Rows another
      transaction has locked are passed over. */
  ghost predicate IsNext(rows: Rows, now: real, locked: set<nat>, id: nat) {
    && id in rows && id !in locked && Due(rows[id], now)
    && forall other :: other in rows && other !in locked && Due(rows[other], now) ==>
                         Earlier(rows[id], id, rows[other], other)
  }

  ghost predicate IsPick(rows: Rows, now: real, locked: set<nat>, pick: Option<nat>) {
    match pick
    case Some(id) => IsNext(rows, now, locked, id)
    case None => forall id :: id in rows && id !in locked ==> !Due(rows[id], now)
  }

  ghost predicate KeyTaken(rows: Rows, key: Option<string>) {
    key.Some? && exists id :: id in rows && rows[id].key == key
  }

  /** A row nobody claimed yet. */
  predicate IsNew(d: Delivery) { d.status.Pending? && d.attempts == 0 && d.claimUntil.None? && d.hasContent }

  class OutboxTable {
    var rows: Rows

    constructor ()
      ensures rows == map[]
    {
      rows := map[];
    }

    /** A message with a known idempotency key is not queued again. */
    method QueueNotification(id: nat, d: Delivery) returns (queued: nat)
      requires id !in rows && IsNew(d)
      modifies this
      ensures if KeyTaken(old(rows), d.key)
              then rows == old(rows) && queued in rows && rows[queued].key == d.key
              else rows == old(rows)[id := d] && queued == id
    {
      if d.key.Some? {
        var todo := rows.Keys;
        while todo != {}
          invariant todo <= rows.Keys && rows == old(rows)
          invariant forall x :: x in rows && x !in todo ==> rows[x].key != d.key
        {
          var x :| x in todo;
          if rows[x].key == d.key { return x; }
          todo := todo - {x};
        }
      }
      rows := rows[id := d];
      return id;
    }

    /** The query for the next due message. */
    method NextDue(now: real, locked: set<nat>) returns (pick: Option<nat>)
      ensures IsPick(rows, now, locked, pick)
    {
      pick := None;
      var todo := rows.Keys;
      while todo != {}
        invariant todo <= rows.Keys
        invariant pick.Some? ==> pick.value in rows && pick.value !in locked && Due(rows[pick.value], now)
        invariant forall x :: x in rows && x !in todo && x !in locked && Due(rows[x], now) ==>
                    pick.Some? && Earlier(rows[pick.value], pick.value, rows[x], x)
      {
        var x :| x in todo;
        if x !in locked && Due(rows[x], now)
           && (pick.None? || Earlier(rows[x], x, rows[pick.value], pick.value)) {
          pick := Some(x);
        }
        todo := todo - {x};
      }
    }

    method ClaimDelivery(now: real, locked: set<nat>) returns (pick: Option<nat>)
      modifies this
      ensures IsPick(SweptAll(old(rows), now), now, locked, pick)
      ensures rows == var swept := SweptAll(old(rows), now);
                      if pick.Some? then swept[pick.value := Claimed(swept[pick.value], now)] else swept
    {
      rows := map id | id in rows :: Released(rows[id], now);
      rows := map id | id in rows :: if Overdue(rows[id], now) then rows[id].(status := Expired) else rows[id];
      assert rows == SweptAll(old(rows), now);
      pick := NextDue(now, locked);
      if pick.None? { return; }
      rows := rows[pick.value := Claimed(rows[pick.value], now)];
    }

    /** The first transaction of a send; whether the message goes out. */
    method BeginSend(id: nat, tokenGood: bool, decrypts: bool) returns (send: bool)
      modifies this
      ensures rows == With(old(rows), id, d => Looked(d, tokenGood, decrypts))
      ensures send <==> id in rows && rows[id].status.Sending?
    {
      if id !in rows || !rows[id].status.Sending? { return false; }
      var d := rows[id];
      if d.hasToken && !tokenGood {
        rows := rows[id := d.(status := Suppressed, claimUntil := None)];
        return false;
      }
      if !decrypts {
        rows := rows[id := d.(status := Failed, claimUntil := None)];
        return false;
      }
      if !d.hasContent {
        rows := rows[id := d.(status := Failed, claimUntil := None)];
        return false;
      }
      return true;
    }

    method DisableDelivery(id: nat)
      modifies this
      ensures rows == With(old(rows), id, Unconfigured)
    {
      if id in rows && rows[id].status.Sending? { rows := rows[id := rows[id].(status := Disabled)]; }
    }

    method AcceptDelivery(id: nat)
      modifies this
      ensures rows == With(old(rows), id, Delivered)
    {
      if id in rows && rows[id].status.Sending? {
        rows := rows[id := rows[id].(status := Accepted, claimUntil := None)];
      }
    }

    method RecordFailure(id: nat, now: real)
      modifies this
      ensures rows == With(old(rows), id, d => Unsent(d, now))
    {
      if id !in rows || !rows[id].status.Sending? { return; }
      var d := rows[id].(claimUntil := None);
      if d.attempts >= MAX_ATTEMPTS {
        rows := rows[id := d.(status := Failed)];
        return;
      }
      rows := rows[id := d.(status := Pending, scheduled := now + Delay(d.attempts))];
    }

    method PurgeOldContent(now: real) returns (erased: nat)
      modifies this
      ensures rows == ErasedAll(old(rows), now)
      ensures erased == |set id | id in old(rows) && Erasable(old(rows)[id], now)|
    {
      erased := |set id | id in rows && Erasable(rows[id], now)|;
      rows := map id | id in rows :: Erased(rows[id], now);
    }
  }

  // ---- Runs ----

  /** How often a message went back to the queue: after a failed attempt, and because a claim lapsed. */
  datatype Tally = Tally(requeues: nat, lapses: nat)

  /** `tallies` is history: the program does not keep it. */
  datatype State = State(rows: Rows, tallies: map<nat, Tally>)

  datatype Step =
    | Queue(id: nat, d: Delivery)
    | Claim(now: real, locked: set<nat>, pick: Option<nat>)
    | Look(id: nat, tokenGood: bool, decrypts: bool)
    | Disable(id: nat)
    | Accept(id: nat)
    | Fail(id: nat, now: real)
    | Purge(now: real)

  ghost predicate Enabled(s: State, step: Step) {
    match step
    case Queue(id, d) => id !in s.rows && IsNew(d)
    case Claim(now, locked, pick) => IsPick(SweptAll(s.rows, now), now, locked, pick)
    case _ => true
  }

  /** What a step makes of one row. */
  ghost function RowNext(d: Delivery, id: nat, step: Step): Delivery {
    match step
    case Queue(_, _) => d
    case Claim(now, _, pick) => if pick == Some(id) then Claimed(Swept(d, now), now) else Swept(d, now)
    case Look(i, tokenGood, decrypts) => if i == id then Looked(d, tokenGood, decrypts) else d
    case Disable(i) => if i == id then Unconfigured(d) else d
    case Accept(i) => if i == id then Delivered(d) else d
    case Fail(i, now) => if i == id then Unsent(d, now) else d
    case Purge(now) => Erased(d, now)
  }

  ghost function TallyNext(t: Tally, d: Delivery, id: nat, step: Step): Tally {
    match step
    case Claim(now, _, _) => if Lapsed(d, now) then t.(lapses := t.lapses + 1) else t
    case Fail(i, _) =>
      if i == id && d.status.Sending? && d.attempts < MAX_ATTEMPTS then t.(requeues := t.requeues + 1) else t
    case _ => t
  }

  ghost predicate RowInv(d: Delivery, t: Tally) {
    && t.requeues <= 3
    && (d.status.Pending? ==> d.attempts == t.requeues + t.lapses)
    && (d.status.Sending? ==> d.attempts == t.requeues + t.lapses + 1)
    && d.attempts <= t.requeues + t.lapses + 1
    && (!Finished(d.status) ==> d.hasContent)
  }

  ghost predicate Inv(s: State) {
    && s.tallies.Keys == s.rows.Keys
    && (forall id :: id in s.rows ==> RowInv(s.rows[id], s.tallies[id]))
    && (forall i, j :: i in s.rows && j in s.rows && s.rows[i].key.Some? && s.rows[i].key == s.rows[j].key ==> i == j)
  }

  ghost function Next(s: State, step: Step): State {
    if step.Queue? then
      if KeyTaken(s.rows, step.d.key) then s
      else State(s.rows[step.id := step.d], s.tallies[step.id := Tally(0, 0)])
    else
      State(map id | id in s.rows :: RowNext(s.rows[id], id, step),
            map id | id in s.rows && id in s.tallies :: TallyNext(s.tallies[id], s.rows[id], id, step))
  }

  /** The steps of a run are the transactions of the class. */
  lemma StepsAreTransactions(s: State, step: Step)
    requires Enabled(s, step)
    ensures match step
            case Queue(id, d) =>
              Next(s, step).rows == if KeyTaken(s.rows, d.key) then s.rows else s.rows[id := d]
            case Claim(now, _, pick) =>
              var swept := SweptAll(s.rows, now);
              Next(s, step).rows
              == if pick.Some? then swept[pick.value := Claimed(swept[pick.value], now)] else swept
            case Look(id, tokenGood, decrypts) =>
              Next(s, step).rows == With(s.rows, id, d => Looked(d, tokenGood, decrypts))
            case Disable(id) => Next(s, step).rows == With(s.rows, id, Unconfigured)
            case Accept(id) => Next(s, step).rows == With(s.rows, id, Delivered)
            case Fail(id, now) => Next(s, step).rows == With(s.rows, id, d => Unsent(d, now))
            case Purge(now) => Next(s, step).rows == ErasedAll(s.rows, now)
  {
    hide Looked, Unconfigured, Delivered, Unsent, Erased, Swept, Claimed;
  }

  /** The query has one answer. */
  lemma PickIsUnique(rows: Rows, now: real, locked: set<nat>, a: Option<nat>, b: Option<nat>)
    requires IsPick(rows, now, locked, a) && IsPick(rows, now, locked, b)
    ensures a == b
  {
    hide Due;
  }

  /** Any transaction, run on the table, is the step of that name. */
  method Perform(table: OutboxTable, step: Step, ghost tallies: map<nat, Tally>)
    requires Enabled(State(table.rows, tallies), step)
    modifies table
    ensures table.rows == Next(State(old(table.rows), tallies), step).rows
  {
    hide Looked, Unconfigured, Delivered, Unsent, Erased, Swept, Claimed, RowNext, IsPick, IsNew, KeyTaken;
    ghost var before := table.rows;
    StepsAreTransactions(State(before, tallies), step);
    hide Next;
    match step {
      case Queue(id, d) => var _ := table.QueueNotification(id, d);
      case Claim(now, locked, pick) =>
        var picked := table.ClaimDelivery(now, locked);
        PickIsUnique(SweptAll(before, now), now, locked, pick, picked);
      case Look(id, tokenGood, decrypts) => var _ := table.BeginSend(id, tokenGood, decrypts);
      case Disable(id) => table.DisableDelivery(id);
      case Accept(id) => table.AcceptDelivery(id);
      case Fail(id, now) => table.RecordFailure(id, now);
      case Purge(now) => var _ := table.PurgeOldContent(now);
    }
  }

  lemma RowStepKeepsInv(d: Delivery, t: Tally, id: nat, step: Step)
    requires RowInv(d, t)
    requires step.Claim? && step.pick == Some(id) ==> Due(Swept(d, step.now), step.now)
    ensures RowInv(RowNext(d, id, step), TallyNext(t, d, id, step)) && RowNext(d, id, step).key == d.key
  {
  }

  lemma QueueKeepsInv(s: State, step: Step)
    requires Inv(s) && Enabled(s, step) && step.Queue?
    ensures Inv(Next(s, step))
  {
  }

  lemma StepKeepsInv(s: State, step: Step)
    requires Inv(s) && Enabled(s, step)
    ensures Inv(Next(s, step))
  {
    if step.Queue? {
      QueueKeepsInv(s, step);
    } else {
      hide RowInv, RowNext, TallyNext, IsNext, KeyTaken, IsNew;
      forall id | id in s.rows
        ensures RowInv(RowNext(s.rows[id], id, step), TallyNext(s.tallies[id], s.rows[id], id, step))
        ensures RowNext(s.rows[id], id, step).key == s.rows[id].key
      {
        RowStepKeepsInv(s.rows[id], s.tallies[id], id, step);
      }
    }
  }

  /** The states a run goes through. */
  ghost predicate IsRun(states: seq<State>, steps: seq<Step>) {
    && |states| == |steps| + 1
    && forall i :: 0 <= i < |steps| ==> Enabled(states[i], steps[i]) && Next(states[i], steps[i]) == states[i + 1]
  }

  lemma {:induction false} ReachableInv(states: seq<State>, steps: seq<Step>, n: nat)
    requires IsRun(states, steps) && states[0] == State(map[], map[]) && n < |states|
    ensures Inv(states[n])
  {
    if n > 0 {
      ReachableInv(states, steps, n - 1);
      StepKeepsInv(states[n - 1], steps[n - 1]);
    }
  }

  // ---- What it means ----

  /** On every run a message goes back to the queue after a failure at most three times, and is tried at most
      four times more than its claims lapsed. */
  lemma AttemptsAreBounded(states: seq<State>, steps: seq<Step>, n: nat, id: nat)
    requires IsRun(states, steps) && states[0] == State(map[], map[]) && n < |states| && id in states[n].rows
    ensures id in states[n].tallies && states[n].tallies[id].requeues <= 3
    ensures states[n].rows[id].attempts <= 4 + states[n].tallies[id].lapses
  {
    ReachableInv(states, steps, n);
    assert RowInv(states[n].rows[id], states[n].tallies[id]);
  }

  /** A claim at that time finds the message pending, or gets it back, and it is to go out. */
  predicate Waits(d: Delivery, now: real) {
    && (d.status.Pending? || (d.status.Sending? && d.claimUntil.Some? && d.claimUntil.value < now))
    && d.scheduled <= now && (d.expires.Some? ==> now < d.expires.value)
  }

  lemma PickIsDue(rows: Rows, now: real, locked: set<nat>, id: nat)
    requires IsPick(rows, now, locked, Some(id))
    ensures id in rows && Due(rows[id], now)
  {
  }

  lemma FinishedStays(s: State, step: Step, id: nat)
    requires Enabled(s, step) && id in s.rows && Finished(s.rows[id].status)
    ensures id in Next(s, step).rows
    ensures Next(s, step).rows[id].status == s.rows[id].status && Next(s, step).rows[id].attempts == s.rows[id].attempts
  {
    hide IsNext;
    if step.Claim? && step.pick == Some(id) {
      assert IsPick(SweptAll(s.rows, step.now), step.now, step.locked, step.pick);
      PickIsDue(SweptAll(s.rows, step.now), step.now, step.locked, id);
      assert false;
    }
  }

  /** A finished message stays as it finished, whatever stale workers still do. */
  lemma {:induction false} FinishedIsForGood(states: seq<State>, steps: seq<Step>, m: nat, n: nat, id: nat)
    requires IsRun(states, steps) && m <= n < |states|
    requires id in states[m].rows && Finished(states[m].rows[id].status)
    ensures id in states[n].rows && states[n].rows[id].status == states[m].rows[id].status
    ensures states[n].rows[id].attempts == states[m].rows[id].attempts
  {
    if m < n {
      FinishedIsForGood(states, steps, m, n - 1, id);
      FinishedStays(states[n - 1], steps[n - 1], id);
    }
  }

  /** A claim takes, of the messages nobody has locked that are pending by now, scheduled by now and not
      expired, one scheduled first, the lowest id among those; it has two minutes for one more attempt. */
  lemma ClaimMeaning(s: State, claim: Step)
    requires Enabled(s, claim) && claim.Claim?
    ensures forall id :: id in s.rows && id !in claim.locked && Waits(s.rows[id], claim.now) ==>
              claim.pick.Some? && claim.pick.value in s.rows
              && (s.rows[claim.pick.value].scheduled < s.rows[id].scheduled
                  || (s.rows[claim.pick.value].scheduled == s.rows[id].scheduled && claim.pick.value <= id))
    ensures claim.pick.Some? ==>
              var id := claim.pick.value;
              && id in s.rows && id !in claim.locked && Waits(s.rows[id], claim.now)
              && Next(s, claim).rows[id] == s.rows[id].(status := Sending, attempts := s.rows[id].attempts + 1,
                                                        claimUntil := Some(claim.now + 120.0))
  {
  }

  /** What the first look, a missing mail server, a success and a failure make of a message being sent; they
      leave every other message, finished or pending, alone. */
  lemma WorkMeaning(s: State, id: nat, step: Step)
    requires Inv(s) && id in s.rows && (step.Look? || step.Disable? || step.Accept? || step.Fail?) && step.id == id
    ensures var d, e := s.rows[id], Next(s, step).rows[id];
            if !d.status.Sending? then e == d
            else match step
            case Look(_, tokenGood, decrypts) =>
              e == if d.hasToken && !tokenGood then d.(status := Suppressed, claimUntil := None)
                   else if !decrypts then d.(status := Failed, claimUntil := None) else d
            case Disable(_) => e == d.(status := Disabled)
            case Accept(_) => e == d.(status := Accepted, claimUntil := None)
            case Fail(_, now) =>
              && e.claimUntil.None?
              && e == d.(status := e.status, claimUntil := None, scheduled := e.scheduled)
    ensures forall other :: other in s.rows && other != id ==> Next(s, step).rows[other] == s.rows[other]
  {
    assert RowInv(s.rows[id], s.tallies[id]);
  }

  /** A purge erases the content of exactly the messages that finished and are over thirty days old. */
  lemma PurgeMeaning(s: State, now: real, id: nat)
    requires id in s.rows
    ensures var d := s.rows[id];
            Next(s, Purge(now)).rows[id]
            == if !d.status.Pending? && !d.status.Sending? && now - d.created > 2592000.0
               then d.(hasContent := false) else d
  {
  }

  /** A message that went out is accepted and never goes out again: no later step of any run claims it. */
  lemma AcceptedIsNotSentAgain(states: seq<State>, steps: seq<Step>, m: nat, n: nat, id: nat)
    requires IsRun(states, steps) && m < n < |steps| && steps[m] == Accept(id)
    requires id in states[m].rows && states[m].rows[id].status.Sending?
    ensures id in states[n].rows && states[n].rows[id].status.Accepted?
    ensures steps[n].Claim? ==> steps[n].pick != Some(id)
  {
    assert states[m + 1] == Next(states[m], steps[m]);
    FinishedIsForGood(states, steps, m + 1, n, id);
    if steps[n].Claim? && steps[n].pick == Some(id) {
      PickIsDue(SweptAll(states[n].rows, steps[n].now), steps[n].now, steps[n].locked, id);
      assert false;
    }
  }

  /** A lapsed claim gives the message back: after a sweep it is pending, unless it expired meanwhile. */
  lemma LapsedIsGivenBack(s: State, claim: Step, id: nat)
    requires Enabled(s, claim) && claim.Claim? && claim.pick != Some(id) && id in s.rows
    requires s.rows[id].status.Sending? && s.rows[id].claimUntil.Some?
    ensures var d, e := s.rows[id], Next(s, claim).rows[id];
            && (d.claimUntil.value >= claim.now ==> e == d)
            && (d.claimUntil.value < claim.now ==>
                  && e.claimUntil.None? && e.attempts == d.attempts && e.scheduled == d.scheduled
                  && (if d.expires.Some? && d.expires.value <= claim.now then e.status.Expired?
                      else e.status.Pending?))
  {
  }

  lemma OnlyClaimsCount(d: Delivery, id: nat, step: Step)
    ensures RowNext(d, id, step).attempts > d.attempts ==> step.Claim? && step.pick == Some(id)
  {
  }

  /** A message is tried only through a claim, at its scheduled time or later, before it expires, and when no due
      message that nobody has locked was scheduled before it. */
  lemma ClaimedInTime(s: State, step: Step, id: nat)
    requires Enabled(s, step) && id in s.rows && Next(s, step).rows[id].attempts > s.rows[id].attempts
    ensures step.Claim? && step.pick == Some(id) && IsNext(SweptAll(s.rows, step.now), step.now, step.locked, id)
    ensures s.rows[id].scheduled <= step.now && (s.rows[id].expires.Some? ==> step.now < s.rows[id].expires.value)
    ensures s.rows[id].status.Pending? || Lapsed(s.rows[id], step.now)
  {
    hide IsNext, RowNext;
    OnlyClaimsCount(s.rows[id], id, step);
    PickIsDue(SweptAll(s.rows, step.now), step.now, step.locked, id);
  }

  /** A retry waits 15, 30 or 60 seconds by the number of the attempt: the cap of 300 is never reached. */
  lemma RetryDelays(s: State, id: nat, now: real)
    requires Inv(s) && id in s.rows && s.rows[id].status.Sending?
    ensures var d, e := s.rows[id], Next(s, Fail(id, now)).rows[id];
            && (e.status.Pending? <==> d.attempts <= 3)
            && (e.status.Failed? <==> d.attempts >= 4)
            && (e.status.Pending? ==>
                  e.scheduled - now == match d.attempts case 1 => 15.0 case 2 => 30.0 case _ => 60.0)
            && (e.status.Pending? ==> 15 * Pow2(d.attempts - 1) < 300)
  {
    assert RowInv(s.rows[id], s.tallies[id]);
    assert Pow2(0) == 1 && Pow2(1) == 2 && Pow2(2) == 4;
  }

  /** The purge never touches a message that still has to go out, so a worker never finds one erased. */
  lemma ContentIsThere(s: State, id: nat, tokenGood: bool, decrypts: bool)
    requires Inv(s) && id in s.rows && s.rows[id].status.Sending?
    ensures Looked(s.rows[id], tokenGood, decrypts).status.Failed? <==> !decrypts && (s.rows[id].hasToken ==> tokenGood)
  {
    assert RowInv(s.rows[id], s.tallies[id]);
  }

  /** Two messages never share an idempotency key: queueing one twice leaves one row. */
  lemma QueuedOnce(s: State, id: nat, again: nat, d: Delivery)
    requires Inv(s) && Enabled(s, Queue(id, d)) && d.key.Some? && again != id && again !in s.rows
    ensures var once := Next(s, Queue(id, d)); Inv(once) && Next(once, Queue(again, d)) == once
  {
    StepKeepsInv(s, Queue(id, d));
    var once := Next(s, Queue(id, d));
    if !KeyTaken(s.rows, d.key) { assert once.rows[id].key == d.key; }
  }
}
