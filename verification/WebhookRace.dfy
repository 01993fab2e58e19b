/** create_webhook pruning duplicates (portal/routers/webhooks.py) statement by statement, while any number of
    events are queued (portal/webhooks/worker.py). An event reads the subscriptions, inserts its deliveries in
    one flush and commits, in a transaction of its own and without the account's lock. */
module WebhookRace {
  import opened Wrappers
  import opened Webhooks

  /** The update that runs: its request, the store it found, the row it keeps and the rows it prunes, in order. */
  datatype Update = Update(r: Request, before: Store, first: nat, dups: seq<nat>)

  /** One event. `at` is how many statements of the update had run at its flush or its commit. */
  datatype Event =
    | Selected(targets: map<nat, nat>)         // subscriptions read
    | Flushed(targets: map<nat, nat>)          // inserted, seen by nobody else yet
    | Queued(targets: map<nat, nat>, at: nat)  // committed
    | Lost(targets: map<nat, nat>, at: nat)    // the foreign key failed the flush

  /** A committed delivery: what it was queued for and how many statements had run by then (history). */
  datatype Birth = Birth(sub: nat, at: nat)

  /** `store` has what the first `done` statements of the update and the committed events made of it. */
  datatype Race = Race(store: Store, done: nat, committed: bool, events: map<nat, Event>, born: map<nat, Birth>)

  datatype Step =
    | Statement
    | Commit
    | Select(event: nat, targets: map<nat, nat>)
    | Flush(event: nat)
    | CommitEvent(event: nat)

  predicate Ascending(ids: seq<nat>) {
    forall i, j :: 0 <= i < j < |ids| ==> ids[i] < ids[j]
  }

  /** The update of `r` on `before`: the lowest row of the URL is kept, the others go in the order of their ids. */
  ghost predicate IsUpdate(u: Update) {
    var same := ForUrl(u.before.subs, u.r.account, u.r.url);
    && IsLowest(same, u.first) && Ascending(u.dups) && NoneDangling(u.before)
    && forall id :: id in u.dups <==> id in same && id != u.first
  }

  function Start(u: Update): Race {
    Race(u.before, 0, false, map[], map d | d in u.before.deliveries :: Birth(u.before.deliveries[d], 0))
  }

  function Ids(ids: seq<nat>): set<nat> { set id | id in ids }

  /** The rows that are left after n statements: the even ones re-point, the odd ones delete. */
  function RowsAfter(u: Update, n: nat): set<nat>
    requires n <= 2 * |u.dups|
  {
    u.before.subs.Keys - Ids(u.dups[..n / 2])
  }

  /** The event's uncommitted deliveries hold its subscriptions' rows. */
  predicate Holds(e: Event, id: nat) { e.Flushed? && id in e.targets.Values }

  ghost predicate Enabled(u: Update, c: Race, step: Step) {
    match step
    case Statement =>
      && c.done < 2 * |u.dups|
      && (c.done % 2 == 1 ==> forall e :: e in c.events ==> !Holds(c.events[e], u.dups[c.done / 2]))
    case Commit => c.done == 2 * |u.dups| && !c.committed
    case Select(e, targets) =>
      && e !in c.events && targets.Keys !! c.born.Keys
      && (forall other :: other in c.events ==> targets.Keys !! c.events[other].targets.Keys)
      // What the update deleted is still read until it commits.
      && targets.Values <= if c.committed then c.store.subs.Keys else u.before.subs.Keys
    case Flush(e) =>
      // An insert for a row whose deletion is not committed waits.
      e in c.events && c.events[e].Selected? && (c.events[e].targets.Values <= c.store.subs.Keys || c.committed)
    case CommitEvent(e) => e in c.events && c.events[e].Flushed?
  }

  function DoStatement(u: Update, c: Race): Race
    requires c.done < 2 * |u.dups|
  {
    var dup := u.dups[c.done / 2];
    if c.done % 2 == 0
    then c.(store := c.store.(deliveries := Repointed(c.store.deliveries, {dup}, u.first)), done := c.done + 1)
    else c.(store := Deleted(c.store, dup), done := c.done + 1)
  }

  function DoFlush(c: Race, e: nat): Race
    requires e in c.events
  {
    var targets := c.events[e].targets;
    c.(events := c.events[e := if targets.Values <= c.store.subs.Keys then Flushed(targets) else Lost(targets, c.done)])
  }

  function DoCommitEvent(c: Race, e: nat): Race
    requires e in c.events
  {
    var targets := c.events[e].targets;
    c.(store := c.store.(deliveries := c.store.deliveries + targets),
       events := c.events[e := Queued(targets, c.done)],
       born := c.born + map d | d in targets :: Birth(targets[d], c.done))
  }

  function DoCommit(u: Update, c: Race): Race
    requires u.first in u.before.subs
  {
    c.(store := c.store.(subs := c.store.subs[u.first := Refreshed(u.before.subs[u.first], u.r)]), committed := true)
  }

  ghost function Next(u: Update, c: Race, step: Step): Race
    requires IsUpdate(u) && Enabled(u, c, step)
  {
    match step
    case Statement => DoStatement(u, c)
    case Commit => DoCommit(u, c)
    case Select(e, targets) => c.(events := c.events[e := Selected(targets)])
    case Flush(e) => DoFlush(c, e)
    case CommitEvent(e) => DoCommitEvent(c, e)
  }

  ghost predicate Run(u: Update, c: Race, steps: seq<Step>, end: Race)
    requires IsUpdate(u)
    decreases |steps|
  {
    if steps == [] then c == end else Enabled(u, c, steps[0]) && Run(u, Next(u, c, steps[0]), steps[1..], end)
  }

  // ---- What becomes of a delivery ----

  /** The row's place among the pruned ones; their number if it is not one of them. */
  function Place(dups: seq<nat>, id: nat): (i: nat)
    ensures i <= |dups| && (i < |dups| ==> dups[i] == id) && (i == |dups| ==> id !in dups)
  {
    if dups == [] then 0 else if dups[0] == id then 0 else 1 + Place(dups[1..], id)
  }

  /** Where a delivery queued for `b.sub` after b.at statements points after n: to the row it was queued for
      until that row's statements run; then to the survivor if it was there to be re-pointed, and else nowhere. */
  function Fate(u: Update, b: Birth, n: nat): Option<nat> {
    var i := Place(u.dups, b.sub);
    if n <= 2 * i || (n == 2 * i + 1 && b.at == 2 * i + 1) then Some(b.sub)
    else if b.at <= 2 * i then Some(u.first)
    else None
  }

  function Target(deliveries: map<nat, nat>, d: nat): Option<nat> {
    if d in deliveries then Some(deliveries[d]) else None
  }

  ghost predicate Fated(u: Update, c: Race) {
    && c.store.deliveries.Keys <= c.born.Keys
    && forall d :: d in c.born ==> Target(c.store.deliveries, d) == Fate(u, c.born[d], c.done)
  }

  /** Every committed delivery was queued for a row that was there. */
  ghost predicate BornThere(u: Update, c: Race)
    requires c.done <= 2 * |u.dups|
  {
    forall d :: d in c.born ==> c.born[d].at <= c.done && c.born[d].sub in RowsAfter(u, c.born[d].at)
  }

  ghost predicate EventInv(u: Update, c: Race, e: nat)
    requires c.done <= 2 * |u.dups| && e in c.events
  {
    match c.events[e]
    case Selected(targets) => targets.Values <= u.before.subs.Keys && targets.Keys !! c.born.Keys
    case Flushed(targets) => targets.Values <= RowsAfter(u, c.done) && targets.Keys !! c.born.Keys
    case Queued(targets, at) => forall d :: d in targets ==> d in c.born && c.born[d] == Birth(targets[d], at)
    case Lost(targets, at) =>
      && at <= c.done && targets.Keys !! c.born.Keys && targets.Values <= u.before.subs.Keys
      && !(targets.Values <= RowsAfter(u, at))
  }

  ghost predicate Apart(c: Race) {
    forall e, f :: e in c.events && f in c.events && e != f ==> c.events[e].targets.Keys !! c.events[f].targets.Keys
  }

  ghost predicate Inv(u: Update, c: Race) {
    && c.done <= 2 * |u.dups| && (c.committed ==> c.done == 2 * |u.dups|)
    && c.store.subs.Keys == RowsAfter(u, c.done)
    && Fated(u, c) && BornThere(u, c) && Apart(c)
    && forall e :: e in c.events ==> EventInv(u, c, e)
  }

  // ---- Steps keep it ----

  lemma {:induction false} PlaceOf(dups: seq<nat>, i: nat)
    requires Ascending(dups) && i < |dups|
    ensures Place(dups, dups[i]) == i
  {
    if i > 0 {
      assert dups[0] < dups[i];
      PlaceOf(dups[1..], i - 1);
    }
  }

  lemma PlaceIsElsewhere(u: Update, id: nat, k: nat)
    requires IsUpdate(u) && k < |u.dups|
    ensures id == u.dups[k] <==> Place(u.dups, id) == k
    ensures u.first != u.dups[k]
  {
    PlaceOf(u.dups, k);
    assert u.dups[k] in u.dups;
  }

  /** A row is gone after n statements exactly if it is pruned and both its statements are among them. */
  lemma GoneExactly(u: Update, id: nat, n: nat)
    requires IsUpdate(u) && id in u.before.subs && n <= 2 * |u.dups|
    ensures id !in RowsAfter(u, n) <==> id in u.dups && n >= 2 * Place(u.dups, id) + 2
  {
    var i := Place(u.dups, id);
    if id in u.dups {
      if i < n / 2 { assert u.dups[..n / 2][i] == id; }
      forall j | 0 <= j < n / 2 ensures u.dups[j] == id ==> j == i { PlaceOf(u.dups, j); }
    }
  }

  lemma FateStep(u: Update, b: Birth, n: nat)
    requires IsUpdate(u) && n < 2 * |u.dups| && b.at <= n
    ensures var dup := u.dups[n / 2];
            Fate(u, b, n + 1) == if Fate(u, b, n) != Some(dup) then Fate(u, b, n)
                                 else if n % 2 == 0 then Some(u.first) else None
  {
    hide IsUpdate, Place;
    PlaceIsElsewhere(u, b.sub, n / 2);
  }

  lemma StatementKeepsFated(u: Update, c: Race)
    requires IsUpdate(u) && c.done < 2 * |u.dups| && Fated(u, c) && BornThere(u, c)
    ensures Fated(u, DoStatement(u, c))
  {
    hide Fate, IsUpdate, RowsAfter;
    var after := DoStatement(u, c);
    forall d | d in c.born ensures Target(after.store.deliveries, d) == Fate(u, c.born[d], c.done + 1) {
      FateStep(u, c.born[d], c.done);
    }
  }

  lemma StatementRows(u: Update, c: Race)
    requires IsUpdate(u) && c.done < 2 * |u.dups| && c.store.subs.Keys == RowsAfter(u, c.done)
    ensures DoStatement(u, c).store.subs.Keys == RowsAfter(u, c.done + 1)
    ensures RowsAfter(u, c.done + 1) == RowsAfter(u, c.done) - if c.done % 2 == 1 then {u.dups[c.done / 2]} else {}
  {
    var k := c.done / 2;
    if c.done % 2 == 1 {
      assert u.dups[..k + 1] == u.dups[..k] + [u.dups[k]];
      assert Ids(u.dups[..k + 1]) == Ids(u.dups[..k]) + {u.dups[k]};
    }
  }

  lemma StatementKeepsInv(u: Update, c: Race)
    requires IsUpdate(u) && Inv(u, c) && Enabled(u, c, Statement)
    ensures Inv(u, DoStatement(u, c))
  {
    StatementKeepsFated(u, c);
    StatementRows(u, c);
    hide IsUpdate, Fated, RowsAfter;
    var after := DoStatement(u, c);
    forall e | e in after.events ensures EventInv(u, after, e) {
      assert EventInv(u, c, e);
      if c.events[e].Flushed? && c.done % 2 == 1 { assert !Holds(c.events[e], u.dups[c.done / 2]); }
    }
  }

  lemma CommitKeepsInv(u: Update, c: Race)
    requires IsUpdate(u) && Inv(u, c) && Enabled(u, c, Commit)
    ensures Inv(u, DoCommit(u, c))
  {
    GoneExactly(u, u.first, c.done);
    hide IsUpdate, RowsAfter, Fate;
    var after := DoCommit(u, c);
    assert after.store.subs.Keys == c.store.subs.Keys;
    forall e | e in after.events ensures EventInv(u, after, e) { assert EventInv(u, c, e); }
  }

  lemma StaysApart(c: Race, after: Race)
    requires Apart(c) && after.events.Keys == c.events.Keys
    requires forall f :: f in c.events ==> after.events[f].targets == c.events[f].targets
    ensures Apart(after)
  {
  }

  lemma OtherEventStays(u: Update, c: Race, after: Race, f: nat)
    requires c.done <= 2 * |u.dups| && f in c.events && EventInv(u, c, f)
    requires after.born == c.born && after.done == c.done && f in after.events && after.events[f] == c.events[f]
    ensures EventInv(u, after, f)
  {
    hide RowsAfter;
  }

  lemma FlushedEvent(u: Update, c: Race, e: nat)
    requires c.done <= 2 * |u.dups| && c.store.subs.Keys == RowsAfter(u, c.done)
    requires e in c.events && c.events[e].Selected? && EventInv(u, c, e)
    ensures EventInv(u, DoFlush(c, e), e)
  {
    hide RowsAfter;
  }

  lemma SelectKeepsInv(u: Update, c: Race, e: nat, targets: map<nat, nat>)
    requires IsUpdate(u) && Inv(u, c) && Enabled(u, c, Select(e, targets))
    ensures Inv(u, Next(u, c, Select(e, targets)))
  {
    var after := Next(u, c, Select(e, targets));
    assert RowsAfter(u, c.done) <= u.before.subs.Keys;
    hide IsUpdate, RowsAfter, Fate;
    assert EventInv(u, after, e);
    hide EventInv;
    forall f | f in after.events ensures EventInv(u, after, f) { if f != e { OtherEventStays(u, c, after, f); } }
  }

  lemma FlushKeepsInv(u: Update, c: Race, e: nat)
    requires IsUpdate(u) && Inv(u, c) && Enabled(u, c, Flush(e))
    ensures Inv(u, DoFlush(c, e))
  {
    hide IsUpdate, RowsAfter, Fate, EventInv, Apart;
    var after := DoFlush(c, e);
    StaysApart(c, after);
    FlushedEvent(u, c, e);
    forall f | f in after.events ensures EventInv(u, after, f) { if f != e { OtherEventStays(u, c, after, f); } }
  }

  lemma NewIsFated(u: Update, c: Race, sub: nat)
    requires IsUpdate(u) && c.done <= 2 * |u.dups| && sub in RowsAfter(u, c.done)
    ensures Fate(u, Birth(sub, c.done), c.done) == Some(sub)
  {
    GoneExactly(u, sub, c.done);
  }

  lemma CommitEventKeepsFated(u: Update, c: Race, e: nat)
    requires IsUpdate(u) && Inv(u, c) && Enabled(u, c, CommitEvent(e))
    ensures Fated(u, DoCommitEvent(c, e)) && BornThere(u, DoCommitEvent(c, e))
  {
    assert EventInv(u, c, e);
    var after, targets := DoCommitEvent(c, e), c.events[e].targets;
    forall d | d in targets
      ensures targets[d] in RowsAfter(u, c.done) && Fate(u, Birth(targets[d], c.done), c.done) == Some(targets[d])
    {
      assert targets[d] in targets.Values;
      NewIsFated(u, c, targets[d]);
    }
    hide IsUpdate, RowsAfter, Fate, EventInv, Apart;
    forall d | d in after.born
      ensures Target(after.store.deliveries, d) == Fate(u, after.born[d], c.done)
      ensures after.born[d].at <= c.done && after.born[d].sub in RowsAfter(u, after.born[d].at)
    {
      if d in targets {
        assert after.born[d] == Birth(targets[d], c.done);
      } else {
        assert after.born[d] == c.born[d];
      }
    }
  }

  lemma CommitEventKeepsOthers(u: Update, c: Race, e: nat, f: nat)
    requires IsUpdate(u) && Inv(u, c) && Enabled(u, c, CommitEvent(e)) && f in c.events
    ensures EventInv(u, DoCommitEvent(c, e), f)
  {
    hide IsUpdate, RowsAfter, Fate, Fated, BornThere;
    var targets := c.events[e].targets;
    assert EventInv(u, c, f) && EventInv(u, c, e);
    var born := map d | d in targets :: Birth(targets[d], c.done);
    assert born.Keys == targets.Keys;
    if f != e { assert c.events[f].targets.Keys !! targets.Keys; }
  }

  lemma CommitEventFrame(c: Race, e: nat)
    requires e in c.events
    ensures var after := DoCommitEvent(c, e);
            && after.done == c.done && after.committed == c.committed && after.store.subs == c.store.subs
            && after.events.Keys == c.events.Keys
            && forall f :: f in c.events ==> after.events[f].targets == c.events[f].targets
  {
  }

  lemma CommitEventKeepsInv(u: Update, c: Race, e: nat)
    requires IsUpdate(u) && Inv(u, c) && Enabled(u, c, CommitEvent(e))
    ensures Inv(u, DoCommitEvent(c, e))
  {
    CommitEventKeepsFated(u, c, e);
    CommitEventFrame(c, e);
    hide IsUpdate, RowsAfter, Fate, Fated, BornThere, EventInv, Apart, DoCommitEvent;
    var after := DoCommitEvent(c, e);
    StaysApart(c, after);
    forall f | f in after.events ensures EventInv(u, after, f) { CommitEventKeepsOthers(u, c, e, f); }
  }

  lemma StepKeepsInv(u: Update, c: Race, step: Step)
    requires IsUpdate(u) && Inv(u, c) && Enabled(u, c, step)
    ensures Inv(u, Next(u, c, step))
  {
    hide IsUpdate, Inv, DoStatement, DoCommit, DoFlush, DoCommitEvent;
    match step
    case Statement => StatementKeepsInv(u, c);
    case Commit => CommitKeepsInv(u, c);
    case Select(e, targets) => SelectKeepsInv(u, c, e, targets);
    case Flush(e) => FlushKeepsInv(u, c, e);
    case CommitEvent(e) => CommitEventKeepsInv(u, c, e);
  }

  lemma StartInv(u: Update)
    requires IsUpdate(u)
    ensures Inv(u, Start(u))
  {
    assert u.dups[..0] == [];
    forall d | d in u.before.deliveries
      ensures Fate(u, Birth(u.before.deliveries[d], 0), 0) == Some(u.before.deliveries[d])
    {
      NewIsFated(u, Start(u), u.before.deliveries[d]);
    }
  }

  lemma {:induction false} ReachableInv(u: Update, c: Race, steps: seq<Step>, end: Race)
    requires IsUpdate(u) && Inv(u, c) && Run(u, c, steps, end)
    ensures Inv(u, end)
    decreases |steps|
  {
    if steps != [] {
      hide IsUpdate, Inv, Enabled, Next;
      StepKeepsInv(u, c, steps[0]);
      ReachableInv(u, Next(u, c, steps[0]), steps[1..], end);
    }
  }

  // ---- What is lost ----

  predicate Ended(e: Event) { e.Queued? || e.Lost? }

  /** A subscription the event names was deleted before the event's flush. */
  ghost predicate NamesDeleted(u: Update, e: Event)
    requires Ended(e)
  {
    exists id :: id in e.targets.Values && id in u.dups && e.at >= 2 * Place(u.dups, id) + 2
  }

  lemma LostEvent(u: Update, c: Race, e: nat)
    requires IsUpdate(u) && Inv(u, c) && e in c.events && Ended(c.events[e])
    ensures c.events[e].Lost? <==> NamesDeleted(u, c.events[e])
    ensures forall d :: d in c.events[e].targets ==> (d in c.born <==> c.events[e].Queued?)
  {
    assert EventInv(u, c, e);
    var event := c.events[e];
    if event.Lost? {
      var id :| id in event.targets.Values && id !in RowsAfter(u, event.at);
      GoneExactly(u, id, event.at);
      assert NamesDeleted(u, event);
    } else {
      forall id | id in event.targets.Values ensures !(id in u.dups && event.at >= 2 * Place(u.dups, id) + 2) {
        var d :| d in event.targets && event.targets[d] == id;
        assert c.born[d] == Birth(id, event.at);
        GoneExactly(u, id, event.at);
      }
    }
  }

  lemma FateAtEnd(u: Update, c: Race, d: nat)
    requires IsUpdate(u) && Inv(u, c) && c.committed && d in c.born
    ensures var b := c.born[d];
            && (d !in c.store.deliveries <==> b.sub in u.dups && b.at == 2 * Place(u.dups, b.sub) + 1)
            && (d in c.store.deliveries ==> c.store.deliveries[d] == if b.sub in u.dups then u.first else b.sub)
  {
    hide IsUpdate;
    assert Target(c.store.deliveries, d) == Fate(u, c.born[d], c.done);
    GoneExactly(u, c.born[d].sub, c.born[d].at);
  }

  /** On every interleaving, of an event that was read at any time and flushed at any later one: a delivery is
      lost if and only if some subscription of its event was deleted before the flush, or its own was
      re-pointed, and not yet deleted, when the event committed. The first loses the whole event, whoever
      its deliveries are for. Every delivery that is kept goes out for the survivor or where it was queued. */
  lemma DeliveryIsLostExactly(u: Update, steps: seq<Step>, end: Race, e: nat, d: nat)
    requires IsUpdate(u) && Run(u, Start(u), steps, end) && end.committed
    requires e in end.events && Ended(end.events[e]) && d in end.events[e].targets
    ensures var event, sub := end.events[e], end.events[e].targets[d];
            && (d !in end.store.deliveries <==>
                  NamesDeleted(u, event) || (sub in u.dups && event.at == 2 * Place(u.dups, sub) + 1))
            && (d in end.store.deliveries ==> end.store.deliveries[d] == if sub in u.dups then u.first else sub)
  {
    StartInv(u);
    ReachableInv(u, Start(u), steps, end);
    hide IsUpdate, Run, NamesDeleted;
    LostEvent(u, end, e);
    assert EventInv(u, end, e);
    hide RowsAfter, Fate, Apart, BornThere;
    if end.events[e].Queued? { FateAtEnd(u, end, d); }
  }

  lemma OldStays(u: Update, c: Race, step: Step, d: nat)
    requires IsUpdate(u) && Inv(u, c) && Enabled(u, c, step) && d in c.born
    ensures d in Next(u, c, step).born && Next(u, c, step).born[d] == c.born[d]
  {
    hide IsUpdate, RowsAfter, Fated, BornThere;
    if step.CommitEvent? { assert EventInv(u, c, step.event); }
  }

  lemma {:induction false} OldOnesStay(u: Update, c: Race, steps: seq<Step>, end: Race, d: nat)
    requires IsUpdate(u) && Inv(u, c) && Run(u, c, steps, end) && d in c.born
    ensures d in end.born && end.born[d] == c.born[d]
    decreases |steps|
  {
    if steps != [] {
      OldStays(u, c, steps[0], d);
      StepKeepsInv(u, c, steps[0]);
      hide IsUpdate, Inv, Enabled, Next;
      OldOnesStay(u, Next(u, c, steps[0]), steps[1..], end, d);
    }
  }

  /** No event that runs meanwhile disturbs the update: the deliveries it found are where DoUpdate puts them. */
  lemma OldDeliveriesAreKept(u: Update, steps: seq<Step>, end: Race, d: nat)
    requires IsUpdate(u) && Run(u, Start(u), steps, end) && end.committed && d in u.before.deliveries
    ensures d in end.store.deliveries && d in DoUpdate(u.before, u.r).deliveries
    ensures end.store.deliveries[d] == DoUpdate(u.before, u.r).deliveries[d]
  {
    StartInv(u);
    ReachableInv(u, Start(u), steps, end);
    OldOnesStay(u, Start(u), steps, end, d);
    FateAtEnd(u, end, d);
    hide Inv, Run;
    var same := ForUrl(u.before.subs, u.r.account, u.r.url);
    assert Lowest(same) == u.first;
  }

  function SubsAfter(u: Update, n: nat, committed: bool): map<nat, Subscription>
    requires n <= 2 * |u.dups| && u.first in u.before.subs
  {
    var left := u.before.subs - Ids(u.dups[..n / 2]);
    if committed then left[u.first := Refreshed(u.before.subs[u.first], u.r)] else left
  }

  lemma SubsStep(u: Update, c: Race, step: Step)
    requires IsUpdate(u) && Enabled(u, c, step) && c.done <= 2 * |u.dups| && (c.committed ==> c.done == 2 * |u.dups|)
    requires c.store.subs == SubsAfter(u, c.done, c.committed)
    ensures Next(u, c, step).store.subs == SubsAfter(u, Next(u, c, step).done, Next(u, c, step).committed)
  {
    var k := c.done / 2;
    if step.Statement? && c.done % 2 == 1 {
      assert u.dups[..k + 1] == u.dups[..k] + [u.dups[k]];
      assert Ids(u.dups[..k + 1]) == Ids(u.dups[..k]) + {u.dups[k]};
      assert u.before.subs - Ids(u.dups[..k + 1]) == (u.before.subs - Ids(u.dups[..k])) - {u.dups[k]};
    }
  }

  lemma {:induction false} SubsOfRun(u: Update, c: Race, steps: seq<Step>, end: Race)
    requires IsUpdate(u) && Inv(u, c) && Run(u, c, steps, end)
    requires c.store.subs == SubsAfter(u, c.done, c.committed)
    ensures Inv(u, end) && end.store.subs == SubsAfter(u, end.done, end.committed)
    decreases |steps|
  {
    if steps != [] {
      assert c.done <= 2 * |u.dups| && (c.committed ==> c.done == 2 * |u.dups|);
      SubsStep(u, c, steps[0]);
      StepKeepsInv(u, c, steps[0]);
      hide IsUpdate, Inv, Enabled, Next, SubsAfter;
      SubsOfRun(u, Next(u, c, steps[0]), steps[1..], end);
    }
  }

  /** The statements leave the subscriptions as the update on values says, whatever is queued meanwhile, and no
      delivery without its subscription. */
  lemma RaceIsUpdate(u: Update, steps: seq<Step>, end: Race)
    requires IsUpdate(u) && Run(u, Start(u), steps, end) && end.committed
    ensures end.store.subs == DoUpdate(u.before, u.r).subs && NoneDangling(end.store)
  {
    StartInv(u);
    assert u.dups[..0] == [];
    assert u.before.subs - Ids([]) == u.before.subs;
    SubsOfRun(u, Start(u), steps, end);
    var same := ForUrl(u.before.subs, u.r.account, u.r.url);
    assert Lowest(same) == u.first && u.dups[..|u.dups|] == u.dups;
    assert Ids(u.dups) == same - {u.first};
    forall d | d in end.store.deliveries ensures end.store.deliveries[d] in end.store.subs {
      FateAtEnd(u, end, d);
      GoneExactly(u, end.born[d].sub, end.born[d].at);
    }
  }

  // ---- Every race can end ----

  lemma {:induction false} InOrder(ids: set<nat>) returns (s: seq<nat>)
    ensures Ascending(s) && forall id :: id in s <==> id in ids
    decreases |ids|
  {
    if ids == {} {
      s := [];
    } else {
      var m := Lowest(ids);
      var rest := InOrder(ids - {m});
      s := [m] + rest;
      forall i, j | 0 <= i < j < |s| ensures s[i] < s[j] { assert rest[j - 1] in rest; }
      assert forall id :: id in s <==> id == m || id in rest;
    }
  }

  /** Every request for a URL with a subscription is the update of a race. */
  lemma UpdateExists(before: Store, r: Request) returns (u: Update)
    requires NoneDangling(before) && ForUrl(before.subs, r.account, r.url) != {}
    ensures IsUpdate(u) && u.before == before && u.r == r
  {
    var same := ForUrl(before.subs, r.account, r.url);
    var dups := InOrder(same - {Lowest(same)});
    u := Update(r, before, Lowest(same), dups);
  }

  function Unflushed(c: Race): set<nat> { set e | e in c.events && c.events[e].Selected? }

  function Open(c: Race): set<nat> { set e | e in c.events && !Ended(c.events[e]) }

  /** The statements left to run and the events left to flush and to commit. */
  function Left(u: Update, c: Race): nat
    requires c.done <= 2 * |u.dups|
  {
    2 * |u.dups| - c.done + (if c.committed then 0 else 1) + |Unflushed(c)| + |Open(c)|
  }

  predicate Over(c: Race) { c.committed && forall e :: e in c.events ==> Ended(c.events[e]) }

  lemma EventMoves(c: Race, after: Race, e: nat)
    requires e in c.events && !Ended(c.events[e]) && after.events.Keys == c.events.Keys
    requires forall f :: f in c.events && f != e ==> after.events[f] == c.events[f]
    requires !after.events[e].Selected? && (c.events[e].Selected? || Ended(after.events[e]))
    ensures |Unflushed(after)| + |Open(after)| < |Unflushed(c)| + |Open(c)|
  {
    assert Unflushed(after) == Unflushed(c) - {e};
    assert Open(after) == if Ended(after.events[e]) then Open(c) - {e} else Open(c);
    assert e in Open(c);
    if e !in Unflushed(c) { assert Unflushed(after) == Unflushed(c); }
  }

  /** The update and the events never wait for each other in a circle: until all have ended one of them can
      take its next step, and that leaves less to do. */
  lemma RaceMoves(u: Update, c: Race) returns (step: Step)
    requires IsUpdate(u) && Inv(u, c) && !Over(c)
    ensures Enabled(u, c, step) && !step.Select? && Inv(u, Next(u, c, step)) && Left(u, Next(u, c, step)) < Left(u, c)
  {
    if e :| e in c.events && c.events[e].Flushed? {
      step := CommitEvent(e);
      EventMoves(c, DoCommitEvent(c, e), e);
    } else if c.committed {
      var e :| e in c.events && !Ended(c.events[e]);
      step := Flush(e);
      EventMoves(c, DoFlush(c, e), e);
    } else {
      step := if c.done < 2 * |u.dups| then Statement else Commit;
    }
    hide Inv;
    StepKeepsInv(u, c, step);
  }

  /** So from every state of a race there is a run to one in which the update and all events have ended. */
  lemma {:induction false} RaceEnds(u: Update, c: Race) returns (steps: seq<Step>, end: Race)
    requires IsUpdate(u) && Inv(u, c)
    ensures Run(u, c, steps, end) && Over(end) && forall step :: step in steps ==> !step.Select?
    decreases Left(u, c)
  {
    steps, end := [], c;
    if !Over(c) {
      var step := RaceMoves(u, c);
      hide IsUpdate, Inv, Enabled, Next, Over;
      var rest;
      rest, end := RaceEnds(u, Next(u, c, step));
      steps := [step] + rest;
      assert steps[1..] == rest;
    }
  }

  // ---- Both ways of losing one ----

  lemma FiveSteps(u: Update, c: Race, s: seq<Step>)
    requires IsUpdate(u) && |s| == 5 && Enabled(u, c, s[0])
    requires var c1 := Next(u, c, s[0]);
             && Enabled(u, c1, s[1])
             && var c2 := Next(u, c1, s[1]);
                && Enabled(u, c2, s[2])
                && var c3 := Next(u, c2, s[2]);
                   && Enabled(u, c3, s[3]) && Enabled(u, Next(u, c3, s[3]), s[4])
    ensures Run(u, c, s, Next(u, Next(u, Next(u, Next(u, Next(u, c, s[0]), s[1]), s[2]), s[3]), s[4]))
  {
    hide IsUpdate, Enabled, Next;
    var c1 := Next(u, c, s[0]);
    var c2 := Next(u, c1, s[1]);
    var c3 := Next(u, c2, s[2]);
    var c4 := Next(u, c3, s[3]);
    var end := Next(u, c4, s[4]);
    var s1 := s[1..];
    var s2 := s1[1..];
    var s3 := s2[1..];
    var s4 := s3[1..];
    assert s1[0] == s[1] && s2[0] == s[2] && s3[0] == s[3] && s4[0] == s[4];
    assert Run(u, end, s4[1..], end);
    assert Run(u, c4, s4, end);
    assert Run(u, c3, s3, end);
    assert Run(u, c2, s2, end);
    assert Run(u, c1, s1, end);
  }

  lemma OneDuplicate(u: Update, dup: nat)
    requires IsUpdate(u) && u.dups == [dup]
    ensures dup in u.before.subs && u.first in u.before.subs && dup != u.first
  {
    assert dup in u.dups;
  }

  /** An event read before the update and flushed after it: every delivery is lost, also one for a subscription
      the update has nothing to do with. */
  lemma BystanderIsLost(u: Update, dup: nat, other: nat, d: nat, bystander: nat)
    returns (steps: seq<Step>, end: Race)
    requires IsUpdate(u) && u.dups == [dup] && other in u.before.subs && other != dup
    requires d != bystander && d !in u.before.deliveries && bystander !in u.before.deliveries
    ensures steps == [Select(0, map[d := dup, bystander := other]), Statement, Statement, Commit, Flush(0)]
    ensures Run(u, Start(u), steps, end) && end.committed
    ensures bystander !in end.store.deliveries && other in end.store.subs
  {
    var targets := map[d := dup, bystander := other];
    OneDuplicate(u, dup);
    hide IsUpdate;
    assert targets[d] == dup && targets[bystander] == other;
    assert targets.Values == {dup, other};
    steps := [Select(0, targets), Statement, Statement, Commit, Flush(0)];
    var c1 := Next(u, Start(u), Select(0, targets));
    assert c1.events == map[0 := Selected(targets)];
    var c2 := DoStatement(u, c1);
    var c3 := DoStatement(u, c2);
    var c4 := DoCommit(u, c3);
    assert dup !in c4.store.subs && dup in targets.Values;
    end := DoFlush(c4, 0);
    FiveSteps(u, Start(u), steps);
  }

  /** An event that nothing comes between. */
  lemma QueueAtOnce(u: Update, c: Race, targets: map<nat, nat>)
    returns (c1: Race, c2: Race, c3: Race)
    requires IsUpdate(u) && c.events == map[] && !c.committed && targets.Keys !! c.born.Keys
    requires targets.Values <= c.store.subs.Keys <= u.before.subs.Keys
    ensures Enabled(u, c, Select(0, targets)) && c1 == Next(u, c, Select(0, targets))
    ensures Enabled(u, c1, Flush(0)) && c2 == Next(u, c1, Flush(0))
    ensures Enabled(u, c2, CommitEvent(0)) && c3 == Next(u, c2, CommitEvent(0))
    ensures c3.events == map[0 := Queued(targets, c.done)] && c3.done == c.done && !c3.committed
    ensures c3.store == c.store.(deliveries := c.store.deliveries + targets)
  {
    hide IsUpdate;
    c1 := Next(u, c, Select(0, targets));
    assert c1.events == map[0 := Selected(targets)];
    c2 := DoFlush(c1, 0);
    assert c2.events == map[0 := Flushed(targets)];
    c3 := DoCommitEvent(c2, 0);
  }

  lemma FirstStatement(u: Update, dup: nat)
    requires IsUpdate(u) && u.dups == [dup]
    ensures Enabled(u, Start(u), Statement)
    ensures var early := Next(u, Start(u), Statement);
            && early.events == map[] && !early.committed && early.done == 1 && early.born == Start(u).born
            && early.store.subs == u.before.subs && early.store.deliveries.Keys == u.before.deliveries.Keys
  {
    hide IsUpdate;
  }

  lemma LastSteps(u: Update, c: Race, dup: nat, targets: map<nat, nat>)
    requires IsUpdate(u) && u.dups == [dup] && c.done == 1 && !c.committed && c.events == map[0 := Queued(targets, 1)]
    ensures Enabled(u, c, Statement) && Enabled(u, Next(u, c, Statement), Commit)
    ensures var end := Next(u, Next(u, c, Statement), Commit);
            end.committed && forall d :: d in c.store.deliveries && c.store.deliveries[d] == dup ==>
                                           d !in end.store.deliveries
  {
    hide IsUpdate;
  }

  /** An event flushed and committed between the two statements of a duplicate: its delivery goes with the row. */
  lemma LatecomerIsLost(u: Update, dup: nat, d: nat) returns (steps: seq<Step>, end: Race)
    requires IsUpdate(u) && u.dups == [dup] && d !in u.before.deliveries
    ensures steps == [Statement, Select(0, map[d := dup]), Flush(0), CommitEvent(0), Statement, Commit]
    ensures Run(u, Start(u), steps, end) && end.committed && d !in end.store.deliveries
  {
    hide Fate;
    var targets := map[d := dup];
    OneDuplicate(u, dup);
    FirstStatement(u, dup);
    hide IsUpdate, Enabled, Next;
    var early := Next(u, Start(u), Statement);
    assert targets[d] == dup && targets.Values == {dup};
    var c1, c2, c3 := QueueAtOnce(u, early, targets);
    LastSteps(u, c3, dup, targets);
    assert c3.store.deliveries[d] == dup;
    hide Start;
    var rest := [Select(0, targets), Flush(0), CommitEvent(0), Statement, Commit];
    end := Next(u, Next(u, c3, Statement), Commit);
    FiveSteps(u, early, rest);
    steps := [Statement] + rest;
    assert steps[1..] == rest;
  }
}
