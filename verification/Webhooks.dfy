/** portal/routers/webhooks.py: creating a webhook subscription is an upsert by target URL, with a quota of
    active subscriptions per developer account and queued deliveries that follow the surviving row. */
module Webhooks {
  import opened Basics

  datatype Subscription = Subscription(
    account: nat, url: string, events: set<string>, active: bool, failures: nat, secret: string)

  /** Subscriptions by id, and for every queued delivery the subscription it goes out for. */
  datatype Store = Store(subs: map<nat, Subscription>, deliveries: map<nat, nat>)

  datatype Answer = Updated(id: nat) | Created(id: nat) | TooMany | NoEvents

  /** One request; `id` and `secret` are what the database and the generator would hand out. */
  datatype Request = Request(account: nat, url: string, events: set<string>, id: nat, secret: string)

  // ---- Queries ----

  function ForUrl(subs: map<nat, Subscription>, account: nat, url: string): set<nat> {
    set s | s in subs && subs[s].account == account && subs[s].url == url
  }

  function ActiveOf(subs: map<nat, Subscription>, account: nat): set<nat> {
    set s | s in subs && subs[s].account == account && subs[s].active
  }

  predicate IsLowest(ids: set<nat>, m: nat) {
    m in ids && forall x :: x in ids ==> m <= x
  }

  lemma LowestExists(ids: set<nat>)
    requires ids != {}
    ensures exists m :: IsLowest(ids, m)
  {
    var y :| y in ids;
    if ids == {y} {
      assert IsLowest(ids, y);
    } else {
      LowestExists(ids - {y});
      var m :| IsLowest(ids - {y}, m);
      var k := if y < m then y else m;
      forall x | x in ids ensures k <= x { assert x == y || x in ids - {y}; }
      assert IsLowest(ids, k);
    }
  }

  /** order_by(id), the first one. */
  function Lowest(ids: set<nat>): (m: nat)
    requires ids != {}
    ensures IsLowest(ids, m)
  {
    LowestExists(ids);
    var m :| m in ids && IsLowest(ids, m);
    m
  }

  /** Deleting a row takes the deliveries that still point at it along. */
  function Deleted(w: Store, id: nat): Store {
    Store(w.subs - {id}, map d | d in w.deliveries && w.deliveries[d] != id :: w.deliveries[d])
  }

  function Repointed(deliveries: map<nat, nat>, from: set<nat>, to: nat): map<nat, nat> {
    map d | d in deliveries :: if deliveries[d] in from then to else deliveries[d]
  }

  // ---- create_webhook on values ----

  function Refreshed(s: Subscription, r: Request): Subscription {
    s.(events := r.events, active := true, failures := 0, secret := if s.secret == "" then r.secret else s.secret)
  }

  /** The active subscriptions the account would have after the update. */
  function Projected(subs: map<nat, Subscription>, r: Request): int {
    var active := ActiveOf(subs, r.account);
    |active| - |active * ForUrl(subs, r.account, r.url)| + 1
  }

  function DoUpdate(w: Store, r: Request): Store
    requires ForUrl(w.subs, r.account, r.url) != {}
  {
    var same := ForUrl(w.subs, r.account, r.url);
    var first := Lowest(same);
    Store((w.subs - (same - {first}))[first := Refreshed(w.subs[first], r)],
          Repointed(w.deliveries, same - {first}, first))
  }

  function DoCreate(w: Store, r: Request, max: nat): (Store, Answer) {
    var same := ForUrl(w.subs, r.account, r.url);
    if r.events == {} then (w, NoEvents)
    else if same != {} then
      var first := Lowest(same);
      if !w.subs[first].active && Projected(w.subs, r) > max then (w, TooMany)
      else (DoUpdate(w, r), Updated(first))
    else if |ActiveOf(w.subs, r.account)| >= max then (w, TooMany)
    else (w.(subs := w.subs[r.id := Subscription(r.account, r.url, r.events, true, 0, r.secret)]), Created(r.id))
  }

  lemma ActiveDuplicates(subs: map<nat, Subscription>, r: Request)
    ensures var active := ActiveOf(subs, r.account);
            (set s | s in active && subs[s].url == r.url) == active * ForUrl(subs, r.account, r.url)
  {
  }

  class WebhookTable {
    var subs: map<nat, Subscription>
    var deliveries: map<nat, nat>

    constructor ()
      ensures Value() == Store(map[], map[])
    {
      subs, deliveries := map[], map[];
    }

    ghost function Value(): Store
      reads this
    {
      Store(subs, deliveries)
    }

    method DeleteRow(id: nat)
      modifies this
      ensures Value() == Deleted(old(Value()), id)
    {
      subs := subs - {id};
      deliveries := map d | d in deliveries && deliveries[d] != id :: deliveries[d];
    }

    /** Prune the duplicates, moving their outstanding deliveries first. */
    method PruneDuplicates(duplicates: set<nat>, survivor: nat)
      requires survivor !in duplicates
      modifies this
      ensures subs == old(subs) - duplicates && deliveries == Repointed(old(deliveries), duplicates, survivor)
    {
      var todo := duplicates;
      while todo != {}
        invariant todo <= duplicates
        invariant subs == old(subs) - (duplicates - todo)
        invariant deliveries == Repointed(old(deliveries), duplicates - todo, survivor)
      {
        var duplicate :| duplicate in todo;
        todo := todo - {duplicate};
        deliveries := map d | d in deliveries :: if deliveries[d] == duplicate then survivor else deliveries[d];
        DeleteRow(duplicate);
      }
    }

    method CreateWebhook(r: Request, max: nat) returns (answer: Answer)
      requires r.id !in subs
      modifies this
      ensures (Value(), answer) == DoCreate(old(Value()), r, max)
    {
      if r.events == {} { return NoEvents; }
      var same := ForUrl(subs, r.account, r.url);
      if same != {} {
        var first := Lowest(same);
        var sub := subs[first];
        if !sub.active {
          var active := ActiveOf(subs, r.account);
          if |active| - |set s | s in active && subs[s].url == r.url| + 1 > max {
            ActiveDuplicates(subs, r);
            return TooMany;
          }
          ActiveDuplicates(subs, r);
        }
        PruneDuplicates(same - {first}, first);
        subs := subs[first := Refreshed(sub, r)];
        return Updated(first);
      }
      if |ActiveOf(subs, r.account)| >= max { return TooMany; }
      subs := subs[r.id := Subscription(r.account, r.url, r.events, true, 0, r.secret)];
      return Created(r.id);
    }
  }

  // ---- One call ----

  lemma UpdatedRows(w: Store, r: Request)
    requires ForUrl(w.subs, r.account, r.url) != {}
    ensures var same := ForUrl(w.subs, r.account, r.url);
            var first := Lowest(same);
            && ForUrl(DoUpdate(w, r).subs, r.account, r.url) == {first}
            && ActiveOf(DoUpdate(w, r).subs, r.account) == (ActiveOf(w.subs, r.account) - same) + {first}
            && forall a :: a != r.account ==> ActiveOf(DoUpdate(w, r).subs, a) == ActiveOf(w.subs, a)
  {
  }

  lemma SplitSize(a: set<nat>, b: set<nat>)
    ensures |a - b| == |a| - |a * b|
  {
    assert a == (a - b) + (a * b);
  }

  /** The projected count is what the account really has afterwards. */
  lemma ProjectedIsExact(w: Store, r: Request)
    requires ForUrl(w.subs, r.account, r.url) != {}
    ensures |ActiveOf(DoUpdate(w, r).subs, r.account)| == Projected(w.subs, r)
  {
    UpdatedRows(w, r);
    SplitSize(ActiveOf(w.subs, r.account), ForUrl(w.subs, r.account, r.url));
  }

  /** After a call that was not refused the account has exactly one subscription for the URL: active, with
      the asked events, and with its old secret if it had one. */
  lemma OneSubscription(w: Store, r: Request, max: nat)
    requires r.id !in w.subs && !DoCreate(w, r, max).1.TooMany? && !DoCreate(w, r, max).1.NoEvents?
    ensures var (after, answer) := DoCreate(w, r, max);
            && ForUrl(after.subs, r.account, r.url) == {answer.id}
            && after.subs[answer.id].active && after.subs[answer.id].events == r.events
            && after.subs[answer.id].failures == 0
            && (answer.Created? <==> ForUrl(w.subs, r.account, r.url) == {})
            && (answer.Updated? ==> IsLowest(ForUrl(w.subs, r.account, r.url), answer.id))
            && after.subs[answer.id].secret == (if answer.Updated? && w.subs[answer.id].secret != ""
                                                then w.subs[answer.id].secret else r.secret)
            && forall s :: s in w.subs && s !in ForUrl(w.subs, r.account, r.url) ==>
                             s in after.subs && after.subs[s] == w.subs[s]
  {
    if ForUrl(w.subs, r.account, r.url) != {} { UpdatedRows(w, r); }
  }

  /** No delivery is lost, those of a pruned duplicate go to the survivor, all others stay where they were. */
  lemma DeliveriesAreKept(w: Store, r: Request, max: nat, d: nat)
    ensures var (after, answer) := DoCreate(w, r, max);
            && after.deliveries.Keys == w.deliveries.Keys
            && (d in w.deliveries ==>
                  after.deliveries[d] ==
                    if answer.Updated? && w.deliveries[d] in ForUrl(w.subs, r.account, r.url) then answer.id
                    else w.deliveries[d])
  {
  }

  /** Updating the only subscription for a URL with what it holds changes nothing. */
  lemma UpdateInPlace(w: Store, r: Request, id: nat)
    requires ForUrl(w.subs, r.account, r.url) == {id} && w.subs[id] == Refreshed(w.subs[id], r)
    ensures DoUpdate(w, r) == w && Lowest(ForUrl(w.subs, r.account, r.url)) == id
  {
    assert Lowest({id}) == id;
    assert {id} - {id} == {};
    assert (w.subs - {})[id := w.subs[id]] == w.subs;
    assert Repointed(w.deliveries, {}, id) == w.deliveries;
  }

  /** Repeating a request changes nothing and names the same subscription. */
  lemma RepeatIsIdle(w: Store, r: Request, again: Request, max: nat)
    requires r.id !in w.subs && !DoCreate(w, r, max).1.TooMany? && !DoCreate(w, r, max).1.NoEvents?
    requires again == r.(id := again.id, secret := again.secret) && r.secret != ""
    ensures var (after, answer) := DoCreate(w, r, max);
            DoCreate(after, again, max) == (after, Updated(answer.id))
  {
    var (after, answer) := DoCreate(w, r, max);
    OneSubscription(w, r, max);
    UpdateInPlace(after, again, answer.id);
  }

  // ---- Runs ----

  datatype Step =
    | Create(r: Request)
    | Delete(id: nat)
    | Deactivate(id: nat)            // too many failed deliveries
    | Enqueue(batch: map<nat, nat>)  // the deliveries of one event, for subscriptions read some time before

  /** enqueue_webhook inserts the deliveries of an event in one flush: if a subscription they name is gone by
      then, the foreign key fails all of them and the error is only logged. */
  function Inserted(w: Store, batch: map<nat, nat>): Store {
    if batch.Values <= w.subs.Keys then w.(deliveries := w.deliveries + batch) else w
  }

  predicate Enabled(w: Store, step: Step) {
    match step
    case Create(r) => r.id !in w.subs
    case Delete(id) => id in w.subs
    case Deactivate(id) => id in w.subs
    case Enqueue(batch) => batch.Keys !! w.deliveries.Keys
  }

  function Next(w: Store, step: Step, max: nat): Store
    requires Enabled(w, step)
  {
    match step
    case Create(r) => DoCreate(w, r, max).0
    case Delete(id) => Deleted(w, id)
    case Deactivate(id) => w.(subs := w.subs[id := w.subs[id].(active := false)])
    case Enqueue(batch) => Inserted(w, batch)
  }

  ghost predicate WithinQuota(w: Store, max: nat) {
    forall a :: |ActiveOf(w.subs, a)| <= max
  }

  /** Every delivery goes out for a subscription that exists. */
  ghost predicate NoneDangling(w: Store) {
    forall d :: d in w.deliveries ==> w.deliveries[d] in w.subs
  }

  ghost predicate OnePerUrl(w: Store) {
    forall s, t :: (s in w.subs && t in w.subs && w.subs[s].account == w.subs[t].account
                    && w.subs[s].url == w.subs[t].url) ==> s == t
  }

  ghost predicate Inv(w: Store, max: nat) { WithinQuota(w, max) && NoneDangling(w) }

  /** The quota check refuses exactly the calls that would leave the account above its quota. */
  lemma RefusedExactly(w: Store, r: Request, max: nat)
    requires WithinQuota(w, max) && r.id !in w.subs && r.events != {}
    ensures var same := ForUrl(w.subs, r.account, r.url);
            var would := if same != {} then |ActiveOf(DoUpdate(w, r).subs, r.account)|
                         else |ActiveOf(w.subs, r.account)| + 1;
            DoCreate(w, r, max).1.TooMany? <==> would > max
  {
    var same := ForUrl(w.subs, r.account, r.url);
    if same != {} {
      ProjectedIsExact(w, r);
      if w.subs[Lowest(same)].active {
        UpdatedRows(w, r);
        SubsetSize(ActiveOf(DoUpdate(w, r).subs, r.account), ActiveOf(w.subs, r.account));
      }
    }
  }

  /** A deactivated subscription frees a place of its account, and of no other. */
  lemma DeactivatedFrees(w: Store, id: nat, max: nat, a: nat)
    requires id in w.subs
    ensures var after := Next(w, Deactivate(id), max);
            |ActiveOf(after.subs, a)|
            == |ActiveOf(w.subs, a)| - if w.subs[id].active && w.subs[id].account == a then 1 else 0
  {
    var after := Next(w, Deactivate(id), max);
    assert ActiveOf(after.subs, a) == ActiveOf(w.subs, a) - {id};
  }

  lemma ActiveWith(subs: map<nat, Subscription>, id: nat, s: Subscription, a: nat)
    requires id !in subs && s.active
    ensures ActiveOf(subs[id := s], a) == ActiveOf(subs, a) + if a == s.account then {id} else {}
  {
  }

  lemma CreatedRow(w: Store, r: Request, max: nat, a: nat)
    requires r.id !in w.subs && DoCreate(w, r, max).1.Created?
    ensures ActiveOf(DoCreate(w, r, max).0.subs, a) == ActiveOf(w.subs, a) + if a == r.account then {r.id} else {}
    ensures |ActiveOf(w.subs, r.account)| < max
  {
    hide ActiveOf, ForUrl, DoUpdate;
    ActiveWith(w.subs, r.id, Subscription(r.account, r.url, r.events, true, 0, r.secret), a);
  }

  lemma CreateKeepsQuota(w: Store, r: Request, max: nat, a: nat)
    requires WithinQuota(w, max) && r.id !in w.subs
    ensures |ActiveOf(DoCreate(w, r, max).0.subs, a)| <= max
  {
    hide ActiveOf, ForUrl, DoUpdate;
    match DoCreate(w, r, max).1
    case Updated(_) =>
      RefusedExactly(w, r, max);
      UpdatedRows(w, r);
    case Created(_) => CreatedRow(w, r, max, a);
    case _ =>
  }

  lemma StepKeepsInv(w: Store, step: Step, max: nat)
    requires Inv(w, max) && Enabled(w, step)
    ensures Inv(Next(w, step, max), max)
  {
    var after := Next(w, step, max);
    forall a ensures |ActiveOf(after.subs, a)| <= max {
      match step
      case Create(r) => CreateKeepsQuota(w, r, max, a);
      case _ => SubsetSize(ActiveOf(after.subs, a), ActiveOf(w.subs, a));
    }
  }

  /** A run that starts without duplicates never makes one. */
  lemma StepKeepsOnePerUrl(w: Store, step: Step, max: nat)
    requires OnePerUrl(w) && Enabled(w, step)
    ensures OnePerUrl(Next(w, step, max))
  {
    if step.Create? && ForUrl(w.subs, step.r.account, step.r.url) == {} {
      assert forall s :: s in w.subs ==> s !in ForUrl(w.subs, step.r.account, step.r.url);
    }
  }

  ghost predicate Run(w: Store, steps: seq<Step>, max: nat, end: Store)
    decreases |steps|
  {
    if steps == [] then w == end else Enabled(w, steps[0]) && Run(Next(w, steps[0], max), steps[1..], max, end)
  }

  /** On every run: no account above its quota, no delivery for a subscription that is gone. */
  lemma {:induction false} ReachableInv(w: Store, steps: seq<Step>, max: nat, end: Store)
    requires Inv(w, max) && Run(w, steps, max, end)
    ensures Inv(end, max) && (OnePerUrl(w) ==> OnePerUrl(end))
    decreases |steps|
  {
    if steps != [] {
      StepKeepsInv(w, steps[0], max);
      if OnePerUrl(w) { StepKeepsOnePerUrl(w, steps[0], max); }
      ReachableInv(Next(w, steps[0], max), steps[1..], max, end);
    }
  }

  // ---- Events queued for what was read before ----

  /** The step takes the subscription away: it is deleted, or pruned as a duplicate. */
  predicate Removes(w: Store, step: Step, max: nat, id: nat) {
    match step
    case Delete(gone) => gone == id
    case Create(r) =>
      DoCreate(w, r, max).1.Updated? && id in ForUrl(w.subs, r.account, r.url) && id != DoCreate(w, r, max).1.id
    case _ => false
  }

  lemma RemovedExactly(w: Store, step: Step, max: nat, id: nat)
    requires Enabled(w, step) && id in w.subs
    ensures id !in Next(w, step, max).subs <==> Removes(w, step, max, id)
  {
  }

  ghost predicate NoneRemoved(w: Store, steps: seq<Step>, max: nat, ids: set<nat>)
    requires steps != []
  {
    forall id :: id in ids ==> !Removes(w, steps[0], max, id)
  }

  ghost predicate NeverRemoved(w: Store, steps: seq<Step>, max: nat, ids: set<nat>)
    decreases |steps|
  {
    steps == []
    || (Enabled(w, steps[0]) && NoneRemoved(w, steps, max, ids)
        && NeverRemoved(Next(w, steps[0], max), steps[1..], max, ids))
  }

  /** The database never hands out an id again. */
  ghost predicate NeverReused(steps: seq<Step>, ids: set<nat>) {
    forall step :: step in steps && step.Create? ==> step.r.id !in ids
  }

  lemma ReusedFrom(steps: seq<Step>, ids: set<nat>)
    requires steps != [] && NeverReused(steps, ids)
    ensures NeverReused(steps[1..], ids) && (steps[0].Create? ==> steps[0].r.id !in ids)
  {
    assert forall step :: step in steps[1..] ==> step in steps;
  }

  lemma StaysAway(w: Store, step: Step, max: nat, id: nat)
    requires Enabled(w, step) && id !in w.subs && (step.Create? ==> step.r.id != id)
    ensures id !in Next(w, step, max).subs
  {
  }

  lemma {:induction false} AwayForGood(w: Store, steps: seq<Step>, max: nat, end: Store, id: nat, ids: set<nat>)
    requires Run(w, steps, max, end) && id !in w.subs && id in ids && NeverReused(steps, ids)
    ensures id !in end.subs
    decreases |steps|
  {
    if steps != [] {
      hide Enabled, Next, NeverReused;
      ReusedFrom(steps, ids);
      StaysAway(w, steps[0], max, id);
      AwayForGood(Next(w, steps[0], max), steps[1..], max, end, id, ids);
    }
  }

  lemma {:induction false} StillThereExactly(w: Store, steps: seq<Step>, max: nat, end: Store, ids: set<nat>)
    requires Run(w, steps, max, end) && ids <= w.subs.Keys && NeverReused(steps, ids)
    ensures ids <= end.subs.Keys <==> NeverRemoved(w, steps, max, ids)
    decreases |steps|
  {
    if steps != [] {
      hide Enabled, Next, Removes, NeverReused;
      var after := Next(w, steps[0], max);
      ReusedFrom(steps, ids);
      forall id | id in ids ensures id !in after.subs <==> Removes(w, steps[0], max, id) {
        RemovedExactly(w, steps[0], max, id);
      }
      if NoneRemoved(w, steps, max, ids) {
        StillThereExactly(after, steps[1..], max, end, ids);
      } else {
        var id :| id in ids && Removes(w, steps[0], max, id);
        AwayForGood(after, steps[1..], max, end, id, ids);
        assert id in ids && id !in end.subs.Keys;
      }
    }
  }

  /** All or nothing: an event whose subscriptions were read at `w` and whose deliveries are inserted at `end`
      is queued whole if and only if no step in between takes one of those subscriptions away; otherwise
      every delivery of it is lost, whoever's subscription it is for. */
  lemma EventIsQueuedExactly(w: Store, steps: seq<Step>, max: nat, end: Store, batch: map<nat, nat>)
    requires Run(w, steps, max, end) && batch.Values <= w.subs.Keys && NeverReused(steps, batch.Values)
    requires Enabled(end, Enqueue(batch))
    ensures Next(end, Enqueue(batch), max)
            == if NeverRemoved(w, steps, max, batch.Values) then end.(deliveries := end.deliveries + batch) else end
  {
    hide Run, NeverRemoved, NeverReused;
    StillThereExactly(w, steps, max, end, batch.Values);
  }
}
