/** portal/rate_limit.py: sliding-window limiters whose store is filtered at every hit and swept on a timer,
    against the full log of allowed hits. Times are seconds on a clock that never runs back. */
module RateLimit {

  const SWEEP_INTERVAL_SECONDS := 60.0

  /** A key's window and the hits still kept for it. */
  datatype Entry = Entry(window: real, times: seq<real>)

  datatype Limiter = Limiter(store: map<string, Entry>, lastSweep: real)

  datatype Call = Hit(key: string, max: int, window: real, now: real) | Cleanup(now: real)

  // ---- The store ----

  /** The hits after the cutoff. */
  function Recent(times: seq<real>, cutoff: real): (r: seq<real>)
    ensures forall t :: t in r <==> t in times && t > cutoff
  {
    if times == [] then []
    else
      var n := |times| - 1;
      assert times == times[..n] + [times[n]];
      Recent(times[..n], cutoff) + if times[n] > cutoff then [times[n]] else []
  }

  predicate Stale(e: Entry, now: real) {
    e.times == [] || now - e.times[|e.times| - 1] >= e.window
  }

  function Evicted(store: map<string, Entry>, now: real): map<string, Entry> {
    map k | k in store && !Stale(store[k], now) :: store[k]
  }

  function Swept(l: Limiter, now: real): Limiter {
    if now - l.lastSweep >= SWEEP_INTERVAL_SECONDS then Limiter(Evicted(l.store, now), now) else l
  }

  function Times(store: map<string, Entry>, key: string): seq<real> {
    if key in store then store[key].times else []
  }

  function Decided(l: Limiter, key: string, max: int, window: real, now: real): (Limiter, bool) {
    var kept := Recent(Times(l.store, key), now - window);
    if |kept| >= max then (l.(store := l.store[key := Entry(window, kept)]), false)
    else (l.(store := l.store[key := Entry(window, kept + [now])]), true)
  }

  /** check_rate_limit on values: the new store and whether the hit is allowed. */
  function Checked(l: Limiter, key: string, max: int, window: real, now: real): (Limiter, bool) {
    Decided(Swept(l, now), key, max, window, now)
  }

  function Next(l: Limiter, call: Call): Limiter {
    match call
    case Hit(key, max, window, now) => Checked(l, key, max, window, now).0
    case Cleanup(now) => Limiter(Evicted(l.store, now), now)
  }

  /** The stores of check_rate_limit. */
  class Rates {
    var store: map<string, Entry>
    var lastSweep: real

    constructor ()
      ensures Value() == Limiter(map[], 0.0)
    {
      store, lastSweep := map[], 0.0;
    }

    ghost function Value(): Limiter
      reads this
    {
      Limiter(store, lastSweep)
    }

    method EvictExpired(now: real)
      modifies this`store
      ensures store == Evicted(old(store), now)
    {
      ghost var before := store;
      var todo := store.Keys;
      while todo != {}
        invariant todo <= before.Keys
        invariant store == map k | k in before && (k in todo || !Stale(before[k], now)) :: before[k]
      {
        var key :| key in todo;
        todo := todo - {key};
        if Stale(store[key], now) { store := store - {key}; }
      }
    }

    method CheckRateLimit(key: string, max: int, window: real, now: real) returns (allowed: bool)
      modifies this
      ensures (Value(), allowed) == Checked(old(Value()), key, max, window, now)
    {
      if now - lastSweep >= SWEEP_INTERVAL_SECONDS {
        lastSweep := now;
        EvictExpired(now);
      }
      var timestamps := Recent(if key in store then store[key].times else [], now - window);
      if |timestamps| >= max {
        store := store[key := Entry(window, timestamps)];
        return false;
      }
      timestamps := timestamps + [now];
      store := store[key := Entry(window, timestamps)];
      return true;
    }

    method CleanupAt(now: real)
      modifies this
      ensures Value() == Next(old(Value()), Cleanup(now))
    {
      lastSweep := now;
      EvictExpired(now);
    }
  }

  /** One limit and one window for every key. */
  class InMemoryRateLimiter {
    const maxRequests: int
    const windowSeconds: real
    const rates: Rates

    constructor (maxRequests: int, windowSeconds: real)
      ensures this.maxRequests == maxRequests && this.windowSeconds == windowSeconds
      ensures fresh(rates) && rates.Value() == Limiter(map[], 0.0)
    {
      this.maxRequests, this.windowSeconds := maxRequests, windowSeconds;
      rates := new Rates();
    }

    method IsRateLimited(key: string, now: real) returns (limited: bool)
      modifies rates
      ensures (rates.Value(), !limited) == Checked(old(rates.Value()), key, maxRequests, windowSeconds, now)
    {
      var allowed := rates.CheckRateLimit(key, maxRequests, windowSeconds, now);
      return !allowed;
    }

    method DoCleanup(now: real)
      modifies rates
      ensures rates.Value() == Next(old(rates.Value()), Cleanup(now))
    {
      rates.CleanupAt(now);
    }
  }

  // ---- The full log ----

  /** Every allowed hit of every key, forever. */
  type Log = map<string, seq<real>>

  function Hits(log: Log, key: string): seq<real> {
    if key in log then log[key] else []
  }

  /** Fewer than max allowed hits in the window that ends now. */
  predicate Allowed(log: Log, key: string, max: int, window: real, now: real) {
    |Recent(Hits(log, key), now - window)| < max
  }

  function Logged(log: Log, call: Call): Log {
    if call.Hit? && Allowed(log, call.key, call.max, call.window, call.now)
    then log[call.key := Hits(log, call.key) + [call.now]] else log
  }

  // ---- Filtering ----

  predicate Ordered(times: seq<real>, upTo: real) {
    && (forall i, j :: 0 <= i < j < |times| ==> times[i] <= times[j])
    && (forall i :: 0 <= i < |times| ==> times[i] <= upTo)
  }

  lemma RecentOfAppended(times: seq<real>, t: real, cutoff: real)
    ensures Recent(times + [t], cutoff) == Recent(times, cutoff) + if t > cutoff then [t] else []
  {
    assert (times + [t])[..|times|] == times;
  }

  lemma {:induction false} RecentNone(times: seq<real>, cutoff: real)
    requires forall i :: 0 <= i < |times| ==> times[i] <= cutoff
    ensures Recent(times, cutoff) == []
  {
    if times != [] { RecentNone(times[..|times| - 1], cutoff); }
  }

  lemma {:induction false} RecentOfRecent(times: seq<real>, early: real, late: real)
    requires early <= late
    ensures Recent(Recent(times, early), late) == Recent(times, late)
  {
    if times != [] {
      var n := |times| - 1;
      RecentOfRecent(times[..n], early, late);
      var first := Recent(times[..n], early);
      RecentOfAppended(first, times[n], late);
      assert first + [] == first;
    }
  }

  lemma {:induction false} RecentIsOrdered(times: seq<real>, cutoff: real, upTo: real)
    requires Ordered(times, upTo)
    ensures Ordered(Recent(times, cutoff), upTo)
  {
    if times != [] {
      var n := |times| - 1;
      RecentIsOrdered(times[..n], cutoff, upTo);
      var r := Recent(times[..n], cutoff);
      forall i | 0 <= i < |r| ensures r[i] <= times[n] { assert r[i] in times[..n]; }
    }
  }

  /** In an ordered log, everything from a recent hit on is recent. */
  lemma {:induction false} RecentTail(times: seq<real>, cutoff: real, upTo: real, i: nat)
    requires Ordered(times, upTo) && i < |times| && times[i] > cutoff
    ensures |Recent(times, cutoff)| >= |times| - i
  {
    var n := |times| - 1;
    if i < n { RecentTail(times[..n], cutoff, upTo, i); }
  }

  // ---- The store decides as the full log ----

  /** In the window that ends at `clock` the store has what the log has, whatever else was dropped. */
  ghost predicate SameRecent(l: Limiter, log: Log, key: string, window: real, clock: real) {
    && Ordered(Times(l.store, key), clock) && Ordered(Hits(log, key), clock)
    && Recent(Times(l.store, key), clock - window) == Recent(Hits(log, key), clock - window)
  }

  ghost predicate AgreesOn(l: Limiter, log: Log, key: string, window: real, clock: real) {
    (key in l.store ==> l.store[key].window == window) && SameRecent(l, log, key, window, clock)
  }

  /** `seen` has the window every key was used with last. */
  ghost predicate AgreesAt(l: Limiter, log: Log, seen: map<string, real>, key: string, clock: real) {
    if key in seen then AgreesOn(l, log, key, seen[key], clock) else key !in l.store && Hits(log, key) == []
  }

  ghost predicate Agrees(l: Limiter, log: Log, seen: map<string, real>, clock: real) {
    forall key :: AgreesAt(l, log, seen, key, clock)
  }

  lemma StaleIsNotRecent(e: Entry, now: real)
    requires Stale(e, now) && Ordered(e.times, now)
    ensures Recent(e.times, now - e.window) == []
  {
    RecentNone(e.times, now - e.window);
  }

  /** Time passes; entries without a recent hit may go. */
  lemma AgreesLater(l: Limiter, log: Log, key: string, window: real, clock: real, now: real, swept: Limiter)
    requires AgreesOn(l, log, key, window, clock) && clock <= now
    requires swept.store == l.store || swept.store == Evicted(l.store, now)
    ensures AgreesOn(swept, log, key, window, now)
  {
    hide Recent;
    RecentOfRecent(Times(l.store, key), clock - window, now - window);
    RecentOfRecent(Hits(log, key), clock - window, now - window);
    if key in l.store && key !in swept.store {
      StaleIsNotRecent(l.store[key], now);
      RecentNone([], now - window);
    }
  }

  /** A window that is no wider, or empty, sees no difference either. */
  predicate NoWider(window: real, narrower: real) { narrower <= window || narrower <= 0.0 }

  lemma NarrowerAgrees(l: Limiter, log: Log, key: string, window: real, narrower: real, now: real)
    requires SameRecent(l, log, key, window, now) && NoWider(window, narrower)
    ensures SameRecent(l, log, key, narrower, now)
  {
    hide Recent;
    if narrower <= window {
      RecentOfRecent(Times(l.store, key), now - window, now - narrower);
      RecentOfRecent(Hits(log, key), now - window, now - narrower);
    } else {
      RecentNone(Times(l.store, key), now - narrower);
      RecentNone(Hits(log, key), now - narrower);
    }
  }

  lemma DecisionKeepsOwn(l: Limiter, log: Log, key: string, max: int, window: real, now: real)
    requires SameRecent(l, log, key, window, now)
    ensures AgreesOn(Decided(l, key, max, window, now).0, Logged(log, Hit(key, max, window, now)), key, window, now)
    ensures Decided(l, key, max, window, now).1 <==> Allowed(log, key, max, window, now)
  {
    hide Recent;
    var cutoff := now - window;
    var times := Times(l.store, key);
    RecentOfRecent(times, cutoff, cutoff);
    RecentIsOrdered(times, cutoff, now);
    RecentOfAppended(Recent(times, cutoff), now, cutoff);
    RecentOfAppended(Hits(log, key), now, cutoff);
  }

  /** A key nobody used agrees in any window. */
  lemma UnusedAgrees(l: Limiter, log: Log, key: string, window: real, clock: real)
    requires key !in l.store && Hits(log, key) == []
    ensures AgreesOn(l, log, key, window, clock)
  {
  }

  lemma HitKeepsOwn(l: Limiter, log: Log, call: Call, window: real, clock: real)
    requires call.Hit? && AgreesOn(l, log, call.key, window, clock) && clock <= call.now
    requires NoWider(window, call.window)
    ensures AgreesOn(Next(l, call), Logged(log, call), call.key, call.window, call.now)
    ensures Checked(l, call.key, call.max, call.window, call.now).1
            <==> Allowed(log, call.key, call.max, call.window, call.now)
  {
    hide Recent, SameRecent, Decided, Logged, Allowed;
    var swept := Swept(l, call.now);
    AgreesLater(l, log, call.key, window, clock, call.now, swept);
    NarrowerAgrees(swept, log, call.key, window, call.window, call.now);
    DecisionKeepsOwn(swept, log, call.key, call.max, call.window, call.now);
  }

  lemma OthersKeepTheirs(l: Limiter, log: Log, call: Call, key: string, window: real, clock: real)
    requires call.Hit? ==> call.key != key
    requires AgreesOn(l, log, key, window, clock) && clock <= call.now
    ensures AgreesOn(Next(l, call), Logged(log, call), key, window, call.now)
  {
    hide Recent;
    var swept := if call.Hit? then Swept(l, call.now) else Next(l, call);
    AgreesLater(l, log, key, window, clock, call.now, swept);
    assert Times(Next(l, call).store, key) == Times(swept.store, key);
    assert Hits(Logged(log, call), key) == Hits(log, key);
  }

  lemma OthersStayUnused(l: Limiter, log: Log, call: Call, key: string)
    requires (call.Hit? ==> call.key != key) && key !in l.store && Hits(log, key) == []
    ensures key !in Next(l, call).store && Hits(Logged(log, call), key) == []
  {
    hide Recent;
  }

  /** The call's window is one the key may be used with: any the first time, later none that grew. */
  predicate MayUse(seen: map<string, real>, call: Call) {
    call.Hit? && call.key in seen ==> NoWider(seen[call.key], call.window)
  }

  function Seen(seen: map<string, real>, call: Call): map<string, real> {
    if call.Hit? then seen[call.key := call.window] else seen
  }

  lemma WindowBefore(l: Limiter, log: Log, seen: map<string, real>, clock: real, call: Call) returns (window: real)
    requires call.Hit? && AgreesAt(l, log, seen, call.key, clock) && MayUse(seen, call)
    ensures AgreesOn(l, log, call.key, window, clock) && NoWider(window, call.window)
  {
    if call.key in seen {
      window := seen[call.key];
    } else {
      window := call.window;
      UnusedAgrees(l, log, call.key, window, clock);
    }
  }

  lemma CallAgreesAt(l: Limiter, log: Log, seen: map<string, real>, clock: real, call: Call, key: string)
    requires AgreesAt(l, log, seen, key, clock) && clock <= call.now && MayUse(seen, call)
    ensures AgreesAt(Next(l, call), Logged(log, call), Seen(seen, call), key, call.now)
    ensures call.Hit? && call.key == key ==>
              (Checked(l, call.key, call.max, call.window, call.now).1
               <==> Allowed(log, call.key, call.max, call.window, call.now))
  {
    if call.Hit? && call.key == key {
      var window := WindowBefore(l, log, seen, clock, call);
      hide AgreesOn, Next, Logged, Checked, Allowed;
      HitKeepsOwn(l, log, call, window, clock);
    } else {
      hide AgreesOn, Next, Logged, Checked, Allowed;
      if key in seen {
        OthersKeepTheirs(l, log, call, key, seen[key], clock);
      } else {
        OthersStayUnused(l, log, call, key);
      }
    }
  }

  lemma CallKeepsAgreement(l: Limiter, log: Log, seen: map<string, real>, clock: real, call: Call)
    requires Agrees(l, log, seen, clock) && clock <= call.now && MayUse(seen, call)
    ensures Agrees(Next(l, call), Logged(log, call), Seen(seen, call), call.now)
    ensures call.Hit? ==>
              (Checked(l, call.key, call.max, call.window, call.now).1
               <==> Allowed(log, call.key, call.max, call.window, call.now))
  {
    hide AgreesAt, MayUse, Seen, Next, Logged, Checked, Allowed;
    forall key ensures AgreesAt(Next(l, call), Logged(log, call), Seen(seen, call), key, call.now) {
      CallAgreesAt(l, log, seen, clock, call, key);
    }
    if call.Hit? { CallAgreesAt(l, log, seen, clock, call, call.key); }
  }

  /** The clock never runs back. */
  ghost predicate Timed(calls: seq<Call>, clock: real)
    decreases |calls|
  {
    calls == [] || (clock <= calls[0].now && Timed(calls[1..], calls[0].now))
  }

  /** No key is used with a positive window wider than the one it was used with before. */
  ghost predicate NeverGrows(calls: seq<Call>, seen: map<string, real>)
    decreases |calls|
  {
    calls == [] || (MayUse(seen, calls[0]) && NeverGrows(calls[1..], Seen(seen, calls[0])))
  }

  /** The answers of the limiter along a run, */
  ghost function Answers(l: Limiter, calls: seq<Call>): seq<bool>
    decreases |calls|
  {
    if calls == [] then []
    else
      var c := calls[0];
      (if c.Hit? then [Checked(l, c.key, c.max, c.window, c.now).1] else []) + Answers(Next(l, c), calls[1..])
  }

  /** and those of somebody who remembers every allowed hit. */
  ghost function FullAnswers(log: Log, calls: seq<Call>): seq<bool>
    decreases |calls|
  {
    if calls == [] then []
    else
      var c := calls[0];
      (if c.Hit? then [Allowed(log, c.key, c.max, c.window, c.now)] else []) + FullAnswers(Logged(log, c), calls[1..])
  }

  lemma {:induction false} SameAnswersFrom(
    l: Limiter, log: Log, calls: seq<Call>, seen: map<string, real>, clock: real)
    requires Agrees(l, log, seen, clock) && Timed(calls, clock) && NeverGrows(calls, seen)
    ensures Answers(l, calls) == FullAnswers(log, calls)
    decreases |calls|
  {
    if calls != [] {
      hide Agrees, Next, Logged, Checked, Allowed;
      CallKeepsAgreement(l, log, seen, clock, calls[0]);
      SameAnswersFrom(Next(l, calls[0]), Logged(log, calls[0]), calls[1..], Seen(seen, calls[0]), calls[0].now);
    }
  }

  /** Filtering at every hit and sweeping on a timer never change an answer: on every run in which the
      window of no key grows, the limiter answers as if it remembered every allowed hit. */
  lemma SameAnswers(calls: seq<Call>, clock: real)
    requires Timed(calls, clock) && NeverGrows(calls, map[])
    ensures Answers(Limiter(map[], 0.0), calls) == FullAnswers(map[], calls)
  {
    SameAnswersFrom(Limiter(map[], 0.0), map[], calls, map[], clock);
  }

  // ---- The limit ----

  /** Any max + 1 hits in a row span at least a whole window. */
  ghost predicate Spaced(times: seq<real>, max: nat, window: real) {
    forall i :: 0 <= i && i + max < |times| ==> times[i + max] - times[i] >= window
  }

  /** The key is used with that window and at most that limit. */
  ghost predicate UsedWith(calls: seq<Call>, key: string, max: nat, window: real) {
    forall c :: c in calls && c.Hit? && c.key == key ==> c.max <= max && c.window == window
  }

  lemma LoggedStaysSpaced(log: Log, call: Call, key: string, max: nat, window: real, clock: real)
    requires Spaced(Hits(log, key), max, window) && Ordered(Hits(log, key), clock) && clock <= call.now
    requires call.Hit? && call.key == key ==> call.max <= max && call.window == window
    ensures Spaced(Hits(Logged(log, call), key), max, window) && Ordered(Hits(Logged(log, call), key), call.now)
  {
    var before, after := Hits(log, key), Hits(Logged(log, call), key);
    if after != before {
      assert after == before + [call.now];
      forall i | 0 <= i && i + max < |after| ensures after[i + max] - after[i] >= window {
        if i + max == |before| && i < |before| && call.now - after[i] < window {
          RecentTail(before, call.now - window, clock, i);
          assert false;
        }
      }
    }
  }

  /** The hits of a key that the limiter lets through along a run. */
  ghost function Let(l: Limiter, calls: seq<Call>, key: string): seq<real>
    decreases |calls|
  {
    if calls == [] then [] else LetBy(l, calls[0], key) + Let(Next(l, calls[0]), calls[1..], key)
  }

  ghost function LetBy(l: Limiter, call: Call, key: string): seq<real> {
    if call.Hit? && call.key == key && Checked(l, key, call.max, call.window, call.now).1 then [call.now] else []
  }

  /** The key agrees with the log if it is used with that one window; other keys may do as they like. */
  ghost predicate AgreesAlone(l: Limiter, log: Log, key: string, window: real, clock: real) {
    AgreesAt(l, log, map[key := window], key, clock) || (key !in l.store && Hits(log, key) == [])
  }

  lemma LetIsLogged(l: Limiter, log: Log, call: Call, key: string, window: real, clock: real)
    requires AgreesAlone(l, log, key, window, clock) && clock <= call.now
    requires call.Hit? && call.key == key ==> call.window == window
    ensures AgreesAlone(Next(l, call), Logged(log, call), key, window, call.now)
    ensures Hits(Logged(log, call), key) == Hits(log, key) + LetBy(l, call, key)
  {
    hide AgreesOn, Next, Checked, Recent;
    var seen := if AgreesAt(l, log, map[key := window], key, clock) then map[key := window] else map[];
    CallAgreesAt(l, log, seen, clock, call, key);
    assert map[key := window][key := window] == map[key := window] == map[][key := window];
  }

  /** What a run keeps of one key: the store agrees with the log, whose hits are spaced. */
  ghost predicate Kept(l: Limiter, log: Log, clock: real, key: string, max: nat, window: real) {
    && AgreesAlone(l, log, key, window, clock)
    && Spaced(Hits(log, key), max, window) && Ordered(Hits(log, key), clock)
  }

  lemma CallKeeps(l: Limiter, log: Log, call: Call, clock: real, key: string, max: nat, window: real)
    requires Kept(l, log, clock, key, max, window) && clock <= call.now
    requires call.Hit? && call.key == key ==> call.max <= max && call.window == window
    ensures Kept(Next(l, call), Logged(log, call), call.now, key, max, window)
    ensures Hits(Logged(log, call), key) == Hits(log, key) + LetBy(l, call, key)
  {
    hide AgreesAlone, Spaced, Ordered, Hits, Logged, Next, LetBy;
    LoggedStaysSpaced(log, call, key, max, window, clock);
    LetIsLogged(l, log, call, key, window, clock);
  }

  lemma UsedFrom(calls: seq<Call>, key: string, max: nat, window: real)
    requires calls != [] && UsedWith(calls, key, max, window)
    ensures UsedWith(calls[1..], key, max, window)
    ensures calls[0].Hit? && calls[0].key == key ==> calls[0].max <= max && calls[0].window == window
  {
    assert forall c :: c in calls[1..] ==> c in calls;
  }

  lemma LetFrom(l: Limiter, calls: seq<Call>, key: string, so: seq<real>)
    requires calls != []
    ensures so + Let(l, calls, key) == (so + LetBy(l, calls[0], key)) + Let(Next(l, calls[0]), calls[1..], key)
  {
    hide LetBy, Next;
  }

  lemma LetNothing(l: Limiter, key: string, so: seq<real>)
    ensures so + Let(l, [], key) == so
  {
  }

  lemma {:induction false} LetIsSpaced(
    l: Limiter, log: Log, calls: seq<Call>, clock: real, key: string, max: nat, window: real)
    requires Timed(calls, clock) && UsedWith(calls, key, max, window) && Kept(l, log, clock, key, max, window)
    ensures Spaced(Hits(log, key) + Let(l, calls, key), max, window)
    decreases |calls|
  {
    hide Let, Logged, Next, LetBy, Hits, UsedWith, AgreesAlone, Spaced, Ordered;
    if calls == [] {
      LetNothing(l, key, Hits(log, key));
    } else {
      UsedFrom(calls, key, max, window);
      CallKeeps(l, log, calls[0], clock, key, max, window);
      LetIsSpaced(Next(l, calls[0]), Logged(log, calls[0]), calls[1..], calls[0].now, key, max, window);
      LetFrom(l, calls, key, Hits(log, key));
    }
  }

  /** No interval of a window's length ever holds more than max hits of a key that the limiter let through: of
      any max + 1 in a row the last comes at least a window after the first, whatever other keys do. */
  lemma AtMostMaxPerWindow(calls: seq<Call>, clock: real, key: string, max: nat, window: real)
    requires Timed(calls, clock) && UsedWith(calls, key, max, window)
    ensures Spaced(Let(Limiter(map[], 0.0), calls, key), max, window)
  {
    hide Let;
    LetIsSpaced(Limiter(map[], 0.0), map[], calls, clock, key, max, window);
    var times := Let(Limiter(map[], 0.0), calls, key);
    assert [] + times == times;
  }

  /** No hit finds the last sweep a minute old or more: it sweeps first then, and otherwise leaves every other
      entry alone. */
  lemma SweptInTime(l: Limiter, key: string, max: int, window: real, now: real)
    ensures var after := Checked(l, key, max, window, now).0;
            && now - after.lastSweep < 60.0 && key in after.store
            && (now - l.lastSweep >= 60.0 ==>
                  after.lastSweep == now && after.store - {key} == Evicted(l.store, now) - {key})
            && (now - l.lastSweep < 60.0 ==> after.lastSweep == l.lastSweep && after.store - {key} == l.store - {key})
  {
    hide Recent, Evicted;
  }

  /** An explicit sweep keeps exactly the entries hit within their window, untouched, and counts as one. */
  lemma CleanupExactly(l: Limiter, now: real, key: string)
    ensures var after := Next(l, Cleanup(now));
            && after.lastSweep == now
            && (key in after.store <==> key in l.store && l.store[key].times != []
                                        && now - l.store[key].times[|l.store[key].times| - 1] < l.store[key].window)
            && (key in after.store ==> after.store[key] == l.store[key])
  {
  }

  /** Sweeping leaves nothing that could not deny a request any more. */
  lemma SweepIsTight(l: Limiter, now: real, key: string)
    requires key in Evicted(l.store, now) && Ordered(l.store[key].times, now)
    ensures Recent(l.store[key].times, now - l.store[key].window) != []
  {
    var times := l.store[key].times;
    assert times[|times| - 1] in Recent(times, now - l.store[key].window);
  }

  lemma RecentOfOne(t: real, cutoff: real)
    ensures Recent([t], cutoff) == if t > cutoff then [t] else []
  {
    RecentOfAppended([], t, cutoff);
    assert [] + [t] == [t];
  }

  lemma RecentOfTwo(t: real, u: real, cutoff: real)
    requires t > cutoff && u > cutoff
    ensures Recent([t, u], cutoff) == [t, u]
  {
    RecentOfOne(t, cutoff);
    RecentOfAppended([t], u, cutoff);
    assert [t] + [u] == [t, u];
  }

  // ---- Where the limiter and the log part ----

  lemma ThreeAnswers(l: Limiter, log: Log, a: Call, b: Call, c: Call)
    requires a.Hit? && b.Hit? && c.Hit?
    ensures |Answers(l, [a, b, c])| == 3 && |FullAnswers(log, [a, b, c])| == 3
    ensures Answers(l, [a, b, c])[2] == Checked(Next(Next(l, a), b), c.key, c.max, c.window, c.now).1
    ensures FullAnswers(log, [a, b, c])[2]
            == Allowed(Logged(Logged(log, a), b), c.key, c.max, c.window, c.now)
  {
    hide Next, Logged, Checked, Allowed;
    assert [a, b, c][1..] == [b, c] && [b, c][1..] == [c] && [c][1..] == [];
    assert |Answers(Next(Next(l, a), b), [c])| == 1 && |FullAnswers(Logged(Logged(log, a), b), [c])| == 1;
    assert |Answers(Next(l, a), [b, c])| == 2 && |FullAnswers(Logged(log, a), [b, c])| == 2;
  }

  lemma ThreeTimed(a: Call, b: Call, c: Call)
    requires 0.0 <= a.now <= b.now <= c.now
    ensures Timed([a, b, c], 0.0)
  {
    assert [a, b, c][1..] == [b, c] && [b, c][1..] == [c] && [c][1..] == [];
    assert Timed([], c.now);
    assert Timed([c], b.now);
    assert Timed([b, c], a.now);
  }

  lemma StoreForgets(key: string, w: real, v: real, b: real)
    requires w < v && 0.0 < v && b == if w < 0.0 then 0.0 else w
    ensures Checked(Next(Next(Limiter(map[], 0.0), Hit(key, 1, w, 0.0)), Hit(key, 1, w, b)), key, 2, v, b).1
  {
    hide Recent;
    RecentNone([], 0.0 - w);
    var l := Next(Limiter(map[], 0.0), Hit(key, 1, w, 0.0));
    assert l.store[key] == Entry(w, [0.0]) && l.lastSweep == 0.0;
    RecentOfOne(0.0, b - w);
    RecentNone([], b - w);
    var m := Next(l, Hit(key, 1, w, b));
    assert m.store[key] == Entry(w, [b]);
    RecentOfOne(b, b - v);
    RecentNone([], b - v);
  }

  lemma LogRemembers(key: string, w: real, v: real, b: real)
    requires w < v && 0.0 < v && b == if w < 0.0 then 0.0 else w
    ensures !Allowed(Logged(Logged(map[], Hit(key, 1, w, 0.0)), Hit(key, 1, w, b)), key, 2, v, b)
  {
    hide Recent;
    RecentNone([], 0.0 - w);
    var log := Logged(map[], Hit(key, 1, w, 0.0));
    assert Hits(log, key) == [0.0];
    RecentOfOne(0.0, b - w);
    assert Hits(Logged(log, Hit(key, 1, w, b)), key) == [0.0, b];
    RecentOfTwo(0.0, b, b - v);
  }

  /** A window that grows from w to v > 0 lets a hit through that the log refuses: two hits a first window
      apart, and at once a third that v would still count with both. */
  lemma GrowingWindowForgets(key: string, w: real, v: real) returns (first: seq<Call>, second: seq<Call>)
    requires w < v && 0.0 < v
    ensures Phases(first, second, key, w, v) && Timed(first + second, 0.0)
    ensures Answers(Limiter(map[], 0.0), first + second) != FullAnswers(map[], first + second)
  {
    hide Next, Logged, Checked, Allowed, Answers, FullAnswers;
    var b := if w < 0.0 then 0.0 else w;
    var one, two, three := Hit(key, 1, w, 0.0), Hit(key, 1, w, b), Hit(key, 2, v, b);
    first, second := [one, two], [three];
    assert first + second == [one, two, three];
    ThreeAnswers(Limiter(map[], 0.0), map[], one, two, three);
    StoreForgets(key, w, v, b);
    LogRemembers(key, w, v, b);
    ThreeTimed(one, two, three);
  }

  /** All hits are on one key, those of the first phase with window w, those of the second with v. */
  ghost predicate Phases(first: seq<Call>, second: seq<Call>, key: string, w: real, v: real) {
    && (forall i :: 0 <= i < |first| ==> first[i].Hit? && first[i].key == key && first[i].window == w)
    && (forall i :: 0 <= i < |second| ==> second[i].Hit? && second[i].key == key && second[i].window == v)
  }

  lemma NothingGrows(calls: seq<Call>, seen: map<string, real>)
    requires calls == []
    ensures NeverGrows(calls, seen)
  {
  }

  lemma NeverGrowsFrom(calls: seq<Call>, seen: map<string, real>)
    requires calls != [] && MayUse(seen, calls[0]) && NeverGrows(calls[1..], Seen(seen, calls[0]))
    ensures NeverGrows(calls, seen)
  {
    hide MayUse, Seen;
  }

  lemma FirstPhase(first: seq<Call>, second: seq<Call>, key: string, w: real, v: real)
    requires first != [] && Phases(first, second, key, w, v)
    ensures Phases(first[1..], second, key, w, v)
    ensures first[0].Hit? && first[0].key == key && first[0].window == w
  {
    assert forall i :: 0 <= i < |first[1..]| ==> first[1..][i] == first[i + 1];
  }

  lemma SecondPhase(second: seq<Call>, key: string, w: real, v: real)
    requires second != [] && Phases([], second, key, w, v)
    ensures Phases([], second[1..], key, w, v)
    ensures second[0].Hit? && second[0].key == key && second[0].window == v
  {
    assert forall i :: 0 <= i < |second[1..]| ==> second[1..][i] == second[i + 1];
  }

  lemma {:induction false} PhasesNeverGrow(
    first: seq<Call>, second: seq<Call>, key: string, w: real, v: real, seen: map<string, real>)
    requires Phases(first, second, key, w, v) && (v <= w || v <= 0.0)
    requires key in seen ==> if first != [] then seen[key] == w else seen[key] == w || seen[key] == v
    ensures NeverGrows(first + second, seen)
    decreases |first| + |second|
  {
    hide Phases, NeverGrows;
    if first != [] {
      FirstPhase(first, second, key, w, v);
      assert (first + second)[1..] == first[1..] + second;
      PhasesNeverGrow(first[1..], second, key, w, v, seen[key := w]);
      NeverGrowsFrom(first + second, seen);
    } else if second != [] {
      SecondPhase(second, key, w, v);
      assert first + second == second && [] + second[1..] == second[1..];
      PhasesNeverGrow([], second[1..], key, w, v, seen[key := v]);
      NeverGrowsFrom(first + second, seen);
    } else {
      NothingGrows(first + second, seen);
    }
  }

  ghost predicate AnswersAgree(calls: seq<Call>) {
    Answers(Limiter(map[], 0.0), calls) == FullAnswers(map[], calls)
  }

  /** A key that turns from window w to window v is answered as the full log would on every such run if and
      only if v is no wider than w, or not positive. */
  lemma WindowsExactly(key: string, w: real, v: real)
    ensures (forall first, second, clock | Phases(first, second, key, w, v) && Timed(first + second, clock) ::
               AnswersAgree(first + second))
            <==> v <= w || v <= 0.0
  {
    hide Answers, FullAnswers;
    if v <= w || v <= 0.0 {
      forall first, second, clock | Phases(first, second, key, w, v) && Timed(first + second, clock)
        ensures AnswersAgree(first + second)
      {
        PhasesNeverGrow(first, second, key, w, v, map[]);
        SameAnswers(first + second, clock);
      }
    } else {
      var first, second := GrowingWindowForgets(key, w, v);
      assert Phases(first, second, key, w, v) && Timed(first + second, 0.0) && !AnswersAgree(first + second);
    }
  }
}
