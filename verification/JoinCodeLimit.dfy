/** portal/join_code_limit.py: the bounded table of failed join-code guesses, against one client's own
    history. Times are seconds on a clock that never runs back; a key stands for a client address. */
module JoinCodeLimit {
  import opened Basics
  import opened Wrappers

  const JOIN_CODE_RATE_LIMIT := 10
  const JOIN_CODE_RATE_WINDOW_SECONDS := 60.0
  const MAX_CLIENTS := 10000

  datatype Entry = Entry(key: string, count: nat, start: real)

  datatype Call = Call(now: real, key: string, submitted: Option<string>, expected: Option<string>)

  datatype Outcome = Right | Wrong | Throttled(retryAfter: int)

  predicate Submitted(call: Call) { call.submitted.Some? && call.submitted.value != "" }

  predicate IsRight(call: Call) {
    call.submitted.Some? && call.expected.Some? && call.expected.value != "" && call.submitted == call.expected
  }

  predicate Expired(start: real, now: real) { now - start >= JOIN_CODE_RATE_WINDOW_SECONDS }

  function Ceiling(x: real): int { -((-x).Floor) }

  function RetryAfter(start: real, now: real): int {
    var wait := Ceiling(JOIN_CODE_RATE_WINDOW_SECONDS - (now - start));
    if wait > 1 then wait else 1
  }

  // ---- The ordered dictionary ----

  /** A budget: failures counted so far and when its window began. */
  datatype Budget = Budget(count: nat, start: real)

  function Get(table: seq<Entry>, key: string): Option<Budget> {
    if table == [] then None
    else if table[0].key == key then Some(Budget(table[0].count, table[0].start))
    else Get(table[1..], key)
  }

  /** Assignment: a known key keeps its place, a new one comes last. */
  function Put(table: seq<Entry>, e: Entry): seq<Entry> {
    if table == [] then [e]
    else if table[0].key == e.key then [e] + table[1..]
    else [table[0]] + Put(table[1..], e)
  }

  // ---- Operations on values ----

  function Purged(table: seq<Entry>, now: real): seq<Entry> {
    if table != [] && Expired(table[0].start, now) then Purged(table[1..], now) else table
  }

  /** One more failure in a purged table; a full one gives up its oldest window for a new client. */
  function Recorded(table: seq<Entry>, key: string, now: real): seq<Entry> {
    var b := Get(table, key).GetOr(Budget(0, now));
    Put(WithPlace(table, key), Entry(key, b.count + 1, b.start))
  }

  function WithPlace(table: seq<Entry>, key: string): seq<Entry> {
    if Get(table, key).None? && |table| >= MAX_CLIENTS then table[1..] else table
  }

  function Verified(table: seq<Entry>, call: Call): (seq<Entry>, Outcome) {
    if !Submitted(call) then (table, Wrong)
    else
      var purged := Purged(table, call.now);
      var b := Get(purged, call.key).GetOr(Budget(0, call.now));
      if b.count >= JOIN_CODE_RATE_LIMIT then (purged, Throttled(RetryAfter(b.start, call.now)))
      else if IsRight(call) then (purged, Right)
      else (Recorded(purged, call.key, call.now), Wrong)
  }

  class JoinCodeTable {
    var attempts: seq<Entry>

    constructor ()
      ensures attempts == []
    {
      attempts := [];
    }

    method PurgeExpired(now: real)
      modifies this
      ensures attempts == Purged(old(attempts), now)
    {
      while attempts != []
        invariant Purged(attempts, now) == Purged(old(attempts), now)
        decreases |attempts|
      {
        if !Expired(attempts[0].start, now) { return; }
        attempts := attempts[1..];
      }
    }

    method VerifyJoinCode(call: Call) returns (outcome: Outcome)
      modifies this
      ensures (attempts, outcome) == Verified(old(attempts), call)
    {
      if !Submitted(call) { return Wrong; }
      PurgeExpired(call.now);
      var entry := Get(attempts, call.key);
      var b := entry.GetOr(Budget(0, call.now));
      if b.count >= JOIN_CODE_RATE_LIMIT { return Throttled(RetryAfter(b.start, call.now)); }
      if IsRight(call) { return Right; }
      if entry.None? && |attempts| >= MAX_CLIENTS { attempts := attempts[1..]; }
      attempts := Put(attempts, Entry(call.key, b.count + 1, b.start));
      return Wrong;
    }
  }

  // ---- The table ----

  ghost predicate Sound(table: seq<Entry>, clock: real) {
    && (forall i, j :: 0 <= i < j < |table| ==> table[i].key != table[j].key && table[i].start <= table[j].start)
    && (forall i :: 0 <= i < |table| ==> table[i].start <= clock && 1 <= table[i].count <= JOIN_CODE_RATE_LIMIT)
  }

  ghost predicate Inv(table: seq<Entry>, clock: real) {
    Sound(table, clock) && |table| <= MAX_CLIENTS
  }

  lemma {:induction false} PurgedIsSuffix(table: seq<Entry>, now: real)
    ensures var purged := Purged(table, now);
            && |purged| <= |table| && purged == table[|table| - |purged|..]
            && (forall i :: 0 <= i < |table| - |purged| ==> Expired(table[i].start, now))
            && (purged != [] ==> !Expired(purged[0].start, now))
  {
    if table != [] && Expired(table[0].start, now) {
      var rest := table[1..];
      PurgedIsSuffix(rest, now);
      forall i | 0 <= i < |table| - |Purged(table, now)| ensures Expired(table[i].start, now) {
        if i > 0 { assert rest[i - 1] == table[i]; }
      }
    }
  }

  /** The purge stops at the first live window and still removes every expired one, and nothing else. */
  lemma PurgeIsExact(table: seq<Entry>, now: real, clock: real)
    requires Sound(table, clock)
    ensures var purged := Purged(table, now);
            && Sound(purged, clock) && |purged| <= |table| && purged == table[|table| - |purged|..]
            && forall i :: 0 <= i < |table| ==> (Expired(table[i].start, now) <==> i < |table| - |purged|)
  {
    hide Purged;
    PurgedIsSuffix(table, now);
    var cut := |table| - |Purged(table, now)|;
    forall i | cut <= i < |table| ensures !Expired(table[i].start, now) {
      assert cut == i || table[cut].start <= table[i].start;
    }
  }

  lemma {:induction false} GetIsEntry(table: seq<Entry>, key: string)
    ensures match Get(table, key)
            case None => forall e :: e in table ==> e.key != key
            case Some(b) => Entry(key, b.count, b.start) in table
  {
    if table != [] {
      assert table == [table[0]] + table[1..];
      GetIsEntry(table[1..], key);
    }
  }

  lemma {:induction false} GetOfEntry(table: seq<Entry>, e: Entry, clock: real)
    requires Sound(table, clock) && e in table
    ensures Get(table, e.key) == Some(Budget(e.count, e.start))
  {
    assert table == [table[0]] + table[1..];
    if table[0] != e { GetOfEntry(table[1..], e, clock); }
  }

  lemma {:induction false} PutMembers(table: seq<Entry>, e: Entry)
    ensures forall x :: x in Put(table, e) ==> x == e || (x in table && x.key != e.key) || x in table
    ensures |Put(table, e)| == |table| + if Get(table, e.key).Some? then 0 else 1
    ensures table != [] ==> Put(table, e)[0] == if table[0].key == e.key then e else table[0]
  {
    if table != [] {
      assert table == [table[0]] + table[1..];
      PutMembers(table[1..], e);
    }
  }

  /** A table is sound if its first entry leads a sound rest. */
  ghost predicate Leads(first: Entry, rest: seq<Entry>, clock: real) {
    && first.start <= clock && 1 <= first.count <= JOIN_CODE_RATE_LIMIT
    && forall x :: x in rest ==> x.key != first.key && first.start <= x.start
  }

  lemma SoundIsLed(table: seq<Entry>, clock: real)
    requires table != []
    ensures Sound(table, clock) <==> Sound(table[1..], clock) && Leads(table[0], table[1..], clock)
  {
    var rest := table[1..];
    assert forall i :: 0 < i < |table| ==> table[i] == rest[i - 1];
  }

  lemma StillLeads(first: Entry, rest: seq<Entry>, e: Entry, clock: real)
    requires Leads(first, rest, clock) && first.key != e.key
    requires match Get(rest, e.key) case Some(b) => e.start == b.start case None => e.start == clock
    ensures Leads(first, Put(rest, e), clock)
  {
    PutMembers(rest, e);
    GetIsEntry(rest, e.key);
  }

  lemma ReplacedLeads(first: Entry, rest: seq<Entry>, e: Entry, clock: real)
    requires Leads(first, rest, clock) && first.key == e.key && first.start == e.start
    requires 1 <= e.count <= JOIN_CODE_RATE_LIMIT
    ensures Leads(e, rest, clock)
  {
  }

  /** Recording a failure of a known client in its window, or of a new one now, keeps the order. */
  lemma {:induction false} PutKeepsSound(table: seq<Entry>, e: Entry, clock: real)
    requires Sound(table, clock) && 1 <= e.count <= JOIN_CODE_RATE_LIMIT
    requires match Get(table, e.key) case Some(b) => e.start == b.start case None => e.start == clock
    ensures Sound(Put(table, e), clock)
  {
    if table == [] {
    } else {
      hide Sound, Leads;
      var rest := table[1..];
      SoundIsLed(table, clock);
      if table[0].key == e.key {
        ReplacedLeads(table[0], rest, e, clock);
        SoundIsLed([e] + rest, clock);
        assert ([e] + rest)[1..] == rest;
      } else {
        PutKeepsSound(rest, e, clock);
        StillLeads(table[0], rest, e, clock);
        SoundIsLed([table[0]] + Put(rest, e), clock);
        assert ([table[0]] + Put(rest, e))[1..] == Put(rest, e);
      }
    }
  }

  lemma PlaceFacts(table: seq<Entry>, key: string, clock: real)
    requires Inv(table, clock)
    ensures var kept := WithPlace(table, key);
            && Sound(kept, clock) && Get(kept, key) == Get(table, key)
            && (Get(table, key).None? ==> |kept| < MAX_CLIENTS) && |kept| <= |table|
  {
    if WithPlace(table, key) != table { assert table == [table[0]] + table[1..]; }
  }

  lemma RecordKeepsInv(table: seq<Entry>, key: string, now: real)
    requires Inv(table, now)
    requires Get(table, key).GetOr(Budget(0, now)).count < JOIN_CODE_RATE_LIMIT
    ensures Inv(Recorded(table, key, now), now)
  {
    hide WithPlace, Sound, Get, Put;
    var b := Get(table, key).GetOr(Budget(0, now));
    PlaceFacts(table, key, now);
    PutKeepsSound(WithPlace(table, key), Entry(key, b.count + 1, b.start), now);
    PutMembers(WithPlace(table, key), Entry(key, b.count + 1, b.start));
  }

  lemma VerifyKeepsInv(table: seq<Entry>, call: Call, clock: real)
    requires Inv(table, clock) && clock <= call.now
    ensures Inv(Verified(table, call).0, call.now)
  {
    PurgeIsExact(table, call.now, call.now);
    var purged := Purged(table, call.now);
    if Get(purged, call.key).GetOr(Budget(0, call.now)).count < JOIN_CODE_RATE_LIMIT {
      RecordKeepsInv(purged, call.key, call.now);
    }
  }

  lemma LiveAfterLive(table: seq<Entry>, e: Entry, now: real, clock: real)
    requires Sound(table, clock) && e in table && !Expired(table[0].start, now)
    ensures !Expired(e.start, now)
  {
    var i :| 0 <= i < |table| && table[i] == e;
    assert i == 0 || table[0].start <= table[i].start;
  }

  lemma {:induction false} PurgedGet(table: seq<Entry>, now: real, key: string, clock: real)
    requires Sound(table, clock)
    ensures Get(Purged(table, now), key) == Current(Get(table, key), now)
  {
    if table != [] {
      var rest := table[1..];
      assert table == [table[0]] + rest;
      if Expired(table[0].start, now) {
        PurgedGet(rest, now, key, clock);
        GetIsEntry(rest, key);
      } else {
        GetIsEntry(table, key);
        if Get(table, key).Some? {
          LiveAfterLive(table, Entry(key, Get(table, key).value.count, Get(table, key).value.start), now, clock);
        }
      }
    }
  }

  lemma StartIsPast(table: seq<Entry>, e: Entry, clock: real)
    requires Sound(table, clock) && e in table
    ensures e.start <= clock
  {
  }

  lemma CeilingIsLeast(x: real)
    ensures x <= Ceiling(x) as real < x + 1.0
  {
  }

  /** The wait named in a refusal is the least whole number of seconds after which the window is over. */
  lemma RetryIsSufficient(table: seq<Entry>, call: Call, clock: real)
    requires Inv(table, clock) && clock <= call.now && Verified(table, call).1.Throttled?
    ensures var wait := Verified(table, call).1.retryAfter;
            && 1 <= wait <= 60 && Get(table, call.key).Some?
            && Expired(Get(table, call.key).value.start, call.now + wait as real)
            && !Expired(Get(table, call.key).value.start, call.now + (wait - 1) as real)
  {
    hide Get, Purged;
    PurgedGet(table, call.now, call.key, clock);
    var b := Get(table, call.key).value;
    GetIsEntry(table, call.key);
    StartIsPast(table, Entry(call.key, b.count, b.start), clock);
    CeilingIsLeast(JOIN_CODE_RATE_WINDOW_SECONDS - (call.now - b.start));
  }

  /** The client used its whole budget in a window that is still open. */
  predicate Spent(table: seq<Entry>, key: string, now: real) {
    match Get(table, key) case Some(b) => b.count >= 10 && now - b.start < 60.0 case None => false
  }

  /** The answers, exactly: only the expected code itself is right, and nothing is while the client is throttled. */
  lemma AnswerExactly(table: seq<Entry>, call: Call, clock: real)
    requires Inv(table, clock) && clock <= call.now
    ensures var guessed := call.submitted.Some? && call.submitted.value != "";
            var answer := Verified(table, call).1;
            && (answer.Throttled? <==> guessed && Spent(table, call.key, call.now))
            && (answer.Right? <==> guessed && !Spent(table, call.key, call.now) && call.submitted == call.expected)
  {
    PurgedGet(table, call.now, call.key, clock);
    hide Get, Purged, Recorded, Inv;
  }

  lemma {:induction false} GetOfPut(table: seq<Entry>, e: Entry, key: string)
    ensures Get(Put(table, e), key) == if key == e.key then Some(Budget(e.count, e.start)) else Get(table, key)
  {
    if table != [] {
      assert table == [table[0]] + table[1..];
      GetOfPut(table[1..], e, key);
    }
  }

  /** Nothing is recorded but a wrong guess, and that as one more failure in the client's window. */
  lemma RecordsExactly(table: seq<Entry>, call: Call)
    ensures var guessed := call.submitted.Some? && call.submitted.value != "";
            var (after, answer) := Verified(table, call);
            && (!guessed ==> after == table)
            && (guessed && !answer.Wrong? ==> after == Purged(table, call.now))
            && (guessed && answer.Wrong? ==>
                  var b := Get(Purged(table, call.now), call.key).GetOr(Budget(0, call.now));
                  Get(after, call.key) == Some(Budget(b.count + 1, b.start)))
  {
    hide Get, Purged, Put, WithPlace;
    var purged := Purged(table, call.now);
    var b := Get(purged, call.key).GetOr(Budget(0, call.now));
    GetOfPut(WithPlace(purged, call.key), Entry(call.key, b.count + 1, b.start), call.key);
  }

  // ---- One client's own history ----

  /** A budget counts only while its window lasts. */
  function Current(b: Option<Budget>, now: real): Option<Budget> {
    if b.Some? && !Expired(b.value.start, now) then b else None
  }

  /** A client alone: its budget and what a call of its own does, without any table. */
  function OwnVerified(own: Option<Budget>, call: Call): (Option<Budget>, Outcome) {
    if !Submitted(call) then (own, Wrong)
    else
      var live := Current(own, call.now);
      var b := live.GetOr(Budget(0, call.now));
      if b.count >= JOIN_CODE_RATE_LIMIT then (live, Throttled(RetryAfter(b.start, call.now)))
      else if IsRight(call) then (live, Right)
      else (Some(Budget(b.count + 1, b.start)), Wrong)
  }

  /** The call evicts the client's window: somebody new fails while the table is full and the client's
      window is the oldest. */
  predicate Evicts(table: seq<Entry>, call: Call, key: string) {
    && Submitted(call) && !IsRight(call) && call.key != key
    && var purged := Purged(table, call.now);
       Get(purged, call.key).None? && |purged| >= MAX_CLIENTS && purged[0].key == key
  }

  /** The table has what the client has, as far as it still counts. */
  ghost predicate Linked(table: seq<Entry>, own: Option<Budget>, key: string, clock: real) {
    Current(Get(table, key), clock) == Current(own, clock)
  }

  lemma PurgedInv(table: seq<Entry>, now: real, clock: real)
    requires Inv(table, clock) && clock <= now
    ensures Inv(Purged(table, now), now)
  {
    PurgeIsExact(table, now, now);
  }

  lemma OwnCallLinked(table: seq<Entry>, own: Option<Budget>, call: Call, clock: real)
    requires Inv(table, clock) && clock <= call.now && Linked(table, own, call.key, clock)
    ensures Verified(table, call).1 == OwnVerified(own, call).1
    ensures Linked(Verified(table, call).0, OwnVerified(own, call).0, call.key, call.now)
  {
    hide Get, Put, Purged, WithPlace, Sound;
    PurgedGet(table, call.now, call.key, clock);
    var purged := Purged(table, call.now);
    PurgedInv(table, call.now, clock);
    PlaceFacts(purged, call.key, call.now);
    var b := Get(purged, call.key).GetOr(Budget(0, call.now));
    GetOfPut(WithPlace(purged, call.key), Entry(call.key, b.count + 1, b.start), call.key);
  }

  lemma GetOfRest(table: seq<Entry>, key: string)
    requires table != [] && table[0].key != key
    ensures Get(table[1..], key) == Get(table, key)
  {
  }

  lemma OtherCallLinked(table: seq<Entry>, own: Option<Budget>, call: Call, key: string, clock: real)
    requires Inv(table, clock) && clock <= call.now && Linked(table, own, key, clock)
    requires call.key != key && !Evicts(table, call, key)
    ensures Linked(Verified(table, call).0, own, key, call.now)
  {
    hide Get, Put, Purged, Sound;
    PurgedGet(table, call.now, key, clock);
    var purged := Purged(table, call.now);
    var b := Get(purged, call.key).GetOr(Budget(0, call.now));
    GetOfPut(WithPlace(purged, call.key), Entry(call.key, b.count + 1, b.start), key);
    if Submitted(call) && !IsRight(call) && WithPlace(purged, call.key) != purged { GetOfRest(purged, key); }
  }

  ghost predicate Nondecreasing(calls: seq<Call>, clock: real)
    decreases |calls|
  {
    calls == [] || (clock <= calls[0].now && Nondecreasing(calls[1..], calls[0].now))
  }

  ghost predicate NeverEvicted(table: seq<Entry>, calls: seq<Call>, key: string)
    decreases |calls|
  {
    calls == [] || (!Evicts(table, calls[0], key) && NeverEvicted(Verified(table, calls[0]).0, calls[1..], key))
  }

  /** What the client is answered along a run, */
  ghost function Answers(table: seq<Entry>, calls: seq<Call>, key: string): seq<Outcome>
    decreases |calls|
  {
    if calls == [] then []
    else
      (if calls[0].key == key then [Verified(table, calls[0]).1] else [])
      + Answers(Verified(table, calls[0]).0, calls[1..], key)
  }

  /** and what its own history alone says. */
  ghost function OwnAnswers(own: Option<Budget>, calls: seq<Call>, key: string): seq<Outcome>
    decreases |calls|
  {
    if calls == [] then []
    else if calls[0].key == key
    then [OwnVerified(own, calls[0]).1] + OwnAnswers(OwnVerified(own, calls[0]).0, calls[1..], key)
    else OwnAnswers(own, calls[1..], key)
  }

  /** Absent eviction, other clients make no difference: everybody is answered from their own history. */
  lemma {:induction false} AnsweredFromOwnHistory(
    table: seq<Entry>, own: Option<Budget>, calls: seq<Call>, key: string, clock: real)
    requires Inv(table, clock) && Linked(table, own, key, clock)
    requires Nondecreasing(calls, clock) && NeverEvicted(table, calls, key)
    ensures Answers(table, calls, key) == OwnAnswers(own, calls, key)
    decreases |calls|
  {
    if calls != [] {
      hide Verified, OwnVerified, Inv, Linked, Evicts;
      var c := calls[0];
      VerifyKeepsInv(table, c, clock);
      if c.key == key {
        OwnCallLinked(table, own, c, clock);
        AnsweredFromOwnHistory(Verified(table, c).0, OwnVerified(own, c).0, calls[1..], key, c.now);
      } else {
        OtherCallLinked(table, own, c, key, clock);
        AnsweredFromOwnHistory(Verified(table, c).0, own, calls[1..], key, c.now);
      }
    }
  }

  // ---- When a client's window is evicted ----

  /** A guess that is not the code. */
  predicate Misses(call: Call) { Submitted(call) && !IsRight(call) }

  /** The other clients that missed less than a window's length before the last call, it included. */
  ghost function Crowd(calls: seq<Call>, key: string): set<string>
    requires calls != []
  {
    var now := calls[|calls| - 1].now;
    set j | 0 <= j < |calls| && calls[j].key != key && Misses(calls[j]) && !Expired(calls[j].now, now) :: calls[j].key
  }

  /** A window of the table began with a miss of its client. */
  ghost predicate BeganWith(e: Entry, calls: seq<Call>) {
    exists j :: 0 <= j < |calls| && calls[j].key == e.key && Misses(calls[j]) && calls[j].now == e.start
  }

  ghost predicate Traced(table: seq<Entry>, calls: seq<Call>) {
    forall e :: e in table ==> BeganWith(e, calls)
  }

  lemma BeganLater(e: Entry, calls: seq<Call>, call: Call)
    ensures BeganWith(e, calls) ==> BeganWith(e, calls + [call])
    ensures e.key == call.key && e.start == call.now && Misses(call) ==> BeganWith(e, calls + [call])
  {
    hide Misses;
    var all := calls + [call];
    assert all[|calls|] == call;
    if BeganWith(e, calls) {
      var j :| 0 <= j < |calls| && calls[j].key == e.key && Misses(calls[j]) && calls[j].now == e.start;
      assert all[j] == calls[j];
    }
  }

  lemma FewerEntries(table: seq<Entry>, call: Call, key: string)
    ensures forall e :: e in Purged(table, call.now) ==> e in table
    ensures forall e :: e in WithPlace(table, key) ==> e in table
  {
    PurgedIsSuffix(table, call.now);
  }

  lemma BeganOfSame(e: Entry, f: Entry, calls: seq<Call>)
    requires BeganWith(e, calls) && e.key == f.key && e.start == f.start
    ensures forall call :: BeganWith(f, calls + [call])
  {
    forall call ensures BeganWith(f, calls + [call]) { BeganLater(e, calls, call); }
  }

  lemma RecordedIsTraced(table: seq<Entry>, calls: seq<Call>, call: Call, e: Entry)
    requires Traced(table, calls) && Misses(call) && e in Recorded(table, call.key, call.now)
    ensures BeganWith(e, calls + [call])
  {
    hide Get, Put, Misses, BeganWith;
    var b := Get(table, call.key).GetOr(Budget(0, call.now));
    FewerEntries(table, call, call.key);
    PutMembers(WithPlace(table, call.key), Entry(call.key, b.count + 1, b.start));
    GetIsEntry(table, call.key);
    BeganLater(e, calls, call);
    if e.key == call.key && Get(table, call.key).Some? && e == Entry(call.key, b.count + 1, b.start) {
      BeganOfSame(Entry(call.key, b.count, b.start), e, calls);
    }
  }

  lemma CallKeepsTraced(table: seq<Entry>, calls: seq<Call>, call: Call)
    requires Traced(table, calls)
    ensures Traced(Verified(table, call).0, calls + [call])
  {
    hide Get, Purged, Recorded, BeganWith;
    var purged := Purged(table, call.now);
    FewerEntries(table, call, call.key);
    forall e | e in Verified(table, call).0 ensures BeganWith(e, calls + [call]) {
      BeganLater(e, calls, call);
      if e !in table { RecordedIsTraced(purged, calls, call, e); }
    }
  }

  ghost function Keys(table: seq<Entry>): set<string> {
    if table == [] then {} else Keys(table[1..]) + {table[0].key}
  }

  lemma {:induction false} KeysMembers(table: seq<Entry>)
    ensures forall e :: e in table ==> e.key in Keys(table)
    ensures forall x :: x in Keys(table) ==> exists e :: e in table && e.key == x
  {
    if table != [] {
      var rest := table[1..];
      KeysMembers(rest);
      assert forall e :: e in table <==> e == table[0] || e in rest;
      forall x | x in Keys(table) ensures exists e :: e in table && e.key == x {
        if x == table[0].key { assert table[0] in table; } else { assert x in Keys(rest); }
      }
    }
  }

  lemma {:induction false} KeysCount(table: seq<Entry>, clock: real)
    requires Sound(table, clock)
    ensures |Keys(table)| == |table|
  {
    if table != [] {
      SoundIsLed(table, clock);
      hide Sound;
      KeysCount(table[1..], clock);
      KeysMembers(table[1..]);
      assert table[0].key !in Keys(table[1..]);
    }
  }

  lemma WindowInCrowd(e: Entry, calls: seq<Call>, call: Call, key: string)
    requires BeganWith(e, calls) && e.key != key && !Expired(e.start, call.now)
    ensures e.key in Crowd(calls + [call], key)
  {
    hide Misses, Expired;
    var j :| 0 <= j < |calls| && calls[j].key == e.key && Misses(calls[j]) && calls[j].now == e.start;
    assert (calls + [call])[j] == calls[j];
  }

  lemma CallerInCrowd(calls: seq<Call>, call: Call, key: string)
    requires Misses(call) && call.key != key
    ensures call.key in Crowd(calls + [call], key)
  {
    assert (calls + [call])[|calls|] == call;
  }

  /** A full table without the caller: MAX_CLIENTS - 1 clients but `key`, and the caller. */
  lemma FullTable(table: seq<Entry>, call: Call, key: string)
    requires Inv(table, call.now) && |table| >= MAX_CLIENTS && table[0].key == key && Get(table, call.key).None?
    ensures |Keys(table) - {key} + {call.key}| == MAX_CLIENTS
  {
    KeysCount(table, call.now);
    KeysMembers(table);
    hide Keys, Sound, Get;
    GetIsEntry(table, call.key);
    assert table[0] in table && key in Keys(table);
    assert call.key !in Keys(table);
  }

  /** Evicting a client takes MAX_CLIENTS others that missed within a window's length. */
  lemma EvictionNeedsCrowd(table: seq<Entry>, calls: seq<Call>, call: Call, key: string, clock: real)
    requires Inv(table, clock) && clock <= call.now && Traced(table, calls) && Evicts(table, call, key)
    ensures |Crowd(calls + [call], key)| >= MAX_CLIENTS
  {
    hide Purged, Get, Sound, BeganWith, Crowd, Keys;
    var purged, all := Purged(table, call.now), calls + [call];
    PurgedInv(table, call.now, clock);
    PurgedIsSuffix(table, call.now);
    FullTable(purged, call, key);
    KeysMembers(purged);
    CallerInCrowd(calls, call, key);
    FewerEntries(table, call, key);
    var missed := Keys(purged) - {key} + {call.key};
    forall x | x in missed ensures x in Crowd(all, key) {
      if x != call.key {
        var e :| e in purged && e.key == x;
        LiveAfterLive(purged, e, call.now, call.now);
        WindowInCrowd(e, calls, call, key);
      }
    }
    SubsetSize(missed, Crowd(all, key));
  }

  /** At the run's i-th call fewer than MAX_CLIENTS other clients have missed within a window's length. */
  ghost predicate Uncrowded(past: seq<Call>, calls: seq<Call>, i: nat, key: string)
    requires i < |calls|
  {
    |Crowd(past + calls[..i + 1], key)| < 10000
  }

  ghost predicate NeverCrowded(past: seq<Call>, calls: seq<Call>, key: string) {
    forall i :: 0 <= i < |calls| ==> Uncrowded(past, calls, i, key)
  }

  lemma NotCrowdedNow(past: seq<Call>, calls: seq<Call>, key: string)
    requires calls != [] && NeverCrowded(past, calls, key)
    ensures |Crowd(past + [calls[0]], key)| < MAX_CLIENTS
    ensures NeverCrowded(past + [calls[0]], calls[1..], key)
  {
    hide Crowd;
    assert calls[..1] == [calls[0]] && Uncrowded(past, calls, 0, key);
    var rest := calls[1..];
    forall i | 0 <= i < |rest| ensures Uncrowded(past + [calls[0]], rest, i, key) {
      assert (past + [calls[0]]) + rest[..i + 1] == past + calls[..(i + 1) + 1];
      assert Uncrowded(past, calls, i + 1, key);
    }
  }

  lemma {:induction false} UncrowdedFrom(
    table: seq<Entry>, past: seq<Call>, calls: seq<Call>, key: string, clock: real)
    requires Inv(table, clock) && Traced(table, past) && Nondecreasing(calls, clock) && NeverCrowded(past, calls, key)
    ensures NeverEvicted(table, calls, key)
    decreases |calls|
  {
    if calls != [] {
      hide Inv, Verified, Evicts, Traced, Crowd, NeverCrowded;
      NotCrowdedNow(past, calls, key);
      if Evicts(table, calls[0], key) { EvictionNeedsCrowd(table, past, calls[0], key, clock); }
      VerifyKeepsInv(table, calls[0], clock);
      CallKeepsTraced(table, past, calls[0]);
      UncrowdedFrom(Verified(table, calls[0]).0, past + [calls[0]], calls[1..], key, calls[0].now);
    }
  }

  /** While fewer than MAX_CLIENTS other clients miss within any window's length, a client is never evicted: what
      holds absent eviction holds then. */
  lemma FewOthersNeverEvict(calls: seq<Call>, key: string, clock: real)
    requires Nondecreasing(calls, clock) && NeverCrowded([], calls, key)
    ensures NeverEvicted([], calls, key)
  {
    hide NeverCrowded, NeverEvicted, Nondecreasing;
    UncrowdedFrom([], [], calls, key, clock);
  }

  // ---- MAX_CLIENTS others suffice ----

  /** A client other than `key`, and than every one with another number. */
  function Name(key: string, n: nat): string { key + seq(n + 1, _ => 'x') }

  function Miss(key: string, now: real): Call { Call(now, key, Some("wrong"), None) }

  /** The client misses once, then n others, all at one moment. */
  function Rush(key: string, now: real, n: nat): (calls: seq<Call>)
    ensures |calls| == n + 1 && forall i :: 0 <= i < |calls| ==> calls[i].now == now && Misses(calls[i])
  {
    if n == 0 then [Miss(key, now)] else Rush(key, now, n - 1) + [Miss(Name(key, n - 1), now)]
  }

  function After(table: seq<Entry>, calls: seq<Call>): seq<Entry>
    decreases |calls|
  {
    if calls == [] then table else Verified(After(table, calls[..|calls| - 1]), calls[|calls| - 1]).0
  }

  /** The windows the rush leaves while there is place. */
  function Rushed(key: string, now: real, n: nat): seq<Entry> {
    [Entry(key, 1, now)] + seq(n, i requires 0 <= i < n => Entry(Name(key, i), 1, now))
  }

  lemma {:induction false} GetOfNew(table: seq<Entry>, e: Entry)
    requires forall x :: x in table ==> x.key != e.key
    ensures Get(table, e.key).None? && Put(table, e) == table + [e]
  {
    if table != [] {
      assert table[0] in table && forall x :: x in table[1..] ==> x in table;
      GetOfNew(table[1..], e);
      assert table == [table[0]] + table[1..];
    }
  }

  lemma NewMiss(table: seq<Entry>, key: string, now: real)
    requires (forall x :: x in table ==> x.key != key) && (table != [] ==> table[0].start == now)
    requires |table| < MAX_CLIENTS
    ensures Verified(table, Miss(key, now)).0 == table + [Entry(key, 1, now)]
  {
    GetOfNew(table, Entry(key, 1, now));
  }

  lemma RushedNames(key: string, now: real, n: nat)
    ensures forall x :: x in Rushed(key, now, n) ==> x.key != Name(key, n)
    ensures |Rushed(key, now, n)| == n + 1 && Rushed(key, now, n)[0] == Entry(key, 1, now)
    ensures Rushed(key, now, n + 1) == Rushed(key, now, n) + [Entry(Name(key, n), 1, now)]
  {
    forall x | x in Rushed(key, now, n) ensures |x.key| != |Name(key, n)| {
      var i :| 0 <= i <= n && Rushed(key, now, n)[i] == x;
      assert i > 0 ==> x.key == Name(key, i - 1);
    }
  }

  lemma RushBegins(key: string, now: real)
    ensures After([], Rush(key, now, 0)) == Rushed(key, now, 0)
  {
    NewMiss([], key, now);
    assert Rush(key, now, 0)[..0] == [];
    assert [] + [Entry(key, 1, now)] == Rushed(key, now, 0);
  }

  lemma AfterOneMore(table: seq<Entry>, calls: seq<Call>, call: Call)
    ensures After(table, calls + [call]) == Verified(After(table, calls), call).0
  {
    hide Verified;
    assert (calls + [call])[..|calls|] == calls;
  }

  lemma {:induction false} RushFills(key: string, now: real, n: nat)
    requires n < MAX_CLIENTS
    ensures After([], Rush(key, now, n)) == Rushed(key, now, n)
  {
    hide Verified, Rushed, Name, After;
    if n == 0 {
      RushBegins(key, now);
    } else {
      RushFills(key, now, n - 1);
      RushedNames(key, now, n - 1);
      NewMiss(Rushed(key, now, n - 1), Name(key, n - 1), now);
      AfterOneMore([], Rush(key, now, n - 1), Miss(Name(key, n - 1), now));
    }
  }

  lemma {:induction false} AfterFirst(table: seq<Entry>, calls: seq<Call>)
    requires calls != []
    ensures After(table, calls) == After(Verified(table, calls[0]).0, calls[1..])
    decreases |calls|
  {
    hide Verified;
    var n := |calls| - 1;
    if n == 0 {
      assert calls[..0] == [] && calls[1..] == [];
    } else {
      AfterFirst(table, calls[..n]);
      assert calls[..n][1..] == calls[1..][..n - 1] && calls[1..][n - 1] == calls[n];
    }
  }

  lemma {:induction false} EvictedAfter(table: seq<Entry>, calls: seq<Call>, call: Call, key: string)
    requires Evicts(After(table, calls), call, key)
    ensures !NeverEvicted(table, calls + [call], key)
    decreases |calls|
  {
    hide Verified, Evicts;
    var all := calls + [call];
    if calls != [] {
      AfterFirst(table, calls);
      assert all[0] == calls[0] && all[1..] == calls[1..] + [call];
      EvictedAfter(Verified(table, calls[0]).0, calls[1..], call, key);
    }
  }

  lemma {:induction false} RushCalls(key: string, now: real, n: nat)
    ensures Rush(key, now, n)[0] == Miss(key, now)
    ensures forall i :: 0 <= i < n ==> Rush(key, now, n)[i + 1] == Miss(Name(key, i), now)
  {
    if n > 0 {
      RushCalls(key, now, n - 1);
      var before := Rush(key, now, n - 1);
      forall i | 0 <= i < n ensures Rush(key, now, n)[i + 1] == Miss(Name(key, i), now) {
        if i < n - 1 { assert Rush(key, now, n)[i + 1] == before[i + 1]; }
      }
    }
  }

  function Names(key: string, n: nat): set<string> { set i | 0 <= i < n :: Name(key, i) }

  lemma {:induction false} NamesCount(key: string, n: nat)
    ensures |Names(key, n)| == n
  {
    if n > 0 {
      NamesCount(key, n - 1);
      assert Names(key, n) == Names(key, n - 1) + {Name(key, n - 1)};
      forall i | 0 <= i < n - 1 ensures Name(key, i) != Name(key, n - 1) { assert |Name(key, i)| == |key| + i + 1; }
    }
  }

  lemma RushIsCrowd(key: string, now: real, n: nat)
    ensures |Crowd(Rush(key, now, n), key)| == n
  {
    RushCalls(key, now, n);
    NamesCount(key, n);
    var calls := Rush(key, now, n);
    assert calls[n].now == now;
    forall x | x in Names(key, n) ensures x in Crowd(calls, key) {
      var i :| 0 <= i < n && Name(key, i) == x;
      assert calls[i + 1].key == x && |x| == |key| + i + 1;
    }
    forall x | x in Crowd(calls, key) ensures x in Names(key, n) {
      var j :| 0 <= j < |calls| && calls[j].key != key && calls[j].key == x;
      assert calls[(j - 1) + 1] == Miss(Name(key, j - 1), now);
    }
    assert Crowd(calls, key) == Names(key, n);
  }

  lemma {:induction false} SameTimeIsOrdered(calls: seq<Call>, now: real)
    requires forall i :: 0 <= i < |calls| ==> calls[i].now == now
    ensures Nondecreasing(calls, now)
  {
    if calls != [] { SameTimeIsOrdered(calls[1..], now); }
  }

  /** The next new client takes the oldest window of a full table. */
  lemma FullGivesUp(key: string, now: real, n: nat)
    requires n + 1 == MAX_CLIENTS
    ensures var table, call := Rushed(key, now, n), Miss(Name(key, n), now);
            Evicts(table, call, key) && Get(Verified(table, call).0, key).None?
  {
    var table, call := Rushed(key, now, n), Miss(Name(key, n), now);
    RushedNames(key, now, n);
    GetOfNew(table, Entry(Name(key, n), 1, now));
    assert Purged(table, now) == table;
    assert Verified(table, call).0 == Put(table[1..], Entry(Name(key, n), 1, now));
    GetOfPut(table[1..], Entry(Name(key, n), 1, now), key);
    assert |Name(key, n)| == |key| + n + 1;
    GetIsEntry(table[1..], key);
    forall e | e in table[1..] ensures e.key != key {
      var i :| 0 <= i < n && table[1..][i] == e;
      assert e.key == Name(key, i) && |Name(key, i)| == |key| + i + 1;
    }
  }

  /** MAX_CLIENTS others do evict: the client missed just now and the table has forgotten it. */
  lemma ManyOthersEvict(key: string, now: real)
    ensures var calls := Rush(key, now, 10000);
            && Nondecreasing(calls, now) && |Crowd(calls, key)| == 10000
            && !NeverEvicted([], calls, key) && Get(After([], calls), key).None?
  {
    hide Crowd, Evicts, Verified, NeverEvicted, Get, Rushed;
    var n := MAX_CLIENTS - 1;
    var calls, before, last := Rush(key, now, MAX_CLIENTS), Rush(key, now, n), Miss(Name(key, n), now);
    RushIsCrowd(key, now, MAX_CLIENTS);
    SameTimeIsOrdered(calls, now);
    assert calls == before + [last] && calls[..|calls| - 1] == before;
    RushFills(key, now, n);
    FullGivesUp(key, now, n);
    EvictedAfter([], before, last, key);
  }

  // ---- The limit ----

  /** A recorded failure and the start of the window it was counted in. */
  datatype Failure = Failure(time: real, start: real)

  ghost function Failures(own: Option<Budget>, call: Call): seq<Failure> {
    if Submitted(call) && OwnVerified(own, call).1.Wrong? && !IsRight(call)
    then [Failure(call.now, OwnVerified(own, call).0.value.start)] else []
  }

  /** The failures a client's calls record. */
  ghost function History(own: Option<Budget>, calls: seq<Call>, so: seq<Failure>): seq<Failure>
    decreases |calls|
  {
    if calls == [] then so else History(OwnVerified(own, calls[0]).0, calls[1..], so + Failures(own, calls[0]))
  }

  /** Every failure lies in its window. */
  ghost predicate InWindows(h: seq<Failure>) {
    forall i :: 0 <= i < |h| ==> h[i].start <= h[i].time < h[i].start + JOIN_CODE_RATE_WINDOW_SECONDS
  }

  /** The failure at i opens its window, or another of that window stands before it. */
  ghost predicate OpensAt(h: seq<Failure>, i: nat)
    requires i < |h|
  {
    (i == 0 || h[i - 1].start != h[i].start) ==> h[i].time == h[i].start
  }

  ghost predicate Opened(h: seq<Failure>) {
    forall i :: 0 <= i < |h| ==> OpensAt(h, i)
  }

  /** Windows do not overlap. */
  ghost predicate Apart(h: seq<Failure>) {
    forall i, j :: 0 <= i < j < |h| && h[j].start != h[i].start ==>
      h[j].start >= h[i].start + JOIN_CODE_RATE_WINDOW_SECONDS
  }

  /** Of any eleven failures in a row the last lies in a later window than the first. */
  ghost predicate Limited(h: seq<Failure>) {
    && InWindows(h) && Opened(h) && Apart(h)
    && (forall i :: 0 <= i && i + JOIN_CODE_RATE_LIMIT < |h| ==>
          h[i + JOIN_CODE_RATE_LIMIT].start >= h[i].start + JOIN_CODE_RATE_WINDOW_SECONDS)
  }

  /** The last `count` failures are those of the budget's window; all others are of windows that are over. */
  ghost predicate Counted(h: seq<Failure>, own: Option<Budget>, clock: real) {
    var count := if own.Some? then own.value.count else 0;
    && count <= |h| && (own.Some? ==> own.value.start <= clock && 1 <= count <= JOIN_CODE_RATE_LIMIT)
    && (forall i :: |h| - count <= i < |h| ==> h[i].start == own.value.start)
    && (forall i :: 0 <= i < |h| - count ==>
          h[i].start + JOIN_CODE_RATE_WINDOW_SECONDS <= if own.Some? then own.value.start else clock)
  }

  /** The budget counts the last failures of `h`, and may count one more. */
  ghost predicate MayCount(h: seq<Failure>, b: Budget, now: real) {
    && b.count < JOIN_CODE_RATE_LIMIT && b.count <= |h|
    && b.start <= now < b.start + JOIN_CODE_RATE_WINDOW_SECONDS && (b.count == 0 ==> b.start == now)
    && (forall i :: |h| - b.count <= i < |h| ==> h[i].start == b.start)
    && (forall i :: 0 <= i < |h| - b.count ==> h[i].start + JOIN_CODE_RATE_WINDOW_SECONDS <= b.start)
  }

  lemma FailureApart(h: seq<Failure>, b: Budget, now: real)
    requires Apart(h) && MayCount(h, b, now)
    ensures Apart(h + [Failure(now, b.start)])
  {
    var after := h + [Failure(now, b.start)];
    forall i, j | 0 <= i < j < |after| && after[j].start != after[i].start
      ensures after[j].start >= after[i].start + JOIN_CODE_RATE_WINDOW_SECONDS
    {
      if j < |h| { assert after[j] == h[j] && after[i] == h[i]; }
    }
  }

  lemma FailureInWindow(h: seq<Failure>, b: Budget, now: real)
    requires InWindows(h) && MayCount(h, b, now)
    ensures InWindows(h + [Failure(now, b.start)])
  {
  }

  lemma FailureOpened(h: seq<Failure>, b: Budget, now: real)
    requires Opened(h) && MayCount(h, b, now)
    ensures Opened(h + [Failure(now, b.start)])
  {
    var after := h + [Failure(now, b.start)];
    if b.count > 0 { assert h[|h| - 1].start == b.start; }
    forall i | 0 <= i < |after| ensures OpensAt(after, i) {
      if i < |h| {
        assert OpensAt(h, i) && after[i] == h[i] && (i > 0 ==> after[i - 1] == h[i - 1]);
      } else if i > 0 {
        assert after[i - 1] == h[|h| - 1] && after[i] == Failure(now, b.start);
      }
    }
  }

  lemma FailureKeepsLimited(h: seq<Failure>, b: Budget, now: real)
    requires Limited(h) && MayCount(h, b, now)
    ensures Limited(h + [Failure(now, b.start)])
  {
    FailureApart(h, b, now);
    FailureInWindow(h, b, now);
    FailureOpened(h, b, now);
    hide Apart, Opened, InWindows;
  }

  lemma FailureKeepsCounted(h: seq<Failure>, b: Budget, now: real)
    requires MayCount(h, b, now)
    ensures Counted(h + [Failure(now, b.start)], Some(Budget(b.count + 1, b.start)), now)
  {
  }

  lemma CountedMayCount(h: seq<Failure>, own: Option<Budget>, clock: real, now: real)
    requires Counted(h, own, clock) && clock <= now
    ensures Counted(h, Current(own, now), now)
    ensures var b := Current(own, now).GetOr(Budget(0, now)); b.count < JOIN_CODE_RATE_LIMIT ==> MayCount(h, b, now)
  {
  }

  lemma CountedLater(h: seq<Failure>, own: Option<Budget>, clock: real, now: real)
    requires Counted(h, own, clock) && clock <= now
    ensures Counted(h, own, now)
  {
  }

  lemma CallKeepsCounted(h: seq<Failure>, own: Option<Budget>, call: Call, clock: real)
    requires Limited(h) && Counted(h, own, clock) && clock <= call.now
    ensures Limited(h + Failures(own, call)) && Counted(h + Failures(own, call), OwnVerified(own, call).0, call.now)
  {
    hide Limited, Counted, MayCount;
    CountedMayCount(h, own, clock, call.now);
    CountedLater(h, own, clock, call.now);
    if Failures(own, call) == [] {
      assert h + [] == h;
    } else {
      var b := Current(own, call.now).GetOr(Budget(0, call.now));
      FailureKeepsLimited(h, b, call.now);
      FailureKeepsCounted(h, b, call.now);
    }
  }

  lemma {:induction false} OwnTenPerWindow(own: Option<Budget>, calls: seq<Call>, h: seq<Failure>, clock: real)
    requires Limited(h) && Counted(h, own, clock) && Nondecreasing(calls, clock)
    ensures Limited(History(own, calls, h))
    decreases |calls|
  {
    if calls != [] {
      hide Limited, Counted, Failures, OwnVerified;
      CallKeepsCounted(h, own, calls[0], clock);
      OwnTenPerWindow(OwnVerified(own, calls[0]).0, calls[1..], h + Failures(own, calls[0]), calls[0].now);
    }
  }

  lemma TwentySpanAMinute(h: seq<Failure>, i: nat)
    requires Limited(h) && i + 19 < |h|
    ensures h[i + 19].time - h[i].time >= JOIN_CODE_RATE_WINDOW_SECONDS
  {
    assert h[i + 9 + JOIN_CODE_RATE_LIMIT].start >= h[i + 9].start + JOIN_CODE_RATE_WINDOW_SECONDS;
    if h[i + 9].start == h[i].start {
      if i > 0 { assert h[i - 1 + JOIN_CODE_RATE_LIMIT].start >= h[i - 1].start + JOIN_CODE_RATE_WINDOW_SECONDS; }
      assert OpensAt(h, i);
    }
  }

  // ---- The limit on the table ----

  /** The client's calls alone. */
  ghost function Own(calls: seq<Call>, key: string): seq<Call> {
    if calls == [] then [] else (if calls[0].key == key then [calls[0]] else []) + Own(calls[1..], key)
  }

  /** The failure of the client that a call leaves in the table, and the start of the window it is counted in. */
  ghost function Noted(table: seq<Entry>, call: Call, key: string): seq<Failure> {
    if call.key == key && Submitted(call) && !IsRight(call) && Verified(table, call).1.Wrong?
    then [Failure(call.now, Get(Verified(table, call).0, key).GetOr(Budget(0, call.now)).start)] else []
  }

  /** The failures of the client that the table records along a run. */
  ghost function TableHistory(table: seq<Entry>, calls: seq<Call>, key: string, so: seq<Failure>): seq<Failure>
    decreases |calls|
  {
    if calls == [] then so
    else TableHistory(Verified(table, calls[0]).0, calls[1..], key, so + Noted(table, calls[0], key))
  }

  lemma NotedIsOwn(table: seq<Entry>, own: Option<Budget>, call: Call, clock: real)
    requires Inv(table, clock) && clock <= call.now && Linked(table, own, call.key, clock)
    ensures Noted(table, call, call.key) == Failures(own, call)
  {
    hide Inv, Verified, Get;
    OwnCallLinked(table, own, call, clock);
  }

  lemma OrderedEarlier(calls: seq<Call>, clock: real, later: real)
    requires clock <= later && Nondecreasing(calls, later)
    ensures Nondecreasing(calls, clock)
  {
  }

  lemma {:induction false} OwnAreOrdered(calls: seq<Call>, key: string, clock: real)
    requires Nondecreasing(calls, clock)
    ensures Nondecreasing(Own(calls, key), clock)
    decreases |calls|
  {
    if calls != [] {
      OwnAreOrdered(calls[1..], key, calls[0].now);
      var rest := Own(calls[1..], key);
      if calls[0].key == key {
        assert ([calls[0]] + rest)[1..] == rest;
      } else {
        assert [] + rest == rest;
        OrderedEarlier(rest, clock, calls[0].now);
      }
    }
  }

  lemma OwnFirst(calls: seq<Call>, key: string, own: Option<Budget>, so: seq<Failure>)
    requires calls != []
    ensures History(own, Own(calls, key), so)
            == if calls[0].key == key
               then History(OwnVerified(own, calls[0]).0, Own(calls[1..], key), so + Failures(own, calls[0]))
               else History(own, Own(calls[1..], key), so)
  {
    hide OwnVerified, Failures;
    var rest := Own(calls[1..], key);
    assert ([calls[0]] + rest)[1..] == rest && [] + rest == rest;
  }

  lemma OwnNone(key: string, own: Option<Budget>, so: seq<Failure>)
    ensures History(own, Own([], key), so) == so
  {
  }

  lemma OthersNoteNothing(table: seq<Entry>, call: Call, key: string, so: seq<Failure>)
    requires call.key != key
    ensures so + Noted(table, call, key) == so
  {
  }

  /** Absent eviction the table records of a client what its own history says. */
  lemma {:induction false} TableIsOwn(
    table: seq<Entry>, own: Option<Budget>, calls: seq<Call>, key: string, so: seq<Failure>, clock: real)
    requires Inv(table, clock) && Linked(table, own, key, clock)
    requires Nondecreasing(calls, clock) && NeverEvicted(table, calls, key)
    ensures TableHistory(table, calls, key, so) == History(own, Own(calls, key), so)
    decreases |calls|
  {
    hide Verified, OwnVerified, Inv, Linked, Evicts, History, Own, Noted, Failures;
    if calls == [] {
      OwnNone(key, own, so);
    } else {
      var c := calls[0];
      VerifyKeepsInv(table, c, clock);
      OwnFirst(calls, key, own, so);
      if c.key == key {
        OwnCallLinked(table, own, c, clock);
        NotedIsOwn(table, own, c, clock);
        TableIsOwn(Verified(table, c).0, OwnVerified(own, c).0, calls[1..], key, so + Failures(own, c), c.now);
      } else {
        OtherCallLinked(table, own, c, key, clock);
        OthersNoteNothing(table, c, key, so);
        TableIsOwn(Verified(table, c).0, own, calls[1..], key, so, c.now);
      }
    }
  }

  lemma EmptyIsLinked(key: string, clock: real)
    ensures Inv([], clock) && Linked([], None, key, clock)
  {
  }

  lemma StartsLimited()
    ensures Limited([]) && forall clock :: Counted([], None, clock)
  {
  }

  /** On every run of the table during which a client's window is not evicted: its failures lie in their
      windows, windows do not overlap, and of any eleven failures the last is in a later window. */
  lemma TenPerWindow(calls: seq<Call>, key: string, clock: real)
    requires Nondecreasing(calls, clock) && NeverEvicted([], calls, key)
    ensures Limited(TableHistory([], calls, key, []))
  {
    hide History, TableHistory, Limited, NeverEvicted;
    EmptyIsLinked(key, clock);
    TableIsOwn([], None, calls, key, [], clock);
    OwnAreOrdered(calls, key, clock);
    StartsLimited();
    OwnTenPerWindow(None, Own(calls, key), [], clock);
  }

  /** Of any twenty failures in a row the table recorded for a client the last comes at least sixty seconds
      after the first: no half-open minute holds more than nineteen. */
  lemma AtMostNineteenPerMinute(calls: seq<Call>, key: string, clock: real, i: nat)
    requires Nondecreasing(calls, clock) && NeverEvicted([], calls, key)
    requires i + 19 < |TableHistory([], calls, key, [])|
    ensures var h := TableHistory([], calls, key, []);
            h[i + 19].time - h[i].time >= JOIN_CODE_RATE_WINDOW_SECONDS
  {
    hide TableHistory, NeverEvicted, Limited;
    TenPerWindow(calls, key, clock);
    TwentySpanAMinute(TableHistory([], calls, key, []), i);
  }

  // ---- Nineteen are possible ----

  function Guess(now: real): Call { Call(now, "client", Some("wrong"), None) }

  function Guesses(now: real, n: nat): (calls: seq<Call>)
    ensures |calls| == n && forall i :: 0 <= i < n ==> calls[i] == Guess(now)
  {
    if n == 0 then [] else [Guess(now)] + Guesses(now, n - 1)
  }

  function Recordings(now: real, start: real, n: nat): (h: seq<Failure>)
    ensures |h| == n && forall i :: 0 <= i < n ==> h[i] == Failure(now, start)
  {
    if n == 0 then [] else [Failure(now, start)] + Recordings(now, start, n - 1)
  }

  /** A burst of wrong guesses in a live window is recorded in full while the budget lasts. */
  lemma {:induction false} Burst(own: Option<Budget>, now: real, n: nat, rest: seq<Call>, h: seq<Failure>)
    requires Current(own, now).GetOr(Budget(0, now)).count + n <= JOIN_CODE_RATE_LIMIT && n > 0
    ensures var b := Current(own, now).GetOr(Budget(0, now));
            History(own, Guesses(now, n) + rest, h)
            == History(Some(Budget(b.count + n, b.start)), rest, h + Recordings(now, b.start, n))
    decreases n
  {
    var b := Current(own, now).GetOr(Budget(0, now));
    var calls := Guesses(now, n) + rest;
    assert calls[0] == Guess(now) && calls[1..] == Guesses(now, n - 1) + rest;
    var next := Some(Budget(b.count + 1, b.start));
    assert OwnVerified(own, Guess(now)) == (next, Wrong);
    assert Failures(own, Guess(now)) == [Failure(now, b.start)];
    assert h + Recordings(now, b.start, n) == (h + [Failure(now, b.start)]) + Recordings(now, b.start, n - 1);
    if n == 1 {
      assert Guesses(now, 0) + rest == rest;
      assert h + [Failure(now, b.start)] == h + Recordings(now, b.start, 1);
    } else {
      Burst(next, now, n - 1, rest, h + [Failure(now, b.start)]);
    }
  }

  lemma {:induction false} GuessesAreOrdered(now: real, n: nat, rest: seq<Call>, clock: real)
    requires clock <= now && Nondecreasing(rest, now)
    ensures Nondecreasing(Guesses(now, n) + rest, clock)
    decreases n
  {
    if n == 0 {
      assert Guesses(now, 0) + rest == rest;
    } else {
      assert (Guesses(now, n) + rest)[1..] == Guesses(now, n - 1) + rest;
      GuessesAreOrdered(now, n - 1, rest, now);
    }
  }

  lemma {:induction false} GuessesAreOwn(now: real, n: nat, rest: seq<Call>)
    ensures Own(Guesses(now, n) + rest, "client") == Guesses(now, n) + Own(rest, "client")
  {
    var calls := Guesses(now, n) + rest;
    if n == 0 {
      assert calls == rest && Guesses(now, n) + Own(rest, "client") == Own(rest, "client");
    } else {
      assert calls[0] == Guess(now) && calls[1..] == Guesses(now, n - 1) + rest;
      GuessesAreOwn(now, n - 1, rest);
      assert [Guess(now)] + (Guesses(now, n - 1) + Own(rest, "client")) == Guesses(now, n) + Own(rest, "client");
    }
  }

  lemma {:induction false} OwnEvictsNobody(table: seq<Entry>, calls: seq<Call>, key: string)
    requires forall i :: 0 <= i < |calls| ==> calls[i].key == key
    ensures NeverEvicted(table, calls, key)
    decreases |calls|
  {
    if calls != [] {
      hide Verified;
      OwnEvictsNobody(Verified(table, calls[0]).0, calls[1..], key);
    }
  }

  /** One wrong guess, nine just before its window ends and ten when the next begins. */
  function Twenty(gap: real): seq<Call> {
    Guesses(0.0, 1) + (Guesses(JOIN_CODE_RATE_WINDOW_SECONDS - gap, 9) + Guesses(JOIN_CODE_RATE_WINDOW_SECONDS, 10))
  }

  lemma TwentyOfOwn(gap: real)
    requires 0.0 < gap <= JOIN_CODE_RATE_WINDOW_SECONDS
    ensures Nondecreasing(Twenty(gap), 0.0) && Own(Twenty(gap), "client") == Twenty(gap)
    ensures forall i :: 0 <= i < |Twenty(gap)| ==> Twenty(gap)[i].key == "client"
    ensures var h := History(None, Twenty(gap), []); |h| == 20 && h[19].time - h[1].time == gap
  {
    hide Failures, OwnVerified;
    var late, next := JOIN_CODE_RATE_WINDOW_SECONDS - gap, JOIN_CODE_RATE_WINDOW_SECONDS;
    var second, third := Guesses(late, 9), Guesses(next, 10);
    GuessesAreOrdered(next, 10, [], late);
    assert third + [] == third;
    GuessesAreOrdered(late, 9, third, 0.0);
    GuessesAreOrdered(0.0, 1, second + third, 0.0);
    GuessesAreOwn(next, 10, []);
    GuessesAreOwn(late, 9, third);
    GuessesAreOwn(0.0, 1, second + third);
    Burst(None, 0.0, 1, second + third, []);
    Burst(Some(Budget(1, 0.0)), late, 9, third, [] + Recordings(0.0, 0.0, 1));
    Burst(Some(Budget(10, 0.0)), next, 10, [], [] + Recordings(0.0, 0.0, 1) + Recordings(late, 0.0, 9));
  }

  /** Of these the table records nineteen within `gap` seconds, however small. So ten per window is not ten per
      minute, and nineteen is exact. */
  lemma NineteenAtOnce(gap: real)
    requires 0.0 < gap <= JOIN_CODE_RATE_WINDOW_SECONDS
    ensures Nondecreasing(Twenty(gap), 0.0) && NeverEvicted([], Twenty(gap), "client")
    ensures var h := TableHistory([], Twenty(gap), "client", []); |h| == 20 && h[19].time - h[1].time == gap
  {
    TwentyOfOwn(gap);
    OwnEvictsNobody([], Twenty(gap), "client");
    hide History, TableHistory, NeverEvicted, Own, Twenty;
    EmptyIsLinked("client", 0.0);
    TableIsOwn([], None, Twenty(gap), "client", [], 0.0);
  }
}
