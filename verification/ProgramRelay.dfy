/** portal/program_relay.py: the reconciliation pass that makes the relay service match the rooms that
    want a relay, run against the service's listing (RelayService.EnsureOn). */
module ProgramRelay {
  import opened Basics
  import opened RelayService

  /** How one HTTP call ended: it worked, it was refused before it had any effect, or it had its effect
      and the answer was lost. */
  datatype Answer = Fine | Refused | Lost

  datatype Health = Degraded | AtCapacity | ServiceFull | Reported

  datatype Request = StopRelay(room: nat) | StartRelay(room: nat, status: Status)

  /** What the pass cannot know beforehand: whether each call gets through. */
  datatype Network = Network(listFails: bool, stops: nat -> Answer, starts: nat -> Answer)

  // ---- sorted(wanted, key=(not live, room_id)) ----

  predicate Before(live: set<nat>, a: nat, b: nat) {
    if (a in live) == (b in live) then a < b else a in live
  }

  predicate IsLeast(rooms: set<nat>, live: set<nat>, m: nat) {
    m in rooms && forall x :: x in rooms ==> x == m || Before(live, m, x)
  }

  lemma LeastExists(rooms: set<nat>, live: set<nat>)
    requires rooms != {}
    ensures exists m :: IsLeast(rooms, live, m)
  {
    var x :| x in rooms;
    if rooms == {x} {
      assert IsLeast(rooms, live, x);
    } else {
      LeastExists(rooms - {x}, live);
      var m :| IsLeast(rooms - {x}, live, m);
      forall y | y in rooms ensures var k := if Before(live, x, m) then x else m; y == k || Before(live, k, y) {
        assert y == x || y in rooms - {x};
      }
      assert IsLeast(rooms, live, if Before(live, x, m) then x else m);
    }
  }

  function Least(rooms: set<nat>, live: set<nat>): (m: nat)
    requires rooms != {}
    ensures IsLeast(rooms, live, m)
  {
    LeastExists(rooms, live);
    var m :| m in rooms && IsLeast(rooms, live, m);
    m
  }

  function Order(rooms: set<nat>, live: set<nat>): seq<nat> {
    if rooms == {} then [] else var m := Least(rooms, live); [m] + Order(rooms - {m}, live)
  }

  lemma {:induction false} OrderFacts(rooms: set<nat>, live: set<nat>)
    ensures var o := Order(rooms, live);
            && |o| == |rooms|
            && (forall r :: r in o <==> r in rooms)
            && (forall i, j :: 0 <= i < j < |o| ==> Before(live, o[i], o[j]))
  {
    if rooms != {} {
      var m := Least(rooms, live);
      var rest := Order(rooms - {m}, live);
      OrderFacts(rooms - {m}, live);
      var o := Order(rooms, live);
      assert o == [m] + rest;
      forall i, j | 0 <= i < j < |o| ensures Before(live, o[i], o[j]) {
        assert o[j] == rest[j - 1] && o[j] in rest;
      }
    }
  }

  ghost predicate IsOrder(order: seq<nat>, wanted: map<nat, Target>, live: map<nat, Target>) {
    && (forall r :: r in order <==> r in wanted)
    && (forall i :: 0 <= i < |order| ==> order[i] in wanted)
    && (forall i, j :: 0 <= i < j < |order| ==> order[i] != order[j] && Before(live.Keys, order[i], order[j]))
  }

  lemma OrderIsOrder(wanted: map<nat, Target>, live: map<nat, Target>)
    ensures IsOrder(Order(wanted.Keys, live.Keys), wanted, live)
  {
    OrderFacts(wanted.Keys, live.Keys);
    hide Order;
    var order := Order(wanted.Keys, live.Keys);
    assert forall i :: 0 <= i < |order| ==> order[i] in order;
  }

  lemma OneLeast(rooms: set<nat>, live: set<nat>, m: nat, n: nat)
    requires IsLeast(rooms, live, m) && IsLeast(rooms, live, n)
    ensures m == n
  {
  }

  /** The order depends on the listing only as far as it names wanted rooms. */
  lemma {:induction false} OrderDepends(rooms: set<nat>, live: set<nat>, other: set<nat>)
    requires live * rooms == other * rooms
    ensures Order(rooms, live) == Order(rooms, other)
  {
    if rooms != {} {
      var m := Least(rooms, live);
      forall x, y | x in rooms && y in rooms ensures Before(live, x, y) == Before(other, x, y) {
        assert x in live * rooms <==> x in other * rooms;
        assert y in live * rooms <==> y in other * rooms;
      }
      OneLeast(rooms, other, m, Least(rooms, other));
      assert live * (rooms - {m}) == (live * rooms) - {m} == (other * rooms) - {m} == other * (rooms - {m});
      OrderDepends(rooms - {m}, live, other);
    }
  }

  // ---- The pass on values ----

  /** One pass: the listing it read, what it wants, the two limits and how its calls end. */
  datatype Pass = Pass(live: map<nat, Target>, wanted: map<nat, Target>, capacity: nat, max: nat, net: Network)

  /** What the service lists after the stop calls. */
  function AfterStops(p: Pass): map<nat, Target> {
    map room | room in p.live && (room in p.wanted || p.net.stops(room) == Refused) :: p.live[room]
  }

  /** The room has no relay, or one whose fingerprint is out of date. */
  predicate Starts(live: map<nat, Target>, wanted: map<nat, Target>, room: nat)
    requires room in wanted
  {
    room !in live || live[room].fingerprint != wanted[room].fingerprint
  }

  /** One room within the portal's limit. */
  function AfterStart(p: Pass, before: map<nat, Target>, room: nat): map<nat, Target>
    requires room in p.wanted
  {
    if !Starts(p.live, p.wanted, room) || p.net.starts(room) == Refused then before
    else EnsureOn(before, p.capacity, room, p.wanted[room]).0
  }

  /** What the service lists after the first n rooms of the order were dealt with. */
  function AfterStarts(p: Pass, order: seq<nat>, n: nat): map<nat, Target>
    requires n <= |order| && forall i :: 0 <= i < |order| ==> order[i] in p.wanted
  {
    if n == 0 then AfterStops(p)
    else
      var before := AfterStarts(p, order, n - 1);
      if n > p.max then before else AfterStart(p, before, order[n - 1])
  }

  /** What the service answers to the start call for the room at position i, if the pass makes one. */
  function AnswerAt(p: Pass, order: seq<nat>, i: nat): Status
    requires i < |order| && forall i :: 0 <= i < |order| ==> order[i] in p.wanted
  {
    EnsureOn(AfterStarts(p, order, i), p.capacity, order[i], p.wanted[order[i]]).1
  }

  /** What the room at position i reads as its relay's health after the pass. */
  function HealthAt(p: Pass, order: seq<nat>, i: nat): Health
    requires i < |order| && forall i :: 0 <= i < |order| ==> order[i] in p.wanted
  {
    if i >= p.max then AtCapacity
    else if !Starts(p.live, p.wanted, order[i]) then Reported
    else if p.net.starts(order[i]) != Fine then Degraded
    else if AnswerAt(p, order, i) == Capacity503 then ServiceFull
    else Reported
  }

  /** The first n rooms of the order have their health written. */
  ghost predicate HealthWritten(health: map<nat, Health>, p: Pass, order: seq<nat>, n: nat)
    requires n <= |order| && forall i :: 0 <= i < |order| ==> order[i] in p.wanted
  {
    forall i :: 0 <= i < n ==> order[i] in health && health[order[i]] == HealthAt(p, order, i)
  }

  lemma HealthGrows(health: map<nat, Health>, p: Pass, order: seq<nat>, n: nat)
    requires IsOrder(order, p.wanted, p.live) && n < |order| && HealthWritten(health, p, order, n)
    ensures HealthWritten(health[order[n] := HealthAt(p, order, n)], p, order, n + 1)
  {
    hide HealthAt, Before;
  }

  function Synced(p: Pass): map<nat, Target> {
    if p.net.listFails then p.live
    else
      OrderIsOrder(p.wanted, p.live);
      var order := Order(p.wanted.Keys, p.live.Keys);
      AfterStarts(p, order, |order|)
  }

  // ---- The calls of a pass ----

  /** The start call for the room at position i, if the pass makes one. */
  function StartAt(p: Pass, order: seq<nat>, i: nat): seq<Request>
    requires i < |order| && forall i :: 0 <= i < |order| ==> order[i] in p.wanted
  {
    if i < p.max && Starts(p.live, p.wanted, order[i]) then [StartRelay(order[i], AnswerAt(p, order, i))] else []
  }

  function StartCalls(p: Pass, order: seq<nat>, n: nat): seq<Request>
    requires n <= |order| && forall i :: 0 <= i < |order| ==> order[i] in p.wanted
  {
    if n == 0 then [] else StartCalls(p, order, n - 1) + StartAt(p, order, n - 1)
  }

  lemma NoneStarted(p: Pass, order: seq<nat>)
    requires forall i :: 0 <= i < |order| ==> order[i] in p.wanted
    ensures AfterStarts(p, order, 0) == AfterStops(p) && StartCalls(p, order, 0) == []
  {
    hide AfterStops;
  }

  lemma OneMoreStarted(p: Pass, order: seq<nat>, n: nat)
    requires n < |order| && forall i :: 0 <= i < |order| ==> order[i] in p.wanted
    ensures StartCalls(p, order, n + 1) == StartCalls(p, order, n) + StartAt(p, order, n)
    ensures var before := AfterStarts(p, order, n);
            AfterStarts(p, order, n + 1) == if n < p.max then AfterStart(p, before, order[n]) else before
  {
    hide StartAt, AfterStart, AfterStops;
  }

  function StopCalls(rooms: seq<nat>): seq<Request> {
    seq(|rooms|, i requires 0 <= i < |rooms| => StopRelay(rooms[i]))
  }

  /** The rooms to stop, once each, in the order the pass takes them. */
  ghost predicate ListsOrphans(rooms: seq<nat>, p: Pass) {
    && (forall i, j :: 0 <= i < j < |rooms| ==> rooms[i] != rooms[j])
    && (forall room :: room in rooms <==> room in p.live && room !in p.wanted)
  }

  /** The listing needs no call: only wanted rooms are live, and the first max of the order as wanted. */
  ghost predicate Settled(live: map<nat, Target>, wanted: map<nat, Target>, order: seq<nat>, max: nat) {
    && live.Keys <= wanted.Keys
    && forall room :: room in wanted && Within(order, max, room) ==> !Starts(live, wanted, room)
  }

  /** The room is among the first max of the order. */
  ghost predicate Within(order: seq<nat>, max: nat, room: nat) {
    exists i :: 0 <= i < |order| && i < max && order[i] == room
  }

  lemma {:induction false} SettledStartsNone(p: Pass, order: seq<nat>, n: nat)
    requires n <= |order| && forall i :: 0 <= i < |order| ==> order[i] in p.wanted
    requires Settled(p.live, p.wanted, order, p.max)
    ensures StartCalls(p, order, n) == []
  {
    if n > 0 {
      SettledStartsNone(p, order, n - 1);
      assert n - 1 < p.max ==> Within(order, p.max, order[n - 1]);
    }
  }

  lemma FirstIsIn(rooms: seq<nat>)
    requires rooms != []
    ensures rooms[0] in rooms
  {
  }

  lemma SettledStopsNone(p: Pass, stops: seq<nat>, order: seq<nat>)
    requires ListsOrphans(stops, p) && Settled(p.live, p.wanted, order, p.max)
    ensures stops == [] && StopCalls(stops) == []
  {
    if stops != [] { FirstIsIn(stops); }
  }

  /** The portal side: health per room, the service it talks to and the calls it made. */
  class RelayControl {
    const capacity: nat  // the service's max_relays
    const max: nat       // PROGRAM_RELAY_MAX
    var relays: map<nat, Target>
    var health: map<nat, Health>
    var requests: seq<Request>

    constructor (capacity: nat, max: nat)
      ensures this.capacity == capacity && this.max == max && relays == map[] && health == map[] && requests == []
    {
      this.capacity, this.max, relays, health, requests := capacity, max, map[], map[], [];
    }

    ghost function ThisPass(wanted: map<nat, Target>, net: Network): Pass
      reads this
    {
      Pass(relays, wanted, capacity, max, net)
    }

    method StopOne(room: nat, answer: Answer, forgetHealth: bool)
      modifies this`relays, this`health, this`requests
      ensures relays == if answer == Refused then old(relays) else old(relays) - {room}
      ensures requests == old(requests) + [StopRelay(room)]
      ensures health == if answer == Fine && forgetHealth then old(health) - {room} else old(health)
    {
      if answer != Refused { relays := relays - {room}; }
      requests := requests + [StopRelay(room)];
      if answer == Fine && forgetHealth { health := health - {room}; }
    }

    method StartOne(room: nat, target: Target, answer: Answer)
      modifies this`relays, this`health, this`requests
      ensures relays == if answer == Refused then old(relays) else EnsureOn(old(relays), capacity, room, target).0
      ensures requests == old(requests) + [StartRelay(room, EnsureOn(old(relays), capacity, room, target).1)]
      ensures health == old(health)[room := if answer != Fine then Degraded
                                            else if EnsureOn(old(relays), capacity, room, target).1 == Capacity503
                                                 then ServiceFull else Reported]
    {
      var (listing, status) := EnsureOn(relays, capacity, room, target);
      if answer != Refused { relays := listing; }
      requests := requests + [StartRelay(room, status)];
      health := health[room := if answer != Fine then Degraded
                               else if status == Capacity503 then ServiceFull else Reported];
    }

    /** Stop relays for rooms that no longer qualify; `stops` are the rooms in the order taken. */
    method StopOrphans(p: Pass, relayRooms: set<nat>) returns (ghost stops: seq<nat>)
      requires relays == p.live
      modifies this`relays, this`health, this`requests
      ensures relays == AfterStops(p) && ListsOrphans(stops, p) && requests == old(requests) + StopCalls(stops)
    {
      var orphans := p.live.Keys - p.wanted.Keys;
      stops := [];
      while orphans != {}
        invariant orphans <= p.live.Keys - p.wanted.Keys
        invariant relays == map room | room in p.live &&
                              (room in p.wanted || room in orphans || p.net.stops(room) == Refused) :: p.live[room]
        invariant requests == old(requests) + StopCalls(stops)
        invariant forall i, j :: 0 <= i < j < |stops| ==> stops[i] != stops[j]
        invariant forall room :: room in stops <==> room in p.live && room !in p.wanted && room !in orphans
      {
        var room :| room in orphans;
        StopOne(room, p.net.stops(room), room !in relayRooms);
        stops := stops + [room];
        orphans := orphans - {room};
      }
    }

    /** One round of the loop over the order. */
    method AdmitOne(p: Pass, order: seq<nat>, i: nat)
      requires i < |order| && IsOrder(order, p.wanted, p.live)
      requires relays == AfterStarts(p, order, i) && capacity == p.capacity && max == p.max
      modifies this`relays, this`health, this`requests
      ensures relays == AfterStarts(p, order, i + 1) && requests == old(requests) + StartAt(p, order, i)
      ensures health == old(health)[order[i] := HealthAt(p, order, i)]
    {
      hide Before;
      var room := order[i];
      if i >= max {
        health := health[room := AtCapacity];
      } else if Starts(p.live, p.wanted, room) {
        StartOne(room, p.wanted[room], p.net.starts(room));
      } else {
        health := health[room := Reported];
      }
    }

    /** Admit the wanted rooms in order, up to the portal's limit. */
    method StartWanted(p: Pass, order: seq<nat>)
      requires IsOrder(order, p.wanted, p.live)
      requires relays == AfterStops(p) && capacity == p.capacity && max == p.max
      modifies this`relays, this`health, this`requests
      ensures relays == AfterStarts(p, order, |order|)
      ensures requests == old(requests) + StartCalls(p, order, |order|)
      ensures HealthWritten(health, p, order, |order|)
    {
      hide AnswerAt, HealthAt, StartAt, AfterStart, Before;
      for i := 0 to |order|
        invariant relays == AfterStarts(p, order, i)
        invariant requests == old(requests) + StartCalls(p, order, i)
        invariant HealthWritten(health, p, order, i)
      {
        ghost var before := health;
        AdmitOne(p, order, i);
        HealthGrows(before, p, order, i);
      }
    }

    /** Health is kept for rooms in relay mode only. */
    method ForgetOthers(relayRooms: set<nat>)
      modifies this`health
      ensures health == map room | room in old(health) && room in relayRooms :: old(health)[room]
    {
      health := map room | room in health && room in relayRooms :: health[room];
    }

    /** The pass once the listing was read; `order` is its order of admission. */
    method Converge(p: Pass, relayRooms: set<nat>, order: seq<nat>) returns (ghost stops: seq<nat>)
      requires relays == p.live && capacity == p.capacity && max == p.max && IsOrder(order, p.wanted, p.live)
      modifies this`relays, this`health, this`requests
      ensures relays == AfterStarts(p, order, |order|) && ListsOrphans(stops, p)
      ensures requests == old(requests) + StopCalls(stops) + StartCalls(p, order, |order|)
      ensures HealthWritten(health, p, order, |order|)
    {
      hide AfterStarts, StartCalls, StopCalls, HealthWritten, Before;
      stops := StopOrphans(p, relayRooms);
      assert AfterStarts(p, order, 0) == AfterStops(p) by { NoneStarted(p, order); }
      StartWanted(p, order);
    }

    /** The listing, the health and the calls of one pass: `stops` are the rooms it took relays from. */
    method Sync(wanted: map<nat, Target>, relayRooms: set<nat>, net: Network) returns (ghost stops: seq<nat>)
      modifies this
      ensures relays == Synced(old(ThisPass(wanted, net)))
      ensures IsOrder(Order(wanted.Keys, old(relays).Keys), wanted, old(relays))
      ensures |Order(wanted.Keys, old(relays).Keys)| == |wanted|
      ensures net.listFails ==> requests == old(requests)
      ensures !net.listFails ==>
                && ListsOrphans(stops, old(ThisPass(wanted, net)))
                && requests == old(requests) + StopCalls(stops)
                               + StartCalls(old(ThisPass(wanted, net)), Order(wanted.Keys, old(relays).Keys), |wanted|)
      ensures net.listFails ==> health == old(health) + map room | room in wanted :: Degraded
      ensures !net.listFails ==> health.Keys <= relayRooms
      ensures !net.listFails && wanted.Keys <= relayRooms ==>
                HealthWritten(health, old(ThisPass(wanted, net)), Order(wanted.Keys, old(relays).Keys), |wanted|)
    {
      OrderIsOrder(wanted, relays);
      OrderFacts(wanted.Keys, relays.Keys);
      hide Order, Before, AfterStarts, StartCalls, StopCalls, HealthAt;
      if net.listFails {
        health := health + map room | room in wanted :: Degraded;
        stops := [];
      } else {
        var p := Pass(relays, wanted, capacity, max, net);
        stops := Converge(p, relayRooms, Order(wanted.Keys, relays.Keys));
        ForgetOthers(relayRooms);
      }
    }
  }

  // ---- What the health says ----

  /** A room reads "at capacity" exactly if the pass does not admit it, */
  lemma CapacityIsTold(p: Pass, order: seq<nat>, i: nat)
    requires IsOrder(order, p.wanted, p.live) && i < |order|
    ensures HealthAt(p, order, i).AtCapacity? <==> order[i] !in order[..if p.max < |order| then p.max else |order|]
  {
    forall j | 0 <= j < |order| && order[j] == order[i] ensures j == i {
      assert i < j || j < i || i == j;
    }
    if i < p.max { assert order[..if p.max < |order| then p.max else |order|][i] == order[i]; }
  }

  /** and of the admitted ones "service full" exactly on a 503 that arrived, the service's own report exactly if
      it has the room's fingerprint or was asked and answered, and "degraded" otherwise. */
  lemma HealthIsTold(p: Pass, order: seq<nat>, i: nat)
    requires IsOrder(order, p.wanted, p.live) && i < |order| && i < p.max
    ensures var room, h := order[i], HealthAt(p, order, i);
            var kept := room in p.live && p.live[room].fingerprint == p.wanted[room].fingerprint;
            && (h.ServiceFull? <==> StartAt(p, order, i) == [StartRelay(room, Capacity503)]
                                    && p.net.starts(room) == Fine)
            && (h.Reported? <==> kept || (p.net.starts(room) == Fine
                                          && StartAt(p, order, i) == [StartRelay(room, Running200)]))
            && (h.Degraded? <==> !kept && p.net.starts(room) != Fine)
  {
    hide Before, AfterStarts;
  }

  // ---- Convergence ----

  /** No call of the pass fails, and the portal's limit is within the service's. */
  ghost predicate Quiet(p: Pass) {
    && !p.net.listFails && (forall room :: p.net.stops(room) == Fine && p.net.starts(room) == Fine)
    && p.max <= p.capacity
  }

  /** The keyed digest tells targets apart: equal fingerprints mean the same source and destination. */
  ghost predicate DigestTells(live: map<nat, Target>, wanted: map<nat, Target>) {
    forall room :: room in live && room in wanted && live[room].fingerprint == wanted[room].fingerprint ==>
      live[room] == wanted[room]
  }

  /** The first n rooms of an order. */
  ghost function Front(order: seq<nat>, n: nat): set<nat> {
    set i | 0 <= i < |order| && i < n :: order[i]
  }

  lemma FrontSize(order: seq<nat>, n: nat)
    requires forall i, j :: 0 <= i < j < |order| ==> order[i] != order[j]
    ensures |Front(order, n)| == if n < |order| then n else |order|
  {
    if n > |order| {
      FrontSize(order, |order|);
      assert Front(order, n) == Front(order, |order|);
    } else if n > 0 {
      FrontSize(order, n - 1);
      assert Front(order, n) == Front(order, n - 1) + {order[n - 1]};
    }
  }

  /** While the pass has not reached a room that is not live, all live wanted rooms are behind it. */
  lemma LiveComeFirst(wanted: map<nat, Target>, live: map<nat, Target>, order: seq<nat>, n: nat)
    requires IsOrder(order, wanted, live) && n < |order| && order[n] !in live
    ensures live.Keys * wanted.Keys <= Front(order, n)
  {
    forall i | n <= i < |order| ensures order[i] !in live {
      if n < i { assert Before(live.Keys, order[n], order[i]); }
    }
    forall room | room in live && room in wanted ensures room in Front(order, n) {
      assert room in order;
    }
  }

  /** What a pass without failures has made of the listing once it admitted the rooms of `done`. */
  ghost function Expected(p: Pass, done: set<nat>): map<nat, Target> {
    map room | room in p.wanted && (room in p.live || room in done) ::
      if room in done then p.wanted[room] else p.live[room]
  }

  lemma ExpectedKeys(p: Pass, done: set<nat>)
    ensures Expected(p, done).Keys == p.wanted.Keys * (p.live.Keys + done)
  {
  }

  /** There is room for a relay the pass has to add. */
  lemma RoomFits(p: Pass, order: seq<nat>, n: nat)
    requires IsOrder(order, p.wanted, p.live) && n < |order| && n < p.max <= p.capacity && order[n] !in p.live
    ensures |Expected(p, Front(order, n))| < p.capacity
  {
    LiveComeFirst(p.wanted, p.live, order, n);
    ExpectedKeys(p, Front(order, n));
    assert p.wanted.Keys * (p.live.Keys + Front(order, n)) <= Front(order, n);
    FrontSize(order, n);
    SubsetSize(Expected(p, Front(order, n)).Keys, Front(order, n));
  }

  lemma OneMoreDone(p: Pass, order: seq<nat>, n: nat, room: nat)
    requires n < |order| && room == order[n] && room in p.wanted
    ensures Expected(p, Front(order, n + 1)) == Expected(p, Front(order, n))[room := p.wanted[room]]
  {
    assert Front(order, n + 1) == Front(order, n) + {room};
  }

  lemma ExpectedStep(p: Pass, order: seq<nat>, n: nat)
    requires IsOrder(order, p.wanted, p.live) && n < |order| && n < p.max && DigestTells(p.live, p.wanted)
    requires Quiet(p)
    ensures AfterStart(p, Expected(p, Front(order, n)), order[n]) == Expected(p, Front(order, n + 1))
    ensures Starts(p.live, p.wanted, order[n]) ==>
              EnsureOn(Expected(p, Front(order, n)), p.capacity, order[n], p.wanted[order[n]]).1 == Running200
  {
    var room := order[n];
    OneMoreDone(p, order, n, room);
    assert room !in Front(order, n) by {
      assert forall i :: 0 <= i < n ==> Before(p.live.Keys, order[i], room);
    }
    if room !in p.live { RoomFits(p, order, n); }
  }

  lemma NoneInFront(order: seq<nat>)
    ensures Front(order, 0) == {}
  {
  }

  lemma StopsAreExpected(p: Pass)
    requires Quiet(p)
    ensures AfterStops(p) == Expected(p, {})
  {
  }

  ghost predicate AsExpected(now: map<nat, Target>, p: Pass, order: seq<nat>, n: nat) {
    now == Expected(p, Front(order, if n < p.max then n else p.max))
  }

  lemma FirstAsExpected(p: Pass, order: seq<nat>)
    requires Quiet(p)
    ensures AsExpected(AfterStops(p), p, order, 0)
  {
    StopsAreExpected(p);
    NoneInFront(order);
  }

  lemma NextAsExpected(p: Pass, order: seq<nat>, n: nat, now: map<nat, Target>)
    requires Quiet(p) && DigestTells(p.live, p.wanted) && IsOrder(order, p.wanted, p.live) && n < |order|
    requires AsExpected(now, p, order, n)
    ensures AsExpected(if n < p.max then AfterStart(p, now, order[n]) else now, p, order, n + 1)
  {
    hide AfterStart, Expected, Front, DigestTells, Before;
    if n < p.max { ExpectedStep(p, order, n); }
  }

  lemma NextStartExpected(p: Pass, order: seq<nat>, n: nat)
    requires Quiet(p) && DigestTells(p.live, p.wanted) && IsOrder(order, p.wanted, p.live) && n < |order|
    requires AsExpected(AfterStarts(p, order, n), p, order, n)
    ensures AsExpected(AfterStarts(p, order, n + 1), p, order, n + 1)
  {
    NextAsExpected(p, order, n, AfterStarts(p, order, n));
    OneMoreStarted(p, order, n);
    hide AsExpected, AfterStarts, AfterStart, DigestTells, Quiet, Before;
  }

  lemma {:induction false} StartsAreExpected(p: Pass, order: seq<nat>, n: nat)
    requires Quiet(p) && DigestTells(p.live, p.wanted) && IsOrder(order, p.wanted, p.live) && n <= |order|
    ensures AsExpected(AfterStarts(p, order, n), p, order, n)
  {
    hide AfterStarts, AsExpected, DigestTells, Quiet, Before;
    if n == 0 {
      FirstAsExpected(p, order);
      NoneStarted(p, order);
    } else {
      StartsAreExpected(p, order, n - 1);
      NextStartExpected(p, order, n - 1);
    }
  }

  /** The rooms one pass admits: the first max of its order. */
  ghost function Admitted(p: Pass): set<nat> {
    Front(Order(p.wanted.Keys, p.live.Keys), p.max)
  }

  lemma AdmittedFacts(p: Pass)
    ensures Admitted(p) <= p.wanted.Keys
    ensures |Admitted(p)| == if p.max < |p.wanted| then p.max else |p.wanted|
  {
    OrderIsOrder(p.wanted, p.live);
    OrderFacts(p.wanted.Keys, p.live.Keys);
    FrontSize(Order(p.wanted.Keys, p.live.Keys), p.max);
  }

  lemma FrontOfAll(order: seq<nat>, max: nat)
    ensures Front(order, if |order| < max then |order| else max) == Front(order, max)
  {
  }

  /** One pass without failures ends with the first max rooms of its order registered as they should be, and
      every other live wanted room as it was. */
  lemma PassConverges(p: Pass)
    requires Quiet(p) && DigestTells(p.live, p.wanted)
    ensures Synced(p) == Expected(p, Admitted(p))
  {
    OrderIsOrder(p.wanted, p.live);
    var order := Order(p.wanted.Keys, p.live.Keys);
    StartsAreExpected(p, order, |order|);
    FrontOfAll(order, p.max);
  }

  /** The portal's goal: exactly the admitted rooms, each registered with its own target. */
  ghost function Goal(p: Pass): map<nat, Target> {
    map room | room in Admitted(p) && room in p.wanted :: p.wanted[room]
  }

  lemma AllLiveAdmitted(p: Pass, admitted: set<nat>)
    requires p.live.Keys * p.wanted.Keys <= admitted
    ensures Expected(p, admitted) == map room | room in admitted && room in p.wanted :: p.wanted[room]
  {
    assert forall room :: room in p.live && room in p.wanted ==> room in p.live.Keys * p.wanted.Keys;
  }

  lemma LiveStayExpected(p: Pass, admitted: set<nat>)
    ensures |Expected(p, admitted)| >= |p.live.Keys * p.wanted.Keys|
  {
    ExpectedKeys(p, admitted);
    SubsetSize(p.live.Keys * p.wanted.Keys, Expected(p, admitted).Keys);
  }

  /** Everything before a live room in the order is live. */
  lemma LiveSoFar(p: Pass, order: seq<nat>, i: nat)
    requires IsOrder(order, p.wanted, p.live) && i < |order| && order[i] in p.live
    ensures Front(order, i + 1) <= p.live.Keys * p.wanted.Keys
  {
    forall j | 0 <= j <= i ensures order[j] in p.live {
      if j < i { assert Before(p.live.Keys, order[j], order[i]); }
    }
  }

  lemma FewLiveAreFirst(p: Pass, order: seq<nat>)
    requires IsOrder(order, p.wanted, p.live) && |p.live.Keys * p.wanted.Keys| <= p.max
    ensures p.live.Keys * p.wanted.Keys <= Front(order, p.max)
  {
    hide Before;
    var kept := p.live.Keys * p.wanted.Keys;
    forall room | room in kept ensures room in Front(order, p.max) {
      assert room in order;
      var i :| 0 <= i < |order| && order[i] == room;
      LiveSoFar(p, order, i);
      FrontSize(order, i + 1);
      SubsetSize(Front(order, i + 1), kept);
    }
  }

  lemma FewLiveAreAdmitted(p: Pass)
    requires |p.live.Keys * p.wanted.Keys| <= p.max
    ensures p.live.Keys * p.wanted.Keys <= Admitted(p)
  {
    OrderIsOrder(p.wanted, p.live);
    FewLiveAreFirst(p, Order(p.wanted.Keys, p.live.Keys));
  }

  /** The pass reaches the goal if and only if no more than max wanted rooms were live; it never displaces
      a live room to get there. */
  lemma GoalReached(p: Pass)
    requires Quiet(p) && DigestTells(p.live, p.wanted)
    ensures Synced(p) == Goal(p) <==> |p.live.Keys * p.wanted.Keys| <= p.max
    ensures Goal(p).Keys == Admitted(p) && |Admitted(p)| == if p.max < |p.wanted| then p.max else |p.wanted|
  {
    PassConverges(p);
    AdmittedFacts(p);
    hide Admitted, Synced, DigestTells, Quiet;
    if |p.live.Keys * p.wanted.Keys| <= p.max {
      FewLiveAreAdmitted(p);
      AllLiveAdmitted(p, Admitted(p));
    } else {
      SubsetSize(Goal(p).Keys, Admitted(p));
      LiveStayExpected(p, Admitted(p));
    }
  }

  lemma AnsweredRunning(p: Pass, order: seq<nat>, i: nat)
    requires Quiet(p) && DigestTells(p.live, p.wanted) && IsOrder(order, p.wanted, p.live)
    requires i < |order| && i < p.max && Starts(p.live, p.wanted, order[i])
    ensures AnswerAt(p, order, i) == Running200
  {
    hide AfterStarts, AfterStart, EnsureOn, Expected, Front, DigestTells, Before;
    StartsAreExpected(p, order, i);
    ExpectedStep(p, order, i);
  }

  /** In such a pass no start call meets the service's limit. */
  lemma {:induction false} PassMeetsNoLimit(p: Pass, order: seq<nat>, n: nat)
    requires Quiet(p) && DigestTells(p.live, p.wanted) && IsOrder(order, p.wanted, p.live) && n <= |order|
    ensures forall r :: r in StartCalls(p, order, n) ==> r.StartRelay? && r.status == Running200
  {
    if n > 0 {
      hide AnswerAt, DigestTells, Before, Quiet, Starts;
      PassMeetsNoLimit(p, order, n - 1);
      if n - 1 < p.max && Starts(p.live, p.wanted, order[n - 1]) { AnsweredRunning(p, order, n - 1); }
    }
  }

  /** A pass over a listing that already is the goal has nothing to do: the admitted rooms run their targets,
      and there is no other wanted room in the way. */
  lemma GoalIsSettled(wanted: map<nat, Target>, live: map<nat, Target>, order: seq<nat>, max: nat)
    requires IsOrder(order, wanted, live) && live.Keys <= wanted.Keys
    requires forall room :: room in live ==> live[room] == wanted[room]
    requires |live| == if max < |wanted| then max else |wanted|
    ensures Settled(live, wanted, order, max)
  {
    forall room | room in wanted && Within(order, max, room) ensures !Starts(live, wanted, room) {
      var i :| 0 <= i < |order| && i < max && order[i] == room;
      if room !in live {
        LiveComeFirst(wanted, live, order, i);
        assert live.Keys * wanted.Keys == live.Keys;
        FrontSize(order, i);
        SubsetSize(live.Keys, Front(order, i));
        SubsetSize(live.Keys, wanted.Keys);
        assert false;
      }
    }
  }

  lemma ManyLiveAreFirst(p: Pass, order: seq<nat>)
    requires IsOrder(order, p.wanted, p.live) && |p.live.Keys * p.wanted.Keys| > p.max
    ensures Front(order, p.max) <= p.live.Keys
  {
    hide Before;
    forall i | 0 <= i < |order| && i < p.max ensures order[i] in p.live {
      if order[i] !in p.live {
        LiveComeFirst(p.wanted, p.live, order, i);
        FrontSize(order, i);
        SubsetSize(p.live.Keys * p.wanted.Keys, Front(order, i));
        assert false;
      }
    }
  }

  /** With more live wanted rooms than the limit, a pass admits live rooms only and keeps every live room. */
  lemma OverfullPass(p: Pass)
    requires Quiet(p) && DigestTells(p.live, p.wanted) && |p.live.Keys * p.wanted.Keys| > p.max
    ensures Admitted(p) <= p.live.Keys && Synced(p).Keys == p.live.Keys * p.wanted.Keys
    ensures Order(p.wanted.Keys, Synced(p).Keys) == Order(p.wanted.Keys, p.live.Keys)
  {
    var kept := p.live.Keys * p.wanted.Keys;
    OrderIsOrder(p.wanted, p.live);
    ManyLiveAreFirst(p, Order(p.wanted.Keys, p.live.Keys));
    PassConverges(p);
    hide Order, Before, Synced, IsOrder, Expected;
    ExpectedKeys(p, Admitted(p));
    assert p.wanted.Keys * (p.live.Keys + Admitted(p)) == kept;
    OrderDepends(p.wanted.Keys, p.live.Keys, kept);
  }

  lemma OverfullIsSettled(p: Pass, order: seq<nat>)
    requires order == Order(p.wanted.Keys, p.live.Keys) && Synced(p).Keys <= p.wanted.Keys
    requires Synced(p) == Expected(p, Front(order, p.max)) && Front(order, p.max) <= Synced(p).Keys
    ensures Settled(Synced(p), p.wanted, order, p.max)
  {
    hide Order, Synced;
    forall room | room in p.wanted && Within(order, p.max, room) ensures !Starts(Synced(p), p.wanted, room) {
      assert room in Front(order, p.max);
    }
  }

  /** A second pass over what the first one left makes no call, however many rooms were live. */
  lemma SecondPassIsIdle(p: Pass)
    requires Quiet(p) && DigestTells(p.live, p.wanted)
    ensures Settled(Synced(p), p.wanted, Order(p.wanted.Keys, Synced(p).Keys), p.max)
  {
    if |p.live.Keys * p.wanted.Keys| <= p.max {
      GoalReached(p);
      AdmittedFacts(p);
      OrderIsOrder(p.wanted, Synced(p));
      assert |Synced(p)| == |Synced(p).Keys|;
      hide Order, Synced, Before;
      GoalIsSettled(p.wanted, Synced(p), Order(p.wanted.Keys, Synced(p).Keys), p.max);
    } else {
      OverfullPass(p);
      PassConverges(p);
      AdmittedFacts(p);
      hide Order, Synced, Before, Expected;
      OverfullIsSettled(p, Order(p.wanted.Keys, p.live.Keys));
    }
  }

  /** In terms of its calls: none, whichever rooms it would have to stop. */
  lemma SecondPassCallsNobody(p: Pass, again: Pass, stops: seq<nat>)
    requires Quiet(p) && DigestTells(p.live, p.wanted)
    requires again == p.(live := Synced(p), net := again.net) && ListsOrphans(stops, again)
    ensures IsOrder(Order(p.wanted.Keys, again.live.Keys), p.wanted, again.live)
    ensures var order := Order(p.wanted.Keys, again.live.Keys);
            StopCalls(stops) == [] && StartCalls(again, order, |order|) == []
  {
    SecondPassIsIdle(p);
    OrderIsOrder(p.wanted, again.live);
    hide Order, Synced, Before;
    SettledStartsNone(again, Order(p.wanted.Keys, again.live.Keys), |Order(p.wanted.Keys, again.live.Keys)|);
    SettledStopsNone(again, stops, Order(p.wanted.Keys, again.live.Keys));
  }

  // ---- Whatever fails ----

  lemma EnsureOnKeeps(listing: map<nat, Target>, capacity: nat, room: nat, target: Target)
    ensures var after := EnsureOn(listing, capacity, room, target).0;
            && listing.Keys <= after.Keys && (|listing| <= capacity ==> |after| <= capacity)
            && (after == listing || after == listing[room := target])
  {
    if room in listing {
      assert listing[room := target].Keys == listing.Keys;
    } else {
      assert listing[room := target].Keys == listing.Keys + {room};
    }
  }

  /** Every listed relay was there already or runs what is wanted. */
  ghost predicate OldOrWanted(now: map<nat, Target>, p: Pass) {
    forall room :: room in now ==> (room in p.live && now[room] == p.live[room])
                                   || (room in p.wanted && now[room] == p.wanted[room])
  }

  /** Nothing the stop calls left is gone, nothing unwanted came, and the limit holds if it held then. */
  ghost predicate Kept(now: map<nat, Target>, p: Pass) {
    && AfterStops(p).Keys <= now.Keys && OldOrWanted(now, p)
    && (|AfterStops(p)| <= p.capacity ==> |now| <= p.capacity)
  }

  lemma StopsKeep(p: Pass)
    ensures Kept(AfterStops(p), p)
  {
  }

  lemma AfterStartKeeps(p: Pass, before: map<nat, Target>, room: nat)
    requires room in p.wanted && Kept(before, p)
    ensures Kept(AfterStart(p, before, room), p)
  {
    hide AfterStops, EnsureOn;
    EnsureOnKeeps(before, p.capacity, room, p.wanted[room]);
  }

  lemma {:induction false} StartsKeep(p: Pass, order: seq<nat>, n: nat)
    requires n <= |order| && forall i :: 0 <= i < |order| ==> order[i] in p.wanted
    ensures Kept(AfterStarts(p, order, n), p)
  {
    hide AfterStart, AfterStops, AfterStarts, Kept;
    if n == 0 {
      StopsKeep(p);
      NoneStarted(p, order);
    } else {
      OneMoreStarted(p, order, n - 1);
      StartsKeep(p, order, n - 1);
      AfterStartKeeps(p, AfterStarts(p, order, n - 1), order[n - 1]);
    }
  }

  /** Whatever calls fail, no live room that is still wanted loses its relay, nothing but the wanted
      targets is started, and the service's limit holds. */
  lemma PassIsSafe(p: Pass)
    ensures p.live.Keys * p.wanted.Keys <= Synced(p).Keys
    ensures OldOrWanted(Synced(p), p)
    ensures |p.live| <= p.capacity ==> |Synced(p)| <= p.capacity
  {
    if !p.net.listFails {
      OrderIsOrder(p.wanted, p.live);
      var order := Order(p.wanted.Keys, p.live.Keys);
      SubsetSize(AfterStops(p).Keys, p.live.Keys);
      hide Order, Before, OldOrWanted;
      StartsKeep(p, order, |order|);
    }
  }

  // ---- Recovery ----

  lemma {:induction false} StartsAddAdmitted(p: Pass, order: seq<nat>, n: nat)
    requires n <= |order| && IsOrder(order, p.wanted, p.live)
    ensures AfterStarts(p, order, n).Keys <= p.live.Keys + Front(order, p.max)
  {
    hide Before, Starts;
    if n > 0 { StartsAddAdmitted(p, order, n - 1); }
  }

  /** Whatever calls fail, a pass that found at most max wanted rooms live leaves at most max of them live. */
  lemma FewStayFew(p: Pass)
    requires |p.live.Keys * p.wanted.Keys| <= p.max
    ensures |Synced(p).Keys * p.wanted.Keys| <= p.max
  {
    if !p.net.listFails {
      OrderIsOrder(p.wanted, p.live);
      var order := Order(p.wanted.Keys, p.live.Keys);
      hide Order, Before;
      StartsAddAdmitted(p, order, |order|);
      FewLiveAreFirst(p, order);
      FrontSize(order, p.max);
      SubsetSize(Synced(p).Keys * p.wanted.Keys, Front(order, p.max));
    }
  }

  /** Nor does a pass ever mix up targets. */
  lemma DigestStillTells(p: Pass)
    requires DigestTells(p.live, p.wanted)
    ensures DigestTells(Synced(p), p.wanted)
  {
    PassIsSafe(p);
  }

  /** The listing after several passes with the same wish, each over its own network. */
  function AfterPasses(
    live: map<nat, Target>, wanted: map<nat, Target>, capacity: nat, max: nat, nets: seq<Network>): map<nat, Target>
    decreases |nets|
  {
    if nets == [] then live
    else AfterPasses(Synced(Pass(live, wanted, capacity, max, nets[0])), wanted, capacity, max, nets[1..])
  }

  lemma OnePassMore(
      live: map<nat, Target>, wanted: map<nat, Target>, capacity: nat, max: nat, net: Network, nets: seq<Network>)
    ensures AfterPasses(live, wanted, capacity, max, []) == live
    ensures AfterPasses(live, wanted, capacity, max, [net] + nets)
            == AfterPasses(Synced(Pass(live, wanted, capacity, max, net)), wanted, capacity, max, nets)
  {
    hide Synced;
    assert ([net] + nets)[1..] == nets;
  }

  lemma {:induction false} FewAfterPasses(
    live: map<nat, Target>, wanted: map<nat, Target>, capacity: nat, max: nat, nets: seq<Network>)
    requires |live.Keys * wanted.Keys| <= max && DigestTells(live, wanted)
    ensures var after := AfterPasses(live, wanted, capacity, max, nets);
            |after.Keys * wanted.Keys| <= max && DigestTells(after, wanted)
    decreases |nets|
  {
    if nets != [] {
      hide Synced, DigestTells;
      var p := Pass(live, wanted, capacity, max, nets[0]);
      FewStayFew(p);
      DigestStillTells(p);
      FewAfterPasses(Synced(p), wanted, capacity, max, nets[1..]);
    }
  }

  /** Recovery: after any passes, whatever calls of theirs failed, one pass without failures reaches the goal. */
  lemma OneQuietPassRecovers(
    live: map<nat, Target>, wanted: map<nat, Target>, capacity: nat, max: nat, nets: seq<Network>, last: Pass)
    requires |live.Keys * wanted.Keys| <= max && DigestTells(live, wanted)
    requires last == Pass(AfterPasses(live, wanted, capacity, max, nets), wanted, capacity, max, last.net)
    requires Quiet(last)
    ensures Synced(last) == Goal(last)
  {
    FewAfterPasses(live, wanted, capacity, max, nets);
    GoalReached(last);
  }
}
