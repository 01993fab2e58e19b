/** Both halves of the relay together: portal passes over a relay service whose supervisor threads run on
    between and during them. */
module RelayConvergence {
  import S = RelayService
  import F = RelayFailures
  import P = ProgramRelay

  /** What a request does to the service's registry once its locked section runs. */
  datatype Command = StopCommand(room: nat) | EnsureCommand(room: nat, target: S.Target)

  type Listed = map<nat, S.Target>

  function CommandOf(step: S.Step): seq<Command> {
    match step
    case Ensure(_, room, target) => [EnsureCommand(room, target)]
    case Stop(_, room) => [StopCommand(room)]
    case _ => []
  }

  function Commands(steps: seq<S.Step>): seq<Command> {
    if steps == [] then [] else CommandOf(steps[0]) + Commands(steps[1..])
  }

  function Obeyed(listing: Listed, max: nat, c: Command): Listed {
    match c
    case StopCommand(room) => listing - {room}
    case EnsureCommand(room, target) => S.EnsureOn(listing, max, room, target).0
  }

  function ObeyedAll(listing: Listed, max: nat, cs: seq<Command>): Listed
    decreases |cs|
  {
    if cs == [] then listing else ObeyedAll(Obeyed(listing, max, cs[0]), max, cs[1..])
  }

  lemma {:induction false} ObeyedInTurn(listing: Listed, max: nat, a: seq<Command>, b: seq<Command>)
    ensures ObeyedAll(listing, max, a + b) == ObeyedAll(ObeyedAll(listing, max, a), max, b)
    decreases |a|
  {
    if a == [] {
      assert a + b == b;
    } else {
      ObeyedInTurn(Obeyed(listing, max, a[0]), max, a[1..], b);
      assert (a + b)[1..] == a[1..] + b;
    }
  }

  // ---- The service over a run ----

  lemma OthersKeepTargets(m: S.Manager, step: S.Step, k: nat)
    requires S.Enabled(m, step) && !step.Ensure? && !step.Stop?
    ensures S.Next(m, step).relays == m.relays && |S.Next(m, step).objects| == |m.objects|
    ensures k < |m.objects| ==> S.Next(m, step).objects[k].target == m.objects[k].target
  {
    hide S.Delay, S.DoEnsure, S.DoStop;
  }

  /** Supervisors, dying processes and finished joins leave the listing alone. */
  lemma OthersKeepListing(m: S.Manager, step: S.Step)
    requires S.Enabled(m, step) && !step.Ensure? && !step.Stop?
    ensures S.Listing(S.Next(m, step)) == S.Listing(m)
  {
    hide S.Next, S.Enabled;
    OthersKeepTargets(m, step, 0);
    forall k: nat | k < |m.objects| ensures S.Next(m, step).objects[k].target == m.objects[k].target {
      OthersKeepTargets(m, step, k);
    }
  }

  lemma MaxStays(m: S.Manager, step: S.Step)
    requires S.Enabled(m, step)
    ensures S.Next(m, step).max == m.max
  {
    hide S.Delay;
  }

  lemma StepOnListing(m: S.Manager, step: S.Step)
    requires S.Inv(m) && S.Enabled(m, step)
    ensures S.Listing(S.Next(m, step)) == ObeyedAll(S.Listing(m), m.max, CommandOf(step))
  {
    hide S.Inv, S.DoEnsure, S.DoStop, S.Listing, S.EnsureOn;
    match step
    case Ensure(call, room, target) => S.EnsureOnListing(m, call, room, target);
    case Stop(call, room) => S.StopOnListing(m, call, room);
    case _ => OthersKeepListing(m, step);
  }

  /** Over any run the listing is what the requests make of it, in the order of their locked sections. */
  lemma {:induction false} RunOnListing(m: S.Manager, steps: seq<S.Step>, end: S.Manager)
    requires S.Inv(m) && S.Run(m, steps, end)
    ensures S.Listing(end) == ObeyedAll(S.Listing(m), m.max, Commands(steps)) && S.Inv(end) && end.max == m.max
    decreases |steps|
  {
    if steps != [] {
      hide S.Inv, S.Enabled, S.Next, S.Listing, CommandOf;
      S.StepKeepsInv(m, steps[0]);
      MaxStays(m, steps[0]);
      StepOnListing(m, steps[0]);
      RunOnListing(S.Next(m, steps[0]), steps[1..], end);
      ObeyedInTurn(S.Listing(m), m.max, CommandOf(steps[0]), Commands(steps[1..]));
    }
  }

  // ---- The commands of a pass ----

  /** A call that was refused reaches no locked section; one that worked, or whose answer was lost, does. */
  function Effect(p: P.Pass, r: P.Request): seq<Command> {
    match r
    case StopRelay(room) => if p.net.stops(room) == P.Refused then [] else [StopCommand(room)]
    case StartRelay(room, _) =>
      if p.net.starts(room) == P.Refused || room !in p.wanted then [] else [EnsureCommand(room, p.wanted[room])]
  }

  function Effects(p: P.Pass, rs: seq<P.Request>): seq<Command> {
    if rs == [] then [] else Effects(p, rs[..|rs| - 1]) + Effect(p, rs[|rs| - 1])
  }

  lemma LastEffect(p: P.Pass, rs: seq<P.Request>, r: P.Request)
    ensures Effects(p, rs + [r]) == Effects(p, rs) + Effect(p, r) && Effects(p, []) == []
  {
    hide Effect;
    assert (rs + [r])[..|rs|] == rs;
  }

  lemma {:induction false} EffectsInTurn(p: P.Pass, a: seq<P.Request>, b: seq<P.Request>)
    ensures Effects(p, a + b) == Effects(p, a) + Effects(p, b)
  {
    hide Effects, Effect;
    if b == [] {
      assert a + b == a;
      LastEffect(p, [], P.StopRelay(0));
    } else {
      var n := |b| - 1;
      EffectsInTurn(p, a, b[..n]);
      LastEffect(p, a + b[..n], b[n]);
      LastEffect(p, b[..n], b[n]);
      assert b == b[..n] + [b[n]] && a + b == (a + b[..n]) + [b[n]];
    }
  }

  function Without(live: Listed, rooms: seq<nat>, net: P.Network): Listed {
    map room | room in live && (room !in rooms || net.stops(room) == P.Refused) :: live[room]
  }

  lemma LastStop(p: P.Pass, rooms: seq<nat>)
    requires rooms != []
    ensures var n := |rooms| - 1;
            ObeyedAll(Without(p.live, rooms[..n], p.net), p.capacity, Effect(p, P.StopRelay(rooms[n])))
            == Without(p.live, rooms, p.net)
  {
    var n := |rooms| - 1;
    assert rooms == rooms[..n] + [rooms[n]];
    var one := StopCommand(rooms[n]);
    assert ObeyedAll(Obeyed(Without(p.live, rooms[..n], p.net), p.capacity, one), p.capacity, [one][1..])
           == Obeyed(Without(p.live, rooms[..n], p.net), p.capacity, one);
  }

  lemma {:induction false} StopsObeyed(p: P.Pass, rooms: seq<nat>)
    ensures ObeyedAll(p.live, p.capacity, Effects(p, P.StopCalls(rooms))) == Without(p.live, rooms, p.net)
  {
    if rooms != [] {
      var n := |rooms| - 1;
      var calls := P.StopCalls(rooms);
      StopsObeyed(p, rooms[..n]);
      assert calls[..n] == P.StopCalls(rooms[..n]) && calls[n] == P.StopRelay(rooms[n]);
      ObeyedInTurn(p.live, p.capacity, Effects(p, calls[..n]), Effect(p, calls[n]));
      LastStop(p, rooms);
    }
  }

  lemma LastStart(p: P.Pass, order: seq<nat>, i: nat, before: Listed)
    requires i < |order| && forall i :: 0 <= i < |order| ==> order[i] in p.wanted
    ensures ObeyedAll(before, p.capacity, Effects(p, P.StartAt(p, order, i)))
            == if i < p.max then P.AfterStart(p, before, order[i]) else before
  {
    hide S.EnsureOn, P.AfterStarts;
    var room := order[i];
    if i < p.max && P.Starts(p.live, p.wanted, room) {
      var r := P.StartRelay(room, P.AnswerAt(p, order, i));
      assert Effects(p, [r]) == Effect(p, r) by { assert [r][..0] == []; }
      var one := EnsureCommand(room, p.wanted[room]);
      assert [one][1..] == [];
    }
  }

  lemma NoStartObeyed(p: P.Pass, order: seq<nat>)
    requires forall i :: 0 <= i < |order| ==> order[i] in p.wanted
    ensures P.StartCalls(p, order, 0) == [] && P.AfterStarts(p, order, 0) == P.AfterStops(p)
    ensures ObeyedAll(P.AfterStops(p), p.capacity, Effects(p, [])) == P.AfterStops(p)
  {
    hide P.AfterStops;
  }

  lemma {:induction false} StartsObeyed(p: P.Pass, order: seq<nat>, n: nat)
    requires n <= |order| && forall i :: 0 <= i < |order| ==> order[i] in p.wanted
    ensures ObeyedAll(P.AfterStops(p), p.capacity, Effects(p, P.StartCalls(p, order, n))) == P.AfterStarts(p, order, n)
  {
    hide P.AfterStops, P.StartCalls, P.AfterStarts, P.StartAt, P.AfterStart, Effects, ObeyedAll;
    if n == 0 {
      NoStartObeyed(p, order);
    } else {
      StartsObeyed(p, order, n - 1);
      P.OneMoreStarted(p, order, n - 1);
      var calls, one := P.StartCalls(p, order, n - 1), P.StartAt(p, order, n - 1);
      EffectsInTurn(p, calls, one);
      ObeyedInTurn(P.AfterStops(p), p.capacity, Effects(p, calls), Effects(p, one));
      LastStart(p, order, n - 1, P.AfterStarts(p, order, n - 1));
    }
  }

  // ---- The composed theorem ----

  /** The steps of the service during one pass: its requests' locked sections in their order, and anything
      else its threads do before, between and after them. */
  ghost predicate Serves(steps: seq<S.Step>, p: P.Pass, stops: seq<nat>) {
    if p.net.listFails then Commands(steps) == []
    else
      && P.ListsOrphans(stops, p)
      && (var order := P.Order(p.wanted.Keys, p.live.Keys);
          P.IsOrder(order, p.wanted, p.live)
          && Commands(steps) == Effects(p, P.StopCalls(stops) + P.StartCalls(p, order, |order|)))
  }

  lemma WithoutOrphans(p: P.Pass, stops: seq<nat>)
    requires P.ListsOrphans(stops, p)
    ensures Without(p.live, stops, p.net) == P.AfterStops(p)
  {
  }

  /** The calls of a pass, obeyed in turn, make of the listing what the pass on values says. */
  lemma CallsObeyed(p: P.Pass, stops: seq<nat>, order: seq<nat>)
    requires P.ListsOrphans(stops, p) && P.IsOrder(order, p.wanted, p.live)
    ensures ObeyedAll(p.live, p.capacity, Effects(p, P.StopCalls(stops) + P.StartCalls(p, order, |order|)))
            == P.AfterStarts(p, order, |order|)
  {
    WithoutOrphans(p, stops);
    StopsObeyed(p, stops);
    hide P.ListsOrphans, P.Before, Effects, ObeyedAll, P.StartCalls, P.StopCalls, P.AfterStarts, P.AfterStops, Without;
    StartsObeyed(p, order, |order|);
    EffectsInTurn(p, P.StopCalls(stops), P.StartCalls(p, order, |order|));
    ObeyedInTurn(p.live, p.capacity, Effects(p, P.StopCalls(stops)), Effects(p, P.StartCalls(p, order, |order|)));
  }

  lemma NoCalls(listing: Listed, max: nat)
    ensures ObeyedAll(listing, max, []) == listing
  {
  }

  /** A pass over the running service leaves its registry as the pass on values says, under every scheduling. */
  lemma PassOverService(m: S.Manager, steps: seq<S.Step>, end: S.Manager, p: P.Pass, stops: seq<nat>)
    requires S.Inv(m) && S.Run(m, steps, end) && p.live == S.Listing(m) && p.capacity == m.max
    requires Serves(steps, p, stops)
    ensures S.Inv(end) && end.max == m.max && S.Listing(end) == P.Synced(p)
  {
    hide S.Inv, S.Run, S.Listing, Effects, ObeyedAll, Commands, P.Order, P.StartCalls, P.StopCalls, P.AfterStarts;
    hide P.IsOrder, P.ListsOrphans;
    RunOnListing(m, steps, end);
    if p.net.listFails {
      NoCalls(p.live, p.capacity);
    } else {
      CallsObeyed(p, stops, P.Order(p.wanted.Keys, p.live.Keys));
    }
  }

  /** One pass: how its calls end, the rooms it stops, and what the service does meanwhile. */
  datatype Episode = Episode(net: P.Network, stops: seq<nat>, steps: seq<S.Step>, after: S.Manager)

  /** Passes with one wish over one service, one after the other. */
  ghost predicate History(m: S.Manager, wanted: Listed, max: nat, episodes: seq<Episode>)
    decreases |episodes|
  {
    episodes == [] ||
    (var e := episodes[0];
     && S.Run(m, e.steps, e.after)
     && Serves(e.steps, P.Pass(S.Listing(m), wanted, m.max, max, e.net), e.stops)
     && History(e.after, wanted, max, episodes[1..]))
  }

  function Last(m: S.Manager, episodes: seq<Episode>): S.Manager {
    if episodes == [] then m else episodes[|episodes| - 1].after
  }

  function Nets(episodes: seq<Episode>): seq<P.Network> {
    seq(|episodes|, i requires 0 <= i < |episodes| => episodes[i].net)
  }

  lemma FirstEpisode(m: S.Manager, episodes: seq<Episode>)
    ensures Nets([]) == [] && Last(m, []) == m
    ensures episodes != [] ==>
              && Nets(episodes) == [episodes[0].net] + Nets(episodes[1..])
              && Last(m, episodes) == Last(episodes[0].after, episodes[1..])
  {
  }

  lemma {:induction false} HistoryOnListing(m: S.Manager, wanted: Listed, max: nat, episodes: seq<Episode>)
    requires S.Inv(m) && History(m, wanted, max, episodes)
    ensures S.Inv(Last(m, episodes)) && Last(m, episodes).max == m.max
    ensures S.Listing(Last(m, episodes)) == P.AfterPasses(S.Listing(m), wanted, m.max, max, Nets(episodes))
    decreases |episodes|
  {
    hide S.Inv, S.Run, S.Listing, Serves, P.Synced, P.AfterPasses, Nets, Last;
    FirstEpisode(m, episodes);
    if episodes == [] {
      P.OnePassMore(S.Listing(m), wanted, m.max, max, P.Network(true, _ => P.Refused, _ => P.Refused), []);
    } else {
      var e := episodes[0];
      P.OnePassMore(S.Listing(m), wanted, m.max, max, e.net, Nets(episodes[1..]));
      PassOverService(m, e.steps, e.after, P.Pass(S.Listing(m), wanted, m.max, max, e.net), e.stops);
      HistoryOnListing(e.after, wanted, max, episodes[1..]);
    }
  }

  lemma {:induction false} SplitHistory(m: S.Manager, wanted: Listed, max: nat, episodes: seq<Episode>, e: Episode)
    requires S.Inv(m) && History(m, wanted, max, episodes + [e])
    ensures History(m, wanted, max, episodes) && S.Run(Last(m, episodes), e.steps, e.after)
    ensures Serves(e.steps, P.Pass(S.Listing(Last(m, episodes)), wanted, Last(m, episodes).max, max, e.net), e.stops)
    decreases |episodes|
  {
    hide S.Run, S.Listing, Serves;
    var all := episodes + [e];
    if episodes == [] {
      assert all[0] == e;
    } else {
      var first := episodes[0];
      assert all[1..] == episodes[1..] + [e] && all[0] == first;
      PassOverService(m, first.steps, first.after, P.Pass(S.Listing(m), wanted, m.max, max, first.net), first.stops);
      SplitHistory(first.after, wanted, max, episodes[1..], e);
      assert Last(m, episodes) == Last(first.after, episodes[1..]);
    }
  }

  // ---- What runs ----

  lemma {:induction false} RunsJoin(m: S.Manager, a: seq<S.Step>, q: S.Manager, b: seq<S.Step>, end: S.Manager)
    requires S.Run(m, a, q) && S.Run(q, b, end)
    ensures S.Run(m, a + b, end)
    decreases |a|
  {
    hide S.Enabled, S.Next;
    if a == [] {
      assert a + b == b;
    } else {
      assert (a + b)[1..] == a[1..] + b;
      RunsJoin(S.Next(m, a[0]), a[1..], q, b, end);
    }
  }

  /** Everything the service did during the passes. */
  function AllSteps(episodes: seq<Episode>): seq<S.Step> {
    if episodes == [] then [] else episodes[0].steps + AllSteps(episodes[1..])
  }

  lemma EmptyRun(m: S.Manager)
    ensures S.Run(m, [], m)
  {
  }

  lemma {:induction false} HistoryIsRun(m: S.Manager, wanted: Listed, max: nat, episodes: seq<Episode>)
    requires History(m, wanted, max, episodes)
    ensures S.Run(m, AllSteps(episodes), Last(m, episodes))
    decreases |episodes|
  {
    hide S.Run, S.Listing, Serves, Last;
    FirstEpisode(m, episodes);
    if episodes == [] {
      assert S.Run(m, [], m) by { EmptyRun(m); }
    } else {
      var e := episodes[0];
      HistoryIsRun(e.after, wanted, max, episodes[1..]);
      RunsJoin(m, e.steps, e.after, AllSteps(episodes[1..]), Last(m, episodes));
    }
  }

  /** The supervisor of the room's registered relay returned: its spawn failed during the passes or before. */
  ghost predicate SpawnFailed(m: S.Manager, steps: seq<S.Step>, k: nat) {
    F.Gone(m, k) || S.SpawnFails(k) in steps
  }

  lemma RegisteredIsThere(m: S.Manager, room: nat)
    requires S.Inv(m) && room in S.Listing(m)
    ensures room in m.relays && F.Registered(m, room, m.relays[room]) && !m.objects[m.relays[room]].stopped
  {
  }

  /** Across both services, for every scheduling of the supervisors and whatever calls of earlier passes
      failed: one pass without failures ends with exactly the first max rooms of its order registered with
      their own targets, if at most max wanted rooms were registered at first. Registered is not running: a
      room's supervisor has returned for good if and only if a spawn of its registered relay failed. */
  lemma ServicesConverge(
    m: S.Manager, wanted: Listed, max: nat, episodes: seq<Episode>, quiet: Episode, last: P.Pass)
    requires S.Inv(m) && History(m, wanted, max, episodes + [quiet])
    requires |S.Listing(m).Keys * wanted.Keys| <= max && P.DigestTells(S.Listing(m), wanted)
    requires last == P.Pass(S.Listing(Last(m, episodes)), wanted, m.max, max, quiet.net) && P.Quiet(last)
    ensures S.Inv(quiet.after) && S.Listing(quiet.after) == P.Goal(last)
    ensures forall room :: room in P.Goal(last) ==>
                             && room in quiet.after.relays
                             && (F.Dead(quiet.after, room, quiet.after.relays[room])
                                 <==> SpawnFailed(m, AllSteps(episodes + [quiet]), quiet.after.relays[room]))
  {
    hide S.Inv, S.Run, S.Listing, Serves, P.Synced, P.Goal, P.DigestTells, P.Quiet, History, AllSteps;
    HistoryIsRun(m, wanted, max, episodes + [quiet]);
    assert Last(m, episodes + [quiet]) == quiet.after;
    forall room | room in S.Listing(quiet.after)
      ensures S.Inv(quiet.after) ==>
                && room in quiet.after.relays
                && (F.Dead(quiet.after, room, quiet.after.relays[room])
                    <==> SpawnFailed(m, AllSteps(episodes + [quiet]), quiet.after.relays[room]))
    {
      if S.Inv(quiet.after) {
        RegisteredIsThere(quiet.after, room);
        F.ExitedExactly(m, AllSteps(episodes + [quiet]), quiet.after, quiet.after.relays[room]);
      }
    }
    SplitHistory(m, wanted, max, episodes, quiet);
    HistoryOnListing(m, wanted, max, episodes);
    PassOverService(Last(m, episodes), quiet.steps, quiet.after, last, quiet.stops);
    P.OneQuietPassRecovers(S.Listing(m), wanted, m.max, max, Nets(episodes), last);
  }

  // ---- Passes over a dead room ----

  /** No call of the pass is for the room. */
  ghost predicate LeavesAlone(cs: seq<Command>, room: nat) {
    forall c :: c in cs ==> c.room != room
  }

  lemma {:induction false} EffectsLeaveAlone(p: P.Pass, rs: seq<P.Request>, room: nat)
    requires forall r :: r in rs ==> r.room != room
    ensures LeavesAlone(Effects(p, rs), room)
  {
    if rs != [] {
      var n := |rs| - 1;
      assert rs[n] in rs && forall r :: r in rs[..n] ==> r in rs;
      EffectsLeaveAlone(p, rs[..n], room);
    }
  }

  lemma {:induction false} StartsLeaveAlone(p: P.Pass, order: seq<nat>, n: nat, room: nat)
    requires n <= |order| && forall i :: 0 <= i < |order| ==> order[i] in p.wanted
    requires room in p.wanted && !P.Starts(p.live, p.wanted, room)
    ensures forall r :: r in P.StartCalls(p, order, n) ==> r.room != room
  {
    hide P.Starts, P.AnswerAt;
    if n > 0 { StartsLeaveAlone(p, order, n - 1, room); }
  }

  lemma {:induction false} CommandsKeep(steps: seq<S.Step>, room: nat, target: S.Target)
    requires LeavesAlone(Commands(steps), room)
    ensures F.NeverReplaced(steps, room, target)
  {
    if steps != [] {
      var rest := Commands(steps[1..]);
      assert forall c :: c in rest ==> c in Commands(steps);
      assert forall c :: c in CommandOf(steps[0]) ==> c in Commands(steps);
      CommandsKeep(steps[1..], room, target);
      F.NeverReplacedFrom(steps, room, target);
      match steps[0] {
        case Ensure(_, r, t) => assert EnsureCommand(r, t) in CommandOf(steps[0]);
        case Stop(_, r) => assert StopCommand(r) in CommandOf(steps[0]);
        case _ =>
      }
    }
  }

  /** A pass that finds a dead room listed as it should be makes no call for it, and leaves it dead. */
  lemma PassLeavesDead(
    m: S.Manager, steps: seq<S.Step>, end: S.Manager, p: P.Pass, stops: seq<nat>, room: nat, k: nat)
    requires S.Inv(m) && S.Run(m, steps, end) && p.live == S.Listing(m) && Serves(steps, p, stops)
    requires F.Dead(m, room, k) && room in p.wanted && !P.Starts(p.live, p.wanted, room)
    ensures F.Dead(end, room, k) && room in S.Listing(end) && S.Listing(end)[room] == p.live[room]
  {
    hide S.Inv, S.Run, S.Listing, P.Starts;
    if !p.net.listFails {
      var order := P.Order(p.wanted.Keys, p.live.Keys);
      hide P.Order, P.Before, P.StartCalls, Effects;
      StartsLeaveAlone(p, order, |order|, room);
      EffectsLeaveAlone(p, P.StopCalls(stops) + P.StartCalls(p, order, |order|), room);
    }
    CommandsKeep(steps, room, m.objects[k].target);
    F.DeadExactly(m, steps, end, room, k);
  }

  /** So it stays dead for as long as the portal wants the same of it, however many passes come. */
  lemma {:induction false} PassesLeaveDead(
    m: S.Manager, wanted: Listed, max: nat, episodes: seq<Episode>, room: nat, k: nat)
    requires S.Inv(m) && History(m, wanted, max, episodes)
    requires F.Dead(m, room, k) && room in wanted && room in S.Listing(m) && !P.Starts(S.Listing(m), wanted, room)
    ensures F.Dead(Last(m, episodes), room, k)
    decreases |episodes|
  {
    hide S.Inv, S.Run, S.Listing, Serves, F.Dead;
    if episodes != [] {
      var e := episodes[0];
      FirstEpisode(m, episodes);
      S.ReachableInv(m, e.steps, e.after);
      PassLeavesDead(m, e.steps, e.after, P.Pass(S.Listing(m), wanted, m.max, max, e.net), e.stops, room, k);
      PassesLeaveDead(e.after, wanted, max, episodes[1..], room, k);
    }
  }

  lemma OneRoom(p: P.Pass, room: nat)
    requires p.live == p.wanted && p.live.Keys == {room} && p.max > 0 && !p.net.listFails
    ensures Serves([], p, []) && P.Synced(p) == P.Goal(p) == p.live
  {
    P.OrderIsOrder(p.wanted, p.live);
    P.OrderFacts(p.wanted.Keys, p.live.Keys);
    var order := P.Order(p.wanted.Keys, p.live.Keys);
    assert order[0] in order && |order| == 1;
    assert order == [room];
    hide P.Order;
    P.NoneStarted(p, order);
    P.OneMoreStarted(p, order, 0);
    assert P.StartCalls(p, order, |order|) == [];
    assert P.AfterStops(p) == p.live;
    assert room in P.Admitted(p);
  }

  /** The portal's goal can be reached with no process at all: the first spawn for a wanted room fails, and the
      pass that follows finds nothing to call. */
  lemma GoalWithoutProcess(capacity: nat, base: real, max: nat, room: nat, target: S.Target, net: P.Network)
    returns (steps: seq<S.Step>, end: S.Manager)
    requires capacity > 0 && max > 0 && !net.listFails
    ensures S.Run(S.Initial(capacity, base), steps, end) && end.live == map[] && F.Dead(end, room, 0)
    ensures var p := P.Pass(S.Listing(end), map[room := target], capacity, max, net);
            S.Listing(end) == map[room := target] && Serves([], p, []) && P.Synced(p) == P.Goal(p) == p.live
  {
    var m := S.Initial(capacity, base);
    S.InitialInv(capacity, base);
    steps, end := F.SpawnFailureKills(m, 0, 0, room, target);
    var p := P.Pass(S.Listing(end), map[room := target], capacity, max, net);
    assert S.Listing(m) == map[];
    OneRoom(p, room);
  }
}
