/** Publishing to a booth path, end to end: the registry, the ticket store, the socket handler that
    issues tickets and the media hook that redeems them, over one nondecreasing clock. */
module PublishProtocol {
  import opened Basics
  import opened Wrappers
  import Roles
  import opened BoothSpec
  import opened Text
  import BoothIdentity
  import opened BoothPublish

  /** One event of the history of tickets. */
  datatype Event =
    | WasIssued(secret: string, ticket: Ticket, at: real)
    | WasPresented(secret: string)

  /** `pathOf` is booth_id_to_mediamtx_path. */
  datatype Portal = Portal(
    pathOf: string -> Option<string>, booths: map<string, Booth>, store: seq<Entry>, now: real, ghost log: seq<Event>)

  datatype Step =
    | Call(booth: string, language: string, channel: string, op: Operation)
    | Remove(booth: string)
    | Request(booth: string, participant: string, language: string, channel: string, secret: string)
    | Present(path: string, secret: string)
    | Wait(seconds: real)

  ghost function Initial(iso: set<string>, now: real): Portal {
    Portal(id => BoothIdentity.BoothIdToPath(iso, id), map[], [], now, [])
  }

  /** still_entitled. */
  ghost predicate StillEntitled(booths: map<string, Booth>, t: Ticket) {
    t.booth in booths
    && var b := booths[t.booth];
       b.unlocked && Has(b.people, t.participant)
       && b.active == Some(t.participant) && Roles.CanGoLive(Get(b.people, t.participant).role)
  }

  /** authorize_booth_publish. */
  ghost predicate Authorizes(p: Portal, path: string, secret: string) {
    var t := Redeems(p.store, p.now, secret, path);
    t.Some? && StillEntitled(p.booths, t.value)
  }

  /** The condition under which a ticket request is answered with a ticket. */
  ghost predicate Grants(p: Portal, booth: string, who: string, language: string, channel: string) {
    var b := BoothOf(p.booths, booth, language, channel);
    PublishRefusal(b, who).None? && b.unlocked && p.pathOf(booth).Some?
  }

  ghost function After(p: Portal, step: Step): Portal {
    match step
    case Call(id, language, channel, op) => p.(booths := Called(p.booths, id, language, channel, op))
    case Remove(id) => p.(booths := p.booths - {id})
    case Request(id, who, language, channel, secret) =>
      // check_publish_permission creates the booth if it is not there yet.
      var q := p.(booths := p.booths[id := BoothOf(p.booths, id, language, channel)]);
      if !Grants(p, id, who, language, channel) then q
      else
        var path := p.pathOf(id).value;
        q.(store := Issued(p.store, p.now, secret, id, who, path),
           log := p.log + [WasIssued(secret, Ticket(id, who, path, p.now + TICKET_TTL_SECS), p.now)])
    case Present(_, secret) =>
      p.(store := Redeemed(p.store, secret), log := p.log + [WasPresented(secret)])
    case Wait(seconds) => p.(now := p.now + seconds)
  }

  /** Time does not run backwards, and a minted secret was never seen before. */
  ghost predicate Possible(p: Portal, step: Step) {
    match step
    case Wait(seconds) => seconds >= 0.0
    case Request(_, _, _, _, secret) => secret != "" && forall i :: 0 <= i < |p.log| ==> p.log[i].secret != secret
    case _ => true
  }

  ghost predicate Traced(p: Portal, e: Entry) {
    exists i :: 0 <= i < |p.log| && p.log[i].WasIssued? && p.log[i].secret == e.secret && p.log[i].ticket == e.ticket
  }

  ghost predicate Inv(p: Portal) {
    BoothsInv(p.booths) && TicketInv(p)
  }

  ghost predicate BoothsInv(booths: map<string, Booth>) {
    forall id :: id in booths ==> BoothSpec.Inv(booths[id])
  }

  ghost predicate TicketInv(p: Portal) {
    && StoreInv(p.store, p.now)
    && (forall e :: e in p.store ==> e.secret != "" && Traced(p, e))
    && (forall e, i :: e in p.store && 0 <= i < |p.log| && p.log[i].WasPresented? ==> p.log[i].secret != e.secret)
    && (forall i :: 0 <= i < |p.log| && p.log[i].WasIssued? ==> LogInv(p, i))
  }

  /** An issued ticket names a booth whose path it carries, and when it was issued. */
  ghost predicate LogInv(p: Portal, i: nat)
    requires i < |p.log| && p.log[i].WasIssued?
  {
    var t := p.log[i].ticket;
    && t.expires == p.log[i].at + TICKET_TTL_SECS && p.log[i].at <= p.now
    && p.pathOf(t.booth) == Some(t.path)
  }

  lemma OperationKeepsBooths(booths: map<string, Booth>, id: string, language: string, channel: string, op: Operation)
    requires BoothsInv(booths)
    ensures BoothsInv(Called(booths, id, language, channel, op))
    ensures BoothsInv(booths[id := BoothOf(booths, id, language, channel)])
  {
    NewBoothInv(language, channel);
    StepKeepsInv(BoothOf(booths, id, language, channel), op);
  }

  lemma LogGrows(p: Portal, q: Portal)
    requires TicketInv(p) && p.pathOf == q.pathOf && p.now <= q.now && p.log <= q.log
    ensures forall e :: e in p.store ==> Traced(q, e)
    ensures forall i :: 0 <= i < |p.log| && p.log[i].WasIssued? ==> LogInv(q, i)
  {
    forall e | e in p.store ensures Traced(q, e) {
      var i :| 0 <= i < |p.log| && p.log[i].WasIssued? && p.log[i].secret == e.secret && p.log[i].ticket == e.ticket;
      assert q.log[i] == p.log[i];
    }
    forall i | 0 <= i < |p.log| && p.log[i].WasIssued? ensures LogInv(q, i) {
      assert LogInv(p, i) && q.log[i] == p.log[i];
    }
  }

  lemma SameTickets(p: Portal, q: Portal)
    requires TicketInv(p) && p.pathOf == q.pathOf && p.now <= q.now && p.log == q.log && p.store == q.store
    ensures TicketInv(q)
  {
    LogGrows(p, q);
  }

  lemma PresentKeepsInv(p: Portal, secret: string, q: Portal)
    requires TicketInv(p)
    requires q == p.(store := Redeemed(p.store, secret), log := p.log + [WasPresented(secret)])
    ensures TicketInv(q)
  {
    RedeemKeepsStore(p.store, p.now, secret);
    LogGrows(p, q);
    forall e, i | e in q.store && 0 <= i < |q.log| && q.log[i].WasPresented? ensures q.log[i].secret != e.secret {
      if i < |p.log| { assert q.log[i] == p.log[i]; }
    }
  }

  lemma FreshIsNotHeld(p: Portal, secret: string)
    requires TicketInv(p) && forall i :: 0 <= i < |p.log| ==> p.log[i].secret != secret
    ensures !Holds(p.store, secret)
  {
    forall k | 0 <= k < |p.store| ensures p.store[k].secret != secret {
      assert p.store[k] in p.store && Traced(p, p.store[k]);
    }
  }

  lemma IssuedMembers(store: seq<Entry>, now: real, secret: string, id: string, who: string, path: string, x: Entry)
    requires x in Issued(store, now, secret, id, who, path)
    ensures x in store || x == Entry(secret, Ticket(id, who, path, now + TICKET_TTL_SECS))
  {
    PrunedIsSuffix(store, now);
  }

  lemma GrantKeepsInv(p: Portal, id: string, who: string, path: string, secret: string, q: Portal)
    requires TicketInv(p) && p.pathOf(id) == Some(path)
    requires secret != "" && forall i :: 0 <= i < |p.log| ==> p.log[i].secret != secret
    requires q == p.(store := Issued(p.store, p.now, secret, id, who, path),
                     log := p.log + [WasIssued(secret, Ticket(id, who, path, p.now + TICKET_TTL_SECS), p.now)])
    ensures TicketInv(q)
  {
    assert StoreInv(q.store, q.now) by {
      FreshIsNotHeld(p, secret);
      IssueKeepsStore(p.store, p.now, secret, id, who, path);
    }
    LogGrows(p, q);
    var e := Entry(secret, Ticket(id, who, path, p.now + TICKET_TTL_SECS));
    var n := |p.log|;
    assert q.log[n] == WasIssued(secret, e.ticket, p.now);
    assert Traced(q, e) && LogInv(q, n);
    forall x | x in q.store
      ensures x.secret != "" && Traced(q, x)
      ensures forall i :: 0 <= i < |q.log| && q.log[i].WasPresented? ==> q.log[i].secret != x.secret
    {
      IssuedMembers(p.store, p.now, secret, id, who, path, x);
      assert forall i :: 0 <= i < n ==> q.log[i] == p.log[i];
    }
    assert forall i :: 0 <= i < |q.log| && q.log[i].WasIssued? ==> LogInv(q, i);
  }

  lemma RequestKeepsTickets(p: Portal, id: string, who: string, language: string, channel: string, secret: string)
    requires TicketInv(p) && Possible(p, Request(id, who, language, channel, secret))
    ensures TicketInv(After(p, Request(id, who, language, channel, secret)))
  {
    hide TicketInv, BoothOf, Pruned;
    var r := p.(booths := p.booths[id := BoothOf(p.booths, id, language, channel)]);
    SameTickets(p, r);
    if Grants(p, id, who, language, channel) {
      GrantKeepsInv(r, id, who, p.pathOf(id).value, secret, After(p, Request(id, who, language, channel, secret)));
    }
  }

  lemma AfterKeepsInv(p: Portal, step: Step)
    requires Inv(p) && Possible(p, step)
    ensures Inv(After(p, step))
  {
    var q := After(p, step);
    match step
    case Call(id, l, c, op) => OperationKeepsBooths(p.booths, id, l, c, op); SameTickets(p, q);
    case Remove(id) => SameTickets(p, q);
    case Request(id, w, l, c, s) =>
      OperationKeepsBooths(p.booths, id, l, c, Overload);
      RequestKeepsTickets(p, id, w, l, c, s);
    case Present(path, s) => PresentKeepsInv(p, s, q);
    case Wait(_) => SameTickets(p, q);
  }

  lemma InitialInv(iso: set<string>, now: real)
    ensures Inv(Initial(iso, now))
  {
  }

  ghost predicate Reachable(p: Portal, q: Portal, steps: seq<Step>)
    decreases |steps|
  {
    if steps == [] then p == q
    else Possible(p, steps[0]) && Reachable(After(p, steps[0]), q, steps[1..])
  }

  lemma {:induction false} ReachableInv(p: Portal, q: Portal, steps: seq<Step>)
    requires Inv(p) && Reachable(p, q, steps)
    ensures Inv(q)
    decreases |steps|
  {
    if steps != [] {
      AfterKeepsInv(p, steps[0]);
      ReachableInv(After(p, steps[0]), q, steps[1..]);
    }
  }

  /** Issue number i of the log backs the publish of `secret` on `path`. */
  ghost predicate Backs(p: Portal, i: nat, path: string, secret: string)
    requires i < |p.log|
  {
    && p.log[i].WasIssued? && p.log[i].secret == secret && p.log[i].ticket.path == path
    && p.log[i].at <= p.now < p.log[i].at + 30.0
    && p.pathOf(p.log[i].ticket.booth) == Some(path)
  }

  /** Whenever the media hook lets a publisher in: the secret was issued for that very path less than
      30 seconds before, it had never been presented, and its holder is at this moment the active
      interpreter of an unlocked booth, which would still grant them a ticket. */
  lemma AuthorizedMeaning(p: Portal, path: string, secret: string) returns (i: nat)
    requires Inv(p) && Authorizes(p, path, secret)
    ensures i < |p.log| && Backs(p, i, path, secret)
    ensures forall j :: 0 <= j < |p.log| ==> p.log[j] != WasPresented(secret)
    ensures var t := p.log[i].ticket;
            && t.booth in p.booths && p.booths[t.booth].unlocked
            && p.booths[t.booth].active == Some(t.participant)
            && PublishRefusal(p.booths[t.booth], t.participant) == None
            && forall l, c :: Grants(p, t.booth, t.participant, l, c)
  {
    var k := Position(p.store, secret, 0);
    var e := p.store[k];
    assert e in p.store && Traced(p, e);
    i :| 0 <= i < |p.log| && p.log[i].WasIssued? && p.log[i].secret == e.secret && p.log[i].ticket == e.ticket;
    assert LogInv(p, i);
  }

  /** Over whole runs: no secret authorises twice, for any path, whatever happens in between. */
  lemma {:induction false} SpentForGood(p: Portal, q: Portal, steps: seq<Step>, secret: string, path: string)
    requires Inv(p) && (exists j :: 0 <= j < |p.log| && p.log[j] == WasPresented(secret)) && Reachable(p, q, steps)
    ensures !Authorizes(q, path, secret)
    decreases |steps|
  {
    var j :| 0 <= j < |p.log| && p.log[j] == WasPresented(secret);
    if steps == [] {
      if Authorizes(p, path, secret) { var i := AuthorizedMeaning(p, path, secret); }
    } else {
      AfterKeepsInv(p, steps[0]);
      assert After(p, steps[0]).log[j] == p.log[j];
      SpentForGood(After(p, steps[0]), q, steps[1..], secret, path);
    }
  }

  lemma SingleUse(p: Portal, q: Portal, steps: seq<Step>, secret: string, first: string, second: string)
    requires Inv(p) && Reachable(After(p, Present(first, secret)), q, steps)
    ensures !Authorizes(q, second, secret)
  {
    var p' := After(p, Present(first, secret));
    PresentKeepsInv(p, secret, p');
    assert p'.log[|p.log|] == WasPresented(secret);
    SpentForGood(p', q, steps, secret, second);
  }

  // ---- One publisher per booth and per path ----

  /** Unlocked, with a holder who is present and can go live. */
  ghost predicate LiveBooth(b: Booth) {
    b.unlocked && b.active.Some? && Has(b.people, b.active.value)
    && Roles.CanGoLive(Get(b.people, b.active.value).role)
  }

  /** A ticket for the path, of a booth that has it, whose holder is entitled now. */
  ghost predicate Entitled(p: Portal, path: string, t: Ticket) {
    t.path == path && p.pathOf(t.booth) == Some(path) && StillEntitled(p.booths, t)
  }

  /** A registered booth of the path is live. */
  ghost predicate LiveOn(p: Portal, path: string, id: string) {
    id in p.booths && p.pathOf(id) == Some(path) && LiveBooth(p.booths[id])
  }

  /** Any two tickets entitled at one moment for one booth name the same participant. */
  lemma OneEntitledHolder(p: Portal, t: Ticket, u: Ticket)
    requires StillEntitled(p.booths, t) && StillEntitled(p.booths, u) && t.booth == u.booth
    ensures t.participant == u.participant && p.booths[t.booth].active == Some(t.participant)
  {
  }

  /** For one path they name one booth if and only if no two registered booths of that path are live. */
  lemma OneBoothPerPath(p: Portal, path: string)
    ensures (forall t, u :: Entitled(p, path, t) && Entitled(p, path, u) ==> t.booth == u.booth)
            <==> (forall i, j :: LiveOn(p, path, i) && LiveOn(p, path, j) ==> i == j)
  {
    if forall t, u :: Entitled(p, path, t) && Entitled(p, path, u) ==> t.booth == u.booth {
      forall i, j | LiveOn(p, path, i) && LiveOn(p, path, j) ensures i == j {
        assert Entitled(p, path, Ticket(i, p.booths[i].active.value, path, 0.0));
        assert Entitled(p, path, Ticket(j, p.booths[j].active.value, path, 0.0));
      }
    }
    if forall i, j :: LiveOn(p, path, i) && LiveOn(p, path, j) ==> i == j {
      forall t, u | Entitled(p, path, t) && Entitled(p, path, u) ensures t.booth == u.booth {
        assert LiveOn(p, path, t.booth) && LiveOn(p, path, u.booth);
      }
    }
  }

  /** That is so while every registered ID is canonical. */
  lemma CanonicalIdsAreAlone(p: Portal, iso: set<string>, path: string, i: string, j: string)
    requires forall id :: p.pathOf(id) == BoothIdentity.BoothIdToPath(iso, id)
    requires BoothIdentity.CanonicalId(iso, i) && BoothIdentity.CanonicalId(iso, j)
    requires LiveOn(p, path, i) && LiveOn(p, path, j)
    ensures i == j
  {
    BoothIdentity.ConversionsAreInverse(iso, i);
    BoothIdentity.ConversionsAreInverse(iso, j);
  }

  /** What makes a fresh booth live and hands its holder a ticket. */
  ghost function GoLive(id: string, j: Joining, secret: string): seq<Step> {
    [Call(id, "", "", Join(j)), Call(id, "", "", SetUnlocked(true)), Request(id, j.minted, "", "", secret)]
  }

  lemma FreshBoothIsLive(j: Joining)
    requires j.id.None? && Roles.CanGoLive(j.role)
    ensures var b := Next(Next(NewBooth("", ""), Join(j)), SetUnlocked(true));
            LiveBooth(b) && b.active == Some(j.minted) && PublishRefusal(b, j.minted).None?
  {
    hide DoUpdate, DoAccept, DoInitiate, DoCancel, DoSetActive, DoChat, DoLeave, PickNext;
    var b := DoSetUnlocked(DoJoin(NewBooth("", ""), j), true);
    assert b.people == [Joined(NewBooth("", ""), j)];
    GetIsTheOne(b.people, 0);
  }

  /** A fresh booth of the path goes live and hands out a ticket. */
  ghost predicate WentLive(p: Portal, q: Portal, id: string, who: string, secret: string, path: string) {
    var t := Ticket(id, who, path, p.now + TICKET_TTL_SECS);
    && q.pathOf == p.pathOf && q.now == p.now && q.booths.Keys == p.booths.Keys + {id}
    && (forall other :: other in p.booths && other != id ==> q.booths[other] == p.booths[other])
    && q.store == p.store + [Entry(secret, t)] && q.log == p.log + [WasIssued(secret, t, p.now)]
    && StillEntitled(q.booths, t)
  }

  lemma ThreeSteps(p: Portal, steps: seq<Step>)
    requires |steps| == 3 && Possible(p, steps[0]) && Possible(After(p, steps[0]), steps[1])
    requires Possible(After(After(p, steps[0]), steps[1]), steps[2])
    ensures Reachable(p, After(After(After(p, steps[0]), steps[1]), steps[2]), steps)
  {
    hide After, Possible;
    var p1, rest := After(p, steps[0]), steps[1..];
    var p2 := After(p1, rest[0]);
    assert Reachable(After(p2, rest[1..][0]), After(p2, steps[2]), rest[1..][1..]);
    assert Reachable(p2, After(p2, steps[2]), rest[1..]);
  }

  lemma SetsUp(p: Portal, id: string, j: Joining)
    requires id !in p.booths
    ensures var b := Next(Next(NewBooth("", ""), Join(j)), SetUnlocked(true));
            var p1 := After(p, Call(id, "", "", Join(j)));
            && After(p1, Call(id, "", "", SetUnlocked(true))) == p.(booths := p.booths[id := b])
            && Possible(p, Call(id, "", "", Join(j))) && Possible(p1, Call(id, "", "", SetUnlocked(true)))
  {
    hide Next;
  }

  lemma Asks(p: Portal, id: string, b: Booth, who: string, secret: string, path: string)
    requires p.pathOf(id) == Some(path) && |p.store| < MAX_TICKETS && secret != ""
    requires forall i :: 0 <= i < |p.store| ==> p.store[i].ticket.expires > p.now
    requires forall i :: 0 <= i < |p.log| ==> p.log[i].secret != secret
    requires LiveBooth(b) && b.active == Some(who) && PublishRefusal(b, who).None?
    ensures var p2 := p.(booths := p.booths[id := b]);
            && Possible(p2, Request(id, who, "", "", secret))
            && WentLive(p, After(p2, Request(id, who, "", "", secret)), id, who, secret, path)
  {
    hide PublishRefusal;
    var p2 := p.(booths := p.booths[id := b]);
    assert Grants(p2, id, who, "", "");
    assert p2.booths[id := b] == p2.booths;
  }

  lemma GoesLive(p: Portal, id: string, j: Joining, secret: string, path: string) returns (q: Portal)
    requires p.pathOf(id) == Some(path) && id !in p.booths && |p.store| < MAX_TICKETS && secret != ""
    requires forall i :: 0 <= i < |p.store| ==> p.store[i].ticket.expires > p.now
    requires forall i :: 0 <= i < |p.log| ==> p.log[i].secret != secret
    requires j.id.None? && Roles.CanGoLive(j.role)
    ensures Reachable(p, q, GoLive(id, j, secret)) && WentLive(p, q, id, j.minted, secret, path)
  {
    var b := Next(Next(NewBooth("", ""), Join(j)), SetUnlocked(true));
    FreshBoothIsLive(j);
    hide Next, PublishRefusal, LiveBooth, Possible, After, Reachable, WentLive;
    var p1 := After(p, Call(id, "", "", Join(j)));
    var p2 := After(p1, Call(id, "", "", SetUnlocked(true)));
    SetsUp(p, id, j);
    q := After(p2, Request(id, j.minted, "", "", secret));
    Asks(p, id, b, j.minted, secret, path);
    ThreeSteps(p, GoLive(id, j, secret));
  }

  lemma {:induction false} RunsJoin(p: Portal, q: Portal, r: Portal, first: seq<Step>, second: seq<Step>)
    requires Reachable(p, q, first) && Reachable(q, r, second)
    ensures Reachable(p, r, first + second)
    decreases |first|
  {
    hide After, Possible;
    if first == [] {
      assert first + second == second;
    } else {
      RunsJoin(After(p, first[0]), q, r, first[1..], second);
      assert (first + second)[1..] == first[1..] + second;
    }
  }

  lemma BothRedeem(e: Entry, f: Entry, now: real)
    requires e.secret != f.secret && e.secret != "" && f.secret != ""
    requires e.ticket.expires > now && f.ticket.expires > now
    ensures Redeems([e, f], now, e.secret, e.ticket.path) == Some(e.ticket)
    ensures Redeems(Redeemed([e, f], e.secret), now, f.secret, f.ticket.path) == Some(f.ticket)
  {
    assert Position([e, f], e.secret, 0) == 0;
    CutAt([e, f], 0);
    assert Cut([e, f], 0) == [f];
    assert Position([f], f.secret, 0) == 0;
  }

  /** The media hook lets the holder of the secret publish on the path, for that booth. */
  ghost predicate LetIn(p: Portal, path: string, id: string, secret: string) {
    Authorizes(p, path, secret) && Redeems(p.store, p.now, secret, path).value.booth == id
  }

  lemma BothLetIn(
    start: Portal, p: Portal, q: Portal, i: string, j: string, path: string, a: string, b: string, s: string, t: string)
    requires start.store == [] && start.booths == map[] && i != j && s != t && s != "" && t != ""
    requires WentLive(start, p, i, a, s, path) && WentLive(p, q, j, b, t, path)
    requires start.pathOf(i) == start.pathOf(j) == Some(path)
    ensures LetIn(q, path, i, s) && LetIn(After(q, Present(path, s)), path, j, t)
    ensures LiveOn(q, path, i) && LiveOn(q, path, j)
    ensures q.booths[i].active == Some(a) && q.booths[j].active == Some(b)
  {
    hide Has, Get, Redeems, Redeemed;
    var e, f := Entry(s, Ticket(i, a, path, start.now + TICKET_TTL_SECS)),
                Entry(t, Ticket(j, b, path, start.now + TICKET_TTL_SECS));
    assert q.store == [e, f];
    assert q.booths[i] == p.booths[i];
    BothRedeem(e, f, q.now);
  }

  /** Whenever two IDs have one path, a run exists after which two participants of two booths are both let in
      on it: the registry tells spellings apart that the path does not. */
  lemma TwoPublishersOnOnePath(
    start: Portal, i: string, j: string, path: string, a: Joining, b: Joining, s: string, t: string)
    returns (steps: seq<Step>, q: Portal)
    requires start.booths == map[] && start.store == [] && start.log == []
    requires i != j && start.pathOf(i) == start.pathOf(j) == Some(path)
    requires a.id.None? && b.id.None? && Roles.CanGoLive(a.role) && Roles.CanGoLive(b.role)
    requires s != "" && t != "" && s != t
    ensures Reachable(start, q, steps) && steps == GoLive(i, a, s) + GoLive(j, b, t)
    ensures LetIn(q, path, i, s) && LetIn(After(q, Present(path, s)), path, j, t)
    ensures LiveOn(q, path, i) && LiveOn(q, path, j)
    ensures q.booths[i].active == Some(a.minted) && q.booths[j].active == Some(b.minted)
  {
    hide Reachable, Has, Get, GoLive, LetIn;
    var p := GoesLive(start, i, a, s, path);
    q := GoesLive(p, j, b, t, path);
    steps := GoLive(i, a, s) + GoLive(j, b, t);
    RunsJoin(start, p, q, GoLive(i, a, s), GoLive(j, b, t));
    BothLetIn(start, p, q, i, j, path, a.minted, b.minted, s, t);
  }

  lemma StartsEmpty(iso: set<string>, now: real, id: string)
    ensures var p := Initial(iso, now);
            p.booths == map[] && p.store == [] && p.log == [] && p.pathOf(id) == BoothIdentity.BoothIdToPath(iso, id)
  {
  }

  /** Such IDs exist for every booth: add a zero to the room number. */
  lemma AliasedBoothsBothPublish(
    iso: set<string>, now: real, slug: string, digits: string, code: string, a: Joining, b: Joining,
    s: string, t: string)
    returns (steps: seq<Step>, q: Portal)
    requires Digits(digits) && BoothIdentity.Normal(iso, BoothIdentity.Coordinates(slug, ParseInt(digits), code))
    requires a.id.None? && b.id.None? && Roles.CanGoLive(a.role) && Roles.CanGoLive(b.role)
    requires s != "" && t != "" && s != t
    ensures var i, j := slug + "-" + digits + "-" + code, slug + "-" + ("0" + digits) + "-" + code;
            var path := BoothIdentity.PathOf(BoothIdentity.Coordinates(slug, ParseInt(digits), code));
            && Reachable(Initial(iso, now), q, steps)
            && LetIn(q, path, i, s) && LetIn(After(q, Present(path, s)), path, j, t)
            && LiveOn(q, path, i) && LiveOn(q, path, j) && i != j
            && q.booths[i].active == Some(a.minted) && q.booths[j].active == Some(b.minted)
  {
    hide BoothIdentity.PathOf, BoothIdentity.BoothIdToPath, LetIn, LiveOn, Reachable, After, ParseInt, GoLive;
    var i, j := slug + "-" + digits + "-" + code, slug + "-" + ("0" + digits) + "-" + code;
    var path := BoothIdentity.PathOf(BoothIdentity.Coordinates(slug, ParseInt(digits), code));
    BoothIdentity.AliasesShareAPath(iso, slug, digits, code);
    StartsEmpty(iso, now, i);
    StartsEmpty(iso, now, j);
    steps, q := TwoPublishersOnOnePath(Initial(iso, now), i, j, path, a, b, s, t);
  }

  // ---- Single steps ----

  /** A ticket is issued exactly to the slot's holder, present and able to go live, of an unlocked booth whose ID
      has a path; it is for that booth, participant and path. */
  lemma IssuedExactly(p: Portal, id: string, who: string, language: string, channel: string, secret: string)
    requires id in p.booths
    ensures var b, q := p.booths[id], After(p, Request(id, who, language, channel, secret));
            if b.unlocked && p.pathOf(id).Some? && b.active == Some(who) && Has(b.people, who)
               && Roles.CanGoLive(Get(b.people, who).role)
            then q.log == p.log + [WasIssued(secret, Ticket(id, who, p.pathOf(id).value, p.now + 30.0), p.now)]
                 && q.booths == p.booths
            else q == p
  {
    hide Issued;
    assert p.booths[id := p.booths[id]] == p.booths;
  }

  /** A booth that is removed is gone with its people and its lock; time only passes. */
  lemma RemovedIsGone(p: Portal, id: string, seconds: real, t: Ticket)
    ensures After(p, Remove(id)) == p.(booths := p.booths - {id})
    ensures t.booth == id ==> !StillEntitled(After(p, Remove(id)).booths, t)
    ensures After(p, Wait(seconds)).now == p.now + seconds && After(p, Wait(seconds)) == p.(now := p.now + seconds)
  {
  }

  /** The first call or request on a booth makes it, in the language and channel it names, empty and locked;
      whoever comes later changes neither. */
  lemma FirstOneNamesTheBooth(
    p: Portal, id: string, who: string, language: string, channel: string, secret: string, op: Operation)
    ensures var booths := After(p, Request(id, who, language, channel, secret)).booths;
            && id in booths
            && (id in p.booths ==> booths == p.booths)
            && (id !in p.booths ==>
                  && booths == p.booths[id := booths[id]]
                  && booths[id].language == language && booths[id].channel == channel
                  && booths[id].people == [] && booths[id].chat == [] && !booths[id].unlocked
                  && booths[id].active.None? && booths[id].handoff.Idle? && booths[id].status.Disconnected?)
    ensures var booths := After(p, Call(id, language, channel, op)).booths;
            && booths == p.booths[id := booths[id]]
            && booths[id].language == (if id in p.booths then p.booths[id].language else language)
            && booths[id].channel == (if id in p.booths then p.booths[id].channel else channel)
  {
    hide Issued, Grants;
    DefaultsStay(BoothOf(p.booths, id, language, channel), op);
    hide Next;
  }

  // ---- One booth per path, over runs ----

  /** The step registers no booth outside the set. */
  predicate Within(step: Step, ids: iset<string>) {
    match step
    case Call(id, _, _, _) => id in ids
    case Request(id, _, _, _, _) => id in ids
    case _ => true
  }

  ghost predicate Uses(steps: seq<Step>, ids: iset<string>) {
    forall step :: step in steps ==> Within(step, ids)
  }

  lemma StepRegisters(p: Portal, step: Step, ids: iset<string>)
    requires Within(step, ids) && forall id :: id in p.booths ==> id in ids
    ensures forall id :: id in After(p, step).booths ==> id in ids
  {
    hide Grants, Issued, BoothOf;
  }

  lemma {:induction false} RegisteredAreUsed(p: Portal, q: Portal, steps: seq<Step>, ids: iset<string>)
    requires Reachable(p, q, steps) && Uses(steps, ids) && forall id :: id in p.booths ==> id in ids
    ensures forall id :: id in q.booths ==> id in ids
    decreases |steps|
  {
    if steps != [] {
      StepRegisters(p, steps[0], ids);
      assert forall step :: step in steps[1..] ==> step in steps;
      hide After, Possible, Within;
      RegisteredAreUsed(After(p, steps[0]), q, steps[1..], ids);
    }
  }

  lemma LetInHasPath(p: Portal, path: string, id: string, secret: string)
    requires Inv(p) && LetIn(p, path, id, secret)
    ensures id in p.booths && p.pathOf(id) == Some(path)
  {
    var k := Position(p.store, secret, 0);
    var e := p.store[k];
    assert e in p.store && Traced(p, e);
    var i :| 0 <= i < |p.log| && p.log[i].WasIssued? && p.log[i].secret == e.secret && p.log[i].ticket == e.ticket;
    assert LogInv(p, i);
  }

  /** Two publishers are let in on the path, one after the other, for two booths. */
  ghost predicate TwoBooths(p: Portal, path: string) {
    exists i, j, s, t :: i != j && LetIn(p, path, i, s) && LetIn(After(p, Present(path, s)), path, j, t)
  }

  /** No two of the IDs have one path. */
  ghost predicate PathsDiffer(iso: set<string>, ids: iset<string>) {
    forall i, j :: (i in ids && j in ids && BoothIdentity.BoothIdToPath(iso, i).Some?
                    && BoothIdentity.BoothIdToPath(iso, i) == BoothIdentity.BoothIdToPath(iso, j)) ==> i == j
  }

  lemma PresentKeepsBooths(p: Portal, path: string, secret: string)
    ensures Possible(p, Present(path, secret))
    ensures After(p, Present(path, secret)).booths == p.booths && After(p, Present(path, secret)).pathOf == p.pathOf
  {
  }

  lemma {:induction false} ClockRuns(p: Portal, q: Portal, steps: seq<Step>)
    requires Reachable(p, q, steps)
    ensures p.now <= q.now && p.pathOf == q.pathOf
    decreases |steps|
  {
    if steps != [] { ClockRuns(After(p, steps[0]), q, steps[1..]); }
  }

  lemma DifferingPathsKeepApart(
    iso: set<string>, now: real, ids: iset<string>, q: Portal, steps: seq<Step>, path: string)
    requires PathsDiffer(iso, ids) && Reachable(Initial(iso, now), q, steps) && Uses(steps, ids)
    ensures !TwoBooths(q, path)
  {
    hide LetIn, Uses, Inv, BoothIdentity.BoothIdToPath, After, Possible;
    InitialInv(iso, now);
    ReachableInv(Initial(iso, now), q, steps);
    ClockRuns(Initial(iso, now), q, steps);
    RegisteredAreUsed(Initial(iso, now), q, steps, ids);
    forall i, j, s, t | LetIn(q, path, i, s) && LetIn(After(q, Present(path, s)), path, j, t) ensures i == j {
      LetInHasPath(q, path, i, s);
      AfterKeepsInv(q, Present(path, s));
      LetInHasPath(After(q, Present(path, s)), path, j, t);
      PresentKeepsBooths(q, path, s);
    }
  }

  lemma GoLiveUses(i: string, a: Joining, s: string, j: string, b: Joining, t: string, ids: iset<string>)
    requires i in ids && j in ids
    ensures Uses(GoLive(i, a, s) + GoLive(j, b, t), ids)
  {
  }

  lemma SharedPathLetsTwoIn(iso: set<string>, now: real, ids: iset<string>, i: string, j: string, path: string)
    returns (steps: seq<Step>, q: Portal)
    requires i in ids && j in ids && i != j
    requires BoothIdentity.BoothIdToPath(iso, i) == BoothIdentity.BoothIdToPath(iso, j) == Some(path)
    ensures Reachable(Initial(iso, now), q, steps) && Uses(steps, ids) && TwoBooths(q, path)
  {
    hide Reachable, LetIn, GoLive, BoothIdentity.BoothIdToPath, LiveOn, After, Uses;
    var who := Joining("", Roles.Interpreter, "", "", None, "a", false, None);
    var other := who.(minted := "b");
    StartsEmpty(iso, now, i);
    StartsEmpty(iso, now, j);
    steps, q := TwoPublishersOnOnePath(Initial(iso, now), i, j, path, who, other, "s", "t");
    GoLiveUses(i, who, "s", j, other, "t", ids);
  }

  /** On all runs that register only IDs of a set, at most one booth publishes on a path at a time if and only
      if no two of those IDs have one path. */
  lemma OneBoothPerPathExactly(iso: set<string>, now: real, ids: iset<string>)
    ensures (forall q, steps, path | Reachable(Initial(iso, now), q, steps) && Uses(steps, ids) :: !TwoBooths(q, path))
            <==> PathsDiffer(iso, ids)
  {
    hide Reachable, TwoBooths, Uses, BoothIdentity.BoothIdToPath;
    if PathsDiffer(iso, ids) {
      forall q, steps, path | Reachable(Initial(iso, now), q, steps) && Uses(steps, ids) ensures !TwoBooths(q, path) {
        DifferingPathsKeepApart(iso, now, ids, q, steps, path);
      }
    } else {
      var i, j :| i in ids && j in ids && BoothIdentity.BoothIdToPath(iso, i).Some? && i != j
                  && BoothIdentity.BoothIdToPath(iso, i) == BoothIdentity.BoothIdToPath(iso, j);
      var path := BoothIdentity.BoothIdToPath(iso, i).value;
      var steps, q := SharedPathLetsTwoIn(iso, now, ids, i, j, path);
    }
  }

  /** Canonical IDs are such a set. */
  lemma CanonicalPathsDiffer(iso: set<string>, ids: iset<string>)
    requires forall id :: id in ids ==> BoothIdentity.CanonicalId(iso, id)
    ensures PathsDiffer(iso, ids)
  {
    hide BoothIdentity.BoothIdToPath, BoothIdentity.CanonicalId;
    forall i, j | i in ids && j in ids && BoothIdentity.BoothIdToPath(iso, i).Some?
                  && BoothIdentity.BoothIdToPath(iso, i) == BoothIdentity.BoothIdToPath(iso, j)
      ensures i == j
    {
      BoothIdentity.ConversionsAreInverse(iso, i);
      BoothIdentity.ConversionsAreInverse(iso, j);
    }
  }

  // ---- A granted ticket over a run ----

  ghost function GrantedBy(p: Portal, s: Step): nat {
    if s.Request? && Grants(p, s.booth, s.participant, s.language, s.channel) then 1 else 0
  }

  /** How many requests of a run are granted. */
  ghost function Granted(p: Portal, steps: seq<Step>): nat
    decreases |steps|
  {
    if steps == [] then 0
    else
      GrantedBy(p, steps[0]) + Granted(After(p, steps[0]), steps[1..])
  }

  ghost predicate NeverPresented(steps: seq<Step>, secret: string) {
    forall i :: 0 <= i < |steps| && steps[i].Present? ==> steps[i].secret != secret
  }

  ghost predicate WasMinted(p: Portal, secret: string) {
    exists i :: 0 <= i < |p.log| && p.log[i].WasIssued? && p.log[i].secret == secret
  }

  lemma StaysMinted(p: Portal, step: Step, secret: string)
    requires WasMinted(p, secret)
    ensures WasMinted(After(p, step), secret)
  {
    var i :| 0 <= i < |p.log| && p.log[i].WasIssued? && p.log[i].secret == secret;
    assert After(p, step).log[i] == p.log[i];
  }

  /** One step leaves a waiting ticket waiting, behind one more if it grants one. */
  lemma StepKeepsWaiting(p: Portal, step: Step, e: Entry, behind: nat)
    requires Possible(p, step) && Waiting(p.store, e, behind) && WasMinted(p, e.secret)
    requires p.now < e.ticket.expires && behind + 1 < MAX_TICKETS
    requires step.Present? ==> step.secret != e.secret
    ensures Waiting(After(p, step).store, e, behind + GrantedBy(p, step))
  {
    hide Waiting;
    if step.Present? {
      RedeemKeepsWaiting(p.store, step.secret, e, behind);
    } else if GrantedBy(p, step) == 1 {
      var path := p.pathOf(step.booth).value;
      IssueKeepsWaiting(p.store, Issue(p.now, step.secret, step.booth, step.participant, path), e, behind);
    }
  }

  /** A ticket with the last place waits through anything but one more grant. */
  lemma LastPlaceWaits(p: Portal, step: Step, e: Entry, behind: nat)
    requires Waiting(p.store, e, behind) && GrantedBy(p, step) == 0
    requires step.Present? ==> step.secret != e.secret
    ensures Waiting(After(p, step).store, e, behind)
  {
    hide Waiting;
    if step.Present? { RedeemKeepsWaiting(p.store, step.secret, e, behind); }
  }

  lemma {:induction false} RunKeepsWaiting(p: Portal, q: Portal, steps: seq<Step>, e: Entry, behind: nat)
    returns (b: nat)
    requires Reachable(p, q, steps) && Waiting(p.store, e, behind) && WasMinted(p, e.secret)
    requires q.now < e.ticket.expires && behind + Granted(p, steps) < MAX_TICKETS && NeverPresented(steps, e.secret)
    ensures Waiting(q.store, e, b)
    decreases |steps|
  {
    b := behind;
    if steps != [] {
      hide Waiting, WasMinted, After, Possible, Grants;
      ClockRuns(p, q, steps);
      assert forall i :: 0 <= i < |steps[1..]| ==> steps[1..][i] == steps[i + 1];
      if behind + 1 < MAX_TICKETS {
        StepKeepsWaiting(p, steps[0], e, behind);
      } else {
        LastPlaceWaits(p, steps[0], e, behind);
      }
      StaysMinted(p, steps[0], e.secret);
      b := RunKeepsWaiting(After(p, steps[0]), q, steps[1..], e, behind + GrantedBy(p, steps[0]));
    }
  }

  lemma WaitingRedeems(store: seq<Entry>, e: Entry, behind: nat, now: real)
    requires Waiting(store, e, behind) && e.secret != "" && now < e.ticket.expires
    ensures Redeems(store, now, e.secret, e.ticket.path) == Some(e.ticket)
  {
  }

  lemma JustIssuedWaits(store: seq<Entry>, now: real, e: Entry)
    requires !Holds(store, e.secret) && e.ticket.expires == now + TICKET_TTL_SECS
    ensures Waiting(Issued(store, now, e.secret, e.ticket.booth, e.ticket.participant, e.ticket.path), e, 0)
  {
    PrunedIsSuffix(store, now);
    var first := Issued(store, now, e.secret, e.ticket.booth, e.ticket.participant, e.ticket.path);
    assert first[|first| - 1] == e;
  }

  lemma JustGrantedWaits(
    p: Portal, id: string, who: string, language: string, channel: string, secret: string)
    requires TicketInv(p) && Possible(p, Request(id, who, language, channel, secret))
    requires Grants(p, id, who, language, channel)
    ensures var e := Entry(secret, Ticket(id, who, p.pathOf(id).value, p.now + TICKET_TTL_SECS));
            var first := After(p, Request(id, who, language, channel, secret));
            Waiting(first.store, e, 0) && WasMinted(first, secret) && secret != ""
  {
    hide StoreInv, LogInv, Traced, Waiting, BoothOf;
    var path := p.pathOf(id).value;
    var e := Entry(secret, Ticket(id, who, path, p.now + TICKET_TTL_SECS));
    var first := After(p, Request(id, who, language, channel, secret));
    FreshIsNotHeld(p, secret);
    JustIssuedWaits(p.store, p.now, e);
    assert first.log[|p.log|] == WasIssued(secret, e.ticket, p.now);
  }

  /** A granted ticket, presented for its booth's path within 30 seconds and before MAX_TICKETS other grants,
      is honoured on every run exactly if its holder is still entitled then. */
  lemma GrantedTicketIsHonoured(
    p: Portal, id: string, who: string, language: string, channel: string, secret: string, steps: seq<Step>, q: Portal)
    requires Inv(p) && Possible(p, Request(id, who, language, channel, secret)) && Grants(p, id, who, language, channel)
    requires Reachable(After(p, Request(id, who, language, channel, secret)), q, steps)
    requires Granted(After(p, Request(id, who, language, channel, secret)), steps) < MAX_TICKETS
    requires NeverPresented(steps, secret) && q.now < p.now + TICKET_TTL_SECS
    ensures var path := p.pathOf(id).value;
            Authorizes(q, path, secret) <==> StillEntitled(q.booths, Ticket(id, who, path, p.now + TICKET_TTL_SECS))
  {
    var path := p.pathOf(id).value;
    var e := Entry(secret, Ticket(id, who, path, p.now + TICKET_TTL_SECS));
    var first := After(p, Request(id, who, language, channel, secret));
    JustGrantedWaits(p, id, who, language, channel, secret);
    hide After, Possible, Grants, Waiting, WasMinted, TicketInv;
    var b := RunKeepsWaiting(first, q, steps, e, 0);
    WaitingRedeems(q.store, e, b, q.now);
  }
}
