/** portal/booth_publish.py: the bounded store of single-use publish tickets. */
module BoothPublish {
  import opened Basics
  import opened Wrappers

  const TICKET_TTL_SECS := 30.0
  const MAX_TICKETS := 4096

  datatype Ticket = Ticket(booth: string, participant: string, path: string, expires: real)

  /** An entry of the store. The key is the secret itself: SHA-256 is taken to be injective. */
  datatype Entry = Entry(secret: string, ticket: Ticket)

  // ---- The store, oldest first ----

  function Position(store: seq<Entry>, secret: string, from: nat): (k: nat)
    requires from <= |store|
    ensures from <= k <= |store|
    ensures k < |store| ==> store[k].secret == secret
    ensures forall i :: from <= i < k ==> store[i].secret != secret
    decreases |store| - from
  {
    if from == |store| || store[from].secret == secret then from else Position(store, secret, from + 1)
  }

  predicate Holds(store: seq<Entry>, secret: string) { Position(store, secret, 0) < |store| }

  /** _tickets.pop(key, None). */
  function Popped(store: seq<Entry>, secret: string): seq<Entry> {
    var k := Position(store, secret, 0);
    if k < |store| then Cut(store, k) else store
  }

  function Pruned(store: seq<Entry>, now: real): seq<Entry> {
    if store == [] || (store[0].ticket.expires > now && |store| < MAX_TICKETS) then store else Pruned(store[1..], now)
  }

  function Issued(store: seq<Entry>, now: real, secret: string, booth: string, who: string, path: string): seq<Entry> {
    Pruned(store, now) + [Entry(secret, Ticket(booth, who, path, now + TICKET_TTL_SECS))]
  }

  function Redeemed(store: seq<Entry>, secret: string): seq<Entry> {
    if secret == "" then store else Popped(store, secret)
  }

  function Redeems(store: seq<Entry>, now: real, secret: string, path: string): Option<Ticket> {
    var k := Position(store, secret, 0);
    if secret == "" || k == |store| then None
    else
      var t := store[k].ticket;
      if t.expires <= now || t.path != path then None else Some(t)
  }

  class TicketStore {
    var tickets: seq<Entry>

    constructor ()
      ensures tickets == []
    {
      tickets := [];
    }

    method Prune(now: real)
      modifies this
      ensures tickets == Pruned(old(tickets), now)
    {
      while tickets != []
        invariant Pruned(tickets, now) == Pruned(old(tickets), now)
      {
        if tickets[0].ticket.expires > now && |tickets| < MAX_TICKETS { break; }
        tickets := tickets[1..];
      }
    }

    /** `secret` is the token the call mints. */
    method IssueTicket(now: real, secret: string, booth: string, participant: string, path: string)
      modifies this
      ensures tickets == Issued(old(tickets), now, secret, booth, participant, path)
    {
      Prune(now);
      tickets := tickets + [Entry(secret, Ticket(booth, participant, path, now + TICKET_TTL_SECS))];
    }

    method RedeemTicket(now: real, secret: string, path: string) returns (ticket: Option<Ticket>)
      modifies this
      ensures tickets == Redeemed(old(tickets), secret)
      ensures ticket == Redeems(old(tickets), now, secret, path)
    {
      if secret == "" { return None; }
      var k := Position(tickets, secret, 0);
      if k == |tickets| { return None; }
      var t := tickets[k].ticket;
      tickets := Cut(tickets, k);
      if t.expires <= now || t.path != path { return None; }
      return Some(t);
    }
  }

  // ---- Properties of the store ----

  ghost predicate Sorted(store: seq<Entry>) {
    forall i, j :: 0 <= i < j < |store| ==> store[i].ticket.expires <= store[j].ticket.expires
  }

  ghost predicate Unique(store: seq<Entry>) {
    forall i, j :: 0 <= i < j < |store| ==> store[i].secret != store[j].secret
  }

  /** Nothing expired, and room for one more. */
  ghost predicate Tidy(store: seq<Entry>, now: real) {
    |store| < 4096 && forall i :: 0 <= i < |store| ==> store[i].ticket.expires > now
  }

  /** Pruning leaves exactly the longest suffix that is unexpired and below the cap. */
  lemma {:induction false} PrunedIsLongestTidySuffix(store: seq<Entry>, now: real) returns (k: nat)
    requires Sorted(store)
    ensures k <= |store| && Pruned(store, now) == store[k..] && Tidy(store[k..], now)
    ensures forall j :: 0 <= j < k ==> !Tidy(store[j..], now)
  {
    if store == [] || (store[0].ticket.expires > now && |store| < MAX_TICKETS) {
      k := 0;
      assert store[0..] == store;
    } else {
      var n := PrunedIsLongestTidySuffix(store[1..], now);
      k := n + 1;
      assert store[1..][n..] == store[k..];
      forall j | 0 <= j < k ensures !Tidy(store[j..], now) {
        if j > 0 { assert store[1..][j - 1..] == store[j..]; } else { assert store[0..] == store; }
      }
    }
  }

  ghost predicate StoreInv(store: seq<Entry>, now: real) {
    && Sorted(store) && Unique(store) && |store| <= MAX_TICKETS
    && forall i :: 0 <= i < |store| ==> store[i].ticket.expires <= now + TICKET_TTL_SECS
  }

  lemma IssueKeepsStore(store: seq<Entry>, now: real, secret: string, booth: string, who: string, path: string)
    requires StoreInv(store, now) && !Holds(store, secret)
    ensures StoreInv(Issued(store, now, secret, booth, who, path), now)
  {
    var k := PrunedIsLongestTidySuffix(store, now);
  }

  lemma CutMembers(store: seq<Entry>, k: nat, e: Entry)
    requires k < |store| && Unique(store)
    ensures e in Cut(store, k) <==> e in store && e.secret != store[k].secret
  {
    hide Cut;
    CutAt(store, k);
    var rest := Cut(store, k);
    if e in rest {
      var i :| 0 <= i < |rest| && rest[i] == e;
      assert e == store[if i < k then i else i + 1];
    }
    if e in store && e.secret != store[k].secret {
      var i :| 0 <= i < |store| && store[i] == e;
      assert rest[if i < k then i else i - 1] == e;
    }
  }

  lemma CutKeepsStore(store: seq<Entry>, now: real, k: nat)
    requires StoreInv(store, now) && k < |store|
    ensures StoreInv(Cut(store, k), now)
  {
    hide Cut;
    CutAt(store, k);
  }

  lemma NotHeld(store: seq<Entry>, secret: string, e: Entry)
    requires !Holds(store, secret) && e in store
    ensures e.secret != secret
  {
    var i :| 0 <= i < |store| && store[i] == e;
  }

  lemma RedeemKeepsStore(store: seq<Entry>, now: real, secret: string)
    requires StoreInv(store, now)
    ensures StoreInv(Redeemed(store, secret), now)
    ensures forall e :: e in Redeemed(store, secret) <==> e in store && (secret == "" || e.secret != secret)
  {
    assert Unique(store);
    hide Cut, StoreInv, Sorted, Unique;
    var k := Position(store, secret, 0);
    if secret != "" && k < |store| {
      CutKeepsStore(store, now, k);
      forall e ensures e in Cut(store, k) <==> e in store && e.secret != secret { CutMembers(store, k, e); }
    } else if secret != "" {
      forall e | e in store ensures e.secret != secret { NotHeld(store, secret, e); }
    }
  }

  datatype StoreCall =
    | Issue(now: real, secret: string, booth: string, participant: string, path: string)
    | Redeem(secret: string)

  function After(store: seq<Entry>, call: StoreCall): seq<Entry> {
    match call
    case Issue(now, s, b, w, p) => Issued(store, now, s, b, w, p)
    case Redeem(s) => Redeemed(store, s)
  }

  function AfterAll(store: seq<Entry>, calls: seq<StoreCall>): seq<Entry>
    decreases |calls|
  {
    if calls == [] then store else AfterAll(After(store, calls[0]), calls[1..])
  }

  function Issues(calls: seq<StoreCall>): nat {
    if calls == [] then 0 else (if calls[0].Issue? then 1 else 0) + Issues(calls[1..])
  }

  /** `e` is in the store with at most `behind` younger entries. */
  ghost predicate Waiting(store: seq<Entry>, e: Entry, behind: nat) {
    exists i :: 0 <= i < |store| && store[i] == e && |store| - 1 - i <= behind
                && forall j :: 0 <= j < |store| && j != i ==> store[j].secret != e.secret
  }

  lemma {:induction false} PrunedKeepsWaiting(store: seq<Entry>, now: real, e: Entry, behind: nat)
    requires Waiting(store, e, behind) && behind + 1 < MAX_TICKETS && now < e.ticket.expires
    ensures Waiting(Pruned(store, now), e, behind)
    decreases |store|
  {
    if !(store[0].ticket.expires > now && |store| < MAX_TICKETS) {
      var i :| 0 <= i < |store| && store[i] == e && |store| - 1 - i <= behind
               && forall j :: 0 <= j < |store| && j != i ==> store[j].secret != e.secret;
      assert store[1..][i - 1] == e;
      PrunedKeepsWaiting(store[1..], now, e, behind);
    }
  }

  lemma IssueKeepsWaiting(store: seq<Entry>, call: StoreCall, e: Entry, behind: nat)
    requires call.Issue? && Waiting(store, e, behind) && behind + 1 < MAX_TICKETS
    requires call.now < e.ticket.expires && call.secret != e.secret
    ensures Waiting(After(store, call), e, behind + 1)
  {
    PrunedKeepsWaiting(store, call.now, e, behind);
    var pruned := Pruned(store, call.now);
    var i :| 0 <= i < |pruned| && pruned[i] == e && |pruned| - 1 - i <= behind
             && forall j :: 0 <= j < |pruned| && j != i ==> pruned[j].secret != e.secret;
    assert After(store, call)[i] == e;
  }

  lemma CutKeepsWaiting(store: seq<Entry>, k: nat, e: Entry, behind: nat)
    requires Waiting(store, e, behind) && k < |store| && store[k].secret != e.secret
    ensures Waiting(Cut(store, k), e, behind)
  {
    var i :| 0 <= i < |store| && store[i] == e && |store| - 1 - i <= behind
             && forall j :: 0 <= j < |store| && j != i ==> store[j].secret != e.secret;
    hide Cut;
    CutAt(store, k);
    var rest, n := Cut(store, k), if i < k then i else i - 1;
    assert rest[n] == e;
    forall j | 0 <= j < |rest| && j != n ensures rest[j].secret != e.secret {
      assert rest[j] == store[if j < k then j else j + 1];
    }
  }

  lemma RedeemKeepsWaiting(store: seq<Entry>, secret: string, e: Entry, behind: nat)
    requires Waiting(store, e, behind) && secret != e.secret
    ensures Waiting(Redeemed(store, secret), e, behind)
  {
    hide Cut, Waiting;
    var k := Position(store, secret, 0);
    if secret != "" && k < |store| { CutKeepsWaiting(store, k, e, behind); }
  }

  /** Calls that leave `e` alone: no redemption of it, no second ticket with its secret, none after it expired. */
  ghost predicate Spares(calls: seq<StoreCall>, e: Entry) {
    forall i :: 0 <= i < |calls| ==>
      match calls[i]
      case Issue(now, s, _, _, _) => now < e.ticket.expires && s != e.secret
      case Redeem(s) => s != e.secret
  }

  lemma {:induction false} WaitingSurvives(store: seq<Entry>, calls: seq<StoreCall>, e: Entry, behind: nat)
    returns (b: nat)
    requires Waiting(store, e, behind) && Spares(calls, e) && behind + Issues(calls) < MAX_TICKETS
    ensures Waiting(AfterAll(store, calls), e, b)
    decreases |calls|
  {
    if calls == [] {
      b := behind;
    } else {
      assert forall i :: 0 <= i < |calls[1..]| ==> calls[1..][i] == calls[i + 1];
      match calls[0]
      case Issue(_, _, _, _, _) =>
        IssueKeepsWaiting(store, calls[0], e, behind);
        b := WaitingSurvives(After(store, calls[0]), calls[1..], e, behind + 1);
      case Redeem(s) =>
        RedeemKeepsWaiting(store, s, e, behind);
        b := WaitingSurvives(After(store, calls[0]), calls[1..], e, behind);
    }
  }

  lemma {:induction false} PrunedIsSuffix(store: seq<Entry>, now: real)
    ensures exists k :: 0 <= k <= |store| && Pruned(store, now) == store[k..]
  {
    if store == [] || (store[0].ticket.expires > now && |store| < MAX_TICKETS) {
      assert store[0..] == store;
    } else {
      PrunedIsSuffix(store[1..], now);
      var k :| 0 <= k <= |store[1..]| && Pruned(store, now) == store[1..][k..];
      assert store[1..][k..] == store[k + 1..];
    }
  }

  /** A ticket followed by fewer than MAX_TICKETS issues redeems for its path as long as it is unexpired
      and unredeemed, whatever was in the store and whatever else is redeemed meanwhile. */
  lemma TicketStaysRedeemable(store: seq<Entry>, at: real, secret: string, booth: string, who: string, path: string,
                              calls: seq<StoreCall>, now: real)
    requires secret != "" && !Holds(store, secret)
    requires Issues(calls) < MAX_TICKETS && now < at + TICKET_TTL_SECS
    requires Spares(calls, Entry(secret, Ticket(booth, who, path, at + TICKET_TTL_SECS)))
    ensures Redeems(AfterAll(Issued(store, at, secret, booth, who, path), calls), now, secret, path)
            == Some(Ticket(booth, who, path, at + TICKET_TTL_SECS))
  {
    var e := Entry(secret, Ticket(booth, who, path, at + TICKET_TTL_SECS));
    var first := Issued(store, at, secret, booth, who, path);
    PrunedIsSuffix(store, at);
    assert first[|first| - 1] == e;
    assert Waiting(first, e, 0);
    var b := WaitingSurvives(first, calls, e, 0);
  }
}
