/** portal/booth_state.py on values: what each critical section of BoothRegistry does to one booth,
    and what holds of a booth in every reachable state. The classes of BoothState.dfy refine it. */
module BoothSpec {
  import opened Basics
  import opened Wrappers
  import opened Roles
  import opened Text

  const CHAT_MESSAGE_MAX_LENGTH := 1000
  const CHAT_HISTORY := 500

  /** handoff_state is a plain string; `Unexpected` is any value but the three the code writes. */
  datatype Handoff = Idle | Offered | Requested | Unexpected(value: string)

  datatype Ingest = Connected | Disconnected | Overloaded

  datatype Person = Person(
    id: string, name: string, role: Role, language: string, channel: string,
    mic: bool, ingest: bool, connected: bool, joinedBy: Option<string>)

  datatype Message = Message(id: string, sender: string, senderName: string, body: string)

  /** `people` is the participants dict in insertion order. */
  datatype Booth = Booth(
    language: string, channel: string,
    active: Option<string>, handoff: Handoff, initiator: Option<string>, unlocked: bool,
    people: seq<Person>, chat: seq<Message>, status: Ingest)

  datatype Error =
    | NotInBooth | TargetCannotGoLive | MayNotReassign
    | MayNotInitiate | HandoffInProgress | NobodyElse
    | NoHandoff | OwnHandoff | ActiveTookOffer | MayNotTakeOver | OnlyActiveYields | UnexpectedHandoff
    | OnlyInitiatorCancels
    | EmptyMessage | MessageTooLong
    | MayNotPublish | OnlyActivePublishes

  /** The arguments of join_participant; `minted` is the uuid4 it mints when it needs one. */
  datatype Joining = Joining(
    name: string, role: Role, language: string, channel: string,
    id: Option<string>, minted: string, reclaim: bool, joinedBy: Option<string>)

  datatype Operation =
    | Join(joining: Joining)
    | Leave(id: string)
    | SetUnlocked(unlocked: bool)
    | SetActive(requester: string, target: string)
    | Initiate(requester: string)
    | Accept(acceptor: string)
    | Cancel(requester: string)
    | Chat(sender: string, body: string, messageId: string)
    | Update(id: string, mic: Option<bool>, ingest: Option<bool>, connected: Option<bool>)
    | Overload  // the transcription worker's direct write of ingest_status

  type Outcome = Result<Booth, Error>

  // ---- The participants dict ----

  predicate Has(ps: seq<Person>, id: string) {
    exists i :: 0 <= i < |ps| && ps[i].id == id
  }

  ghost predicate Distinct(ps: seq<Person>) {
    forall i, j :: 0 <= i < j < |ps| ==> ps[i].id != ps[j].id
  }

  function IndexOf(ps: seq<Person>, id: string): (k: nat)
    requires Has(ps, id)
    ensures k < |ps| && ps[k].id == id
    ensures forall i :: 0 <= i < k ==> ps[i].id != id
  {
    if ps[0].id == id then 0
    else
      assert Has(ps[1..], id) by { var i :| 0 <= i < |ps| && ps[i].id == id; assert ps[1..][i - 1] == ps[i]; }
      1 + IndexOf(ps[1..], id)
  }

  function Get(ps: seq<Person>, id: string): Person
    requires Has(ps, id)
  {
    ps[IndexOf(ps, id)]
  }

  /** participants[p.id] = p: an existing key keeps its position. */
  function Put(ps: seq<Person>, p: Person): seq<Person> {
    if Has(ps, p.id) then ps[IndexOf(ps, p.id) := p] else ps + [p]
  }

  /** participants.pop(id, None). */
  function Without(ps: seq<Person>, id: string): seq<Person> {
    if Has(ps, id) then Cut(ps, IndexOf(ps, id)) else ps
  }

  /** _pick_next_interpreter. */
  function PickNext(ps: seq<Person>): Option<string> {
    if ps == [] then None else if CanGoLive(ps[0].role) then Some(ps[0].id) else PickNext(ps[1..])
  }

  /** Clear the mic and ingest flags of everyone but `keep`. */
  function OnlyKeep(ps: seq<Person>, keep: Option<string>): seq<Person> {
    seq(|ps|, i requires 0 <= i < |ps| =>
      ps[i].(mic := keep == Some(ps[i].id) && ps[i].mic, ingest := keep == Some(ps[i].id) && ps[i].ingest))
  }

  predicate Publishing(ps: seq<Person>) {
    exists i :: 0 <= i < |ps| && ps[i].ingest
  }

  predicate AnyoneElseLive(ps: seq<Person>, id: string) {
    exists i :: 0 <= i < |ps| && ps[i].id != id && CanGoLive(ps[i].role)
  }

  function Refreshed(b: Booth): Booth {
    b.(status := if Publishing(b.people) then Connected else Disconnected)
  }

  // ---- The critical sections ----

  function NewBooth(language: string, channel: string): Booth {
    Booth(language, channel, None, Idle, None, false, [], [], Disconnected)
  }

  function OrElse(s: string, default: string): string {
    if s == "" then default else s
  }

  function AssignedId(b: Booth, j: Joining): string {
    if j.id.Some? && j.id.value != "" && (j.reclaim || !Has(b.people, j.id.value)) then j.id.value else j.minted
  }

  function Joined(b: Booth, j: Joining): Person {
    Person(AssignedId(b, j), OrElse(Strip(j.name), "Interpreter"), j.role,
           OrElse(Strip(j.language), b.language), OrElse(Strip(j.channel), b.channel),
           false, false, true, j.joinedBy)
  }

  function DoJoin(b: Booth, j: Joining): Booth {
    var p := Joined(b, j);
    b.(people := Put(b.people, p),
       active := if CanGoLive(p.role) && b.active.None? then Some(p.id) else b.active)
  }

  /** The slot and the handoff once `id` is no longer among the people. */
  function Departed(b: Booth, id: string): Booth {
    var wasActive := b.active == Some(id);
    var ends := wasActive || b.initiator == Some(id);
    b.(active := if wasActive then PickNext(b.people) else b.active,
       handoff := if ends then Idle else b.handoff,
       initiator := if ends then None else b.initiator)
  }

  function DoLeave(b: Booth, id: string): Booth {
    if !Has(b.people, id) then b
    else
      var b1 := Departed(b.(people := Without(b.people, id)), id);
      var b2 := if Get(b.people, id).ingest then Refreshed(b1) else b1;
      if b2.people == [] then b2.(status := Disconnected, handoff := Idle) else b2
  }

  function DoSetUnlocked(b: Booth, unlocked: bool): Booth {
    if unlocked then b.(unlocked := true)
    else b.(unlocked := false, people := OnlyKeep(b.people, None), status := Disconnected)
  }

  /** The end shared by set_active_interpreter and accept_handoff. */
  function HandOver(b: Booth, target: Option<string>): Booth {
    Refreshed(b.(active := target, handoff := Idle, initiator := None, people := OnlyKeep(b.people, target)))
  }

  function DoSetActive(b: Booth, requester: string, target: string): Outcome {
    if !Has(b.people, requester) || !Has(b.people, target) then Err(NotInBooth)
    else if !CanGoLive(Get(b.people, target).role) then Err(TargetCannotGoLive)
    else if !CanSetActive(Get(b.people, requester).role) && b.active != Some(requester) then Err(MayNotReassign)
    else Ok(HandOver(b, Some(target)))
  }

  function DoInitiate(b: Booth, requester: string): Outcome {
    if !Has(b.people, requester) then Err(NotInBooth)
    else if !CanGoLive(Get(b.people, requester).role) then Err(MayNotInitiate)
    else if b.handoff != Idle then Err(HandoffInProgress)
    else if !AnyoneElseLive(b.people, requester) then Err(NobodyElse)
    else Ok(b.(handoff := if b.active == Some(requester) then Offered else Requested, initiator := Some(requester)))
  }

  function DoAccept(b: Booth, acceptor: string): Outcome {
    if !Has(b.people, acceptor) then Err(NotInBooth)
    else if b.handoff == Idle then Err(NoHandoff)
    else if b.initiator == Some(acceptor) then Err(OwnHandoff)
    else if b.handoff == Offered then
      if b.active == Some(acceptor) then Err(ActiveTookOffer)
      else if !CanGoLive(Get(b.people, acceptor).role) then Err(MayNotTakeOver)
      else Ok(HandOver(b, Some(acceptor)))
    else if b.handoff == Requested then
      if b.active != Some(acceptor) then Err(OnlyActiveYields)
      else Ok(HandOver(b, b.initiator))
    else Err(UnexpectedHandoff)
  }

  function DoCancel(b: Booth, requester: string): Outcome {
    if b.handoff == Idle then Ok(b)
    else if b.initiator != Some(requester) then Err(OnlyInitiatorCancels)
    else Ok(b.(handoff := Idle, initiator := None))
  }

  /** chat_messages[-500:]. */
  function LastMessages(chat: seq<Message>): seq<Message> {
    if |chat| > CHAT_HISTORY then chat[|chat| - CHAT_HISTORY..] else chat
  }

  function DoChat(b: Booth, sender: string, body: string, messageId: string): Outcome {
    if !Has(b.people, sender) then Err(NotInBooth)
    else if Strip(body) == "" then Err(EmptyMessage)
    else if |Strip(body)| > CHAT_MESSAGE_MAX_LENGTH then Err(MessageTooLong)
    else Ok(b.(chat := LastMessages(
      b.chat + [Message(messageId, sender, Get(b.people, sender).name, Strip(body))])))
  }

  function Flagged(p: Person, mic: Option<bool>, ingest: Option<bool>, connected: Option<bool>): Person {
    p.(mic := mic.GetOr(p.mic), ingest := ingest.GetOr(p.ingest), connected := connected.GetOr(p.connected))
  }

  function DoUpdate(b: Booth, id: string, mic: Option<bool>, ingest: Option<bool>, connected: Option<bool>): Outcome {
    if !Has(b.people, id) then Err(NotInBooth)
    else
      var p := Get(b.people, id);
      var wants := mic == Some(true) || ingest == Some(true);
      if wants && !CanGoLive(p.role) then Err(MayNotPublish)
      else if wants && b.active != Some(id) then Err(OnlyActivePublishes)
      else
        Ok(Refreshed(b.(people := b.people[IndexOf(b.people, id) := Flagged(p, mic, ingest, connected)])))
  }

  function Do(b: Booth, op: Operation): Outcome {
    match op
    case Join(j) => Ok(DoJoin(b, j))
    case Leave(id) => Ok(DoLeave(b, id))
    case SetUnlocked(u) => Ok(DoSetUnlocked(b, u))
    case SetActive(r, t) => DoSetActive(b, r, t)
    case Initiate(r) => DoInitiate(b, r)
    case Accept(a) => DoAccept(b, a)
    case Cancel(r) => DoCancel(b, r)
    case Chat(s, m, id) => DoChat(b, s, m, id)
    case Update(id, m, i, c) => DoUpdate(b, id, m, i, c)
    case Overload => Ok(b.(status := Overloaded))
  }

  /** The state after an operation; one that raises changes nothing. */
  function Next(b: Booth, op: Operation): Booth {
    match Do(b, op) case Ok(b') => b' case Err(_) => b
  }

  function Raised(b: Booth, op: Operation): Option<Error> {
    match Do(b, op) case Ok(_) => None case Err(e) => Some(e)
  }

  /** _get_or_create_booth: the booth of that ID, or a new one. */
  function BoothOf(booths: map<string, Booth>, id: string, language: string, channel: string): Booth {
    if id in booths then booths[id] else NewBooth(language, channel)
  }

  /** The registry after one call on booth `id`. */
  function Called(booths: map<string, Booth>, id: string, language: string, channel: string, op: Operation)
    : map<string, Booth>
  {
    booths[id := Next(BoothOf(booths, id, language, channel), op)]
  }

  function Run(b: Booth, ops: seq<Operation>): Booth
    decreases |ops|
  {
    if ops == [] then b else Run(Next(b, ops[0]), ops[1..])
  }

  /** check_publish_permission: None when the participant may publish. */
  function PublishRefusal(b: Booth, id: string): Option<Error> {
    if !Has(b.people, id) then Some(NotInBooth)
    else if !CanGoLive(Get(b.people, id).role) then Some(MayNotPublish)
    else if b.active != Some(id) then Some(OnlyActivePublishes)
    else None
  }

  /** can_stop_live for a booth that exists. */
  predicate CanStopLive(b: Booth, sessions: set<string>) {
    b.active.None? || !Has(b.people, b.active.value)
    || (var who := Get(b.people, b.active.value).joinedBy; who.Some? && who.value in sessions)
  }

  // ---- The invariant ----

  ghost predicate Inv(b: Booth) {
    && Distinct(b.people)
    && (b.active.Some? ==> Has(b.people, b.active.value))
    && (forall i :: 0 <= i < |b.people| && CanGoLive(b.people[i].role) ==> b.active.Some?)
    && (forall i :: 0 <= i < |b.people| && (b.people[i].mic || b.people[i].ingest) ==>
          b.active == Some(b.people[i].id) && CanGoLive(b.people[i].role))
    && HandoffInv(b)
    && (Publishing(b.people) ==> b.status != Disconnected)
    && |b.chat| <= CHAT_HISTORY
  }

  ghost predicate HandoffInv(b: Booth) {
    && !b.handoff.Unexpected?
    && (b.handoff == Idle <==> b.initiator.None?)
    && (b.handoff == Offered ==> b.initiator == b.active)
    && (b.handoff == Requested ==> b.active.Some? && b.active != b.initiator)
    && (b.initiator.Some? ==> Has(b.people, b.initiator.value))
  }

  lemma GetIsTheOne(ps: seq<Person>, i: nat)
    requires Distinct(ps) && i < |ps|
    ensures Has(ps, ps[i].id) && IndexOf(ps, ps[i].id) == i && Get(ps, ps[i].id) == ps[i]
  {
  }

  lemma PutFacts(ps: seq<Person>, p: Person)
    requires Distinct(ps)
    ensures Distinct(Put(ps, p))
    ensures forall id :: Has(Put(ps, p), id) <==> Has(ps, id) || id == p.id
    ensures forall i :: 0 <= i < |Put(ps, p)| ==>
                          Put(ps, p)[i] == p || (Put(ps, p)[i] in ps && Put(ps, p)[i].id != p.id)
  {
    var qs := Put(ps, p);
    forall id ensures Has(qs, id) <==> Has(ps, id) || id == p.id {
      if Has(qs, id) && id != p.id { var i :| 0 <= i < |qs| && qs[i].id == id; assert ps[i].id == id; }
      if Has(ps, id) { var i :| 0 <= i < |ps| && ps[i].id == id; assert qs[i].id == id; }
      if id == p.id { assert qs[if Has(ps, id) then IndexOf(ps, id) else |ps|].id == id; }
    }
  }

  lemma HasIsMembership(ps: seq<Person>, x: string)
    ensures Has(ps, x) <==> exists p :: p in ps && p.id == x
  {
    if p :| p in ps && p.id == x { var i :| 0 <= i < |ps| && ps[i] == p; }
    if Has(ps, x) { var i :| 0 <= i < |ps| && ps[i].id == x; assert ps[i] in ps; }
  }

  lemma WithoutFacts(ps: seq<Person>, id: string)
    requires Distinct(ps)
    ensures Distinct(Without(ps, id))
    ensures forall p :: p in Without(ps, id) <==> p in ps && p.id != id
    ensures forall x :: Has(Without(ps, id), x) <==> Has(ps, x) && x != id
  {
    var qs := Without(ps, id);
    if Has(ps, id) {
      var k := IndexOf(ps, id);
      CutAt(ps, k);
      forall p | p in ps && p.id != id ensures p in qs {
        var i :| 0 <= i < |ps| && ps[i] == p;
        assert qs[if i < k then i else i - 1] == p;
      }
    }
    forall x ensures Has(qs, x) <==> Has(ps, x) && x != id { HasIsMembership(ps, x); HasIsMembership(qs, x); }
  }

  lemma {:induction false} PickNextIsFirst(ps: seq<Person>)
    ensures PickNext(ps).None? <==> forall i :: 0 <= i < |ps| ==> !CanGoLive(ps[i].role)
    ensures PickNext(ps).Some? ==> exists i ::
              && 0 <= i < |ps| && PickNext(ps) == Some(ps[i].id) && CanGoLive(ps[i].role)
              && forall j :: 0 <= j < i ==> !CanGoLive(ps[j].role)
  {
    if ps != [] {
      PickNextIsFirst(ps[1..]);
      assert forall i :: 0 < i < |ps| ==> ps[i] == ps[1..][i - 1];
      if !CanGoLive(ps[0].role) && PickNext(ps).Some? {
        var i :| 0 <= i < |ps[1..]| && PickNext(ps) == Some(ps[1..][i].id) && CanGoLive(ps[1..][i].role)
                 && forall j :: 0 <= j < i ==> !CanGoLive(ps[1..][j].role);
        assert ps[i + 1] == ps[1..][i];
      }
    }
  }

  lemma HasOnlyKeep(ps: seq<Person>, keep: Option<string>)
    ensures forall id :: Has(OnlyKeep(ps, keep), id) <==> Has(ps, id)
  {
    forall id ensures Has(OnlyKeep(ps, keep), id) <==> Has(ps, id) {
      if Has(ps, id) { var i :| 0 <= i < |ps| && ps[i].id == id; assert OnlyKeep(ps, keep)[i].id == id; }
    }
  }

  lemma NewBoothInv(language: string, channel: string)
    ensures Inv(NewBooth(language, channel))
  {
  }

  lemma JoinKeepsRest(b: Booth, j: Joining)
    requires Inv(b)
    ensures HandoffInv(DoJoin(b, j))
    ensures Publishing(DoJoin(b, j).people) ==> Publishing(b.people)
  {
    hide Put;
    PutFacts(b.people, Joined(b, j));
    var qs := Put(b.people, Joined(b, j));
    if Publishing(qs) {
      var i :| 0 <= i < |qs| && qs[i].ingest;
      assert qs[i] in b.people;
    }
  }

  lemma JoinKeepsInv(b: Booth, j: Joining)
    requires Inv(b)
    ensures Inv(DoJoin(b, j))
  {
    hide Put, HandoffInv, Publishing;
    PutFacts(b.people, Joined(b, j));
    JoinKeepsRest(b, j);
  }

  /** Only the active interpreter publishes, so nobody is left publishing once the publisher is gone. */
  lemma OnePublisher(b: Booth, id: string)
    requires Inv(b) && Has(b.people, id)
    ensures Publishing(Without(b.people, id)) ==> Publishing(b.people) && !Get(b.people, id).ingest
  {
    var rest := Without(b.people, id);
    WithoutFacts(b.people, id);
    if Publishing(rest) {
      var i :| 0 <= i < |rest| && rest[i].ingest;
      assert rest[i] in rest;
      var k :| 0 <= k < |b.people| && b.people[k] == rest[i];
      assert b.active == Some(b.people[k].id);
    }
  }

  /** What leaving does, for a participant who is there: the slot passes to the first eligible
      participant in dict order (PickNextIsFirst), a handoff either side of which left is dropped,
      and everyone else keeps their record and position. */
  lemma LeaveEffect(b: Booth, id: string)
    requires Inv(b) && Has(b.people, id)
    ensures var b' := DoLeave(b, id);
            && b'.people == Without(b.people, id) && !Has(b'.people, id)
            && b'.active == (if b.active == Some(id) then PickNext(b'.people) else b.active)
            && b'.initiator == (if b.active == Some(id) || b.initiator == Some(id) then None else b.initiator)
            && b'.handoff == (if b'.initiator.None? then Idle else b.handoff)
            && (Publishing(b'.people) ==> Publishing(b.people) && b'.status == b.status)
            && (Get(b.people, id).ingest || b'.people == [] ==> b'.status == Disconnected)
            && b'.chat == b.chat
  {
    WithoutFacts(b.people, id);
    OnePublisher(b, id);
    var rest := Without(b.people, id);
    assert !Has(rest, id);
    assert b.initiator.Some? && b.initiator != Some(id) ==> Has(rest, b.initiator.value);
  }

  /** `rest` is the people without `id`. */
  ghost predicate Left(people: seq<Person>, id: string, rest: seq<Person>) {
    && Distinct(rest)
    && (forall p :: p in rest <==> p in people && p.id != id)
    && (forall x :: Has(rest, x) <==> Has(people, x) && x != id)
  }

  lemma LeftSlot(b: Booth, id: string, rest: seq<Person>, active: Option<string>)
    requires Inv(b) && Left(b.people, id, rest)
    requires active == if b.active == Some(id) then PickNext(rest) else b.active
    ensures active.Some? ==> Has(rest, active.value)
    ensures forall i :: 0 <= i < |rest| && CanGoLive(rest[i].role) ==> active.Some?
  {
    hide HandoffInv, Publishing, PickNext, Distinct;
    PickNextIsFirst(rest);
    forall i | 0 <= i < |rest| && CanGoLive(rest[i].role) ensures active.Some? {
      assert rest[i] in b.people;
      var k :| 0 <= k < |b.people| && b.people[k] == rest[i];
    }
  }

  lemma LeftFlags(b: Booth, id: string, rest: seq<Person>, active: Option<string>)
    requires Inv(b) && Left(b.people, id, rest)
    requires active == if b.active == Some(id) then PickNext(rest) else b.active
    ensures forall i :: 0 <= i < |rest| && (rest[i].mic || rest[i].ingest) ==>
                          active == Some(rest[i].id) && CanGoLive(rest[i].role)
  {
    hide HandoffInv, Publishing, PickNext, Distinct, Has;
    forall i | 0 <= i < |rest| && (rest[i].mic || rest[i].ingest)
      ensures active == Some(rest[i].id) && CanGoLive(rest[i].role)
    {
      assert rest[i] in rest;
      var k :| 0 <= k < |b.people| && b.people[k] == rest[i];
    }
  }

  lemma LeftRest(b: Booth, id: string)
    requires Inv(b) && Has(b.people, id) && Left(b.people, id, DoLeave(b, id).people)
    ensures HandoffInv(DoLeave(b, id)) && (Publishing(DoLeave(b, id).people) ==> DoLeave(b, id).status != Disconnected)
  {
    LeaveEffect(b, id);
    hide DoLeave, Without, PickNext, Distinct, Publishing;
  }

  lemma LeavesLeft(b: Booth, id: string)
    requires Inv(b) && Has(b.people, id)
    ensures var b' := DoLeave(b, id);
            && Left(b.people, id, b'.people) && b'.chat == b.chat
            && b'.active == if b.active == Some(id) then PickNext(b'.people) else b.active
  {
    LeaveEffect(b, id);
    WithoutFacts(b.people, id);
    hide DoLeave, Without, PickNext, Distinct, Has, Get, HandoffInv, CanGoLive;
  }

  lemma LeaveKeepsInv(b: Booth, id: string)
    requires Inv(b)
    ensures Inv(DoLeave(b, id))
  {
    if Has(b.people, id) {
      LeavesLeft(b, id);
      LeftRest(b, id);
      var b' := DoLeave(b, id);
      LeftSlot(b, id, b'.people, b'.active);
      LeftFlags(b, id, b'.people, b'.active);
      hide DoLeave, PickNext, Publishing, Has, HandoffInv, CanGoLive;
    }
  }

  lemma HandOverKeepsInv(b: Booth, target: string)
    requires Inv(b) && Has(b.people, target)
    requires b.active != Some(target) || CanGoLive(Get(b.people, target).role)
    ensures Inv(HandOver(b, Some(target)))
  {
    HasOnlyKeep(b.people, Some(target));
  }

  lemma ReplacedKeepsInv(b: Booth, k: nat, q: Person)
    requires Inv(b) && k < |b.people| && q.id == b.people[k].id && q.role == b.people[k].role
    requires q.mic || q.ingest ==> b.active == Some(q.id) && CanGoLive(q.role)
    ensures Inv(Refreshed(b.(people := b.people[k := q])))
  {
    var qs := b.people[k := q];
    forall x ensures Has(qs, x) <==> Has(b.people, x) {
      if Has(b.people, x) { var i :| 0 <= i < |b.people| && b.people[i].id == x; assert qs[i].id == x; }
      if Has(qs, x) { var i :| 0 <= i < |qs| && qs[i].id == x; assert b.people[i].id == x; }
    }
  }

  lemma UpdateKeepsInv(b: Booth, id: string, mic: Option<bool>, ingest: Option<bool>, connected: Option<bool>)
    requires Inv(b)
    ensures Inv(Next(b, Update(id, mic, ingest, connected)))
  {
    if DoUpdate(b, id, mic, ingest, connected).Ok? {
      var k := IndexOf(b.people, id);
      ReplacedKeepsInv(b, k, Flagged(b.people[k], mic, ingest, connected));
    }
  }

  lemma InitiateKeepsInv(b: Booth, r: string)
    requires Inv(b)
    ensures Inv(Next(b, Initiate(r)))
  {
    assert Has(b.people, r) && CanGoLive(Get(b.people, r).role) ==> b.active.Some?;
  }

  lemma AcceptKeepsInv(b: Booth, a: string)
    requires Inv(b)
    ensures Inv(Next(b, Accept(a)))
  {
    if DoAccept(b, a).Ok? {
      HandOverKeepsInv(b, if b.handoff == Offered then a else b.initiator.value);
    }
  }

  lemma SetActiveKeepsInv(b: Booth, r: string, t: string)
    requires Inv(b)
    ensures Inv(Next(b, SetActive(r, t)))
  {
    if DoSetActive(b, r, t).Ok? { HandOverKeepsInv(b, t); }
  }

  lemma LockKeepsInv(b: Booth, unlocked: bool)
    requires Inv(b)
    ensures Inv(DoSetUnlocked(b, unlocked))
  {
    HasOnlyKeep(b.people, None);
  }

  lemma ChatKeepsInv(b: Booth, s: string, body: string, id: string)
    requires Inv(b)
    ensures Inv(Next(b, Chat(s, body, id)))
  {
  }

  lemma CancelKeepsInv(b: Booth, r: string)
    requires Inv(b)
    ensures Inv(Next(b, Cancel(r)))
  {
  }

  lemma StepKeepsInv(b: Booth, op: Operation)
    requires Inv(b)
    ensures Inv(Next(b, op))
  {
    match op
    case Join(j) => JoinKeepsInv(b, j);
    case Leave(id) => LeaveKeepsInv(b, id);
    case SetUnlocked(u) => LockKeepsInv(b, u);
    case SetActive(r, t) => SetActiveKeepsInv(b, r, t);
    case Initiate(r) => InitiateKeepsInv(b, r);
    case Accept(a) => AcceptKeepsInv(b, a);
    case Cancel(r) => CancelKeepsInv(b, r);
    case Chat(s, m, id) => ChatKeepsInv(b, s, m, id);
    case Update(id, m, i, c) => UpdateKeepsInv(b, id, m, i, c);
    case Overload =>
  }

  /** Every booth any run of operations can reach satisfies the invariant. */
  lemma {:induction false} ReachableInv(b: Booth, ops: seq<Operation>)
    requires Inv(b)
    ensures Inv(Run(b, ops))
    decreases |ops|
  {
    if ops != [] {
      StepKeepsInv(b, ops[0]);
      ReachableInv(Next(b, ops[0]), ops[1..]);
    }
  }

  /** Nothing changes the language and channel a booth was made with. */
  lemma DefaultsStay(b: Booth, op: Operation)
    ensures Next(b, op).language == b.language && Next(b, op).channel == b.channel
  {
  }
}
