/** What booth participants can rely on, in any reachable state of a booth (BoothSpec.Inv). */
module BoothProperties {
  import opened Wrappers
  import opened Roles
  import opened Text
  import opened BoothSpec

  /** The same people in the same order, all off air. */
  ghost predicate AllOffAir(before: seq<Person>, after: seq<Person>) {
    |after| == |before| && forall i :: 0 <= i < |before| ==> after[i] == before[i].(mic := false, ingest := false)
  }

  lemma NobodyPublishesOffAir(before: seq<Person>, after: seq<Person>)
    requires AllOffAir(before, after)
    ensures !Publishing(after) && forall i :: 0 <= i < |after| ==> !after[i].mic
  {
  }

  lemma OthersOffAir(b: Booth, target: Option<string>)
    requires Inv(b) && b.active != target
    ensures AllOffAir(b.people, OnlyKeep(b.people, target)) && !Publishing(OnlyKeep(b.people, target))
  {
    NobodyPublishesOffAir(b.people, OnlyKeep(b.people, target));
  }

  // ---- One publisher, one live slot ----

  /** In every booth a run can reach, whoever is on air or may publish is one and the same participant. */
  lemma AtMostOneOnAir(language: string, channel: string, ops: seq<Operation>, x: string, y: string)
    requires var b := Run(NewBooth(language, channel), ops);
             && Has(b.people, x) && Has(b.people, y)
             && (Get(b.people, x).mic || Get(b.people, x).ingest || PublishRefusal(b, x).None?)
             && (Get(b.people, y).mic || Get(b.people, y).ingest || PublishRefusal(b, y).None?)
    ensures x == y && PublishRefusal(Run(NewBooth(language, channel), ops), x).None?
  {
    ReachableInv(NewBooth(language, channel), ops);
  }

  /** The slot is empty, or held by somebody who can go live. */
  ghost predicate HolderEligible(b: Booth) {
    b.active.Some? ==> Has(b.people, b.active.value) && CanGoLive(Get(b.people, b.active.value).role)
  }

  /** A join with `reclaim` that gives the slot's holder a role that cannot go live, or the acceptance of a
      request whose initiator was given such a role since. */
  ghost predicate Demotes(b: Booth, op: Operation) {
    match op
    case Join(j) => b.active == Some(AssignedId(b, j)) && !CanGoLive(j.role)
    case Accept(a) =>
      b.handoff == Requested && b.active == Some(a) && b.initiator.Some? && Has(b.people, b.initiator.value)
      && !CanGoLive(Get(b.people, b.initiator.value).role)
    case _ => false
  }

  /** Everybody keeps their place and role. */
  lemma SameHolder(b: Booth, after: Booth)
    requires Inv(b) && HolderEligible(b) && |after.people| == |b.people| && after.active == b.active
    requires forall i :: 0 <= i < |b.people| ==>
                           after.people[i].id == b.people[i].id && after.people[i].role == b.people[i].role
    ensures HolderEligible(after)
  {
    if b.active.Some? {
      var k := IndexOf(b.people, b.active.value);
      assert after.people[k].id == b.active.value;
      GetIsTheOne(after.people, k);
    }
  }

  lemma JoinedHolder(b: Booth, j: Joining)
    requires Inv(b) && HolderEligible(b)
    ensures HolderEligible(DoJoin(b, j)) <==> !Demotes(b, Join(j))
  {
    var p := Joined(b, j);
    var qs := Put(b.people, p);
    PutFacts(b.people, p);
    var at := if Has(b.people, p.id) then IndexOf(b.people, p.id) else |b.people|;
    assert qs[at] == p;
    GetIsTheOne(qs, at);
    if b.active.Some? && b.active.value != p.id {
      var k := IndexOf(b.people, b.active.value);
      assert qs[k] == b.people[k];
      GetIsTheOne(qs, k);
    }
  }

  lemma LeaverHolder(b: Booth, id: string)
    requires Inv(b) && HolderEligible(b)
    ensures HolderEligible(DoLeave(b, id))
  {
    if Has(b.people, id) {
      LeaveEffect(b, id);
      WithoutFacts(b.people, id);
      var rest := Without(b.people, id);
      PickNextIsFirst(rest);
      if b.active == Some(id) {
        if PickNext(rest).Some? {
          var i :| 0 <= i < |rest| && PickNext(rest) == Some(rest[i].id) && CanGoLive(rest[i].role)
                   && forall j :: 0 <= j < i ==> !CanGoLive(rest[j].role);
          GetIsTheOne(rest, i);
        }
      } else if b.active.Some? {
        var holder := Get(b.people, b.active.value);
        assert holder in rest;
        var i :| 0 <= i < |rest| && rest[i] == holder;
        GetIsTheOne(rest, i);
      }
    }
  }

  lemma HandedHolder(b: Booth, target: string)
    requires Inv(b) && Has(b.people, target)
    ensures HolderEligible(HandOver(b, Some(target))) <==> CanGoLive(Get(b.people, target).role)
  {
    var k := IndexOf(b.people, target);
    var qs := OnlyKeep(b.people, Some(target));
    assert qs[k].id == target && forall i :: 0 <= i < |qs| ==> qs[i].id == b.people[i].id;
    GetIsTheOne(qs, k);
  }

  /** An accepted offer hands the slot to the acceptor, who can go live; an accepted request to its initiator. */
  lemma AcceptHandsOver(b: Booth, a: string)
    requires Inv(b)
    ensures DoAccept(b, a).Ok? ==>
              && Has(b.people, Taker(b, a)) && DoAccept(b, a).value == HandOver(b, Some(Taker(b, a)))
              && (Demotes(b, Accept(a)) <==> !CanGoLive(Get(b.people, Taker(b, a)).role))
    ensures DoAccept(b, a).Err? ==> !Demotes(b, Accept(a))
  {
    hide HandOver;
  }

  lemma AcceptedHolder(b: Booth, a: string)
    requires Inv(b) && HolderEligible(b)
    ensures HolderEligible(Next(b, Accept(a))) <==> !Demotes(b, Accept(a))
  {
    hide DoAccept, HandOver, Demotes, HolderEligible, Inv;
    AcceptHandsOver(b, a);
    if DoAccept(b, a).Ok? { HandedHolder(b, Taker(b, a)); }
  }

  /** The steps that leave the slot to somebody who cannot go live are exactly those that demote its holder. */
  lemma HolderStepExact(b: Booth, op: Operation)
    requires Inv(b) && HolderEligible(b)
    ensures HolderEligible(Next(b, op)) <==> !Demotes(b, op)
  {
    hide DoJoin, DoLeave, DoAccept;
    match op
    case Join(j) => JoinedHolder(b, j);
    case Leave(id) => LeaverHolder(b, id);
    case SetUnlocked(u) => SameHolder(b, DoSetUnlocked(b, u));
    case SetActive(r, t) => if DoSetActive(b, r, t).Ok? { HandedHolder(b, t); }
    case Accept(a) => AcceptedHolder(b, a);
    case Initiate(_) =>
    case Cancel(_) =>
    case Chat(_, _, _) =>
    case Update(id, m, i, c) => if DoUpdate(b, id, m, i, c).Ok? { SameHolder(b, DoUpdate(b, id, m, i, c).value); }
    case Overload =>
  }

  function Taker(b: Booth, acceptor: string): string {
    if b.handoff == Offered || b.initiator.None? then acceptor else b.initiator.value
  }

  ghost predicate NeverDemoted(b: Booth, ops: seq<Operation>)
    decreases |ops|
  {
    ops == [] || (!Demotes(b, ops[0]) && NeverDemoted(Next(b, ops[0]), ops[1..]))
  }

  lemma {:induction false} HolderStaysEligible(b: Booth, ops: seq<Operation>)
    requires Inv(b) && HolderEligible(b) && NeverDemoted(b, ops)
    ensures HolderEligible(Run(b, ops))
    decreases |ops|
  {
    if ops != [] {
      HolderStepExact(b, ops[0]);
      StepKeepsInv(b, ops[0]);
      HolderStaysEligible(Next(b, ops[0]), ops[1..]);
    }
  }

  /** On every run in which nobody is demoted so the live slot is empty exactly if nobody present can go live. */
  lemma SlotIsFilled(language: string, channel: string, ops: seq<Operation>)
    requires NeverDemoted(NewBooth(language, channel), ops)
    ensures var b := Run(NewBooth(language, channel), ops);
            b.active.None? <==> forall i :: 0 <= i < |b.people| ==> !CanGoLive(b.people[i].role)
  {
    var b := Run(NewBooth(language, channel), ops);
    ReachableInv(NewBooth(language, channel), ops);
    HolderStaysEligible(NewBooth(language, channel), ops);
    if b.active.Some? { assert CanGoLive(b.people[IndexOf(b.people, b.active.value)].role); }
  }

  /** Leaving the slot hands it to the first participant of the remaining dict who can go live. */
  lemma LeavingHandsOver(b: Booth, id: string)
    requires Inv(b) && b.active == Some(id)
    ensures var b' := DoLeave(b, id);
            && b'.people == Without(b.people, id)
            && b'.handoff == Idle && b'.initiator.None?
            && b'.status == (if b'.people == [] || Get(b.people, id).ingest then Disconnected else b.status)
            && match b'.active
               case None => forall i :: 0 <= i < |b'.people| ==> !CanGoLive(b'.people[i].role)
               case Some(next) =>
                  exists i :: 0 <= i < |b'.people| && next == b'.people[i].id && CanGoLive(b'.people[i].role)
                                              && forall j :: 0 <= j < i ==> !CanGoLive(b'.people[j].role)
  {
    LeaveEffect(b, id);
    PickNextIsFirst(Without(b.people, id));
  }

  /** How somebody is entered: by trimmed name, language and channel, or the defaults for blank ones. */
  ghost predicate Introduced(p: Person, b: Booth, j: Joining) {
    && p.name == (if Strip(j.name) == "" then "Interpreter" else Strip(j.name))
    && p.language == (if Strip(j.language) == "" then b.language else Strip(j.language))
    && p.channel == (if Strip(j.channel) == "" then b.channel else Strip(j.channel))
    && p.connected && p.joinedBy == j.joinedBy
  }

  /** Without `reclaim`, joining never touches anybody else's record, the slot's holder or the handoff. */
  lemma JoiningTakesNobodysPlace(b: Booth, j: Joining)
    requires Inv(b) && !j.reclaim && !Has(b.people, j.minted)
    ensures var b' := DoJoin(b, j);
            && |b'.people| == |b.people| + 1 && b'.people[..|b.people|] == b.people
            && !Has(b.people, b'.people[|b.people|].id)
            && b'.people[|b.people|].id == (if j.id.Some? && j.id.value != "" && !Has(b.people, j.id.value)
                                            then j.id.value else j.minted)
            && !b'.people[|b.people|].mic && !b'.people[|b.people|].ingest
            && b'.people[|b.people|].role == j.role && b'.people[|b.people|].joinedBy == j.joinedBy
            && Introduced(b'.people[|b.people|], b, j)
            && (b.active.Some? ==> b'.active == b.active)
            && (b.active.None? ==> b'.active == if CanGoLive(j.role) then Some(b'.people[|b.people|].id) else None)
            && b'.handoff == b.handoff && b'.initiator == b.initiator && b'.status == b.status
            && b'.unlocked == b.unlocked && b'.chat == b.chat
  {
  }

  /** Reclaiming an ID replaces that record in place, off air, and nothing else. */
  lemma ReclaimingReplacesInPlace(b: Booth, j: Joining, k: nat)
    requires Inv(b) && j.reclaim && k < |b.people| && j.id == Some(b.people[k].id) && b.people[k].id != ""
    ensures var b' := DoJoin(b, j);
            && |b'.people| == |b.people|
            && (forall i :: 0 <= i < |b.people| && i != k ==> b'.people[i] == b.people[i])
            && b'.people[k].id == b.people[k].id && b'.people[k].role == j.role && Introduced(b'.people[k], b, j)
            && !b'.people[k].mic && !b'.people[k].ingest
            && (b.active.Some? ==> b'.active == b.active)
            && b'.handoff == b.handoff && b'.initiator == b.initiator && b'.status == b.status
  {
    GetIsTheOne(b.people, k);
  }

  /** The lock after the operations, `so` before them: as the last of them that set it left it. */
  function LastLock(ops: seq<Operation>, so: bool): bool {
    if ops == [] then so else LastLock(ops[1..], if ops[0].SetUnlocked? then ops[0].unlocked else so)
  }

  lemma OnlyLockLocks(b: Booth, op: Operation)
    ensures Next(b, op).unlocked == if op.SetUnlocked? then op.unlocked else b.unlocked
  {
    hide PickNext;
  }

  /** A booth starts locked, and on every run nothing but the lock operation opens or closes it. */
  lemma {:induction false} LockExactly(b: Booth, ops: seq<Operation>)
    ensures Run(b, ops).unlocked == LastLock(ops, b.unlocked)
    ensures forall language, channel :: !NewBooth(language, channel).unlocked
    decreases |ops|
  {
    if ops != [] {
      OnlyLockLocks(b, ops[0]);
      hide Next;
      LockExactly(Next(b, ops[0]), ops[1..]);
    }
  }

  lemma LockingStopsEveryone(b: Booth)
    ensures var b' := DoSetUnlocked(b, false);
            && !b'.unlocked && AllOffAir(b.people, b'.people) && !Publishing(b'.people) && b'.status == Disconnected
            && b'.active == b.active && b'.handoff == b.handoff && b'.initiator == b.initiator && b'.chat == b.chat
    ensures DoSetUnlocked(b, true) == b.(unlocked := true)
  {
    NobodyPublishesOffAir(b.people, OnlyKeep(b.people, None));
  }

  // ---- Handoff ----

  /** A pending handoff is completed exactly by its other side, and always moves the slot. */
  lemma AcceptMeaning(b: Booth, a: string)
    requires Inv(b)
    ensures DoAccept(b, a).Ok? <==>
            && Has(b.people, a)
            && ((b.handoff == Offered && b.initiator != Some(a) && CanGoLive(Get(b.people, a).role))
                || (b.handoff == Requested && b.active == Some(a)))
    ensures DoAccept(b, a).Ok? ==>
              var b' := DoAccept(b, a).value;
              && b'.active == (if b.handoff == Offered then Some(a) else b.initiator)
              && b'.active != b.active && b.active.Some?
              && b'.handoff == Idle && b'.initiator.None?
              && AllOffAir(b.people, b'.people) && !Publishing(b'.people) && b'.status == Disconnected
              && b'.unlocked == b.unlocked && b'.chat == b.chat
  {
    if DoAccept(b, a).Ok? {
      OthersOffAir(b, if b.handoff == Offered then Some(a) else b.initiator);
    }
  }

  /** Two of the branches of accept_handoff that raise are never taken, in any booth a run can reach. */
  lemma AcceptDeadOnRuns(language: string, channel: string, ops: seq<Operation>, a: string)
    ensures var b := Run(NewBooth(language, channel), ops);
            DoAccept(b, a) != Err(ActiveTookOffer) && DoAccept(b, a) != Err(UnexpectedHandoff)
  {
    ReachableInv(NewBooth(language, channel), ops);
  }

  /** A request completed after its initiator rejoined under a role that cannot go live gives them the slot. */
  lemma DemotedRequesterTakesSlot(b: Booth, j: Joining, k: nat, holder: string)
    requires Inv(b) && b.handoff == Requested && b.active == Some(holder)
    requires k < |b.people| && b.initiator == Some(b.people[k].id) && b.people[k].id != ""
    requires j.reclaim && j.id == b.initiator && !CanGoLive(j.role)
    ensures var after := Next(Next(b, Join(j)), Accept(holder));
            && k < |after.people| && after.active == b.initiator && after.active == Some(after.people[k].id)
            && !CanGoLive(after.people[k].role)
  {
    hide DoJoin, DoAccept, DoUpdate, DoLeave, DoSetActive, DoInitiate, DoCancel, DoChat, DoSetUnlocked, HandoffInv;
    hide Introduced;
    ReclaimingReplacesInPlace(b, j, k);
    StepKeepsInv(b, Join(j));
    AcceptMeaning(DoJoin(b, j), holder);
  }

  lemma InitiateMeaning(b: Booth, r: string)
    requires Inv(b)
    ensures DoInitiate(b, r).Ok? <==>
            && Has(b.people, r) && CanGoLive(Get(b.people, r).role) && b.handoff == Idle
            && exists i :: 0 <= i < |b.people| && b.people[i].id != r && CanGoLive(b.people[i].role)
    ensures DoInitiate(b, r).Ok? ==>
              var b' := DoInitiate(b, r).value;
              // Undone by its initiator, and only by its initiator.
              && DoCancel(b', r) == Ok(b)
              && (forall x :: x != r ==> DoCancel(b', x) == Err(OnlyInitiatorCancels))
              // Completed by the other side: any other eligible person for an offer, the slot's holder for a request.
              && (b.active == Some(r) ==>
                    && b'.handoff == Offered
                    && forall a :: Has(b.people, a) && a != r && CanGoLive(Get(b.people, a).role) ==>
                                     DoAccept(b', a).Ok?)
              && (b.active != Some(r) ==> b'.handoff == Requested && b.active.Some? && DoAccept(b', b.active.value).Ok?)
  {
    if Has(b.people, r) { assert CanGoLive(Get(b.people, r).role) ==> b.active.Some?; }
  }

  /** A pending handoff never gets stuck: its initiator is present and cancelling it works. */
  lemma PendingCanBeCancelled(b: Booth)
    requires Inv(b) && b.handoff != Idle
    ensures b.initiator.Some? && Has(b.people, b.initiator.value)
    ensures DoCancel(b, b.initiator.value) == Ok(b.(handoff := Idle, initiator := None))
    ensures forall x :: Some(x) != b.initiator ==> DoCancel(b, x) == Err(OnlyInitiatorCancels)
  {
  }

  /** With nothing pending anybody may cancel, to no effect. */
  lemma IdleCancelIsIdle(b: Booth, x: string)
    requires b.handoff == Idle
    ensures DoCancel(b, x) == Ok(b)
  {
  }

  /** Publishing is for the slot's holder, present and able to go live, and for nobody else. */
  lemma MayPublishExactly(b: Booth, x: string)
    ensures PublishRefusal(b, x).None? <==>
              b.active == Some(x)
              && exists i :: 0 <= i < |b.people| && b.people[i].id == x && Get(b.people, x) == b.people[i]
                             && CanGoLive(b.people[i].role)
  {
    HasIsMembership(b.people, x);
    if Has(b.people, x) { assert b.people[IndexOf(b.people, x)].id == x; }
  }

  /** Calls that name somebody who is not there are refused for that reason, whatever else is wrong with them. */
  lemma AbsenceIsNamed(b: Booth, op: Operation)
    ensures var absent := match op
                          case SetActive(r, t) => !Has(b.people, r) || !Has(b.people, t)
                          case Initiate(r) => !Has(b.people, r)
                          case Accept(a) => !Has(b.people, a)
                          case Chat(s, _, _) => !Has(b.people, s)
                          case Update(id, _, _, _) => !Has(b.people, id)
                          case _ => false;
            Raised(b, op) == Some(NotInBooth) <==> absent
  {
    hide DoJoin, DoLeave;
  }

  lemma SetActiveMeaning(b: Booth, r: string, t: string)
    requires Inv(b)
    ensures DoSetActive(b, r, t).Ok? <==>
            && Has(b.people, r) && Has(b.people, t) && CanGoLive(Get(b.people, t).role)
            && (CanSetActive(Get(b.people, r).role) || b.active == Some(r))
    ensures DoSetActive(b, r, t).Ok? ==>
              var b' := DoSetActive(b, r, t).value;
              && b'.active == Some(t) && b'.handoff == Idle && b'.initiator.None?
              && b'.unlocked == b.unlocked && b'.chat == b.chat
              && (b.active != Some(t) ==>
                    AllOffAir(b.people, b'.people) && !Publishing(b'.people) && b'.status == Disconnected)
              && (b.active == Some(t) ==> b'.people == b.people)
  {
    if DoSetActive(b, r, t).Ok? {
      if b.active != Some(t) { OthersOffAir(b, Some(t)); }
    }
  }

  lemma UpdateMeaning(b: Booth, k: nat, mic: Option<bool>, ingest: Option<bool>, connected: Option<bool>)
    requires Inv(b) && k < |b.people|
    ensures var id := b.people[k].id;
            var r := DoUpdate(b, id, mic, ingest, connected);
            && (r.Ok? <==> (mic == Some(true) || ingest == Some(true) ==> PublishRefusal(b, id).None?))
            && (r.Ok? ==>
                  && |r.value.people| == |b.people|
                  && (forall i :: 0 <= i < |b.people| && i != k ==> r.value.people[i] == b.people[i])
                  && r.value.people[k].mic == mic.GetOr(b.people[k].mic)
                  && r.value.people[k].ingest == ingest.GetOr(b.people[k].ingest)
                  && r.value.people[k].connected == connected.GetOr(b.people[k].connected)
                  && r.value.people[k] == b.people[k].(mic := r.value.people[k].mic,
                                                       ingest := r.value.people[k].ingest,
                                                       connected := r.value.people[k].connected)
                  && r.value.active == b.active && r.value.handoff == b.handoff
                  && r.value.status == if Publishing(r.value.people) then Connected else Disconnected)
  {
    GetIsTheOne(b.people, k);
  }

  /** In a reachable booth the check for a participant who is gone never matters: live can be stopped while
      the slot is empty, and otherwise exactly by a session of whoever joined as its holder. */
  lemma StopLiveMeaning(b: Booth, sessions: set<string>)
    requires Inv(b)
    ensures CanStopLive(b, sessions) <==>
              b.active.None?
              || exists i :: 0 <= i < |b.people| && b.active == Some(b.people[i].id) && b.people[i].joinedBy.Some?
                             && b.people[i].joinedBy.value in sessions
  {
    if b.active.Some? {
      var k := IndexOf(b.people, b.active.value);
      GetIsTheOne(b.people, k);
      assert b.people[k].id == b.active.value;
    }
  }

  // ---- The aggregate ingest status ----

  ghost predicate Tracks(b: Booth) {
    b.status == if Publishing(b.people) then Connected else Disconnected
  }

  /** A join that replaces the record of somebody who is publishing. */
  ghost predicate ReplacesPublisher(b: Booth, op: Operation) {
    op.Join? && Has(b.people, AssignedId(b, op.joining)) && Get(b.people, AssignedId(b, op.joining)).ingest
  }

  lemma NoPublisherAfterReclaim(b: Booth, j: Joining)
    requires Inv(b)
    ensures Publishing(DoJoin(b, j).people) <==> Publishing(b.people) && !ReplacesPublisher(b, Join(j))
  {
    var p := Joined(b, j);
    var qs := Put(b.people, p);
    if Publishing(b.people) && !ReplacesPublisher(b, Join(j)) {
      var i :| 0 <= i < |b.people| && b.people[i].ingest;
      GetIsTheOne(b.people, i);
      assert qs[i] == b.people[i];
    }
    if Publishing(qs) {
      var i :| 0 <= i < |qs| && qs[i].ingest;
      assert b.people[i] == qs[i];
      assert b.people[i].id != p.id && b.active == Some(b.people[i].id);
    }
  }

  /** A publisher who leaves takes the status along; anybody else's leaving leaves the publisher alone. */
  lemma LeavingTracks(b: Booth, id: string)
    requires Inv(b) && Tracks(b)
    ensures Tracks(Next(b, Leave(id)))
  {
    if Has(b.people, id) {
      LeaveEffect(b, id);
      if Publishing(b.people) && !Get(b.people, id).ingest {
        var i :| 0 <= i < |b.people| && b.people[i].ingest;
        WithoutFacts(b.people, id);
        assert b.people[i] in Without(b.people, id);
        assert Publishing(Without(b.people, id));
      }
    }
  }

  /** ingest_status stops telling whether anybody publishes through two steps only: the transcription
      worker's own write, and a rejoin that silently drops the publisher's record. */
  lemma StatusStepExact(b: Booth, op: Operation)
    requires Inv(b) && Tracks(b)
    ensures Tracks(Next(b, op)) <==> !(op.Overload? || ReplacesPublisher(b, op))
  {
    match op
    case Join(j) => NoPublisherAfterReclaim(b, j);
    case Leave(id) => LeavingTracks(b, id);
    case SetUnlocked(u) => LockingStopsEveryone(b);
    case SetActive(_, _) =>
    case Accept(a) => AcceptMeaning(b, a);
    case Initiate(_) =>
    case Cancel(_) =>
    case Chat(_, _, _) =>
    case Update(_, _, _, _) =>
    case Overload =>
  }

  lemma RunOfTwo(b: Booth, one: Operation, two: Operation)
    ensures Run(b, [one, two]) == Next(Next(b, one), two)
  {
    hide Next;
    assert [one, two][1..] == [two] && [two][1..] == [];
    assert Run(Next(b, one), [two]) == Run(Next(Next(b, one), two), [two][1..]);
  }

  lemma PublishAndReclaim(b: Booth, j: Joining)
    requires |b.people| == 1 && j.reclaim && j.id.Some? && j.id.value != "" && CanGoLive(j.role)
    requires b.people[0].id == j.id.value && b.people[0].role == j.role && b.active == j.id
    ensures var live := Next(b, Update(j.id.value, None, Some(true), None));
            && Publishing(live.people) && live.status == Connected
            && var after := Next(live, Join(j)); !Publishing(after.people) && after.status == Connected
  {
    GetIsTheOne(b.people, 0);
    var live := Next(b, Update(j.id.value, None, Some(true), None));
    assert live.people == [Flagged(b.people[0], None, Some(true), None)];
    GetIsTheOne(live.people, 0);
    assert Next(live, Join(j)).people == [Joined(live, j)];
  }

  /** Both exceptions happen: a run that ends Connected with nobody publishing, because the publisher rejoined
      with `reclaim`, */
  lemma ReclaimLeavesConnected(language: string, channel: string, j: Joining)
    requires j.reclaim && j.id.Some? && j.id.value != "" && CanGoLive(j.role)
    ensures var publishes := Update(j.id.value, None, Some(true), None);
            var live := Run(NewBooth(language, channel), [Join(j), publishes]);
            && Publishing(live.people) && live.status == Connected
            && var b := Next(live, Join(j)); !Publishing(b.people) && b.status == Connected
  {
    var publishes := Update(j.id.value, None, Some(true), None);
    var b := NewBooth(language, channel);
    var joined := DoJoin(b, j);
    assert Joined(b, j).id == j.id.value && joined.people == [Joined(b, j)] && joined.active == j.id;
    RunOfTwo(b, Join(j), publishes);
    PublishAndReclaim(joined, j);
  }

  /** and one that ends neither Connected nor Disconnected, because the transcription worker wrote it. */
  lemma OverloadLeavesOverloaded(language: string, channel: string, ops: seq<Operation>)
    ensures var b := Next(Run(NewBooth(language, channel), ops), Overload); b.status == Overloaded && !Tracks(b)
  {
  }

  ghost predicate Undisturbed(b: Booth, ops: seq<Operation>)
    decreases |ops|
  {
    ops == [] ||
    (!ops[0].Overload? && !ReplacesPublisher(b, ops[0]) && Undisturbed(Next(b, ops[0]), ops[1..]))
  }

  lemma {:induction false} StatusTracksOnRuns(b: Booth, ops: seq<Operation>)
    requires Inv(b) && Tracks(b) && Undisturbed(b, ops)
    ensures Tracks(Run(b, ops))
    decreases |ops|
  {
    if ops != [] {
      StatusStepExact(b, ops[0]);
      StepKeepsInv(b, ops[0]);
      StatusTracksOnRuns(Next(b, ops[0]), ops[1..]);
    }
  }

  // ---- Chat ----

  lemma OnlyChatTalks(b: Booth, op: Operation)
    requires !op.Chat?
    ensures Next(b, op).chat == b.chat
  {
    match op
    case Join(_) =>
    case Leave(_) =>
    case SetUnlocked(_) =>
    case SetActive(_, _) =>
    case Initiate(_) =>
    case Accept(_) =>
    case Cancel(_) =>
    case Update(_, _, _, _) =>
    case Overload =>
  }

  /** What an operation adds to the chat: the trimmed text of somebody present, if it has 1 to 1000 characters. */
  ghost function Said(b: Booth, op: Operation): seq<Message> {
    match op
    case Chat(s, m, id) =>
      if Has(b.people, s) && 1 <= |Strip(m)| <= 1000
      then [Message(id, s, Get(b.people, s).name, Strip(m))] else []
    case _ => []
  }

  /** Every message the booth accepted along a run, with no limit. */
  ghost function Accepted(b: Booth, ops: seq<Operation>): seq<Message>
    decreases |ops|
  {
    if ops == [] then [] else Said(b, ops[0]) + Accepted(Next(b, ops[0]), ops[1..])
  }

  lemma ChatStep(b: Booth, op: Operation)
    requires |b.chat| <= CHAT_HISTORY
    ensures Next(b, op).chat == LastMessages(b.chat + Said(b, op))
  {
    if !op.Chat? {
      OnlyChatTalks(b, op);
      assert b.chat + Said(b, op) == b.chat;
    } else {
      assert Do(b, op).Err? ==> b.chat + Said(b, op) == b.chat;
    }
  }

  /** What every stored message looks like: trimmed, and 1 to 1000 characters long. */
  ghost predicate Clean(m: Message) {
    Strip(m.body) == m.body && 0 < |m.body| <= 1000
  }

  lemma SaidIsClean(b: Booth, op: Operation)
    ensures forall m :: m in Said(b, op) ==> Clean(m)
  {
    if op.Chat? { StripKeeps(Strip(op.body), Blank); }
  }

  /** Along any run, the history of a booth holds clean messages only. */
  lemma {:induction false} ChatStaysClean(b: Booth, ops: seq<Operation>)
    requires |b.chat| <= CHAT_HISTORY && forall m :: m in b.chat ==> Clean(m)
    ensures forall m :: m in Run(b, ops).chat ==> Clean(m)
    decreases |ops|
  {
    if ops != [] {
      ChatStep(b, ops[0]);
      SaidIsClean(b, ops[0]);
      var all := b.chat + Said(b, ops[0]);
      assert forall m :: m in LastMessages(all) ==> m in all;
      ChatStaysClean(Next(b, ops[0]), ops[1..]);
    }
  }

  lemma LastOfLast(chat: seq<Message>, said: seq<Message>, kept: seq<Message>, rest: seq<Message>)
    requires kept == LastMessages(chat + said)
    ensures LastMessages(kept + rest) == LastMessages(chat + (said + rest))
  {
    assert chat + (said + rest) == (chat + said) + rest;
    if |chat + said| > CHAT_HISTORY {
      assert (chat + said) + rest == (chat + said)[..|chat + said| - CHAT_HISTORY] + (kept + rest);
    }
  }

  /** Trimming at every message keeps exactly the last 500 messages of the whole history. */
  lemma {:induction false} ChatIsLastOfHistory(b: Booth, ops: seq<Operation>)
    requires |b.chat| <= CHAT_HISTORY
    ensures var all := b.chat + Accepted(b, ops); Run(b, ops).chat == all[if |all| > 500 then |all| - 500 else 0..]
    decreases |ops|
  {
    if ops == [] {
      assert b.chat + [] == b.chat;
    } else {
      var b' := Next(b, ops[0]);
      ChatStep(b, ops[0]);
      ChatIsLastOfHistory(b', ops[1..]);
      LastOfLast(b.chat, Said(b, ops[0]), b'.chat, Accepted(b', ops[1..]));
    }
  }
}
