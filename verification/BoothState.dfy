/** portal/booth_state.py: the mutable booth. Each method is the critical section of the BoothRegistry
    method of the same name, on the booth that call names, and refines BoothSpec. The registry holds
    one lock around each of them, so one call is one step. */
module BoothState {
  import opened Basics
  import opened Wrappers
  import opened Roles
  import opened Text
  import Spec = BoothSpec

  class Participant {
    const participantId: string
    const displayName: string
    const role: Role
    const language: string
    const channelId: string
    var micActive: bool
    var ingestConnected: bool
    var connected: bool
    const joinedBy: Option<string>

    constructor (p: Spec.Person)
      ensures View() == p
    {
      participantId, displayName, role, language, channelId := p.id, p.name, p.role, p.language, p.channel;
      micActive, ingestConnected, connected, joinedBy := p.mic, p.ingest, p.connected, p.joinedBy;
    }

    method Update(mic: Option<bool>, ingest: Option<bool>, connected: Option<bool>)
      modifies this
      ensures View() == Spec.Flagged(old(View()), mic, ingest, connected)
    {
      if mic.Some? { this.micActive := mic.value; }
      if ingest.Some? { this.ingestConnected := ingest.value; }
      if connected.Some? { this.connected := connected.value; }
    }

    function View(): Spec.Person
      reads this
    {
      Spec.Person(participantId, displayName, role, language, channelId,
                  micActive, ingestConnected, connected, joinedBy)
    }
  }

  class Booth {
    const language: string
    const channelId: string
    var activeInterpreterId: Option<string>
    var handoffState: Spec.Handoff
    var handoffInitiatorId: Option<string>
    var broadcastUnlocked: bool
    var participants: seq<Participant>  // the dict's values, in insertion order
    var chatMessages: seq<Spec.Message>
    var ingestStatus: Spec.Ingest
    ghost var people: seq<Spec.Person>  // what the participant records hold

    constructor (language: string, channelId: string)
      ensures Valid() && participants == []
      ensures View() == Spec.NewBooth(language, channelId)
    {
      this.language, this.channelId := language, channelId;
      activeInterpreterId, handoffState, handoffInitiatorId, broadcastUnlocked := None, Spec.Idle, None, false;
      participants, chatMessages, ingestStatus, people := [], [], Spec.Disconnected, [];
    }

    ghost predicate Valid()
      reads this, participants
    {
      && |people| == |participants|
      && (forall i :: 0 <= i < |people| ==> participants[i].View() == people[i])
      && (forall i, j :: 0 <= i < j < |participants| ==> participants[i] != participants[j])
    }

    ghost function View(): Spec.Booth
      reads this
    {
      Spec.Booth(language, channelId, activeInterpreterId, handoffState, handoffInitiatorId, broadcastUnlocked,
                 people, chatMessages, ingestStatus)
    }

    /** participants.get(id), as a position. */
    method Find(id: string) returns (k: Option<nat>)
      requires Valid()
      ensures k.Some? <==> Spec.Has(people, id)
      ensures k.Some? ==> k.value == Spec.IndexOf(people, id) && people[k.value] == participants[k.value].View()
    {
      for i := 0 to |participants|
        invariant forall j :: 0 <= j < i ==> people[j].id != id
      {
        if participants[i].participantId == id {
          assert people[i].id == id;
          return Some(i);
        }
      }
      return None;
    }

    method AnyPublishing() returns (publishing: bool)
      requires Valid()
      ensures publishing == Spec.Publishing(people)
    {
      publishing := false;
      for i := 0 to |participants|
        invariant publishing <==> exists j :: 0 <= j < i && people[j].ingest
      {
        publishing := publishing || participants[i].ingestConnected;
      }
    }

    method RefreshIngestStatus()
      requires Valid()
      modifies this`ingestStatus
      ensures View() == Spec.Refreshed(old(View()))
    {
      var publishing := AnyPublishing();
      ingestStatus := if publishing then Spec.Connected else Spec.Disconnected;
    }

    method PickNextInterpreter() returns (next: Option<string>)
      requires Valid()
      ensures next == Spec.PickNext(people)
    {
      for i := 0 to |participants|
        invariant Spec.PickNext(people) == Spec.PickNext(people[i..])
      {
        assert people[i..][1..] == people[i + 1..];
        if CanGoLive(participants[i].role) { return Some(participants[i].participantId); }
      }
      next := None;
    }

    method AnyoneElseLive(id: string) returns (someone: bool)
      requires Valid()
      ensures someone == Spec.AnyoneElseLive(people, id)
    {
      someone := false;
      for i := 0 to |participants|
        invariant someone <==> exists j :: 0 <= j < i && people[j].id != id && CanGoLive(people[j].role)
      {
        someone := someone || (participants[i].participantId != id && CanGoLive(participants[i].role));
      }
    }

    /** Take everyone but `keep` off air. */
    method ClearFlags(keep: Option<string>)
      requires Valid()
      modifies this`people, participants
      ensures Valid() && people == Spec.OnlyKeep(old(people), keep)
    {
      ghost var cleared := Spec.OnlyKeep(people, keep);
      for i := 0 to |participants|
        invariant people == old(people)
        invariant forall j :: 0 <= j < |participants| ==>
                                participants[j].View() == if j < i then cleared[j] else people[j]
      {
        var p := participants[i];
        p.ingestConnected := keep == Some(p.participantId) && p.ingestConnected;
        p.micActive := keep == Some(p.participantId) && p.micActive;
      }
      people := cleared;
    }

    /** participants[p.participantId] = p. */
    method Store(p: Participant)
      requires Valid() && p !in participants
      modifies this`participants, this`people
      ensures Valid() && people == Spec.Put(old(people), p.View())
      ensures forall q :: q in participants ==> q in old(participants) || q == p
    {
      var k := Find(p.participantId);
      people := Spec.Put(people, p.View());
      participants := if k.Some? then participants[k.value := p] else participants + [p];
    }

    /** participants.pop(id, None). */
    method Pop(id: string) returns (gone: Option<Participant>)
      requires Valid()
      modifies this`participants, this`people
      ensures Valid() && people == Spec.Without(old(people), id)
      ensures gone.Some? <==> Spec.Has(old(people), id)
      ensures gone.None? ==> people == old(people)
      ensures gone.Some? ==> gone.value in old(participants) && gone.value.View() == Spec.Get(old(people), id)
      ensures forall q :: q in participants ==> q in old(participants)
    {
      var k := Find(id);
      if k.None? { return None; }
      hide Cut;
      CutAt(participants, k.value);
      CutAt(people, k.value);
      gone := Some(participants[k.value]);
      participants := Cut(participants, k.value);
      people := Spec.Without(people, id);
    }

    /** The record a join creates, under the ID it is given. */
    method RecordFor(j: Spec.Joining) returns (p: Participant)
      requires Valid()
      ensures fresh(p) && p.View() == Spec.Joined(View(), j)
    {
      var requested := j.id;
      if requested.Some? && !j.reclaim {
        var taken := Find(requested.value);
        if taken.Some? { requested := None; }
      }
      var id := if requested.Some? && requested.value != "" then requested.value else j.minted;
      p := new Participant(Spec.Person(
        id, Spec.OrElse(Strip(j.name), "Interpreter"), j.role,
        Spec.OrElse(Strip(j.language), language), Spec.OrElse(Strip(j.channel), channelId),
        false, false, true, j.joinedBy));
    }

    method JoinParticipant(j: Spec.Joining) returns (id: string)
      requires Valid()
      modifies this
      ensures Valid() && View() == Spec.DoJoin(old(View()), j) && id == Spec.AssignedId(old(View()), j)
      ensures forall p :: p in participants ==> p in old(participants) || fresh(p)
    {
      var participant := RecordFor(j);
      id := participant.participantId;
      Store(participant);
      if CanGoLive(participant.role) && activeInterpreterId.None? { activeInterpreterId := Some(id); }
    }

    /** The slot and the handoff after `id` was taken out of the dict. */
    method Depart(id: string)
      requires Valid()
      modifies this
      ensures Valid() && participants == old(participants) && View() == Spec.Departed(old(View()), id)
    {
      var wasActive := activeInterpreterId == Some(id);
      if wasActive { activeInterpreterId := PickNextInterpreter(); }
      if wasActive || handoffInitiatorId == Some(id) {
        handoffState, handoffInitiatorId := Spec.Idle, None;
      }
    }

    method LeaveParticipant(id: string)
      requires Valid()
      modifies this
      ensures Valid() && View() == Spec.DoLeave(old(View()), id)
      ensures forall p :: p in participants ==> p in old(participants)
    {
      hide Spec.Without, Spec.Has, Spec.Get, Spec.PickNext, Spec.Departed, Spec.Publishing;
      var gone := Pop(id);
      if gone.None? { return; }
      Depart(id);
      if gone.value.ingestConnected { RefreshIngestStatus(); }
      if participants == [] { ingestStatus, handoffState := Spec.Disconnected, Spec.Idle; }
    }

    method SetBroadcastUnlocked(unlocked: bool)
      requires Valid()
      modifies this, participants
      ensures Valid() && View() == Spec.DoSetUnlocked(old(View()), unlocked) && participants == old(participants)
    {
      broadcastUnlocked := unlocked;
      if !unlocked {
        ClearFlags(None);
        ingestStatus := Spec.Disconnected;
      }
    }

    /** The end shared by a reassignment and an accepted handoff. */
    method TakeOver(newActive: Option<string>)
      requires Valid()
      modifies this, participants
      ensures Valid() && participants == old(participants)
      ensures View() == Spec.HandOver(old(View()), newActive)
    {
      activeInterpreterId := newActive;
      handoffState, handoffInitiatorId := Spec.Idle, None;
      ClearFlags(newActive);
      RefreshIngestStatus();
    }

    /** The result of a method that may raise is None when it did not. */
    method SetActiveInterpreter(requester: string, target: string) returns (error: Option<Spec.Error>)
      requires Valid()
      modifies this, participants
      ensures Valid() && participants == old(participants)
      ensures Refines(old(View()), Spec.DoSetActive(old(View()), requester, target), error)
    {
      var r := Find(requester);
      var t := Find(target);
      if r.None? || t.None? { return Some(Spec.NotInBooth); }
      if !CanGoLive(participants[t.value].role) { return Some(Spec.TargetCannotGoLive); }
      if !CanSetActive(participants[r.value].role) && activeInterpreterId != Some(requester) {
        return Some(Spec.MayNotReassign);
      }
      TakeOver(Some(target));
      return None;
    }

    method InitiateHandoff(requester: string) returns (error: Option<Spec.Error>)
      requires Valid()
      modifies this
      ensures Valid() && participants == old(participants)
      ensures Refines(old(View()), Spec.DoInitiate(old(View()), requester), error)
    {
      hide Spec.Has, Spec.AnyoneElseLive, CanGoLive;
      var r := Find(requester);
      if r.None? { return Some(Spec.NotInBooth); }
      if !CanGoLive(participants[r.value].role) { return Some(Spec.MayNotInitiate); }
      if handoffState != Spec.Idle { return Some(Spec.HandoffInProgress); }
      var someone := AnyoneElseLive(requester);
      if !someone { return Some(Spec.NobodyElse); }
      handoffState := if activeInterpreterId == Some(requester) then Spec.Offered else Spec.Requested;
      handoffInitiatorId := Some(requester);
      return None;
    }

    method AcceptHandoff(acceptor: string) returns (error: Option<Spec.Error>)
      requires Valid()
      modifies this, participants
      ensures Valid() && participants == old(participants)
      ensures Refines(old(View()), Spec.DoAccept(old(View()), acceptor), error)
    {
      var k := Find(acceptor);
      if k.None? { return Some(Spec.NotInBooth); }
      if handoffState == Spec.Idle { return Some(Spec.NoHandoff); }
      var newActive := handoffInitiatorId;
      if newActive == Some(acceptor) { return Some(Spec.OwnHandoff); }
      if handoffState == Spec.Offered {
        if activeInterpreterId == Some(acceptor) { return Some(Spec.ActiveTookOffer); }
        if !CanGoLive(participants[k.value].role) { return Some(Spec.MayNotTakeOver); }
        newActive := Some(acceptor);
      } else if handoffState == Spec.Requested {
        if activeInterpreterId != Some(acceptor) { return Some(Spec.OnlyActiveYields); }
      } else {
        return Some(Spec.UnexpectedHandoff);
      }
      TakeOver(newActive);
      return None;
    }

    method CancelHandoff(requester: string) returns (error: Option<Spec.Error>)
      requires Valid()
      modifies this
      ensures Valid() && participants == old(participants)
      ensures Refines(old(View()), Spec.DoCancel(old(View()), requester), error)
    {
      if handoffState == Spec.Idle { return None; }
      if handoffInitiatorId != Some(requester) { return Some(Spec.OnlyInitiatorCancels); }
      handoffState, handoffInitiatorId := Spec.Idle, None;
      return None;
    }

    method AddChatMessage(sender: string, body: string, messageId: string) returns (error: Option<Spec.Error>)
      requires Valid()
      modifies this
      ensures Valid() && participants == old(participants)
      ensures Refines(old(View()), Spec.DoChat(old(View()), sender, body, messageId), error)
    {
      var k := Find(sender);
      if k.None? { return Some(Spec.NotInBooth); }
      var text := Strip(body);
      if text == "" { return Some(Spec.EmptyMessage); }
      if |text| > Spec.CHAT_MESSAGE_MAX_LENGTH { return Some(Spec.MessageTooLong); }
      chatMessages := chatMessages + [Spec.Message(messageId, sender, participants[k.value].displayName, text)];
      if |chatMessages| > Spec.CHAT_HISTORY {
        chatMessages := chatMessages[|chatMessages| - Spec.CHAT_HISTORY..];
      }
      return None;
    }

    method SetFlags(k: nat, mic: Option<bool>, ingest: Option<bool>, connected: Option<bool>)
      requires Valid() && k < |participants|
      modifies this`people, this`ingestStatus, participants[k]
      ensures Valid()
      ensures View() == Spec.Refreshed(old(View()).(
                          people := old(people)[k := Spec.Flagged(old(people)[k], mic, ingest, connected)]))
    {
      participants[k].Update(mic, ingest, connected);
      people := people[k := Spec.Flagged(people[k], mic, ingest, connected)];
      RefreshIngestStatus();
    }

    method UpdateParticipantState(id: string, mic: Option<bool>, ingest: Option<bool>, connected: Option<bool>)
      returns (error: Option<Spec.Error>)
      requires Valid()
      modifies this, participants
      ensures Valid() && participants == old(participants)
      ensures Refines(old(View()), Spec.DoUpdate(old(View()), id, mic, ingest, connected), error)
    {
      var k := Find(id);
      if k.None? { return Some(Spec.NotInBooth); }
      var p := participants[k.value];
      var wantsPublisherState := mic == Some(true) || ingest == Some(true);
      if wantsPublisherState && !CanGoLive(p.role) { return Some(Spec.MayNotPublish); }
      if wantsPublisherState && activeInterpreterId != Some(id) { return Some(Spec.OnlyActivePublishes); }
      SetFlags(k.value, mic, ingest, connected);
      return None;
    }

    /** The registry method that `op` names, on this booth. */
    method Perform(op: Spec.Operation) returns (error: Option<Spec.Error>)
      requires Valid()
      modifies this, participants
      ensures Valid() && forall p :: p in participants ==> p in old(participants) || fresh(p)
      ensures View() == Spec.Next(old(View()), op) && error == Spec.Raised(old(View()), op)
    {
      error := None;
      match op {
        case Join(j) => var newId := JoinParticipant(j);
        case Leave(x) => LeaveParticipant(x);
        case SetUnlocked(u) => SetBroadcastUnlocked(u);
        case SetActive(r, t) => error := SetActiveInterpreter(r, t);
        case Initiate(r) => error := InitiateHandoff(r);
        case Accept(a) => error := AcceptHandoff(a);
        case Cancel(r) => error := CancelHandoff(r);
        case Chat(s, m, x) => error := AddChatMessage(s, m, x);
        case Update(x, m, i, c) => error := UpdateParticipantState(x, m, i, c);
        case Overload => ingestStatus := Spec.Overloaded;
      }
    }

    /** A call either raises and changes nothing, or leaves the specified state. */
    ghost predicate Refines(before: Spec.Booth, spec: Spec.Outcome, error: Option<Spec.Error>)
      reads this
    {
      match spec
      case Ok(after) => error == None && View() == after
      case Err(e) => error == Some(e) && View() == before
    }
  }
}
