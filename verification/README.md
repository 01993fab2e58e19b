# Verified model of the VoxBento portal's stateful cores

This project models, in Dafny 4.11, the parts of the repository that keep state and make promises about
every run, and proves those promises. `dafny verify dfyconfig.toml` checks all of it.

- **Interpreter booths** (`Roles`, `BoothSpec`, `BoothState`, `BoothProperties`). A booth has one live slot,
  a two-sided handoff, microphone and ingest flags per participant and an aggregate ingest status. Each
  method of the registry is one critical section, so one method is one step. `BoothSpec` gives the steps on
  values, `BoothState` the classes that update records in place and refine them.
- **Booth IDs and paths** (`Text`, `BoothIdentity`): printing, parsing and converting.
- **Publish tickets** (`BoothPublish`, `PublishProtocol`): the bounded single-use ticket store, and the
  protocol from the WebSocket request to the media server's hook over every run of the portal.
- **YouTube relay** (`RelayService`, `RelayFailures`, `RelayPauses`, `ProgramRelay`, `RelayConvergence`):
  supervisor threads and requests of the relay service under every interleaving, what a failed spawn leaves
  behind, how long a supervisor pauses, the portal's pass that makes the service match the rooms that want a
  relay, and passes of the one over runs of the other.
- **Floor reservations** (`ProgramIngest`, `FloorProtocol`): two-phase admission under per-room locks and one
  capacity lock, takeovers, browser senders, and the reconciler with its grace period, interleaved over any
  number of rooms and requests.
- **Limiters** (`RateLimit`, `JoinCodeLimit`): pruned, swept and evicting stores against full histories.
- **Bounded retries** (`Outbox`, `MeetingSource`, `MeetingOutcomes`): the e-mail outbox with crashes and stale
  workers, and the restart budget of the meeting agent.
- **Room setup** (`RoomSetup`) and **webhooks** (`Webhooks`, `WebhookRace`): plan to stored settings and
  back; the upsert with its quota, and its statements interleaved with events that are being queued.
- `Basics` and `Wrappers` hold what several of them share.

Where the source updates an object in place there is a class whose methods are proved equal to a function on
values, and the properties are proved about that function. Where tasks or threads interleave, a step is what
one of them does between two points at which another can act, and the properties hold of every sequence of
enabled steps. Values marked as history (`good`, `log`, `tallies`, `scheduled`, ...) are not in the program;
they only let a property speak about the past.

Random identifiers and secrets are parameters required to be new; clocks are parameters that never run back
where a property needs it; outcomes of network, media-server, mail and database calls are inputs of a step.

## What the proofs found

- "One publisher per media path" does not hold. The booth registry is keyed by the raw ID of the URL
  (`portal/websockets/handlers.py:52-118`) and tokens are compared by parsed coordinates
  (`portal/auth.py:697-708`), so `a-1-fr` and `a-01-fr` are two booths with one path. `AliasedBoothsBothPublish`
  is the run; `OneBoothPerPathExactly` says for which sets of IDs it cannot happen: those of which no two have
  one path, such as canonical ones.
- "Converged" is not "running". When FFmpeg cannot be spawned, the supervisor returns and the relay stays
  registered (`program-relay/relay.py:290-297`), reporting `failed`; asking again answers 200 and changes nothing,
  and every later pass finds a matching fingerprint and makes no call. `ExitedExactly`, `DeadExactly` and `ServicesConverge` say
  exactly when, `PassesLeaveDead` that no number of passes helps, and `GoalWithoutProcess` is such a run.
- The live slot can go to somebody who cannot go live, after two steps: a rejoin with `reclaim` under a
  listening role, and the acceptance of a request whose initiator rejoined so (`HolderStepExact`,
  `DemotedRequesterTakesSlot`). Such a holder can neither publish nor be on air.
- `ingest_status` says whether anybody publishes on every run except after two steps: a rejoin with `reclaim`
  that replaces a publishing record, and the transcription worker's direct write of "overloaded"
  (`portal/websockets/manager.py:638-641`). `StatusStepExact` shows these are the only two,
  `ReclaimLeavesConnected` and `OverloadLeavesOverloaded` that both happen.
- Two raises of `accept_handoff` (`portal/booth_state.py:444-445`, `portal/booth_state.py:455`), the
  conflict check of the second admission phase (`portal/program_ingest.py:319-320`) and the erased-content
  branch of a send (`portal/notifications.py:341-347`) cannot be reached.
- The relay pass reaches the portal's goal exactly when at most `program_relay_max` wanted rooms are already
  live; otherwise it keeps the surplus live rooms rather than displace them. Failed calls never break that
  condition, so one pass without failures recovers from any earlier ones.
- The sliding-window limiter answers as its full log would for keys whose window never grows, as at every
  call site. A key that turns from window w to v keeps that on all runs if and only if v is no wider than w
  or not positive (`WindowsExactly`).
- A fixed join-code window allows at most ten failures of a client, and any half-open minute nineteen; nineteen
  are reached within any positive span (`AtMostNineteenPerMinute`, `NineteenAtOnce`). That is of clients whose
  window is not evicted, for which it takes MAX_CLIENTS others (`FewOthersNeverEvict`, `ManyOthersEvict`).
- The restart for a changed meeting URL is outside the restart budget (`portal/meeting_source.py:343-348`):
  it happens exactly when the agent joined another URL and the worker could be stopped, is repeated at every
  look while it fails, and no number bounds it (`UrlStartExactly`, `UrlStartsAreUnbounded`).
- Webhook deliveries can be lost with nothing but a log line. `enqueue_webhook` takes no lock between reading the
  subscriptions and inserting the deliveries of all of them in one flush: if one of those subscriptions is
  deleted or pruned by then, the foreign key fails the flush, and the deliveries for every other account go too.
  One that commits between the re-pointing and the delete of its own duplicate goes alone. `EventIsQueuedExactly`
  and `DeliveryIsLostExactly` show there is no other way; `BystanderIsLost` and `LatecomerIsLost` are runs.
- Captions read back from a stored room equal the planned flag exactly if the plan has captions whenever it
  gives a language to the AI.

## Model

| member | source | states |
|---|---|---|
| Roles.PermissionsFor | portal/roles.py:117-122 | The accumulated set holds exactly the permissions some role of the sequence carries; unknown names add nothing. |
| Roles.HighestRoleIsGreatest | portal/roles.py:125-128 | The highest role is a known member of greatest rank, and absent exactly when every name is unknown. |
| Roles.CombinedIsHighest | portal/roles.py:117-128 | For every sequence, unknown names included, the combined permissions are those of the highest role alone (none if there is none). |
| Roles.AtLeastIsContainment | portal/roles.py:131-135 | A rank comparison succeeds if and only if both names are known and the permissions of the granted role contain those of the requested one. |
| Roles.BoothRights | portal/roles.py:84-103 | Exactly the four roles go live, exactly the three above interpreter reassign the slot; unknown names do neither. |
| BoothState.Booth.PickNextInterpreter | portal/booth_state.py:123-133 | The loop returns the first participant in dict order who can go live, or nobody. |
| BoothState.Booth.JoinParticipant | portal/booth_state.py:232-273 | The in-place join leaves the booth as the join step on values: record appended or replaced, empty slot filled by somebody who can go live. |
| BoothState.Booth.LeaveParticipant | portal/booth_state.py:275-294 | The in-place leave is the leave step on values: slot, handoff and ingest status included. |
| BoothState.Booth.SetBroadcastUnlocked | portal/booth_state.py:296-329 | The lock loop is the lock step on values. |
| BoothState.Booth.SetActiveInterpreter | portal/booth_state.py:331-373 | Same error, same new booth as the reassignment step on values; a refused call changes nothing. |
| BoothState.Booth.InitiateHandoff | portal/booth_state.py:375-411 | Same error or new booth as the step on values. |
| BoothState.Booth.AcceptHandoff | portal/booth_state.py:413-468 | Same error or new booth as the step on values. |
| BoothState.Booth.CancelHandoff | portal/booth_state.py:470-486 | Same error or new booth as the step on values. |
| BoothState.Booth.AddChatMessage | portal/booth_state.py:488-516 | Same error or new booth as the step on values, history cut to 500. |
| BoothState.Booth.UpdateParticipantState | portal/booth_state.py:518-553 | Same error or new booth as the step on values, ingest status refreshed. |
| BoothState.Booth.Perform | portal/booth_state.py:136-577 | Any registry operation on the mutable booth refines the step function that the invariants are proved about. |
| BoothSpec.PickNextIsFirst | portal/booth_state.py:123-133 | The successor is the first eligible participant in dict order, absent only if there is none. |
| BoothSpec.StepKeepsInv | portal/booth_state.py:232-553 | Every operation, successful or not, keeps the booth invariant: active is nobody or present, only an eligible active participant is on air, no empty slot while somebody could go live, and the handoff invariant. |
| BoothSpec.ReachableInv | portal/booth_state.py:73-94 | The invariant holds in every booth that any run of operations reaches. |
| BoothSpec.LeaveEffect | portal/booth_state.py:275-294 | Leaving keeps everyone else and their order, ends the handoff exactly if a side of it left, and passes the slot on. |
| BoothProperties.AtMostOneOnAir | portal/booth_state.py:540-577 | In every booth a run reaches, whoever is on air or may publish is one and the same participant, and may publish. |
| BoothProperties.MayPublishExactly | portal/booth_state.py:556-577 | The slot's holder, present and able to go live, may publish, and nobody else. |
| BoothProperties.SlotIsFilled | portal/booth_state.py:262-294 | On every run without the two steps of HolderStepExact, the live slot is empty if and only if nobody present can go live. |
| BoothProperties.HolderStepExact | portal/booth_state.py:232-468 | A step leaves the slot to somebody who cannot go live if and only if it is a reclaim that replaces the holder under such a role, or the completion of a request whose initiator has one by then. |
| BoothProperties.DemotedRequesterTakesSlot | portal/booth_state.py:440-462 | The second of the two happens: a requester who rejoins under a listening role still gets the slot when the holder accepts. |
| BoothProperties.LeavingHandsOver | portal/booth_state.py:275-294 | When the active participant leaves, the slot goes to the first remaining one who can go live and the handoff is dropped. |
| BoothProperties.JoiningTakesNobodysPlace | portal/booth_state.py:242-273 | Without reclaim a join appends one off-air record, under the requested ID if nobody holds it and else under a new one, and touches no other record, holder or handoff. |
| BoothProperties.ReclaimingReplacesInPlace | portal/booth_state.py:242-273 | With reclaim the record is replaced at its position, off air, while slot, handoff and ingest status stay. |
| BoothProperties.LockingStopsEveryone | portal/booth_state.py:305-329 | Locking takes everybody off air and disconnects; unlocking changes the flag only. |
| BoothProperties.LockExactly | portal/booth_state.py:296-329 | A booth starts locked, and on every run its lock is what the last lock operation set; nothing else opens or closes it. |
| BoothProperties.SetActiveMeaning | portal/booth_state.py:342-373 | Exactly who may reassign the slot to whom; moving it to somebody else leaves nobody on air and the status disconnected. |
| BoothProperties.InitiateMeaning | portal/booth_state.py:386-411 | Exactly when a handoff can begin; it can then be undone by its initiator alone and completed by the right other side. |
| BoothProperties.AcceptMeaning | portal/booth_state.py:424-468 | Exactly when a handoff can be completed; completing it always changes the active interpreter and leaves nobody publishing. |
| BoothProperties.AbsenceIsNamed | portal/booth_state.py:331-553 | A call that names somebody who is not in the booth is refused for exactly that reason. |
| BoothProperties.AcceptDeadOnRuns | portal/booth_state.py:444-455 | The two defensive errors of accept_handoff are never raised in any reachable booth. |
| BoothProperties.PendingCanBeCancelled | portal/booth_state.py:478-486 | Any pending handoff has a present initiator, whose cancel succeeds and restores idle; nobody else can cancel. |
| BoothProperties.IdleCancelIsIdle | portal/booth_state.py:478-480 | With nothing pending anybody may cancel, to no effect. |
| BoothProperties.UpdateMeaning | portal/booth_state.py:529-553 | A media update succeeds exactly if it does not ask to publish without permission, and changes that one record and the aggregate status. |
| BoothProperties.StatusStepExact | portal/booth_state.py:97-101 | Status tracks publishing after a step if and only if the step is neither the transcription worker's "overloaded" write nor a reclaim of a publishing record. |
| BoothProperties.ReclaimLeavesConnected | portal/booth_state.py:242-273 | The first exception happens from a new booth: join, publish, rejoin with reclaim ends connected with nobody publishing. |
| BoothProperties.OverloadLeavesOverloaded | portal/websockets/manager.py:638-641 | The second one too, after any run: the status is then neither connected nor disconnected. |
| BoothProperties.StatusTracksOnRuns | portal/booth_state.py:97-101 | On every run without those two steps, status is connected if and only if some participant publishes. |
| BoothProperties.NoPublisherAfterReclaim | portal/booth_state.py:253-273 | After a join somebody publishes exactly if somebody did and was not the record replaced. |
| BoothProperties.StopLiveMeaning | portal/booth_state.py:579-584 | Live can be stopped exactly while the slot is empty or by a session of the account that joined as its holder. |
| BoothProperties.ChatStaysClean | portal/booth_state.py:498-516 | Along any run the history holds only messages that are trimmed, non-empty and at most 1000 characters long. |
| BoothProperties.ChatIsLastOfHistory | portal/booth_state.py:498-516 | Over any run the history is exactly the last 500 messages that somebody present sent with 1 to 1000 characters after trimming, in order. |
| BoothIdentity.SlugReIsItsDescription | portal/booth_identity.py:24-25 | The slug pattern accepts exactly non-empty alphanumeric runs joined by single hyphens. |
| BoothIdentity.BoothIdReIsTheGrammar | portal/booth_identity.py:31-31 | The ID pattern accepts exactly slug-digits-code, although slugs may hold hyphens and digits, and the right split finds that reading. |
| BoothIdentity.ParseMake | portal/booth_identity.py:304-385 | Parsing the ID made from any accepted input gives back the normalised coordinates. |
| BoothIdentity.SlugIsTakenExactly | portal/booth_identity.py:229-313 | A slug is taken exactly if trimmed and in lower case it is as described with at most 64 characters, and that form is used. |
| BoothIdentity.CodeIsTakenExactly | portal/booth_identity.py:248-268 | A language code is taken exactly if trimmed and in lower case it is "floor" or two letters of the catalogue. |
| BoothIdentity.MadePathIsPathOfMadeId | portal/booth_identity.py:304-335 | The path made from coordinates is the path of the ID made from them, refused alike; a missing room is refused for the same slugs and codes and printed None. |
| BoothIdentity.MakeIsInjective | portal/booth_identity.py:304-313 | Two accepted inputs make the same ID if and only if their normalised coordinates agree. |
| BoothIdentity.ParseMeaning | portal/booth_identity.py:361-385 | parse_booth_id accepts exactly the trimmed, lower-cased spellings of valid coordinates, whatever leading zeros, and returns those. |
| BoothIdentity.ConversionsAreInverse | portal/booth_identity.py:327-358 | On canonical IDs and paths the two conversions are mutually inverse. |
| BoothIdentity.IdConversionCanonicalises | portal/booth_identity.py:327-358 | One conversion makes any accepted ID canonical and keeps its coordinates; there and back again is then the identity. |
| BoothIdentity.PathConversionCanonicalises | portal/booth_identity.py:338-358 | The same for any accepted path. |
| BoothIdentity.SharePathExactly | portal/booth_identity.py:338-385 | Two accepted IDs have one media path if and only if they parse to the same coordinates. |
| BoothIdentity.AliasesShareAPath | portal/booth_identity.py:338-385 | Different IDs can: for every booth the ID with one more leading zero in its room number has the same path. |
| BoothIdentity.CanonicalMeaning | portal/booth_identity.py:304-385 | An accepted ID is in canonical form if and only if it is trimmed, lower-case and without leading zeros. |
| BoothIdentity.RoomlessPathIsNoBooth | portal/booth_identity.py:316-324 | A path printed for a missing room is never read back as a booth. |
| Text.StripExactly | portal/booth_identity.py:232-232 | Trimming leaves the string without the spaces before and after it, over ASCII. |
| Text.LowerExactly | portal/booth_identity.py:232-232 | Lower-casing changes exactly the ASCII capitals, each to its own small letter. |
| BoothPublish.TicketStore.Prune | portal/booth_publish.py:42-48 | The in-place loop leaves what the pruning function says. |
| BoothPublish.TicketStore.IssueTicket | portal/booth_publish.py:51-57 | Prunes, then appends one ticket that expires 30 seconds later. |
| BoothPublish.TicketStore.RedeemTicket | portal/booth_publish.py:60-70 | Removes the ticket whatever the outcome and returns it only if unexpired and for that path. |
| BoothPublish.PrunedIsLongestTidySuffix | portal/booth_publish.py:42-48 | On a sorted store pruning leaves exactly the longest suffix that is unexpired and below the cap. |
| BoothPublish.IssueKeepsStore | portal/booth_publish.py:51-57 | Issuing keeps the store sorted by expiry, free of repeated secrets and within MAX_TICKETS. |
| BoothPublish.RedeemKeepsStore | portal/booth_publish.py:60-70 | Redeeming keeps that too and removes exactly the one ticket. |
| BoothPublish.TicketStaysRedeemable | portal/booth_publish.py:42-70 | An unexpired, unredeemed ticket followed by fewer than MAX_TICKETS issues always redeems for its own path. |
| PublishProtocol.AfterKeepsInv | portal/websockets/manager.py:797-822 | Every step of the portal - booth operations, ticket requests, media-hook calls, time - keeps every booth invariant and the tickets' link to the issue log. |
| PublishProtocol.ReachableInv | portal/booth_publish.py:51-93 | That invariant holds after every run. |
| PublishProtocol.AuthorizedMeaning | portal/booth_publish.py:73-93 | An authorised publish was issued for that path less than 30 seconds before, never presented, and its holder is now the active interpreter of an unlocked booth who would be granted a ticket again. |
| PublishProtocol.IssuedExactly | portal/websockets/manager.py:797-822 | A ticket is issued exactly to the present, eligible holder of the slot of an unlocked booth whose ID has a path, for thirty seconds. |
| PublishProtocol.SingleUse | portal/booth_publish.py:60-70 | A secret presented once never authorises again, for any path, on any later run. |
| PublishProtocol.OneEntitledHolder | portal/booth_publish.py:73-87 | Two tickets entitled at one moment for one booth name the same participant, its active interpreter. |
| PublishProtocol.OneBoothPerPath | portal/booth_publish.py:73-93 | Entitled tickets of one path all name one booth if and only if no two registered IDs of that path are both unlocked with an eligible active interpreter. |
| PublishProtocol.CanonicalIdsAreAlone | portal/booth_identity.py:338-385 | Two live booths of one path never both have a canonical ID. |
| PublishProtocol.TwoPublishersOnOnePath | portal/websockets/handlers.py:52-118 | Whenever two different IDs have one path there is a run after which two participants of two booths are both authorised to publish on it. |
| PublishProtocol.FirstOneNamesTheBooth | portal/booth_state.py:141-178 | The first call or request on a booth makes it, empty and locked, in the language and channel it names; no later one changes either. |
| PublishProtocol.AliasedBoothsBothPublish | portal/auth.py:697-708 | So there is one for every booth, with the ID that has one more leading zero in its room number. |
| PublishProtocol.OneBoothPerPathExactly | portal/websockets/handlers.py:52-118 | On all runs that register only IDs of a set, at most one booth is let in on a path at a time if and only if no two IDs of the set have one path. |
| PublishProtocol.CanonicalPathsDiffer | portal/booth_identity.py:338-385 | Every set of canonical IDs is such a set. |
| PublishProtocol.GrantedTicketIsHonoured | portal/booth_publish.py:51-93 | After any run from the grant with fewer than MAX_TICKETS further grants, a granted ticket first presented for its path within 30 seconds is authorised if and only if its holder is still entitled then. |
| RelayService.RelayManager.EnsureRelay | program-relay/relay.py:214-236 | The locked section of ensure, in place, is the ensure step on values; 503 exactly when a room without a relay meets a full registry. |
| RelayService.RelayManager.Stop | program-relay/relay.py:244-248 | The locked section of stop, in place, is the stop step on values. |
| RelayService.RelayManager.RegisterProcess | program-relay/relay.py:298-308 | The supervisor's locked check after a spawn: registers the process or kills it and exits. |
| RelayService.StepKeepsInv | program-relay/relay.py:206-261 | Every step of any request, supervisor or dying process keeps the manager's invariant. |
| RelayService.ReachableInv | program-relay/relay.py:206-362 | The invariant holds under every interleaving of ensure, stop and supervisor threads. |
| RelayService.UnstoppedAreRegistered | program-relay/relay.py:214-248 | Unstopped relays are exactly the registered ones, at most one per room and at most max_relays. |
| RelayService.NoOrphan | program-relay/relay.py:282-308 | A relay owns at most one live process; a stopped one only between its spawn and the locked check, an exited supervisor none. |
| RelayService.OneProcessPerRoom | program-relay/relay.py:237-252 | Once no ensure or stop of a room is still joining, the room has at most one live process and it belongs to the registered relay. |
| RelayService.StoppedSupervisorCanStep | program-relay/relay.py:254-257 | A stopped relay's supervisor that has not exited always has an enabled step of its own, so a join is never blocked. |
| RelayService.StoppedSupervisorExits | program-relay/relay.py:282-362 | Each of its own steps but a progress report brings a stopped supervisor closer to its exit. |
| RelayService.StoppedStays | program-relay/relay.py:263-266 | No other thread's step changes a stopped relay or its supervisor's position. |
| RelayService.SupervisorMoves | program-relay/relay.py:282-362 | How the supervisor of an unstopped relay goes round: one new process of its own, waited for until that process is gone, one restart counted, a pause; each move changes nothing else. |
| RelayService.JoinReturns | program-relay/relay.py:254-257 | A call returns exactly once the supervisor it waits for has exited. |
| RelayService.EnsureOnListing | program-relay/relay.py:214-233 | Seen through the listing: 503 exactly for a new room with every slot taken, otherwise the room is listed with what was asked for (listed, which is not yet running). |
| RelayService.StopOnListing | program-relay/relay.py:244-248 | Seen through the listing: stop removes exactly that room. |
| RelayService.OtherRoomsUntouched | program-relay/relay.py:206-252 | Ensuring or stopping one room leaves relays and live processes of all others alone. |
| RelayService.EnsureIsIdempotent | program-relay/relay.py:214-217 | Asking again for what is registered changes nothing. |
| RelayPauses.PausesGrow | program-relay/relay.py:282-362 | Between two reports of going live, along any run, the pauses of a relay never get shorter and none exceeds 30 seconds. |
| RelayPauses.PauseExactly | program-relay/relay.py:282-362 | On every run, after the n-th run in a row that did not go live a relay pauses for the base, then twice the pause before up to the sixth, never above 30 seconds; going live starts the count again. |
| RelayFailures.ExitedExactly | program-relay/relay.py:282-297 | Over every run, the supervisor of an unstopped relay has returned if and only if one of its spawns failed, or it had returned before. |
| RelayFailures.ReplacedExactly | program-relay/relay.py:214-248 | Over every run, a relay keeps its room if and only if no step stops the room or asks it for another target. |
| RelayFailures.DeadExactly | program-relay/relay.py:214-297 | A room whose supervisor returned stays so, and listed with its target, until and only until a step replaces its relay; asking for the same target is not one. |
| RelayFailures.DeadHasNoProcess | program-relay/relay.py:290-297 | Such a relay has no process, and the room none once its ensure and stop calls have returned. |
| RelayFailures.SpawnFailureKills | program-relay/relay.py:214-297 | Any new room ends so if its first spawn fails; the next request for it is answered 200 and changes nothing. |
| ProgramRelay.OrderFacts | portal/program_relay.py:188-189 | The admission order lists every wanted room once: rooms that already relay first, then by room id. |
| ProgramRelay.RelayControl.Sync | portal/program_relay.py:165-208 | One pass leaves the listing and every room's health as specified for any outcome of its calls, and makes exactly the calls listed: a stop for every listed room that no longer qualifies, then the start calls of its order with their answers. |
| ProgramRelay.CapacityIsTold | portal/program_relay.py:188-196 | A room reads "at capacity" if and only if the pass does not admit it. |
| ProgramRelay.HealthIsTold | portal/program_relay.py:196-206 | An admitted room reads "service full" exactly on a 503 that arrived, the service's own report exactly if its fingerprint matched or it was started, and "degraded" exactly if the call failed. |
| ProgramRelay.PassConverges | portal/program_relay.py:178-208 | Without failed calls a pass ends with the first max rooms of its order registered with matching targets and every other live wanted room as it was. |
| ProgramRelay.GoalReached | portal/program_relay.py:165-208 | It ends with exactly the first max rooms if and only if at most max wanted rooms were live. |
| ProgramRelay.PassMeetsNoLimit | portal/program_relay.py:152-162 | In a pass without failed calls, with the portal's maximum within the service's, every start call is answered 200. |
| ProgramRelay.SecondPassIsIdle | portal/program_relay.py:165-208 | After such a pass the listing is settled for the same input, however many wanted rooms were live. |
| ProgramRelay.SecondPassCallsNobody | portal/program_relay.py:165-208 | A second pass with the same input makes no stop call and no start call, overfull listings included. |
| ProgramRelay.PassIsSafe | portal/program_relay.py:165-208 | Whatever calls fail, no still-wanted live room is displaced, nothing but wanted targets starts, and a listing within the service's capacity stays within it. |
| ProgramRelay.FewStayFew | portal/program_relay.py:165-208 | Whatever calls fail, a pass that found at most max wanted rooms live leaves at most max of them live. |
| ProgramRelay.OneQuietPassRecovers | portal/program_relay.py:165-208 | After any number of passes with any failures one pass without failures reaches the goal. |
| RelayConvergence.RunOnListing | program-relay/relay.py:206-261 | Over any run of the relay service its listing is what the ensure and stop requests make of it, in the order of their locked sections; no supervisor step changes it. |
| RelayConvergence.PassOverService | portal/program_relay.py:165-208 | A pass whose calls are served by a running relay service, with any supervisor steps in between, leaves the service's registry as the pass on values says. |
| RelayConvergence.ServicesConverge | portal/program_relay.py:165-208 | Across both services, for every scheduling and whatever calls of earlier passes failed, one pass without failures leaves the registry at the goal; a room of the goal has lost its supervisor for good if and only if a spawn of its registered relay failed. |
| RelayConvergence.PassLeavesDead | portal/program_relay.py:180-196 | A pass that finds a dead room listed as wanted makes no call for it, fails or not, and leaves it dead under every scheduling. |
| RelayConvergence.PassesLeaveDead | portal/program_relay.py:165-208 | So do any number of passes with the same wish. |
| RelayConvergence.GoalWithoutProcess | portal/program_relay.py:165-208 | From the start of the service a run exists after which the registry is at the goal, a pass has nothing to call, and no process exists at all. |
| ProgramIngest.OneTransport | portal/program_ingest.py:187-196 | Two credentials accepted by one room at one time use the same transport; over RTMPS both are the encoder key. |
| ProgramIngest.ChangeRevokesOld | portal/program_ingest.py:443-454 | After any change of source or credential, and after the first transaction of a revocation, no earlier secret opens the floor. |
| ProgramIngest.NewSecretOpens | portal/program_ingest.py:452-459 | The new secret opens the floor exactly if one was minted, unexpired, over the transport of the room's mode, which only enabling chooses. |
| ProgramIngest.SenderSecretOpens | portal/program_ingest.py:482-539 | After a browser sender opened, WebRTC alone opens the floor, with its secret or the key the room already had. |
| FloorProtocol.SenderEndsExactly | portal/program_ingest.py:482-562 | A sender's secret stops being the room's in a step if and only if the step is a change of source or credential, a sender with another secret, the room's deletion or a close that presents this secret. |
| FloorProtocol.SenderIsBound | portal/program_ingest.py:542-562 | On every run nothing else ends it: no delayed or foreign close, publisher, reconciliation or crash. |
| ProgramIngest.SecondStartIsRefused | portal/program_ingest.py:495-510 | A second sender start is refused exactly within 15 seconds or while a source publishes. |
| ProgramIngest.ConnectedExactly | portal/program_ingest.py:620-627 | A floor counts as connected exactly while the reserved session itself publishes a readable path; a foreign source never does. |
| ProgramIngest.SilenceEnds | portal/program_ingest.py:624-648 | A floor found silent keeps its reservation until a grace period after the first silent look, and then loses it with nothing left that counts as recent. |
| ProgramIngest.ReservationEnds | portal/program_ingest.py:624-648 | A reservation that never connects is given up exactly a grace period after it began, unless a disconnect fails. |
| ProgramIngest.FloorRecord.BeginPublish | portal/program_ingest.py:281-311 | First phase of an authorisation in place: exactly who proceeds, and when a stale reservation is dropped. |
| ProgramIngest.FloorRecord.ConfigureSource | portal/routers/program_ingest.py:161-206 | Which source or credential changes are refused, and the row and health after the others. |
| ProgramIngest.FloorRecord.OpenSenderSession | portal/program_ingest.py:490-539 | Exactly when a sender start is refused, and the row and health it leaves. |
| ProgramIngest.FloorRecord.CloseSenderSession | portal/program_ingest.py:548-562 | The row and health after a close, a failed disconnect included. |
| ProgramIngest.FloorRecord.ReconcileRoom | portal/program_ingest.py:614-651 | The row and health after one reconciliation, for every observation and failed disconnect. |
| FloorProtocol.StepKeepsInv | portal/program_ingest.py:266-334 | Every step of any authorisation, takeover, revocation, close, reconciliation, deletion or crash keeps the locks, counts and clocks consistent. |
| FloorProtocol.ReachableInv | portal/program_ingest.py:266-334 | That invariant holds along every interleaving. |
| FloorProtocol.CapacityHolds | portal/program_ingest.py:315-330 | On every run the rooms with a session never exceed program_ingest_max_rooms, and every such room takes program ingest. |
| FloorProtocol.NoHandover | portal/program_ingest.py:310-330 | No step takes a room from one session to a different one. |
| FloorProtocol.ReleasedInBetween | portal/program_ingest.py:266-334 | Between two different sessions of a room there is a state on the run in which it has none. |
| FloorProtocol.EndsExactly | portal/program_ingest.py:296-311 | A reservation ends in a step if and only if the step is one of seven kinds under its stated condition. |
| FloorProtocol.AdmissionIsPermitted | portal/program_ingest.py:278-330 | A reservation appears only by the second phase's write, in a portal that takes ingest, in a room with no session and a free place, for a credential permitted over its transport. |
| FloorProtocol.SecondCheckIsDead | portal/program_ingest.py:317-320 | The second phase's conflict check never fires; only expiry or deletion can still refuse there, judged at that moment. |
| FloorProtocol.AdmittedExactly | portal/program_ingest.py:315-334 | An undisturbed second phase ends with the session if and only if it was already the room's, or the credential is still good and the count is below the limit. |
| FloorProtocol.SecondPhaseExactly | portal/program_ingest.py:315-334 | An undisturbed second phase, as one transaction: when it admits, and the whole state it leaves either way. |
| FloorProtocol.AnsweredExactly | portal/program_ingest.py:285-330 | A request with nothing in its way is admitted if and only if ingest is on, the credential is good at both looks, the room is free, its own or stale, and the other rooms leave a place. |
| FloorProtocol.AnswerKeepsOthers | portal/program_ingest.py:266-334 | Its answer leaves no lock, call or capacity lock behind and no other room changed. |
| FloorProtocol.AnswerSettles | portal/program_ingest.py:294-334 | Admitted, the room has the session and a reservation that starts now; refused, it is as it was, or a stale reservation is gone. |
| FloorProtocol.RivalWaitsExactly | portal/program_ingest.py:291-334 | After an admission another session's authorisation of the room changes nothing for five seconds, whatever path it sees; from then on it takes the room if and only if the path has no source. |
| FloorProtocol.AdmissionIsSafe | portal/program_ingest.py:266-334 | On every run no other publisher takes the room within five seconds of its admission, however many try. |
| FloorProtocol.GraceIsRespected | portal/program_ingest.py:614-647 | The reconciler ends no reservation earlier than the grace period after the room was last admitted, opened or seen connected. |
| FloorProtocol.GoodMoments | portal/program_ingest.py:618-650 | The moments the grace period counts from are exactly an admission, an opened sender and a look that sees the room's own session publish. |
| FloorProtocol.BrokenOff | portal/program_ingest.py:266-334 | An authorisation that raises, is cancelled or finds its room deleted gives up its locks and changes nothing else. |
| FloorProtocol.RoomsComeAndGo | portal/program_ingest.py:266-334 | A new room has no ingest, credential, session or health record; a dropped record leaves its row; a deleted room is gone. |
| FloorProtocol.NoDeadlock | portal/program_ingest.py:266-334 | While an authorisation is in flight, some authorisation can take its next step. |
| FloorProtocol.RestartMeaning | portal/program_ingest.py:266-334 | A restarted portal keeps every row and has no health record, lock or call. |
| RateLimit.Rates.EvictExpired | portal/rate_limit.py:24-39 | The sweep removes exactly the entries without a hit left in their window. |
| RateLimit.Rates.CheckRateLimit | portal/rate_limit.py:42-67 | The in-place check is the check on values: same store, same answer. |
| RateLimit.InMemoryRateLimiter.IsRateLimited | portal/rate_limit.py:90-111 | The same check with the limiter's own limit and window, answered the other way round. |
| RateLimit.SameAnswers | portal/rate_limit.py:24-67 | For a clock that never runs back and keys whose positive window never grows, every run is answered as if every allowed hit were remembered: filtering and sweeping change no decision. |
| RateLimit.AtMostMaxPerWindow | portal/rate_limit.py:42-67 | Of any max + 1 hits of a key that the limiter lets through, the last comes at least a window after the first, if that key is used with one window and at most that limit, whatever other keys do. |
| RateLimit.CleanupExactly | portal/rate_limit.py:111-121 | An explicit cleanup keeps exactly the entries hit within their window, untouched. |
| RateLimit.SweepIsTight | portal/rate_limit.py:24-39 | What a sweep keeps could still count. |
| RateLimit.SweptInTime | portal/rate_limit.py:42-53 | No hit finds the last sweep a minute old: it sweeps first then, and otherwise leaves every other entry alone. |
| RateLimit.WindowsExactly | portal/rate_limit.py:53-67 | A key that turns from window w to window v is answered as the full log would on every such run if and only if v is no wider than w or not positive. |
| RateLimit.GrowingWindowForgets | portal/rate_limit.py:53-67 | For every w below a positive v there is a run that lets a hit through which the full log refuses. |
| JoinCodeLimit.JoinCodeTable.PurgeExpired | portal/join_code_limit.py:37-43 | The early-stopping loop, in place. |
| JoinCodeLimit.JoinCodeTable.VerifyJoinCode | portal/join_code_limit.py:46-68 | The whole call in place: same table and same outcome as the function on values. |
| JoinCodeLimit.PurgeIsExact | portal/join_code_limit.py:37-43 | On an ordered table the purge removes exactly the expired windows. |
| JoinCodeLimit.VerifyKeepsInv | portal/join_code_limit.py:46-68 | Windows stay ordered by start, clients distinct, counts within 1 to 10 and the table within MAX_CLIENTS. |
| JoinCodeLimit.RetryIsSufficient | portal/join_code_limit.py:60-61 | retry_after lies in 1 to 60 and is the least whole number of seconds after which the window is over. |
| JoinCodeLimit.AnswerExactly | portal/join_code_limit.py:46-68 | Right is answered exactly for the expected code itself from a client that is not throttled, throttled exactly after ten failures in an open window. |
| JoinCodeLimit.RecordsExactly | portal/join_code_limit.py:46-68 | Only a wrong guess is recorded, as one more failure in the client's window; a right or throttled one leaves the purged table. |
| JoinCodeLimit.AnsweredFromOwnHistory | portal/join_code_limit.py:46-68 | As long as its window is not evicted, a client is answered on every run from its own calls alone. |
| JoinCodeLimit.TableIsOwn | portal/join_code_limit.py:46-68 | On such a run the table also records of a client exactly what its own calls alone would. |
| JoinCodeLimit.FewOthersNeverEvict | portal/join_code_limit.py:37-68 | A client is never evicted while fewer than MAX_CLIENTS other clients submit a wrong code within any window's length. |
| JoinCodeLimit.ManyOthersEvict | portal/join_code_limit.py:63-68 | MAX_CLIENTS others at one moment do evict a client that failed at that very moment: the bound is exact. |
| JoinCodeLimit.TenPerWindow | portal/join_code_limit.py:46-68 | On every run of the table that does not evict a client, the failures it records for the client lie in their windows, windows do not overlap, the first failure of a window opens it, and of any eleven the last is in a later window. |
| JoinCodeLimit.AtMostNineteenPerMinute | portal/join_code_limit.py:46-68 | On every such run any twenty consecutive failures the table records for a client span at least sixty seconds: a half-open minute holds at most nineteen. |
| JoinCodeLimit.NineteenAtOnce | portal/join_code_limit.py:46-68 | A run of the table reaches nineteen, within any positive span: nine failures at the end of a window, ten at the start of the next. |
| RoomSetup.RoomRecord.ApplyPlan | portal/room_setup.py:442-500 | The in-place application leaves fields, booths and rows as the function on values and reports what it added, removed and kept. |
| RoomSetup.RoomRecord.ChangeBooths | portal/room_setup.py:457-475 | The booth loop: removed, kept and added booths and the resulting list. |
| RoomSetup.RoomRecord.SyncTranslationLanguages | portal/room_setup.py:508-527 | Both loops over the translation rows. |
| RoomSetup.RoomRecord.LoadSnapshot | portal/room_setup.py:309-339 | The loop that reads the stored room back as a plan. |
| RoomSetup.FormIsOrdered | portal/room_setup.py:309-325 | The form lists the booths first, by language code, then the languages left to the AI. |
| RoomSetup.SyncedRowsMembers | portal/room_setup.py:508-527 | After a sync exactly the wanted codes are enabled, and voice belongs to exactly the voice codes. |
| RoomSetup.BoothsAfter | portal/room_setup.py:457-475 | A booth exists afterwards if and only if the plan wants it or it is an existing live one. |
| RoomSetup.LiveBoothsStay | portal/room_setup.py:463-470 | A live booth is never removed. |
| RoomSetup.RoundTrip | portal/room_setup.py:309-500 | Reading an applied plan back gives its name and deliveries, Interpreter on exactly the live booths the plan does not want; captions and spoken language come back exactly under the stated conditions. |
| RoomSetup.EnginesComeBack | portal/room_setup.py:303-306 | A used engine the event offers comes back; a model chosen for the same provider stays, and a changed provider brings the catalogue's model. |
| RoomSetup.OpensExactly | portal/room_setup.py:303-339 | A form opens with the stored provider if it is still offered and else with the first one offered, and with AI languages only if translation is on. |
| RoomSetup.UnusedEnginesStay | portal/room_setup.py:474-497 | A service the plan has no use for keeps its engine; captions and speech are on exactly when the plan needs them. |
| RoomSetup.ApplyingAgainIsIdle | portal/room_setup.py:442-500 | Applying the same plan again adds, removes and changes nothing. |
| RoomSetup.ReapplyingWhatIsThere | portal/room_setup.py:309-500 | Applying the plan the form of a room opens with changes no delivery, whichever booths are live. |
| RoomSetup.AppliedIsProper | portal/room_setup.py:442-527 | A plan that names each language once leaves one booth and one row per language. |
| Outbox.OutboxTable.QueueNotification | portal/notifications.py:239-272 | Queues the message, or returns the row that already has its idempotency key. |
| Outbox.OutboxTable.ClaimDelivery | portal/notifications.py:282-312 | Returns lapsed claims, expires overdue messages and claims the first due one that no other transaction has locked, or none exactly if there is none. |
| Outbox.OutboxTable.BeginSend | portal/notifications.py:315-347 | The first transaction of a send and whether the message goes out. |
| Outbox.OutboxTable.RecordFailure | portal/notifications.py:375-388 | A failed attempt on one row, in place. |
| Outbox.OutboxTable.PurgeOldContent | portal/notifications.py:391-404 | Erases the content of exactly the finished rows past retention and counts them. |
| Outbox.Perform | portal/notifications.py:239-404 | Any transaction on the table in place refines the step that the runs and invariants are made of. |
| Outbox.StepKeepsInv | portal/notifications.py:282-388 | Every transaction by any worker, stale ones included, keeps each row's attempts in step with its requeues and lapsed claims. |
| Outbox.AttemptsAreBounded | portal/notifications.py:375-388 | On every run a message is requeued after failure at most 3 times and tried at most 4 times plus its lapsed claims. |
| Outbox.FinishedIsForGood | portal/notifications.py:40-41 | accepted, failed, expired, suppressed and disabled are absorbing on every run. |
| Outbox.ClaimedInTime | portal/notifications.py:296-312 | An attempt begins only by a claim, not before scheduled_at, before expires_at, for the first due message that is not locked. |
| Outbox.ClaimMeaning | portal/notifications.py:282-312 | A claim takes the first of the unlocked messages that wait, lapsed ones included, and gives it two minutes and one more attempt. |
| Outbox.LapsedIsGivenBack | portal/notifications.py:285-295 | A lapsed claim makes its message pending again, or expired, with its attempts and schedule; an open claim is left alone. |
| Outbox.WorkMeaning | portal/notifications.py:315-388 | What the first look, a missing mail server, a success and a failure make of a message being sent; all others are left alone. |
| Outbox.AcceptedIsNotSentAgain | portal/notifications.py:366-372 | A message that went out is accepted, and no later step of any run claims it. |
| Outbox.PurgeMeaning | portal/notifications.py:391-404 | A purge erases the content of exactly the finished messages more than thirty days old and changes nothing else. |
| Outbox.RetryDelays | portal/notifications.py:382-388 | A failed attempt is retried exactly up to the third, after 15, 30 and 60 seconds; the 300 second cap is never reached. |
| Outbox.ContentIsThere | portal/notifications.py:326-347 | A message still to be sent never lost its content, so the erased-content branch is dead. |
| Outbox.QueuedOnce | portal/notifications.py:250-254 | Queueing one idempotency key twice leaves one row. |
| MeetingSource.AgentHealth.Recover | portal/meeting_source.py:308-333 | The bounded restart policy in place, failed starts included. |
| MeetingSource.AgentHealth.ReconcileRoom | portal/meeting_source.py:336-431 | One look at the agent in place, for every observation and outcome of the calls it makes. |
| MeetingSource.StepKeepsInv | portal/meeting_source.py:308-431 | restarts stays within the limit, a scheduled restart has budget left and its backoff from the moment it was scheduled. |
| MeetingSource.ReachableInv | portal/meeting_source.py:308-431 | That holds on every run of looks, connects and portal restarts. |
| MeetingSource.BudgetHolds | portal/meeting_source.py:318-330 | Between two refills the budget pays for at most limit starts, even if every call fails, and restarts counts them exactly. |
| MeetingSource.RestartsWait | portal/meeting_source.py:324-331 | A restart comes at least its backoff after it was scheduled and after the restart before it. |
| MeetingSource.PaysExactly | portal/meeting_source.py:318-332 | A scheduled restart is made at the first look from its time on that can stop the worker, and at no other, unless the URL changed; a working one stores the URL. |
| MeetingSource.SchedulesExactly | portal/meeting_source.py:318-326 | A restart is scheduled exactly when the agent is gone or silent for the whole limit, the worker can be stopped and the budget has one left, for its backoff from now. |
| MeetingSource.MissingIsRestarted | portal/meeting_source.py:308-333 | An agent found missing is started at the next look after the backoff. |
| MeetingSource.RefillIsEarned | portal/meeting_source.py:343-358 | A look refills the budget only after a successful start for a changed URL, or after 60 seconds of processing without the worker having been stopped. |
| MeetingSource.UrlStartExactly | portal/meeting_source.py:343-358 | A start outside the budget happens in a look if and only if the agent joined another URL and the worker could be stopped; it pays nothing, and a failing one refills nothing. |
| MeetingSource.AllStartsBounded | portal/meeting_source.py:318-358 | Between two refills all starts together are at most limit if and only if the looks for a changed URL fit in what the budget leaves. |
| MeetingSource.UrlStartsAreUnbounded | portal/meeting_source.py:343-358 | For every n there is a run of n looks, one each reconciliation interval, with n starts and no budget spent. |
| MeetingOutcomes.WaitsOfBudget | portal/meeting_source.py:42-42 | The waits of one budget are 2, 5, 10, 20 and then 30 seconds. |
| MeetingOutcomes.RejoinMeaning | portal/meeting_source.py:343-358 | An agent in another meeting is sent to the right one with a fresh budget, as far as the calls work. |
| MeetingOutcomes.LossMeaning | portal/meeting_source.py:308-376 | What is forgotten and which failure is noted when the agent is gone or a restart is pending. |
| MeetingOutcomes.PassageMeaning | portal/meeting_source.py:377-387 | On its way into the meeting only the meeting is noted; on its way out the worker is stopped. |
| MeetingOutcomes.AttendMeaning | portal/meeting_source.py:383-404 | In the meeting the bytes are the progress, and the worker is run exactly after the first progress and without a pipeline problem. |
| MeetingOutcomes.WorkerMeaning | portal/meeting_source.py:405-431 | The worker has the room's settings, is started anew when they change, stopped after the stall time without audio; sixty seconds of hearing refill the budget. |
| MeetingOutcomes.SilenceMeaning | portal/meeting_source.py:390-401 | A meeting without audio for the whole limit loses its worker and counts as down. |
| Webhooks.WebhookTable.PruneDuplicates | portal/routers/webhooks.py:134-141 | The loop re-points each duplicate's deliveries before deleting it: none is lost. |
| Webhooks.WebhookTable.CreateWebhook | portal/routers/webhooks.py:68-207 | The whole upsert in place: same store and answer as the function on values. |
| Webhooks.OneSubscription | portal/routers/webhooks.py:98-187 | After a call that was not refused the URL has exactly one subscription of the account, active, with the asked events, its old secret and no failures counted; all others are as before. |
| Webhooks.DeliveriesAreKept | portal/routers/webhooks.py:134-141 | Of the deliveries there at the call none is lost; those of a duplicate go to the survivor, all others stay. |
| Webhooks.EventIsQueuedExactly | portal/webhooks/worker.py:22-45 | The deliveries of an event are inserted all or none: an event whose subscriptions were read before any run is queued whole if and only if no step of that run deletes or prunes one of them. |
| WebhookRace.StepKeepsInv | portal/routers/webhooks.py:98-152 | Every statement of a pruning update and every read, flush and commit of any event keeps where each delivery points and which flushes fail. |
| WebhookRace.DeliveryIsLostExactly | portal/webhooks/worker.py:22-45 | On every interleaving a delivery of an event is lost if and only if some subscription of its event was deleted before the flush, or its own was re-pointed and not yet deleted when the event committed; a kept one points to the survivor or where it was queued. |
| WebhookRace.OldDeliveriesAreKept | portal/routers/webhooks.py:134-141 | Whatever events run meanwhile, the deliveries the update found end where the update on values puts them. |
| WebhookRace.RaceIsUpdate | portal/routers/webhooks.py:128-152 | The statements leave the subscriptions as the update on values says, and no delivery without its subscription. |
| WebhookRace.UpdateExists | portal/routers/webhooks.py:98-128 | Every request for a URL that has a subscription is such an update, whatever the table holds. |
| WebhookRace.RaceMoves | portal/routers/webhooks.py:98-152 | The update and the events never wait for each other in a circle: until all have ended one can take its next step. |
| WebhookRace.RaceEnds | portal/routers/webhooks.py:98-152 | From every reachable state there is a run, reading no further event, to one in which the update is committed and every event committed or failed. |
| WebhookRace.BystanderIsLost | portal/webhooks/worker.py:22-45 | The first way of losing one happens, to a delivery for a subscription the update has nothing to do with. |
| WebhookRace.LatecomerIsLost | portal/routers/webhooks.py:134-141 | The second way happens too. |
| Webhooks.ProjectedIsExact | portal/routers/webhooks.py:111-125 | The projected count of the reactivation check is what the account has afterwards. |
| Webhooks.RefusedExactly | portal/routers/webhooks.py:111-175 | Within the quota, a call is refused if and only if it would leave the account above it. |
| Webhooks.DeactivatedFrees | portal/webhooks/worker.py:107-131 | A deactivated subscription frees one place of its account and of no other. |
| Webhooks.RepeatIsIdle | portal/routers/webhooks.py:86-162 | Repeating a request changes nothing and names the same subscription. |
| Webhooks.StepKeepsInv | portal/routers/webhooks.py:68-262 | Creating, deleting, deactivating and queueing keep every account within its quota and every delivery with an existing subscription. |
| Webhooks.ReachableInv | portal/routers/webhooks.py:68-262 | That holds on every run, and a run that starts without duplicates never has any. |
| BoothState.Booth.RefreshIngestStatus | portal/booth_state.py:97-101 | The aggregate status becomes connected exactly if some participant publishes. |
| BoothState.Booth.AnyPublishing | portal/booth_state.py:98-100 | The loop finds whether some participant publishes. |
| BoothState.Booth.AnyoneElseLive | portal/booth_state.py:399-404 | The loop finds whether somebody other than the requester can go live. |
| BoothState.Booth.ClearFlags | portal/booth_state.py:365-371 | The loop takes everyone but the new holder off air and changes nothing else. |
| Outbox.OutboxTable.NextDue | portal/notifications.py:296-306 | The due unlocked message with the earliest schedule, the older of two at the same time; none exactly if none is due and unlocked. |
| Outbox.OutboxTable.DisableDelivery | portal/notifications.py:348-355 | Without SMTP a message being sent is retained as disabled; any other is left alone. |
| Outbox.OutboxTable.AcceptDelivery | portal/notifications.py:366-372 | A message being sent becomes accepted; any other, such as one a stale worker still holds, is left alone. |
| MeetingSource.AgentHealth.StopWorker | portal/meeting_source.py:301-305 | The worker fields are forgotten only after a successful stop. |
| MeetingSource.AgentHealth.Rejoin | portal/meeting_source.py:343-356 | The path for a changed URL in place, failed calls included. |
| MeetingSource.AgentHealth.Attend | portal/meeting_source.py:377-401 | In the meeting: progress, the missing-audio restart and the pipeline check, in place. |
| MeetingSource.AgentHealth.Transcribe | portal/meeting_source.py:402-431 | The worker's upkeep and the stability timer, in place. |
| ProgramRelay.RelayControl.StopOrphans | portal/program_relay.py:180-186 | The loop stops exactly the listed rooms that no longer qualify, as far as the calls get through. |
| ProgramRelay.RelayControl.StartWanted | portal/program_relay.py:188-206 | The loop over the order: listing, health of every room and the start calls made, each with its answer. |
| RateLimit.InMemoryRateLimiter.DoCleanup | portal/rate_limit.py:111-121 | An explicit cleanup is a sweep. |
| RelayService.RelayManager.StopRelay | program-relay/relay.py:263-266 | Marks the relay stopped and terminates the process it knows. |
| Webhooks.WebhookTable.DeleteRow | portal/routers/webhooks.py:232-248 | Deleting a subscription takes the deliveries that still point at it along. |

## Left out

- BoothState.Booth.Perform: the registry's dictionary of booths and the sharing of one booth object between callers are modelled on values (`BoothSpec.Called`), so aliasing between booths is not captured.
- BoothSpec.StepKeepsInv: the registry's snapshots, public dictionaries and listing calls only read and are not modelled; of timestamps nothing is kept.
- BoothIdentity.ParseMeaning: trimming and lower-casing cover ASCII only, and the table of ISO 639-1 codes is a parameter; other Unicode spaces and letters are not modelled.
- BoothPublish.TicketStore.RedeemTicket: tickets are stored under the secret itself instead of its SHA-256 digest, that is, the digest is taken to be injective.
- RelayService.OneProcessPerRoom: the bounded join is taken to complete and a terminated process to die; progress parsing, stall detection and the texts of relay health are inputs or left out.
- RelayService.RelayManager.EnsureRelay: the 400 answers for malformed relay IDs, sources, fingerprints and destinations are not modelled; relays are numbered objects rather than references.
- ProgramRelay.RelayControl.Sync: the health texts reported by the service are one value `Reported`, and a keyed fingerprint is taken to tell two targets apart (`DigestTells`).
- FloorProtocol.StepKeepsInv: rooms, calls and locks are values, not heap objects; what one room's operations do in place is in `ProgramIngest.FloorRecord`. A new room's id is taken to differ from every id a call in flight names.
- ProgramIngest.FloorRecord.ReconcileRoom: transcription workers, connection times and health texts are left out; bot-mode RTSP publishing reserves nothing and is not a step.
- ProgramIngest.FloorRecord.BeginPublish: extraction of the presented secret, key derivation and the per-address failure counter are left out; a digest stands for its secret.
- RateLimit.SameAnswers: the clock is read before the lock is taken, so between two threads it can run back in the order of the lock; runs on which it does are not covered.
- RateLimit.Rates.CheckRateLimit: the login limiter of the external UniLimit library is not part of this model.
- JoinCodeLimit.JoinCodeTable.VerifyJoinCode: grouping of IPv6 clients by /64 network is left out; a key stands for a client.
- RoomSetup.ReapplyingWhatIsThere: what a browser does to the opened form is left out: `parse_plan` refuses a room that keeps a dual delivery until one of the two is chosen, and drops an AI language equal to the spoken one.
- RoomSetup.RoundTrip: form parsing and its validation are left out; a plan names each language once, as the form guarantees.
- Outbox.OutboxTable.QueueNotification: rendering and encryption are left out, and a queued message is taken to have a non-empty subject and body; each database transaction is one step.
- MeetingSource.AgentHealth.ReconcileRoom: the displayed state and reason, URL validation and the stale-agent sweep are left out.
- RelayConvergence.PassOverService: a call whose answer is lost takes effect before the portal's next call; one that takes effect later is not modelled.
- Webhooks.WebhookTable.CreateWebhook: URL and address validation, audit rows and the order of event types are left out; the row lock on the developer account is taken to make a call one step for everything but queued events (`WebhookRace`).
- WebhookRace.DeliveryIsLostExactly: the update is taken to commit, a flush checks all its rows at once, and two transactions that wait for each other are not modelled; SQLite, which has one writer at a time, allows fewer interleavings.
- HTTP routing, templates, WebSocket transport, authentication tokens, migrations and the transcription pipeline are plumbing around these cores.
- Last event owner, and "locked means disconnected", are not invariants of the code: team endpoints of `portal/routers/admin.py` bypass the guard, and `update_participant_state` does not look at the lock, so only the lock step promises it (`LockingStopsEveryone`).
