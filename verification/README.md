# Realtime calls, streams and subscriptions: a verified model

This project models the stateful parts of a TypeScript realtime library and
proves what they promise.

- **Shared call state** (`CallStateStore`, `CallStoreRuns`, `CallStoreEffects`,
  `RedisStore`, `RedisKeyspace`, `StoreRefinement`). The store that call nodes share exists
  twice, as maps in memory and as Lua scripts over Redis hashes, sets and
  strings. Each is a class; the in-memory one is proved against functions on
  its abstract value, the Redis one against relations between databases, and
  the second refines the first over whole timed runs. Redis keys are structured
  there; every write is a command, and commands do the same on the key strings
  as long as no two call ids collide.
- **Call lifecycle** (`CallLifecycle`, `CallLifecycleRuns`,
  `CallLifecycleEffects`, `CallLifecycleNotices`, `CallLifecycleOutcomes`,
  `CallLifecycleSeats`, `CallService`). One node without a shared store: entering by invite, accept,
  join and rejoin, leaving by a terminal verb, a disconnect, an expired grace or
  a forget. `Mark` is what the hooks hear; `OpenedSilently` stands for the join
  that makes a call accepted unheard.
- **The accept marker** (`AcceptOnce`, `AcceptOnceNotices`). Any number of
  nodes over one store, interleaved at every await of an end announcement.
- **Shared socket transport** (`SharedTransport`, `SharedTransportRuns`,
  `SharedTransportAgreement`, `SharedTransportLedger`,
  `SharedSocketTransport`). Reference-counted
  channel holds, deferred flushes, epochs and two adapters, against a server
  that reads the frames of the current session.
- **Live refresh** (`LiveRefresh`, `LiveRefreshRuns`, `LiveRefreshLaws`,
  `LiveRefreshLoop`). Polls, hints, backoff and visibility of a client-side
  refresh loop.
- **Agent streams** (`AgentEmitter`, `AgentEmitterReference`,
  `AgentMiddleware`, `AgentMiddlewareScript`, `SseFraming`, `AgentReducer`,
  `AgentReducerLaws`, `AgentEndToEnd`, `AgentStreamHost`, `AgentStreamClient`).
  From a handler's calls to the messages the client shows.
- **Names and saving** (`Segments`, `DmNames`, `DmNameLaws`, `DmAdmission`,
  `Outbox`, `OutboxLedger`, `GatewayProvider`).

Where the source updates something in place the model is a class with the
source's fields and loops, and each method is proved to take its contents one
step of a function. What each function does to every entity is stated by
guards and ledgers of its own, read off the state it meets or off the events
alone; the other properties are lemmas about runs.
Loops over JavaScript sets and maps take their elements in any order; where
the order shows, it is a parameter of the step.

Where comments and code disagree the code is modelled:

- The comment on the end announcement (src/call/CallService.ts:730-743) says it
  fires once for a call that is over. It does for a call entered by invite or
  accept. A call entered by `join` is marked accepted without a start notice,
  so its end is announced without a start: this happens exactly when an event
  ends a call that a join opened. And with a shared store one node can report a
  call as missed that another announced as ended, also when somebody accepted
  and talked: exactly when, beside the announced end, a node settles an invite
  it did not accept itself without the marker. Both have their concrete run.
- The client reads one event per `data:` line. The WHATWG HTML Standard,
  section 9.2.6, dispatches per blank line and joins consecutive `data:` lines;
  the server never writes two in one event, so the two agree here.
- `dmLobbyAdmits` and `shouldKnockToJoin` are documented as two sides of one
  rule. Under a tenant prefix they part only for a DM with yourself. Under any
  other prefix that `dmLobbyName` accepts the search for the kind segment ends
  elsewhere: a prefix without its last colon hides the name's own `dm`, and a
  `room`, `dmg` or `dm` segment inside it takes over. The exact condition is a
  lemma.
- The header of src/client/sharedSocketTransport.ts says the last release sends
  the unsubscribe. A flush while the gate is shut sends none, and the server
  keeps the channel.

## Model

| member | source | states |
|---|---|---|
| CallStateStore.InMemoryCallStateStore.ClaimAcceptedSeat | src/call/CallStateStore.ts:253-272 | The claim over the live maps is exactly `Claim`: refused outside the call's lobby or while a live seat of the same user blocks it, otherwise the seat moves and all indexes follow. |
| CallStateStore.InMemoryCallStateStore.ResumeParticipant | src/call/CallStateStore.ts:285-309 | The resume, with its loop over departed clients, is exactly `Resume`, including the marker it renews and the lobby index it fills. |
| CallStateStore.InMemoryCallStateStore.ForgetCallIfUnchanged | src/call/CallStateStore.ts:311-326 | The conditional forget, with its duplicate, size and inclusion checks and its index loop, is exactly `ForgetIfUnchanged`. |
| CallStateStore.InMemoryCallStateStore.RegisterParticipant | src/call/CallStateStore.ts:328-338 | First writer sets the call's metadata; the client joins roster and index. |
| CallStateStore.InMemoryCallStateStore.RemoveParticipant | src/call/CallStateStore.ts:340-351 | Roster and index lose the client, an empty call goes, and the reply counts who is left (none for an unknown call). |
| CallStateStore.InMemoryCallStateStore.ForgetCall | src/call/CallStateStore.ts:445-456 | The call and every index entry naming it go; the accept marker stays. |
| CallStateStore.InMemoryCallStateStore.WriteCall | src/call/CallStateStore.ts:538-569 | The whole-state write overlays non-empty metadata and only ever adds participants. |
| CallStateStore.InMemoryCallStateStore.MarkCallAccepted | src/call/CallStateStore.ts:496-502 | Only the first accept while no marker is live sets it and answers yes. |
| CallStateStore.InMemoryCallStateStore.TakeCallAccepted | src/call/CallStateStore.ts:513-517 | The marker always goes; the answer says whether it was live. |
| CallStoreRuns.RunKeepsIndex | src/call/CallStateStore.ts:253-351 | In every run of all twelve operations a client is on a call's roster exactly when its index names the call, with no empty index entry. |
| CallStoreRuns.EmptyRosterOnlyFromSetCall | src/call/CallStateStore.ts:538-569 | The exact step that stores a call nobody is in: a whole-state write of an unknown call with an empty participant list; no other step can. |
| CallStoreRuns.OneSeatPerPerson | src/call/CallStateStore.ts:253-309 | In every run at most one current participant of a call got in by claim or resume for a given user, and it is the one recorded as that user's seat. |
| CallStoreRuns.ForgetIsCompareAndDelete | src/call/CallStateStore.ts:311-326 | The conditional forget succeeds if and only if caller, lobby, invite time and roster as a set equal the snapshot; failure changes nothing. |
| CallStoreRuns.ForgetLeavesNoTrace | src/call/CallStateStore.ts:311-326 | Success removes the call from every client's index and the marker, and touches no other call. |
| CallStoreRuns.ForgetSucceedsExactlyOnSameCall | src/call/CallStateStore.ts:311-326 | Whatever runs between reading the snapshot and the forget: it succeeds if and only if the call still stands with the same caller, lobby, invite time and roster, and otherwise changes nothing. |
| CallStoreRuns.OtherCallsDoNotDisturbForget | src/call/CallStateStore.ts:311-326 | A forget after any run of operations on other calls still succeeds. |
| CallStoreRuns.MissedParticipantSurvivesForget | src/call/CallStateStore.ts:311-326 | A participant the snapshot missed survives the forget, after every run in which nothing takes that participant out of the call. |
| CallStoreEffects.ForgottenIsGone | src/call/CallStateStore.ts:445-456 | From agreeing indexes, a forget takes the call out of the store and out of every client's index, leaves every other call, every marker and the discovery indexes as they were, and changes nothing for an unknown call. |
| CallStoreEffects.InCallExactlyWhen | src/call/CallStateStore.ts:253-351 | For every operation: who is in a call afterwards is who joined by it, and who was in it and did not leave by it. |
| CallStoreEffects.CallStandsExactlyWhen | src/call/CallStateStore.ts:311-351 | For every operation: a call is stored afterwards if and only if it was created, or was there and did not go: by a forget, a matching conditional forget, or the removal of its last participant. |
| CallStoreEffects.RecordedExactly | src/call/CallStateStore.ts:538-569 | For every operation: what is recorded of a stored call, caller, lobby, targets, invite times, earlier lobby and seats, for a call that was there and for a new one. |
| CallStoreEffects.MarkerExactly | src/call/CallStateStore.ts:496-517 | For every operation: when a call's accept marker expires, renewed by an accept or a resume that finds it live, gone by a take or a successful conditional forget. |
| CallStoreEffects.DiscoveryExactly | src/call/CallStateStore.ts:253-309 | The lists of calls per user and per lobby only grow, by taken seats and plain registration. |
| CallStoreEffects.AnswersExactly | src/call/CallStateStore.ts:253-351 | What each operation answers: a claim or resume whether it took the seat, a refused claim who holds it, a removal how many are left, the marker operations whether it was live. |
| RedisStore.KeysCollideOnlyOnRosterSuffix | src/call/CallStateStore.ts:714-719 | Two different Redis keys are the same string in one case only: a call whose id is another call's id with `:participants` after it. |
| RedisKeyspace.StringsFollowExactlyWhenApart | src/call/CallStateStore.ts:714-719 | On the key strings every sequence of the store's commands over given call ids does what it does on the structured keys if and only if no such id is another's with `:participants` after it. |
| RedisKeyspace.ForgettingOneDeletesTheOther | src/call/CallStateStore.ts:711-712 | Where two ids do collide: forgetting the one deletes the other's hash. |
| RedisKeyspace.StoreRunsOnStrings | src/call/CallStateStore.ts:714-729 | Every state the store's methods reach is mirrored key by key on the strings by the same commands. |
| RedisStore.TimePasses | src/call/CallStateStore.ts:496-517 | Markers lapse alike on both sides, so correspondence holds at every later clock reading. |
| RedisStore.RedisCallStateStore.ClaimAcceptedSeat | src/call/CallStateStore.ts:655-671 | The claim script, command by command, produces exactly the reply and the database `ClaimRan` describes. |
| RedisStore.RedisCallStateStore.ResumeParticipant | src/call/CallStateStore.ts:673-697 | The resume script with its decoded list of departed clients produces exactly what `ResumeRan` describes. |
| RedisStore.RedisCallStateStore.ForgetCallIfUnchanged | src/call/CallStateStore.ts:699-755 | The duplicate check and the script produce exactly what `ForgetRan` describes. |
| RedisStore.RedisCallStateStore.RegisterParticipant | src/call/CallStateStore.ts:757-783 | Channel creation, the three only-if-absent field writes and the two set additions, run as one step. |
| RedisStore.RedisCallStateStore.RemoveParticipant | src/call/CallStateStore.ts:828-863 | The removal and its re-check, run as one step; a call stored with an empty caller reads as no call. |
| RedisStore.RedisCallStateStore.MarkAccepted | src/call/CallStateStore.ts:1129-1131 | Set-if-absent with expiry. |
| RedisStore.RedisCallStateStore.TakeAccepted | src/call/CallStateStore.ts:1143-1148 | Deleting the marker tells whether it existed. |
| StoreRefinement.ClaimRefines | src/call/CallStateStore.ts:655-671 | From corresponding states the claim script answers as the in-memory claim and leaves corresponding states. |
| StoreRefinement.ResumeRefines | src/call/CallStateStore.ts:673-697 | The same for resume, marker, lobby index and seats included. |
| StoreRefinement.ForgetRefines | src/call/CallStateStore.ts:699-712 | The same for the conditional forget. |
| StoreRefinement.RegisterRefines | src/call/CallStateStore.ts:757-783 | The same for register, including when the channel is kept. |
| StoreRefinement.RemoveRefines | src/call/CallStateStore.ts:828-863 | The same for remove, for a call that has a caller. |
| StoreRefinement.StepRefines | src/call/CallStateStore.ts:655-755 | Any one of the seven operations: same answer, corresponding states. |
| StoreRefinement.RunRefines | src/call/CallStateStore.ts:655-755 | Whole runs with the clock moving: every Redis answer is the in-memory answer, and the final states correspond. |
| StoreRefinement.StoresAnswerAlike | src/call/CallStateStore.ts:655-863 | From empty stores, for every run whose registers name a caller and whose claims and resumes name a client: the two stores answer alike throughout. |
| StoreRefinement.EmptyStoresCorrespond | src/call/CallStateStore.ts:714-719 | Both stores start empty and corresponding, so every run from a fresh start is covered. |
| StoreRefinement.RemoveAnswersAlikeExactlyWithACaller | src/call/CallStateStore.ts:828-835 | Where the stores part: a removal answers alike if and only if the call is unknown or was stored with a non-empty caller. |
| StoreRefinement.UnnamedCallerPartsTheStores | src/call/CallStateStore.ts:828-835 | The concrete run: register without a caller, then remove the one client; Redis says there is no call, the in-memory store says nobody is left. |
| CallHandlers.CallService.RegisterParticipant | src/call/CallService.ts:659-683 | Registering cancels a pending grace, creates the call on first touch, and adds roster, ever-participated and index entries. |
| CallHandlers.CallService.AnnounceCallEnded | src/call/CallService.ts:745-829 | Without a store: the accepted entry is consumed for one end notice; otherwise an invite nobody else holds is missed, declined if somebody declined. |
| CallHandlers.CallService.ForgetCall | src/call/CallService.ts:882-910 | One announcement, then the index loop and the removal from all four collections. |
| CallHandlers.CallService.SameUserSeatedElsewhere | src/call/CallService.ts:2693-2722 | Finds a winner if and only if another open socket of the sender's user is in the call, and returns such a one. |
| CallHandlers.CallService.HandleInvite | src/call/CallService.ts:2017-2088 | The invite step: registration, seat, and the invite time and lobby of the first invite only. |
| CallHandlers.CallService.HandleAccepted | src/call/CallService.ts:1942-2034 | The accept step: refused while the user is seated elsewhere, the lobby hydrated from the call, one start notice for the first accept. |
| CallHandlers.CallService.HandleTerminal | src/call/CallService.ts:2182-2261 | The terminal step on its three teardown paths: last one out, a DM left by one party, everything else. |
| CallHandlers.CallService.RejoinSeat | src/call/CallService.ts:2411-2499 | The rejoin step: its refusals, and the loop that moves the user's other seats to the new socket. |
| CallHandlers.CallService.HandleLobbyJoin | src/call/CallService.ts:2548-2656 | The join step: its refusals, the caller kept from the call, accepted without a start notice. |
| CallHandlers.CallService.HandleDisconnect | src/call/CallService.ts:2831-3051 | Walks every call the client's index names, each once, and takes each one departure step. |
| CallHandlers.CallService.Depart | src/call/CallService.ts:2883-3036 | Two or more left: the call goes on; one left and a grace configured: it waits; otherwise it is forgotten. |
| CallHandlers.CallService.GraceExpired | src/call/CallService.ts:3070-3140 | A fired timer forgets the call unless two are in it; a cleared timer does nothing. |
| CallLifecycleRuns.RunKeepsInvariant | src/call/CallService.ts:659-716 | Over every sequence of invite, accept, join, rejoin, terminal verb, disconnect, grace expiry and forget: every call has a participant, `clientToCalls` is exactly the inverse of the rosters, accepted and graced ids name calls, and the notices say whether a call is open. |
| CallLifecycleRuns.TerminalKeepsInvariant | src/call/CallService.ts:2182-2261 | The inline teardown of the last leaver and the DM teardown both keep the maps agreeing. |
| CallLifecycleRuns.DisconnectSlots | src/call/CallService.ts:2843-3050 | The disconnect loop, half-updated between calls, ends with the maps agreeing, and each call got at most one notice. |
| CallLifecycleRuns.StepAnnouncesOnce | src/call/CallService.ts:745-829 | Each removal of a call yields the end notice exactly when it had been accepted, otherwise at most one missed notice, which only a second taken seat can silence; a call that stays gets neither. |
| CallLifecycleEffects.InCallExactlyWhen | src/call/CallService.ts:1942-2034 | For every event and every call: a client is in the call afterwards, on the roster and in the index alike, if and only if it entered by the event, past the refusals of its kind, or was in it and did not leave: by hanging up, dropping, being the user's old socket, or because the call went. |
| CallLifecycleEffects.CallStandsExactlyWhen | src/call/CallService.ts:2182-2261 | For every event: a call is kept if and only if somebody entered it, or it was there and its guard for going did not hold; and what is recorded of it. |
| CallLifecycleEffects.HeardExactly | src/call/CallService.ts:745-829 | For every event: what the hooks hear of a call is exactly the notice its guards tell, start, end, or a missed call with its reason, and otherwise nothing. |
| CallLifecycleEffects.AcceptedExactlyWhen | src/call/CallService.ts:2143-2157 | A call is accepted after an event if and only if an accept or a join opened it, or it was accepted and did not go; and it waits out a grace exactly when a drop or a pending grace says so. |
| CallLifecycleEffects.AcceptOpensExactlyWhen | src/call/CallService.ts:2143-2157 | A start is heard if and only if an accept gets in and finds the call not accepted; nothing else starts a call. |
| CallLifecycleEffects.AcceptGetsIn | src/call/CallService.ts:1942-2034 | An accept that is not refused leaves the call accepted, the client on its roster and in its index, the lobby the call's or else the accept's own, and everybody else as they were; a refused one changes nothing. |
| CallLifecycleEffects.RunIsHeard | src/call/CallService.ts:745-829 | Over every run, what is heard of a call is exactly what the guards of its events tell, in order. |
| CallLifecycleNotices.CallEndsExactlyWhen | src/call/CallService.ts:2182-2261 | An accepted call ends in a step if and only if the step's guard says so: the last leaver or a DM party hanging up, a drop that leaves nobody or has no grace, a grace out on fewer than two, a forget. |
| CallLifecycleNotices.JoinOpensExactlyWhen | src/call/CallService.ts:2548-2656 | An event opens a call unheard if and only if it is a join that gets past its refusals and finds the call not accepted. |
| CallLifecycleNotices.NoticesAlternate | src/call/CallService.ts:2143-2157 | Over every run from idle a call id's openings and ends come strictly in turn and it is open exactly while accepted; heard start and end notices alternate if and only if no join that opened the call is followed by an event that ends it, both told by their guards. |
| CallLifecycleNotices.InvitedCallsAlternate | src/call/CallService.ts:2143-2157 | A call id never entered by `join` has strictly alternating start and end notices in every run. |
| CallLifecycleNotices.JoinedCallEndsUnstarted | src/call/CallService.ts:2642-2656 | The concrete failure for joins: a huddle of one that hangs up is announced as ended and never as started. |
| CallLifecycleOutcomes.UnansweredInviteIsMissed | src/call/CallService.ts:796-827 | A caller who gives up leaves one missed notice, `declined` exactly when somebody declined first, and no trace of the call. |
| CallLifecycleOutcomes.DropWaitsOutTheGrace | src/call/CallService.ts:2888-3009 | With a grace, a drop that leaves one party behind announces nothing; the expiry ends the call with the end notice exactly when it had been accepted. |
| CallLifecycleOutcomes.RejoinMovesSeat | src/call/CallService.ts:2483-2499 | After a rejoin the user's only seat is the new socket, and nobody else lost theirs. |
| CallLifecycleSeats.SeatRuleSurvivesExactlyWhen | src/call/CallService.ts:1942-1981 | One event: no call has two open sockets of one person afterwards, given none had before, if and only if the event is not an invite from a second open socket of somebody in the call. |
| CallLifecycleSeats.OneSeatEach | src/call/CallService.ts:1967-1981 | One person, one seat on a node: over every run, as sockets close, no call ever has two open sockets of the same person, if and only if no invite of the run brings a second one in. |
| CallLifecycleSeats.InviteSeatsSecondSocket | src/call/CallService.ts:2017-2022 | The exception: an invite is not checked against the seat rule, and two from two tabs seat both. |
| CallLifecycleSeats.RejoinKeepsRoster | src/call/CallService.ts:2406-2408 | A rejoin takes the person's other sockets off, so the seat rule still holds. |
| CallLifecycleSeats.RejoinNeedsEarlierSeat | src/call/CallService.ts:2402-2405 | In every run a rejoin by someone who never entered the call by invite, accept or join is refused: being rung is not a seat. |
| AcceptOnce.OpeningsAreConserved | src/call/CallService.ts:774-828 | Conservation over every interleaving of any number of nodes, whatever their clocks say: each time a call's accept marker goes live it is announced once, held by the one node that took it, still in the store, or thrown away. |
| AcceptOnce.EndsNeverOutnumberAccepts | src/call/CallService.ts:810-816 | End notices of a call never outnumber the markAccepted and resume steps that made its marker live, nor therefore those that set it. |
| AcceptOnce.NoEndWithoutOpening | src/call/CallService.ts:810-816 | Once the marker is consumed no amount of ending announces again until somebody accepts or resumes. |
| AcceptOnce.NoticesComeFromAttempts | src/call/CallService.ts:810-828 | Each end attempt yields at most one notice, ended or missed. |
| AcceptOnceNotices.NoticesAreTold | src/call/CallService.ts:774-828 | Over every interleaving the start, end and missed notices of a call are counted exactly by the moves whose guards let them out. |
| AcceptOnceNotices.EndedAndMissedExactlyWhen | src/call/CallService.ts:796-827 | A call is reported both ended and missed if and only if one move announces the end with its marker in hand and another settles, without the marker, an invite its node knew, had not accepted and was alone in, with no peer in the store. |
| AcceptOnceNotices.MissedNeedsUnansweredInvite | src/call/CallService.ts:793-827 | Behind every missed notice is a node that ended a call it knew as an invite, alone in it, without having accepted it itself. |
| AcceptOnceNotices.EndedCallMayAlsoBeMissed | src/call/CallService.ts:817-827 | The concrete interleaving: the accepter hangs up and its node announces the end; the caller's node, told of the departure, forgets the call and reports it missed. |
| AcceptOnceNotices.AcceptedExactlyWhen | src/call/CallService.ts:2143-2157 | A node has its accepted entry for a call if and only if it accepted the call and has not ended it since. |
| SharedSocketHost.SharedSocketTransport.Subscribe | src/client/sharedSocketTransport.ts:214-223 | A hold: created with its service, counted, taken off the pending set, and sent if it can be. |
| SharedSocketHost.SharedSocketTransport.CallRelease | src/client/sharedSocketTransport.ts:224-237 | A release closure: only its first call counts; the last hold leaves the channel to a flush, run at once if the host schedules it so. |
| SharedSocketHost.SharedSocketTransport.Flush | src/client/sharedSocketTransport.ts:200-212 | The flush loop over the pending channels, in whatever order they are met. |
| SharedSocketHost.SharedSocketTransport.Resubscribe | src/client/sharedSocketTransport.ts:240-244 | Every held channel is sent again where this session has not sent it. |
| SharedSocketHost.SharedSocketTransport.Update | src/client/sharedSocketTransport.ts:246-261 | Re-binding: a changed epoch forgets what was sent and drops channels nobody holds before sending the rest. |
| SharedSocketHost.SharedSocketTransport.HoldThrough | src/client/sharedSocketTransport.ts:290-294 | An adapter's subscribe pushes its release on the channel's stack. |
| SharedSocketHost.SharedSocketTransport.ReleaseThrough | src/client/sharedSocketTransport.ts:295-302 | An adapter's unsubscribe pops its own newest release, if it has one. |
| SharedTransportRuns.RunKeepsInvariant | src/client/sharedSocketTransport.ts:187-261 | In every run, whatever the gate does, each channel's count, pending mark, sent mark and server side fit together. |
| SharedTransportAgreement.HoldsAreUncalledReleases | src/client/sharedSocketTransport.ts:192-238 | In every run: a channel's count is the number of its releases not yet called, a non-empty pending set has a flush scheduled, every unsubscribe frame matches an open subscribe of that channel and service in its session, and the server has exactly the channels sent or stranded in this session. |
| SharedTransportAgreement.ServerAgreesWithHolders | src/client/sharedSocketTransport.ts:187-261 | With the gate open whenever there is a session, in every run the server has exactly the channels marked sent, among them every held channel; after a flush it has exactly the held ones, across any epoch changes. |
| SharedTransportAgreement.NewEpochResubscribesHolders | src/client/sharedSocketTransport.ts:253-261 | A new epoch leaves the new server with exactly the channels somebody holds. |
| SharedTransportAgreement.FlushAgreesExactlyUnlessShut | src/client/sharedSocketTransport.ts:204-211 | A flush leaves the server with exactly the channels somebody holds if and only if frames can go out or no pending channel had been subscribed in this session. |
| SharedTransportAgreement.ShutFlushStrandsChannel | src/client/sharedSocketTransport.ts:204-211 | The concrete case: hold, shut, release, flush leaves the server a channel nobody holds. |
| SharedTransportAgreement.SameTickReholdIsSilent | src/client/sharedSocketTransport.ts:47-53 | A release and a hold of the same channel before the flush send nothing and keep the subscription. |
| SharedTransportAgreement.ReleaseIsIdempotent | src/client/sharedSocketTransport.ts:224-228 | Calling a release again changes nothing. |
| SharedTransportAgreement.AdapterReleaseSparesOthers | src/client/sharedSocketTransport.ts:287-304 | An adapter unsubscribe leaves every other channel, its holders and the server's view of it alone. |
| SharedTransportLedger.AdapterReleaseLetsGo | src/client/sharedSocketTransport.ts:295-302 | An adapter's unsubscribe calls its newest release: that hold is out no more, the list is one shorter, and the channel is held once less, or gone where its flush ran at once. |
| SharedTransportLedger.UncalledReleasesHaveOneOwner | src/client/sharedSocketTransport.ts:287-304 | In every run each uncalled release belongs to a direct hold or is in exactly one adapter's list of its own channel, as the events made and gave them back; an adapter that gives back its newest hold has called it. |
| SharedTransportLedger.AdapterRoundTripLeavesNothing | src/client/sharedSocketTransport.ts:287-304 | A channel nobody holds, taken and given back by an adapter: after the flush the server does not have it and the transport is not counting it. |
| SharedTransportLedger.RunKeepsBooks | src/client/sharedSocketTransport.ts:187-304 | In every run the holds, adapter lists, socket, gate and epoch of the transport are what a ledger kept from the events alone says. |
| SharedTransportLedger.ServerHasWhatCallersHold | src/client/sharedSocketTransport.ts:187-261 | Read off the events on every side: as long as a session always has a socket and an open gate, the server has every channel some caller holds, after a flush no other, and without a session none. |
| SharedTransportLedger.FlushIsScheduledExactly | src/client/sharedSocketTransport.ts:224-237 | A flush is scheduled by letting a channel's last hold go, unless it runs at once, and by nothing else; flushing clears it. |
| LiveRefresh.DelayBounds | src/client/liveRefresh.ts:97-102 | The wait lies between the base and five times it, is the base without failures, and a non-positive base comes back unchanged. |
| LiveRefresh.DelayDoubles | src/client/liveRefresh.ts:97-102 | Each further failure doubles the wait, up to the ceiling. |
| LiveRefresh.DelayGrows | src/client/liveRefresh.ts:97-102 | The wait is monotone in failures and is the ceiling from the third on. |
| LiveRefreshHost.LiveRefreshLoop.ScheduleNext | src/client/liveRefresh.ts:139-150 | Working out the next poll from cadence, failures and visibility. |
| LiveRefreshHost.LiveRefreshLoop.ReadNow | src/client/liveRefresh.ts:152-161 | A read starts and clears every timer, or queues behind the one in flight. |
| LiveRefreshHost.LiveRefreshLoop.OnSettled | src/client/liveRefresh.ts:162-172 | The outcome resets or counts a failure and is reported, unless disposed. |
| LiveRefreshHost.LiveRefreshLoop.OnFinished | src/client/liveRefresh.ts:173-179 | The queued read starts, or the next poll is worked out. |
| LiveRefreshHost.LiveRefreshLoop.OnHint | src/client/liveRefresh.ts:182-190 | A counted hint reads at once or arms the coalescing timer; the answer says whether it counted. |
| LiveRefreshHost.LiveRefreshLoop.ChangeLive | src/client/liveRefresh.ts:198-203 | Becoming live reads; becoming offline reschedules if idle. |
| LiveRefreshHost.LiveRefreshLoop.ChangeHidden | src/client/liveRefresh.ts:204-211 | Hiding pauses the poll timer; showing reads what came due or resumes the remaining wait. |
| LiveRefreshHost.LiveRefreshLoop.DisposeLoop | src/client/liveRefresh.ts:216-225 | Every timer, the queue and the read in flight are let go. |
| LiveRefreshRuns.LoopIsLive | src/client/liveRefresh.ts:134-190 | From creation, over every run until dispose: at most one read in flight, a queued read only behind one, a newer hint always waiting on the coalesce timer or the queue, and, idle, a next poll exactly when the cadence is positive, armed exactly when visible, due one to five cadences after it was worked out. |
| LiveRefreshLaws.IdleLoopPollsByOptions | src/client/liveRefresh.ts:139-150 | In every run, idle and not disposed: offline, a poll is due exactly when `pollMs` is positive, one to five `pollMs` after it was worked out; live, the same with `livePollMs`; live without a live interval, only while failures are being retried, by `pollMs`; and it is armed exactly while visible. |
| LiveRefreshLaws.WaitCountsFromNow | src/client/liveRefresh.ts:139-150 | A wait counts from the event that works the poll out. |
| LiveRefreshLaws.FailureBacksOff | src/client/liveRefresh.ts:162-179 | After a failure the next poll is its interval away, doubled per failure, up to the ceiling. |
| LiveRefreshLaws.ReadStartsExactlyWhen | src/client/liveRefresh.ts:152-179 | For every event: a read starts if and only if one is asked for with none in flight, or the one in flight ends with another queued; otherwise it queues or nothing happens. |
| LiveRefreshLaws.ReportedExactly | src/client/liveRefresh.ts:162-172 | Each outcome is reported once, data as data and an error as an error, unless disposed; a success clears the failures and a failure adds one. |
| LiveRefreshLaws.RunReports | src/client/liveRefresh.ts:162-172 | In every run the reports are the outcomes in order, and the backoff counts the failures since the last success. |
| LiveRefreshLaws.WindowExactly | src/client/liveRefresh.ts:182-190 | The coalescing window opens at the first hint counted in it, and closes when it fires, a read starts or the loop is disposed. |
| LiveRefreshLaws.SwitchesExactly | src/client/liveRefresh.ts:198-225 | Live, hidden and disposed are what was said last. |
| LiveRefresh.OptionsAreRead | src/client/liveRefresh.ts:97-116 | The options in force: intervals and window as given or by default, and the backoff ceiling brought between one and five. |
| LiveRefreshRuns.HintsAreOwedARead | src/client/liveRefresh.ts:182-190 | In every run a counted hint stays owed a read until one starts. |
| LiveRefreshRuns.OwedReadStarts | src/client/liveRefresh.ts:152-190 | The owed read comes: the coalesce timer starts or queues it, and the read in flight, once finished, starts the queued one. |
| LiveRefreshRuns.HintsCoalesce | src/client/liveRefresh.ts:186-188 | Hints within the window share one read, due a window after the first. |
| LiveRefreshRuns.ShowingReadsWhatCameDue | src/client/liveRefresh.ts:204-211 | Becoming visible reads if and only if a poll came due meanwhile, and otherwise waits for exactly the time it was due. |
| LiveRefreshRuns.SuccessResetsBackoff | src/client/liveRefresh.ts:162-179 | A success with nothing queued puts the next poll one plain interval away, `livePollMs` live and `pollMs` offline, and none where that is not positive. |
| LiveRefreshRuns.DisposeIsAbsorbing | src/client/liveRefresh.ts:216-225 | After dispose, whatever happens, there is no timer, no read and no report. |
| AgentStreamHost.AgentStream.Guarded | src/agent-streaming/AgentStream.ts:472-489 | The guard: closed is benign, an ended run refuses all but a terminal call, then the event's own validator; strict mode throws on a violation. |
| AgentStreamHost.AgentStream.EmitEvent | src/agent-streaming/AgentStream.ts:99-451 | An emitting method: guard, lifecycle change, frame; a refused call changes nothing. |
| AgentStreamHost.AgentStream.Emit | src/agent-streaming/AgentStream.ts:510-514 | The `data:` line written for an event, with the body staying ping, frames and heartbeats in order. |
| AgentStreamHost.AgentStream.OnHeartbeat | src/agent-streaming/createAgentStream.ts:65-75 | A heartbeat comment falls between two frames and changes no lifecycle state. |
| AgentStreamHost.AgentStream.CloseStream | src/agent-streaming/AgentStream.ts:454-462 | Closing ends the sink once. |
| AgentStreamHost.AgentStream.OnResponseClose | src/agent-streaming/createAgentStream.ts:94-107 | A dropped connection closes sink and stream once. |
| AgentStreamHost.AgentStream.PipeChunks | src/agent-streaming/agentStreamMiddleware.ts:179-182 | The chunk loop: stops when the stream closes, leaves by exception on a strict violation. |
| AgentStreamHost.AgentStream.PipeText | src/agent-streaming/agentStreamMiddleware.ts:171-175 | A buffered text as start, content, end; an exception becomes the run's error. |
| AgentStreamHost.AgentStream.PipeStream | src/agent-streaming/agentStreamMiddleware.ts:176-203 | A streamed text, the provider's failure included. |
| AgentStreamHost.AgentStream.Serve | src/agent-streaming/agentStreamMiddleware.ts:150-231 | The whole wrapped run for every handler outcome. |
| AgentEmitter.FramesAreWellFormed | src/agent-streaming/AgentStream.ts:99-514 | For every sequence of calls, strict or not, with writes failing and connections dropping: at most one RUN_STARTED, first unless all there is is an error; at most one terminal event with nothing after it; text, reasoning and tool calls bracketed per id; no TOOL_CALL_RESULT inside its own open call. |
| AgentEmitter.EmittedIffWellFormed | src/agent-streaming/AgentStream.ts:472-514 | The grammar is exact: a sequence of frames can be written if and only if it is well formed. |
| AgentEmitter.GrammarIsEmitted | src/agent-streaming/AgentStream.ts:472-514 | Calling the events of a well-formed sequence in order writes exactly that sequence. |
| AgentEmitter.OneStartOneEnd | src/agent-streaming/AgentStream.ts:99-143 | Read off any two positions: no second start, nothing after a terminal event. |
| AgentEmitterReference.ProceedsExactlyWhen | src/agent-streaming/AgentStream.ts:472-489 | A call on an open stream proceeds if and only if its frame keeps the frames well formed and its patch holds. |
| AgentEmitterReference.EmitterIsItsGrammar | src/agent-streaming/AgentStream.ts:472-514 | Over every sequence of calls, closes and dropped connections, what is written, and when the stream is closed, is what the grammar alone decides. |
| AgentEmitterReference.ClosedIsSilent | src/agent-streaming/AgentStream.ts:454-514 | After a close, a dropped connection or a failed write nothing more is written. |
| AgentMiddleware.EveryRunIsComplete | src/agent-streaming/agentStreamMiddleware.ts:142-231 | If nobody else closes the stream, the trace starts with RUN_STARTED and ends with its only terminal event, for every handler outcome and whatever the handler called. |
| AgentMiddleware.OutcomeIsReported | src/agent-streaming/agentStreamMiddleware.ts:187-230 | A run nobody else ended or disturbed ends with the event its outcome asks for: the thrown or provider error with its message, or RUN_FINISHED. |
| AgentMiddlewareScript.RunIsItsScript | src/agent-streaming/agentStreamMiddleware.ts:142-231 | A lenient run writes what the list of its calls writes as the grammar admits them: RUN_STARTED, whatever the handler called, then what its result asks for, up to wherever somebody closed the stream. |
| AgentMiddlewareScript.SettlingOnlyAdds | src/agent-streaming/agentStreamMiddleware.ts:161-231 | Whatever was written stays written, strict or not, however the result comes out. |
| AgentMiddlewareScript.TakenIdIsViolation | src/agent-streaming/agentStreamMiddleware.ts:168-215 | Strict, a result whose message id is taken writes nothing of itself: the run ends with the violation as its error. |
| AgentMiddlewareScript.ChunkAfterEndIsViolation | src/agent-streaming/agentStreamMiddleware.ts:176-215 | Strict, a chunk for a message somebody else ended meanwhile leaves the loop with the violation as the run's error. |
| AgentMiddleware.ProviderWrites | src/agent-streaming/agentStreamMiddleware.ts:168-186 | A provider's result adds exactly start, contents, end and RUN_FINISHED to the frames. |
| AgentMiddleware.ProviderTextIsLastMessage | src/agent-streaming/agentStreamMiddleware.ts:168-186 | Whatever the handler sent before: a buffered or streamed provider result ends up in exactly one message, the last, after the text and with the tool calls the handler left unflushed; there is none when all that is nothing. |
| AgentMiddleware.ProviderTextIsOneMessage | src/agent-streaming/agentStreamMiddleware.ts:168-186 | The result is a message of its own holding the chunks joined if and only if it is not empty and the handler left nothing unflushed. |
| SseFraming.LinesAreTheText | src/client/useAgentStream.ts:450-452 | The line splitter cuts exactly at the newlines and loses nothing. |
| SseFraming.LinesConcat | src/client/useAgentStream.ts:450-452 | Carrying the unfinished line over a chunk boundary gives the lines of the whole text. |
| SseFraming.CutsDoNotMatter | src/client/useAgentStream.ts:443-469 | However the text is cut into chunks, reading them one by one hands on the events of the whole text and keeps its unfinished line. |
| SseFraming.RoundTrip | src/client/useAgentStream.ts:454-464 | For every sequence of events with pings and heartbeats in between, the client's reader hands on exactly those events in order. |
| SseFraming.DataLineSaysPayload | src/client/useAgentStream.ts:454-464 | A `data:` line says what its payload decodes to, with or without a carriage return before its newline. |
| SseFraming.OtherLinesSayNothing | src/client/useAgentStream.ts:454-464 | Comments, other fields, and a `data:` line with nothing after it say nothing. |
| SseFraming.CutIsPrefix | src/client/useAgentStream.ts:446-469 | A stream cut short at any character hands on a prefix. |
| SseFraming.DefaultPingIsSafe | src/agent-streaming/createAgentStream.ts:42-42 | The default ping, and none, hide no event. |
| SseFraming.UnendedPingSwallowsFirst | src/agent-streaming/createAgentStream.ts:60-62 | A one-line comment ping without its newline swallows exactly the first frame; with it, none. |
| AgentStreamReading.AgentStreamClient.SendMessage | src/client/useAgentStream.ts:443-499 | The chunk-to-line loop and the closing flush: what the client ends with is a function of the text alone, however it was cut. |
| AgentStreamReading.AgentStreamClient.HandleLine | src/client/useAgentStream.ts:454-467 | One line: carriage return stripped, comments, other fields, empty and malformed payloads skipped. |
| AgentStreamReading.AgentStreamClient.HandleEvent | src/client/useAgentStream.ts:181-253 | One event folded into the message in progress. |
| AgentReducer.TextIsConserved | src/client/useAgentStream.ts:181-253 | For any event sequence, the messages a send adds hold exactly the text deltas received, in order. |
| AgentReducer.MessagesOnlyGrow | src/client/useAgentStream.ts:194-253 | Messages are only appended, and no appended one is empty. |
| AgentReducerLaws.MessagesExactly | src/client/useAgentStream.ts:194-253 | For every event: the messages shown grow by the one in progress exactly when the event completes it and there is something in it. |
| AgentReducerLaws.ToolsAreConserved | src/client/useAgentStream.ts:194-253 | The messages a send adds have exactly the tool calls started, in order. |
| AgentReducerLaws.ReasoningAndErrorAreShown | src/client/useAgentStream.ts:181-253 | In every send the reasoning shown is what came since the run started, and the error shown the last one there was. |
| AgentReducer.StreamingIsSuffix | src/client/useAgentStream.ts:228-253 | The text on display is always the end of what is not flushed. |
| AgentReducer.StreamingStep | src/client/useAgentStream.ts:183-193 | An event makes the display differ from the unflushed text if and only if it is a run starting on top of some. |
| AgentReducer.GrammarStreamsUnflushed | src/client/useAgentStream.ts:181-253 | Under the server's grammar the display equals the unflushed text at every point. |
| AgentEndToEnd.ServerTextReachesClient | src/client/useAgentStream.ts:443-499 | End to end: whatever the server wrote, with heartbeats in between and however the text is cut, the client handles it event for event, and its messages hold exactly the text sent. |
| AgentEndToEnd.ProviderTextReachesClient | src/agent-streaming/agentStreamMiddleware.ts:168-215 | A provider's text returned by a handler, written by the wrapper and read off the wire in any chunks ends the last message the client shows. |
| AgentEndToEnd.CutTextIsPrefix | src/client/useAgentStream.ts:475-491 | A response cut short shows the text of a prefix of what was sent. |
| DmNames.LobbyKindSegment | src/call/lobbyChannel.ts:196-206 | The index search finds the first kind segment that is not the last. |
| DmNames.ParseNamedPrefix | src/call/lobbyChannel.ts:147-170 | Parsing a printed name under its own prefix recovers the sorted members. |
| DmNames.ParseFindsPrefix | src/call/lobbyChannel.ts:159-170 | Without naming the prefix the name reads back if and only if the prefix is empty or colon-terminated without a kind segment. |
| DmNames.NamesAreInjective | src/call/lobbyChannel.ts:82-87 | Two id lists print the same name if and only if they are the same people. |
| DmNames.AdmitsIsMembership | src/call/lobbyChannel.ts:117-124 | The guard admits exactly the people a printed name was printed for. |
| DmAdmission.KnockIsNotAdmitted | src/call/lobbyChannel.ts:273-281 | Under a tenant prefix (empty, or colon-terminated without a kind segment) knocking is the other side of admission, with one exception: a DM with yourself. |
| DmAdmission.KnockAgreesExactlyWhen | src/call/lobbyChannel.ts:236-281 | For every prefix and every user: guard and knock rule agree on a printed name if and only if the condition read off the prefix's segments holds: where the search for the kind segment ends, and whom it lists there. |
| DmAdmission.KnockRuleFitsExactlyWhen | src/call/lobbyChannel.ts:273-281 | The prefixes and members under which the two agree for everybody, exactly. |
| DmAdmission.TenantPrefixEndsAtOwn | src/call/lobbyChannel.ts:196-206 | A prefix is a tenant prefix if and only if the search passes over it and ends at the name's own `dm`. |
| DmAdmission.GluedPrefixLetsOutsidersIn | src/call/lobbyChannel.ts:82-87 | The concrete failure: under the prefix `x` the name of two people is neither admitted nor knocked at by a third. |
| DmNames.ChannelLobbyIsDmLobby | src/chat/dmChannels.ts:70-92 | The lobby of an unhashed chat channel is the DM lobby of the same people, and its members read back. |
| DmNames.HashedGroupIsClosed | src/chat/dmChannels.ts:90-112 | Past the length cap the name tells nobody's membership, so everyone knocks. |
| DmNames.ChannelRoundTrip | src/call/lobbyChannel.ts:28-67 | Wrapping a lobby as a channel and unwrapping it is the identity, by either reader. |
| DmNames.PrintParsed | src/call/lobbyChannel.ts:147-170 | Printing what a well-formed name parses to gives the name back when its members are sorted. |
| DmNameLaws.NamedDmExactly | src/call/lobbyChannel.ts:147-170 | Under a named prefix a name parses to a DM if and only if it is that prefix, `dm:`, and two or more non-empty ids joined, which are its members. |
| DmNameLaws.NamedGroupExactly | src/call/lobbyChannel.ts:147-170 | ... and to a hashed group if and only if it is that prefix, `dmg:` and one segment. |
| DmNameLaws.FoundDmExactly | src/call/lobbyChannel.ts:147-170 | Without naming it, a name parses to a DM if and only if a tenant prefix, `dm:`, and two or more non-empty ids joined make it up. |
| DmNameLaws.AdmitsExactly | src/call/lobbyChannel.ts:117-124 | For every lobby: the guard answers only for names under its prefix, and admits whoever is listed after `dm:`. |
| DmNameLaws.NameIsRefusedExactly | src/call/lobbyChannel.ts:82-87 | Printing a name fails if and only if an id has the separator in it. |
| DmNameLaws.ChannelsAndLobbiesPair | src/call/lobbyChannel.ts:28-67 | The two readers are inverse to each other: a channel names a lobby if and only if the lobby names the channel. |
| DmNameLaws.ChatChannelsExactly | src/call/lobbyChannel.ts:61-66 | The chat-side reader takes whatever stands behind `chat:` if and only if it is a DM lobby, and a DM chat channel is one whose lobby is `dm:` or `dmg:`. |
| DmNameLaws.ChannelMembersExactly | src/chat/dmChannels.ts:103-112 | A chat channel lists members if and only if it is `chat:dm:` and those ids joined, none empty. |
| DmNameLaws.ChannelIsGivenExactly | src/chat/dmChannels.ts:70-92 | People get a channel if and only if there are some, none nameless or with the separator; it is hashed past a hundred characters. |
| GatewayProviderHost.GatewayProvider.OnLocalUpdate | src/client/GatewayProvider.ts:61-67 | A local edit joins the batch and schedules its flush. |
| GatewayProviderHost.GatewayProvider.FlushUpdates | src/client/GatewayProvider.ts:121-130 | The batch becomes one entry under a fresh id and is sent. |
| GatewayProviderHost.GatewayProvider.RetryPersistence | src/client/GatewayProvider.ts:137-140 | The loop over waiting entries sends each again, oldest first. |
| GatewayProviderHost.GatewayProvider.DiscardPendingUpdates | src/client/GatewayProvider.ts:142-148 | A discard drops batch, entries and timer. |
| GatewayProviderHost.GatewayProvider.ApplyPersisted | src/client/GatewayProvider.ts:149-152 | An acknowledged entry goes; unknown ids say nothing. |
| GatewayProviderHost.GatewayProvider.ApplyPersistenceError | src/client/GatewayProvider.ts:153-155 | An error counts only for an entry still waiting. |
| GatewayProviderHost.GatewayProvider.ApplySnapshot | src/client/GatewayProvider.ts:175-181 | A snapshot prompts a retry exactly when something is outstanding. |
| OutboxLedger.EditsAreConserved | src/client/GatewayProvider.ts:61-181 | Over every order of events: the edits made since the last discard, read off the events, are the batch, the waiting entries and what the entries acknowledged since then held, together. |
| OutboxLedger.OutboxIsLedger | src/client/GatewayProvider.ts:115-155 | In every run, read off the events: the batch is the edits not gathered yet, the entries waiting are those made and never acknowledged since the last discard, each with what was gathered into it, a flush is coming exactly when there is a batch, and the state is idle or saved exactly when nothing is outstanding. |
| OutboxLedger.AcknowledgedStaysStored | src/client/GatewayProvider.ts:149-152 | An acknowledged entry waits no more, whatever comes after. |
| OutboxLedger.EveryEditIsInOnePlace | src/client/GatewayProvider.ts:115-155 | An edit made once since the last discard is in exactly one of the batch, a single waiting entry, or the acknowledged ones. |
| Outbox.SentExactly | src/client/GatewayProvider.ts:115-181 | For every event, what is handed to the socket: a flush its batch under the next id, a retry the batch and every entry in order, a snapshot the same when something is outstanding, anything else nothing. |
| Outbox.StatusExactly | src/client/GatewayProvider.ts:115-181 | The saving state after every event. |
| Outbox.RetrySendsEverything | src/client/GatewayProvider.ts:137-140 | After a retry the batch is empty and every waiting entry has gone out again with what it holds. |

## Left out

- RedisStore.RedisCallStateStore.RegisterParticipant: models the commands as one atomic step; the source sends them one by one and bounds the races by expiry.
- RedisStore.RedisCallStateStore.RemoveParticipant: models the commands as one atomic step, so the branch for a peer that rejoins between the two reads is never taken.
- StoreRefinement.StepRefines: asks for non-empty client ids and, for a removal, a call stored with a caller; the exact condition for removals is its own lemma, and whole runs get it from their operations.
- RedisKeyspace.StringsFollowExactlyWhenApart: a string may hold a hash and a set side by side; Redis refuses the second, so ids that collide may fail there in more ways than are shown.
- AgentReducer.TextIsConserved: tool calls are their ids only; names, arguments and results are not kept.
- AgentStreamHost.AgentStream.Guarded: takes the result of the JSON Patch check as an argument.
- AgentStreamHost.AgentStream.PipeText: the message of a strict violation is one constant text.
- AgentStreamHost.AgentStream.PipeStream: the message of a strict violation is one constant text.
- AgentStreamHost.AgentStream.Serve: the message of a strict violation is one constant text, and the abort signal handed to the handler is not modelled.
- AgentStreamReading.AgentStreamClient.HandleEvent: folds text, reasoning, errors and the ids of tool calls; tool arguments and results, steps and session ids are not kept.
- AgentStreamHost.AgentStream.EmitEvent: one method with the event as argument stands for the source's one method per event; payload fields that no guard reads are opaque, and the JSON Patch check is an argument.
- CallHandlers.CallService.AnnounceCallEnded: is the announcement of a node without a shared store; with one it goes through the accept marker, in its own state machine.
- CallHandlers.CallService.HandleInvite: invites arrive authorized and deduplicated; the invite registries, ring targets and fan-out to recipients are not modelled.
- CallHandlers.CallService.HandleLobbyJoin: is given the call id the lobby's live huddle settled on.
- SharedTransportAgreement.ServerAgreesWithHolders: handlers that call back into the transport, and gates that close mid-session, are outside it; what a shut gate does is stated separately.
- Key expiry of hashes and sets after four hours; only the accept marker expires.
- `setCall`, `setInviteMetadata`, `forgetCall` and the discovery reads on Redis, `claimLobbyHuddle`, and read-time pruning, where the two stores differ by design.
- `addClientToCall` and `removeClientFromCall`, which edit one side of the index on purpose.
- Call records as shared mutable objects: a record is a value in the map, and the accepted seats the source keeps in a WeakMap are a field of it.
- Awaits inside one CallService handler, the retired-replica path, cross-node departures, document calls, room calls, lobby occupancy, metrics and logging.
- Who is signed in on which socket, and which sockets are closed, are arguments of the call handlers.
- Acknowledgement states of channels (`channelState`, `onChannelState`), frame fan-out, and frames sent raw past the reference counts.
- Epochs and times as floating point: epochs are integers, times and waits are reals, failure counts are whole numbers.
- The abort signal of a read or of a handler, the data a read returns, session ids, steps and custom events.
- JSON and UTF-8: the event encoding is any codec without newlines; a character is one UTF-16 unit.
- SHA-1 and Yjs: the hash is any function, an update is an opaque value, merging keeps the updates merged.
- Awareness frames, departure announcements and `destroy` of the provider.
- Locale rules: ids are compared by code unit, as `Array.prototype.sort` does.
