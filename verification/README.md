# Selvage, modelled

Selvage is end-to-end sealed collaborative editing: sessions share a document through a relay that
only moves bytes. This project models the client's protocol state machines and the server's small
concurrent structures, and proves what they promise over every input, every run and every
interleaving.

How it is built:

- **Sessions.** `Session.dfy` gives one connection's session as a value and every step a driver can
  take with it; `Peer.dfy` holds the class whose fields change in place, each method proved to
  leave exactly the value its step names. On those steps stand the run theorems: the wire
  (`SessionFrames`), speculation (`Speculation`), edits (`Flushes`, `EditLedger`, `EditJournal`),
  content (`ContentRuns`: a replica is what it heard and made), requests (`SyncDebts`: never too
  often; `DebtsPaid`: never forgotten), the other duties of a tick and a host (`Duties`,
  `HostDuties`), the host-away window (`Windows`), and a whole room of sessions over lossy queues: that it falls silent
  (`Quiescence`, `Room`, `RoomRuns`) and then agrees (`Sharing`, `RoomAgreement`). `Beginnings`
  states them from the moment a session is opened.
- **Host and receiver.** `Producer.dfy` and `Sealed.dfy` are the specifications, `Hosting.dfy`
  and `Receiver.dfy` the objects, `HostRuns`, `Commitments`, `HostSeries`,
  `SpentRooms`, `ReplayMarks` and `Authority` the runs.
- **Relay and server.** `Relay.dfy` (the lock discipline of the client's threads), `ByteQueue.dfy`,
  `Registry.dfy` and `Budget.dfy`.
- **Bytes and text.** `Envelopes.dfy`, `Keys.dfy`, `Links.dfy`, `Invites.dfy`, `AnyReader.dfy`
  with `Prefixes.dfy` and `Nesting.dfy`, and
  `Gating.dfy` and `Conditions.dfy` for the workflow-condition checker. `Frames`, `Replica`, `Bytes`, `Sums`,
  `Arithmetic` and `Options` are shared.

What is ideal or an input: signatures (a frame records who really signed it) and the AEAD (a frame
records whether it opens); a key's id is an uninterpreted number; the document is a grow-only set of
atoms, and whether an update decodes is a fact about its bytes; clocks, the host's listing and the
outcome of each seal are inputs of the step that reads them. Counters are unbounded except where
`Budget.dfy`, `ByteQueue.dfy`, `Envelopes.dfy`, `Keys.dfy` and the frame count of `Producer.dfy` write
a width out.

Places where the code does less than its documentation says, each with an input that shows it and,
over all inputs, the condition under which it does not happen:

- A host's announcement debt is cleared before its state is sealed, whatever the reason, so a failed
  seal forgets it (`HostRuns.ADebtForgotten`); over a run every key stays owed or named if and only
  if no due publication fails to seal while a key is unnamed (`HostRuns.EveryKeyIsOwedOrNamed`).
- A host's store records what it published and not what it verified, so a reload can come back below
  a verified edition (`HostSeries.AReloadBelowAVerifiedEdition`); it does not exactly when the host
  had published at or above them (`HostSeries.ReloadKeepsVerifiedIffPublished`).
- A return is charged 2^21 frames if and only if the process before it wrote its store
  (`HostSeries.AReturnIsChargedIffTheStoreWasWritten`): processes that die before their first write
  return for nothing (`HostSeries.LivesThatDieAtOnceAreNotCharged`).
- The host-away clock is looked at by a tick, a departure or a state, and not by a join: a host that
  leaves, comes back and leaves again before any of them is held to have been away throughout
  (`Windows.AHostThatCameAndWent`). A session that ends for its host's absence has had the host's
  seat gone for the whole window if and only if that seat did not join meanwhile
  (`Windows.AHostAwayWasSeenToGo`).
- A failed seal lets a later edit overtake an earlier one (`EditJournal.AFailedSealReorders`). A run
  keeps authoring order if and only if no step overtakes (`EditJournal.EditsAreConserved`), and a
  step overtakes exactly when it makes an edit while others are held and its own attempt seals
  (`Flushes.EditOvertakesIff`), or flushes with a failed attempt before one that seals within the
  budget (`Flushes.StateOvertakesIff`).
- A link printed over an `http(s)://` base or a base with a trailing slash does not read back to that
  base (`Invites.InviteRoundTrips` says exactly when it does); a page link's empty-authority test can
  never refuse (`Invites.PagesHaveSchemes`); `%+A` decodes as an escape (`Links.AnEscapeWithASign`),
  and decoding is that of RFC 3986 exactly for text that meets no such escape
  (`Links.DecodesAsTheRfcExactly`).
- A refill of the token bucket credits `Overpaid / 10^9` bytes too much, less than the worth of one
  nanosecond (`Budget.TheSlackIsNeeded`): below the brim, exactly when the bytes bought leave a
  remainder modulo the rate (`Budget.TheSlackIsUsedExactly`).
- Bytes still queued when a connection's writer stops are never released from its counter
  (`ByteQueue.AFailedSendStrandsTheQueue`, and the `lost` part of `ByteQueue.TheCountIsWhatIsHeld`).
- The condition checker calls `!((github.actor || true) == true)` gated, and such a step can run on a
  dry run (`Gating.AGatedStepThatRuns`); `Gating.Guarded` is the guard under which its verdicts hold.

## Model

| member | source | states |
|---|---|---|
| Replica.EditDeltaIsTheEdit | crates/client/src/peer/speculation.rs:139-178 | the delta an edit publishes, taken against the vector read before it, is the new atom and carries no peer's change |
| Replica.AnsweredRequestConverges | crates/client/src/peer/deliver.rs:292-311 | applying a peer's answer to this replica's state vector leaves exactly the union of the two replicas |
| Sealed.CapKeepsTheNewest | crates/client/src/sealed.rs:904-933 | whatever the cap evicts, every committed id's mark is untouched, at most 64 loose ones stay, and each one gone was moved before each loose one that stays |
| ReplayMarks.AcceptedFrameMarks | crates/client/src/sealed.rs:878-891 | an accepted frame of kind 0, 3 or 4 was above its id's mark and moves it to its own counter, evicting only loose marks, only past 64, oldest first |
| ReplayMarks.CommittedCountersRise | crates/client/src/sealed.rs:764-891 | between two accepted frames of an id committed throughout, the counter strictly rises, whatever else is heard |
| ReplayMarks.InOrderNeverReplayed | crates/client/src/sealed.rs:764-891 | a signer whose frames arrive in the order it numbered them is never refused as a replay, even when its mark was evicted on the way |
| ReplayMarks.RisingEditionsNeverStale | crates/client/src/sealed.rs:854-866 | host frames whose editions rise are never refused as stale |
| Authority.AcceptedExactly | crates/client/src/sealed.rs:743-876 | a frame is accepted if and only if it opens, is its signer's own, is a payload of its kind, comes from a key that may send it and is fresh; what is accepted is that key's, unaltered |
| Authority.RefusedMovesNothing | crates/client/src/sealed.rs:743-762 | any other frame leaves the receiver exactly as it was |
| Authority.AcceptedFramesAreAuthorised | crates/client/src/sealed.rs:764-902 | over every run: accepted content is signed by a key the state then applied names host or guest, holds and requests by one it names, a state or closing by the host's key above every edition accepted before |
| Authority.CommitmentsAreTheHosts | crates/client/src/sealed.rs:989-1020 | the keys a receiver takes for committed are those of one state, its own or one the host's key signed |
| Receiver.Reader.Read | crates/client/src/sealed.rs:743-762 | one frame: the verdict of the first step that refuses it, and the reader left exactly as the specification says |
| Receiver.Reader.ReadAnnouncement | crates/client/src/sealed.rs:764-802 | kind 4 is opened before it is verified, against the key its own plaintext names |
| Receiver.Reader.ReadOrdinary | crates/client/src/sealed.rs:804-876 | kinds 0 to 3 in the order of the ten steps, with the mark read first and moved last; what acceptance means, see Authority.AcceptedExactly |
| Receiver.Reader.MoveMark | crates/client/src/sealed.rs:884-902 | the mark moves to at least the counter, becomes the newest, and the cap runs |
| Receiver.Reader.CapMarks | crates/client/src/sealed.rs:904-933 | evicts exactly the marks the specification's repeated removal of the oldest does |
| Hosting.HostProducer.constructor | crates/client/src/host.rs:218-275 | the store's record counts only when this host's seed wrote it; its frame count resumes with the absence charge |
| Hosting.HostProducer.SeatJoined | crates/client/src/host.rs:343-358 | the roster gains the seat once; the host's own seat makes it live again |
| Hosting.HostProducer.SeatLeft | crates/client/src/host.rs:361-371 | the seat leaves the roster and every key labelled with it goes |
| Hosting.HostProducer.Announcement | crates/client/src/host.rs:374-383 | a new key is committed, a known one is not touched, and a state is owed either way; which role and seat, see Commitments.HowAKeyIsCommitted |
| Hosting.HostProducer.ChooseLabel | crates/client/src/host.rs:555-582 | the first free seat of the roster, else the seat of the key held longest, else the host's own |
| Hosting.HostProducer.Publish | crates/client/src/host.rs:400-468 | what is published, whether it is a re-send or a new edition, and the producer that published it |
| Hosting.HostProducer.Closing | crates/client/src/host.rs:470-486 | the closing is numbered above every edition and is the last frame the producer signs |
| Hosting.HostProducer.FlushFrames | crates/client/src/host.rs:307-327 | the room's count is written at most once a renewal, and only when it moved |
| HostRuns.WhyAKeyIsLost | crates/client/src/host.rs:361-383 | a commitment is lost only when its labelled seat leaves, or to a new key when no seat is free and it was held longest; a kept one keeps seat, role and order |
| HostRuns.EveryPublishedState | crates/client/src/host.rs:583-611 | over every run: exactly one `host` entry, the host's own; only roster seats labelled; no other seat twice; no committed key left out |
| Commitments.HowAKeyIsCommitted | crates/client/src/host.rs:374-383 | a key comes into the commitments only by its announcement, with the role it declares or guest, on the first seat of the roster nobody has, else the longest-held key's, else the host's own |
| Commitments.AnAnnouncementCommits | crates/client/src/host.rs:374-383 | every announcement is committed and owed an answer, and one of a committed key changes nothing else |
| Commitments.APublishedRoleWasDeclared | crates/client/src/host.rs:519-582 | over every run, each key of a published state but the host's own was announced in it, has been committed ever since, and has the role that announcement declared, or guest |
| Commitments.AnOwedAnswerIsGiven | crates/client/src/host.rs:400-468 | a live host that owes an answer, with its window open and its seal holding, publishes a state naming every committed key and owes no more |
| Commitments.ANewEditionSaysSomethingNew | crates/client/src/host.rs:400-468 | a new edition goes out exactly when listing or peers changed or a later edition was verified; otherwise the last frame is sent again |
| HostRuns.EntryNeverChanges | crates/client/src/host.rs:519-553 | while a key stays committed its seat, role and place never change, whatever it announces |
| HostRuns.AStepForgetsExactly | crates/client/src/host.rs:400-457 | one step leaves a committed key neither owed nor named exactly when it is a due publication, no re-send, whose seal fails while a key is unnamed |
| HostRuns.EveryKeyIsOwedOrNamed | crates/client/src/host.rs:374-457 | over every run, every committed key is either owed an answer or named by the last state published, if and only if no step forgets |
| HostRuns.ADebtForgotten | crates/client/src/host.rs:400-457 | a new host whose first answer cannot be sealed, for an announcement or a roster change, neither owes nor has named the announced key |
| HostRuns.AnswersAreARenewalApart | crates/client/src/host.rs:459-517 | on monotone clocks, any two states that answer announcements are at least a renewal apart |
| HostRuns.AnswersInASpan | crates/client/src/host.rs:459-517 | in time T a host answers at most T / renew + 1 announcements, however many keys announce |
| HostSeries.EditionsRiseAcrossReloads | crates/client/src/host.rs:218-275 | over any chain of sessions sharing a store, every new state or closing is numbered strictly above all before it |
| HostSeries.EditionsRiseAboveVerified | crates/client/src/host.rs:385-398 | within a session, a new edition is also above every edition verified before it |
| HostSeries.ReloadKeepsVerifiedIffPublished | crates/client/src/host.rs:488-512 | the first edition after a reload clears every verified one exactly when the host had published at or above them |
| HostSeries.AReloadBelowAVerifiedEdition | crates/client/src/host.rs:495-512 | a host that verified edition 9 and never published returns at edition 1 |
| HostSeries.AChainOfSessionsIsNeverStale | crates/client/src/host.rs:400-512 | a reader handed any in-order part of what the chain published never refuses it as stale |
| HostSeries.AReturnIsChargedIffTheStoreWasWritten | crates/client/src/host.rs:49-60 | below saturation a return resumes at the last process's count and 2^21 exactly when that process wrote its store, and at its very count otherwise |
| HostSeries.EveryWrittenLifeIsCharged | crates/client/src/host.rs:307-335 | over any chain of processes the count is at least 2^21 for each return whose process wrote its store |
| HostSeries.ReturnsAreCharged | crates/client/src/host.rs:49-60 | after k returns, each of a process that wrote its store, the count is at least k * 2^21 for every k below saturation, and from the 1024th at least the room's budget |
| HostSeries.LivesThatDieAtOnceAreNotCharged | crates/client/src/host.rs:316-327 | processes that die before any write return any number of times at the same count |
| SpentRooms.AHostThatReturnsTooOftenIsSilent | crates/client/src/peer/publish.rs:37-58 | after 1024 charged returns, whatever the session is driven with, it seals no state and no frame of its own key: only closings |
| SpentRooms.ASpentSessionsTickIsCharged | crates/client/src/peer/clocks.rs:19-39 | a session opened on a spent host still writes its count with its first tick, so the next return starts a whole charge above it |
| Peer.PeerSession.constructor | crates/client/src/peer/read.rs:40-122 | a host session publishes its mint state first and is refused if that cannot be sealed; its count continues the saved one |
| Peer.PeerSession.ArmReciprocal | crates/client/src/peer/roles.rs:73-80 | the first request of a continuously committed writer owes one back, once |
| Peer.PeerSession.PruneReciprocal | crates/client/src/peer/roles.rs:85-95 | accounting goes with a key's writer eligibility |
| Peer.PeerSession.NoteLocalEligibility | crates/client/src/peer/roles.rs:39-49 | re-entering eligibility after a handshake owes one request; losing it retires the debt |
| Peer.PeerSession.Publish | crates/client/src/peer/publish.rs:171-208 | the gates, the budget, the counter spent by an attempt, and the queue moved only by a success |
| Peer.PeerSession.SealedFrame | crates/client/src/peer/publish.rs:210-227 | the counter moves for every attempt, whether or not it seals |
| Peer.PeerSession.RequestSync | crates/client/src/peer/publish.rs:126-141 | a request carries the publication replica's vector; debts and clock move only when it was queued |
| Peer.PeerSession.Resync | crates/client/src/peer/publish.rs:147-164 | owed requests share one clock, see DebtsPaid.ATickAsksExactly |
| Peer.PeerSession.PublishState | crates/client/src/peer/publish.rs:37-66 | only a new edition is counted and folded into the host's own receiver; `ending` is not tested |
| Peer.PeerSession.Insert | crates/client/src/peer/speculation.rs:125-186 | refused to a viewer, speculative under an unknown role, published or kept for a writer |
| Peer.PeerSession.FlushHeldBack | crates/client/src/peer/speculation.rs:214-237 | held edits go out in order, and the ones not sealed stay |
| Peer.PeerSession.DiscardSpeculative | crates/client/src/peer/speculation.rs:91-109 | the clean baseline replaces the replica and exactly the speculative edits go |
| Peer.PeerSession.AfterState | crates/client/src/peer/deliver.rs:159-188 | what an applied state owes, in its order |
| Peer.PeerSession.ApplyContent | crates/client/src/peer/deliver.rs:196-230 | content goes into the publication replica first and is answered from it, and into the local one while they differ |
| Peer.ReadMessages | crates/client/src/peer/deliver.rs:239-311 | a stream is applied message by message until one cannot be read; one reply a frame |
| Peer.PeerSession.Deliver | crates/client/src/peer/deliver.rs:46-133 | one frame in: counted, judged, noted when refused, a closing ignored without a state, the rest folded |
| Peer.PeerSession.Tick | crates/client/src/peer/clocks.rs:19-39 | the obligations of a tick in their order, and what an ended session still does |
| Peer.PeerSession.WindowPassed | crates/client/src/peer/clocks.rs:106-121 | the host-away window is read before the no-state one |
| Peer.PeerSession.SeatJoined | crates/client/src/peer/events.rs:15-43 | a host publishes, a peer re-sends only while the named host is away, and holds follow |
| Peer.PeerSession.SeatLeft | crates/client/src/peer/events.rs:46-57 | the away clock can arm, and a host publishes |
| Peer.PeerSession.BudgetSpent | crates/client/src/peer/publish.rs:270-288 | a spent budget draws a host's one closing, writes the count and ends the session |
| Peer.PeerSession.CloseRoom | crates/client/src/peer/publish.rs:237-256 | a closing ends the session that published it, and one that cannot be sealed changes nothing else |
| Peer.PeerSession.NamedHostSeat | crates/client/src/peer/roles.rs:99-105 | of two `host` entries the key spelled first names the seat |
| SessionFrames.StepExtends | crates/client/src/peer/publish.rs:171-227 | every step only appends to the wire, numbers its own frames upward, and spends the budget for each |
| SessionFrames.RunKeepsTheWire | crates/client/src/peer/publish.rs:171-227 | over every run, the frames a session's key signs leave in strictly rising counter order |
| SessionFrames.BudgetBoundsTheSeals | crates/client/src/peer/publish.rs:171-196 | over every run, frames sealed other than closings are at most the budget less the starting count (the room's half of section 8.3 of NIST SP 800-38D) |
| Speculation.StepErases | crates/client/src/peer/speculation.rs:37-109 | every step but an unknown-role edit commutes with erasing what is speculative |
| Speculation.SpeculationLeavesNoTrace | crates/client/src/peer/speculation.rs:37-186 | erasing every unknown-role edit from a run no writer state adopts changes no frame queued, and nothing held but the speculation |
| Speculation.ResolvedSessionsAgree | crates/client/src/peer/deliver.rs:159-230 | once the key is resolved as a viewer, the two sessions are equal but for the replica's generation count |
| Beginnings.ANewSessionStarts | crates/client/src/peer/read.rs:40-122 | a session just opened, a joiner's or a minted host's, holds no edit and no speculation, and what it has queued is numbered from one |
| Beginnings.ASessionsSpeculationLeavesNoTrace | crates/client/src/peer/speculation.rs:37-186 | from the opening on: a run no writer state adopts is, erased, the run without its unknown-role edits, frame for frame |
| Beginnings.ASessionsEditsAreConserved | crates/client/src/peer/speculation.rs:125-237 | every edit a session ever takes meets one fate, and in authoring order if and only if no step overtakes |
| ContentRuns.ContentReachesBoth | crates/client/src/peer/deliver.rs:196-230 | with a state held, the atoms of an accepted content frame, up to its first message that does not read, join both replicas, whatever the baseline |
| ContentRuns.ARequestIsAnswered | crates/client/src/peer/deliver.rs:239-311 | a live writer answers a frame's first request at once with what it then holds beyond the vector, and owes an unserved writer one back |
| ContentRuns.AStateHeardIsApplied | crates/client/src/peer/deliver.rs:159-188 | an accepted state is the one held and applied, and the replica is its own document for a writer and the clean one for a viewer |
| ContentRuns.AReplicaIsWhatItHeardAndMade | crates/client/src/peer/deliver.rs:196-230 | over every run from the opening: a baseline lies within the replica, both hold all content ever accepted, and the replica is that and the session's own edits, exactly unless a state refused those |
| ContentRuns.EveryAtomHeardHasAWriter | crates/client/src/sealed.rs:804-876 | every atom heard came on a frame really signed by a key that was host or guest when it was heard |
| ContentRuns.AViewersFrameMovesNothing | crates/client/src/sealed.rs:868-876 | no frame a committed viewer signs brings anything into either replica |
| Beginnings.ASessionsFramesAreNumbered | crates/client/src/peer/publish.rs:171-227 | every frame a session's key ever signs, those of its opening included, leaves in strictly rising counter order |
| Beginnings.ARelaysQueueIsInCounterOrder | crates/client/src/relay.rs:681-698 | the same of a new connection's socket queue, under every interleaving of its threads |
| Flushes.SendMaskIs | crates/client/src/peer/speculation.rs:214-237 | a flush sends the k-th held edit exactly when its own attempt can be sealed and those sealed before it leave a frame of the budget |
| Flushes.FlushOvertakesIff | crates/client/src/peer/speculation.rs:226-236 | a flush leaves an edit behind a later one exactly when an attempt fails and a later one seals within the budget: order is kept exactly when the failures are the end of it |
| Flushes.StateOvertakesIff | crates/client/src/peer/deliver.rs:159-188 | an applied state's flush does so exactly for a live writer, its attempts counted from after the first request's |
| Flushes.EditOvertakesIff | crates/client/src/peer/speculation.rs:177-186 | a new edit is published ahead of held ones exactly when some are held, the session is a live writer with budget left, and its own attempt seals |
| EditLedger.StepMoves | crates/client/src/peer/speculation.rs:188-237 | every step but an edit sends what its mask picks of the held edits and keeps the rest, drops them with an ending, or keeps only the settled ones of a viewer; while seals hold a live writer with budget holds none |
| EditLedger.AnOrderlyStep | crates/client/src/peer/speculation.rs:125-237 | a step that overtakes nothing, an edit or not: what it sends and then what it keeps are the edits held and the one made, in order |
| EditJournal.EditsAreConserved | crates/client/src/peer/speculation.rs:125-237 | whatever fails to seal, every accepted edit meets exactly one fate: those published are what was queued, as often as it was queued, and those held are what is held; authoring order is kept over the run if and only if no step overtakes |
| EditJournal.SealedEditsKeepTheirOrder | crates/client/src/peer/speculation.rs:188-237 | absent seal failures no step of any run overtakes, and a live writer with budget left holds nothing |
| EditJournal.OnlyAViewerDiscards | crates/client/src/peer/speculation.rs:91-109 | an edit is discarded only by a step that leaves a viewer, and only one made before any role |
| EditJournal.AFailedSealReorders | crates/client/src/peer/speculation.rs:177-186 | a writer whose first edit cannot be sealed and whose second can has published the second first |
| SyncDebts.StepAsks | crates/client/src/peer/publish.rs:112-164 | a step sends at most one request, only when it is due, and pays every debt with it |
| SyncDebts.RequestsAreARenewalApart | crates/client/src/peer/publish.rs:126-164 | on monotone clocks, every two requests of one session are a renewal or more apart, whatever owed them |
| SyncDebts.RequestsInASpan | crates/client/src/peer/publish.rs:143-164 | in time T a session makes at most T / renew + 1 requests, whatever owed them |
| DebtsPaid.OnlyARequestPays | crates/client/src/peer/publish.rs:126-164 | in every step, what is owed goes only with a request sent or a state that retires it |
| DebtsPaid.ATickAsksExactly | crates/client/src/peer/publish.rs:143-164 | a tick queues the one request, with the publication replica's whole vector, and leaves nothing owed, if and only if one is due and its attempt seals; otherwise none, and every debt stands |
| DebtsPaid.AWorkingTickOwesNothing | crates/client/src/peer/clocks.rs:19-39 | the same on a tick on which the host publishes: a renewal after the last request, a working session owes nothing when the tick is over |
| DebtsPaid.ADebtIsPaidByADueTick | crates/client/src/peer/publish.rs:143-164 | over every run, a debt of any kind that no state retires has been paid by the first tick a renewal after the last request |
| DebtsPaid.ARefusalIsOwedARequest | crates/client/src/peer/deliver.rs:79-86 | a refused content frame, whatever the reason, owes a request and moves nothing else kept |
| DebtsPaid.AStateSettlesTheDebts | crates/client/src/peer/deliver.rs:159-188 | a state keeps the debts to its writers, owes one for a role regained, and as the first to commit the key sends the first request at once |
| Duties.ATickAnnouncesExactly | crates/client/src/peer/publish.rs:80-105 | a joiner no state has committed sends its key with a tick exactly when it has not for a renewal |
| Duties.ATickTellsHoldsExactly | crates/client/src/peer/clocks.rs:19-39 | a joiner's tick sends the due request and then its holds, each exactly when it is due and its attempt seals, and nothing else |
| Duties.AJoinIsAnswered | crates/client/src/peer/events.rs:15-43 | a join draws the held state, unaltered, exactly while the named host is away, and then what is held |
| Duties.AnAnnouncementIsCommitted | crates/client/src/peer/deliver.rs:139-165 | an accepted announcement is committed by a host's session, and moves nobody else's replica or wire |
| Duties.AClosingEndsTheSession | crates/client/src/peer/deliver.rs:46-120 | a closing ends the session that holds a state, and leaves one that holds none as it was |
| HostDuties.ARoomsChangeIsTold | crates/client/src/peer/events.rs:15-69 | a join, a departure or a new listing is told at once by a live host whose seal holds, and a new state is held by the host's own session as by any peer |
| HostDuties.AnAnswerIsToldByATick | crates/client/src/peer/clocks.rs:19-39 | a live host that owes an answer tells the room with the first tick its window is open |
| HostDuties.ARoomIsClosedOnce | crates/client/src/peer/publish.rs:237-256 | at its host's word a room gets one closing above every edition, the session ends and the count is written; an unsealed closing ends nothing |
| HostDuties.ASpentBudgetCloses | crates/client/src/peer/publish.rs:270-288 | a spent budget ends the session, with one closing from a live host, and the count is written |
| Windows.StepWatches | crates/client/src/peer/clocks.rs:88-104 | in every step the away clock runs on under the same state, or is started by the step on an absence; the roster is what joins and departures make it |
| Windows.ATickEndsExactly | crates/client/src/peer/clocks.rs:106-121 | what a tick ends and as what: a spent budget, then a host gone for a window, then a window without a state, and nothing else |
| Windows.AHostAwayWasSeenToGo | crates/client/src/peer/clocks.rs:88-121 | a session ended for its host's absence saw that seat gone a whole window before, under the state still applied, and gone at the end; throughout if and only if it never joined in between |
| Windows.AHostThatCameAndWent | crates/client/src/peer/events.rs:15-57 | a host that leaves, returns and leaves between two ticks is held away since it first left |
| Quiescence.RequestPays | crates/client/src/peer/publish.rs:126-141 | a request lowers what a session owes by at least the one it is |
| Quiescence.SteadyStepPays | crates/client/src/peer/clocks.rs:19-39 | no input that leaves the state standing raises what is owed, and nothing sent under it is content its peers would refuse |
| Room.NothingIsRefused | crates/client/src/sealed.rs:804-876 | content and holds from a committed peer, in its order, are accepted as that peer's |
| Room.ReadingPays | crates/client/src/peer/deliver.rs:196-311 | a message heard draws one answer at most, and only a request draws any |
| Room.DeliveringHears | crates/client/src/peer/deliver.rs:46-230 | any frame of the room heard in order leaves the state standing, moves one mark, and raises no debt |
| RoomRuns.ActionKeeps | crates/client/src/peer/roles.rs:61-95 | a session's move, an arrival or a loss keeps the room standing and pays for every request and answer sealed |
| RoomRuns.ARoomFallsSilent | crates/client/src/peer/publish.rs:143-164 | for n sessions holding one state, in any order of moves, arrivals and losses, requests and answers never exceed the starting potential |
| RoomRuns.TrafficIsBounded | crates/client/src/peer/publish.rs:143-164 | with nothing on its way they are at most n * n * (2w + 3), w being the writers of the state |
| RoomRuns.NoContentIsEverRefused | crates/client/src/peer/deliver.rs:79-86 | in every such run every content frame that arrives is accepted from the peer that sent it |
| Sharing.SteadyStepQuiet | crates/client/src/peer/clocks.rs:19-39 | no input but an edit moves the replica or puts content on the wire while the state stands |
| Sharing.InsertingSpreads | crates/client/src/peer/speculation.rs:125-186 | an edit of a working session leaves with the step that makes it, and the replica grows by nothing else |
| Sharing.DeliveringSpreads | crates/client/src/peer/deliver.rs:196-311 | what is heard joins the replica, and a writer answers a request with every atom it holds that the vector is short of |
| RoomAgreement.ActionAccounts | crates/client/src/peer/deliver.rs:196-311 | no move or arrival loses account of an atom some replica lacks: it stays on its way, asked for, or has arrived |
| RoomAgreement.ASilentRoomAgrees | crates/client/src/peer/publish.rs:112-164 | a room that loses nothing and has emptied its queues holds one document, the same in every replica, for traffic within the bound |
| RoomAgreement.AnAskedRoomIsAccounted | crates/client/src/peer/publish.rs:126-141 | replicas without gaps whose requests are on their way to every writer are such a room |
| Relay.TurnKeepsTheSeries | crates/client/src/relay.rs:960-983 | queued, drained and unsent frames stay one rising series through every turn of every thread |
| Relay.QueueOrderIsCounterOrder | crates/client/src/relay.rs:681-698 | under every interleaving, frames one session key signs stand in the socket queue in strictly rising counter order |
| Relay.RelayedFramesAreNeverReplays | crates/client/src/relay.rs:960-1001 | a receiver fed any in-order part of that queue never refuses one of its frames as a replay |
| Relay.APushAfterTheLockIsOvertaken | crates/client/src/relay.rs:960-983 | with the push after the lock, two threads put a later counter first |
| Relay.Relay.Queue | crates/client/src/relay.rs:979-1001 | everything published is handed over in order, until the socket's queue is gone |
| Relay.Relay.Delivered | crates/client/src/relay.rs:925-945 | one critical section: the delivery, then everything it published onto the queue |
| Relay.Relay.Ticked | crates/client/src/relay.rs:904-914 | an ended session's clock does nothing; a live one's tick is followed by its queueing under the same lock |
| Nesting.TheBoundIsTheMeter | crates/client/src/nesting.rs:161-228 | stopping at 256 open containers happens exactly when the unbounded reader would be told to open more |
| Nesting.Walk.ReadOne | crates/client/src/nesting.rs:194-228 | a scalar is passed, a container opened, or the bound met; the stack never passes 256 |
| Nesting.Walk.NextValue | crates/client/src/nesting.rs:232-248 | closing finished containers and passing a key leaves the rest of the reading unchanged |
| Nesting.DeeperThanBound | crates/client/src/nesting.rs:167-183 | ends on every input; true exactly when 256 containers stand open inside one another at the front of the bytes and one more opens inside them, and of a value spelled whole exactly when it nests deeper than 256 |
| AnyReader.ReadsExactlyEncodings | crates/client/src/nesting.rs:194-228 | bytes read to an end if and only if a value's encoding stands there, each tag and width as written out, and the meter rises by that value's depth |
| AnyReader.TheMeterIsTheOpenLevels | crates/client/src/nesting.rs:161-248 | of all bytes, whole values or not: the meter passes k exactly when k containers stand open inside one another and one more opens inside them |
| Prefixes.PartsAreLocal | crates/client/src/nesting.rs:203-221 | length-prefixed reads see only what they take, as the two above ask |
| Budget.RefillIsExact | crates/selvaged/src/budget.rs:82-109 | below the brim a refill is worth the time passed at the rate and the remainder of the bytes bought modulo the rate; at the brim never more than that |
| Budget.TheSlackIsUsedExactly | crates/selvaged/src/budget.rs:94-100 | below the brim a refill credits more than the time passed exactly when that remainder is not zero |
| Budget.GrantedIsBounded | crates/selvaged/src/budget.rs:63-109 | over any run, granted cost is at most the starting worth and the rate for the time, plus one rounding a charge |
| Budget.AFreshBucketGrants | crates/selvaged/src/budget.rs:46-73 | granted * 10^9 <= capacity * 10^9 + rate * t + n * (rate - 1), and tokens never exceed the capacity |
| Budget.TheLedgerIsExact | crates/selvaged/src/budget.rs:63-109 | over any run below the brim: worth and grants are the starting worth, the rate for the time, and the remainders, exactly |
| Budget.NoTimeIsLost | crates/selvaged/src/budget.rs:82-109 | while the bucket stays below its brim, many tiny refills lose nothing |
| Budget.TheSlackIsNeeded | crates/selvaged/src/budget.rs:94-100 | a bucket of three bytes a second whose remainder is one, for which the bound without its slack fails |
| Budget.InboundBudget.Refill | crates/selvaged/src/budget.rs:82-109 | the refill in 64- and 128-bit words: no intermediate overflows or underflows |
| Budget.InboundBudget.TryTakeAt | crates/selvaged/src/budget.rs:63-73 | a frame is charged its payload or 1024, whichever is more, and refused without a charge |
| ByteQueue.StepKeepsTheCount | crates/selvaged/src/room.rs:103-123 | every atomic step of a sender or the writer keeps the counter equal to what is held |
| ByteQueue.TheCountIsWhatIsHeld | crates/selvaged/src/room.rs:60-123 | under every interleaving the counter is the bytes reserved, queued, being written and abandoned, within the cap and 32 frames, and no release underflows |
| ByteQueue.AFailedSendStrandsTheQueue | crates/selvaged/src/net/mod.rs:554-572 | two frames queued and the first send failed: the counter keeps the second's bytes beside an empty channel |
| ByteQueue.WrittenInOrder | crates/selvaged/src/net/mod.rs:554-572 | what the peer was sent is the front of what the channel took |
| ByteQueue.ASenderAloneIsRefusedOnlyPastABound | crates/selvaged/src/room.rs:103-123 | an uncontended frame is refused exactly past the byte cap or the 32nd frame, and its reservation given back whole |
| ByteQueue.Queue.TryQueue | crates/selvaged/src/room.rs:103-123 | fits exactly within both bounds and an open channel; a refusal changes nothing |
| ByteQueue.Queue.WriteOutbound | crates/selvaged/src/net/mod.rs:554-572 | stops at the first failed or closing send and releases every byte it took, written or not |
| Registry.Registry.Create | crates/selvaged/src/room.rs:300-324 | an id that is taken is minted again, never overwritten, and the cap mints nothing |
| Registry.Registry.Admit | crates/selvaged/src/room.rs:337-358 | the three refusals in their order, and a seat otherwise |
| Registry.Registry.Detach | crates/selvaged/src/room.rs:374-387 | detaching twice announces once |
| Registry.OnlyAnExpiredGraceReaps | crates/selvaged/src/room.rs:408-430 | a timer takes only a room empty without a break for the whole grace period, and the timer an empty room waits for takes it |
| Registry.GraceIsKept | crates/selvaged/src/room.rs:371-430 | the same over every run from a server with no rooms, and every empty room still has its timer |
| Registry.OnlyTheTokenSeats | crates/selvaged/src/room.rs:337-358 | a seat is taken only by minting the room or by showing its token while it has a place, and then always |
| Registry.EverySeatWasEarned | crates/selvaged/src/room.rs:300-358 | the same over every run of a server from no rooms |
| Envelopes.ReadVaruintAt | crates/client/src/sealed.rs:265-293 | the reader's loop computes the exact value, and every part it adds fits its word |
| Envelopes.WriteVaruint | crates/client/src/sealed.rs:235-247 | the writer's loop writes the shortest form |
| Envelopes.ReadsExactlyOrFails | crates/client/src/sealed.rs:265-293 | it reads exactly when a terminator comes within ten bytes and the spelled number fits 64 bits, and then it is that number |
| Envelopes.NoTerminatorNoValue | crates/client/src/sealed.rs:265-293 | bytes that run out, or ten that are all marked, read as nothing |
| Envelopes.VaruintReadsBack | crates/client/src/sealed.rs:235-293 | what is written reads back, wherever it stands |
| Envelopes.ShortestSpelling | crates/client/src/sealed.rs:257-293 | parse then print gives the same bytes exactly for one byte or a last byte that is not zero |
| Envelopes.EnvelopeRoundTrips | crates/client/src/sealed.rs:309-385 | every envelope's bytes parse back to it |
| Envelopes.BytesDecodeUniquely | crates/client/src/sealed.rs:309-371 | distinct envelopes never share their bytes |
| Envelopes.TheLayout | crates/client/src/sealed.rs:309-328 | where each field stands: the id in the first 8 bytes, the signature in the last 64, and the rest in place |
| Envelopes.SigningInputIsInjective | crates/client/src/sealed.rs:387-416 | equal signing inputs force equal room, kind, epoch, key id, counter, nonce and ciphertext |
| Keys.KeySpellsAndReads | crates/client/src/sealed.rs:1126-1203 | every 32-byte key reads back from its spelling |
| Keys.AcceptedSpellingIsTheOne | crates/client/src/sealed.rs:1131-1156 | every accepted text is the spelling of the key it reads as (sections 3.5 and 5 of RFC 4648) |
| Keys.DecodeKey | crates/client/src/sealed.rs:1131-1175 | the wrapping 32-bit accumulator computes the change of base and refuses every other text |
| Keys.EncodeKey | crates/client/src/sealed.rs:1179-1203 | three bytes into four letters, truncated to 43, is the one spelling |
| Keys.LettersAreTheAlphabet | crates/client/src/sealed.rs:1126-1203 | the letters are those of table 2 of RFC 4648, minus for 62 and underline for 63 |
| Links.PercentRoundTrips | crates/protocol/src/lib.rs:618-670 | decoding undoes encoding for any bytes (sections 2.1 and 2.3 of RFC 3986) |
| Links.DecodesAsTheRfcExactly | crates/protocol/src/lib.rs:636-670 | the decoder agrees with section 2.1 of RFC 3986 exactly on text whose walk meets no `%` followed by a sign and a hex digit |
| Links.AnEscapeWithASign | crates/protocol/src/lib.rs:636-642 | `%+A` is taken for an escape of the byte 10, and by the RFC is none |
| Links.EncodePercent | crates/protocol/src/lib.rs:624-634 | the encoder's loop |
| Links.DecodePercent | crates/protocol/src/lib.rs:652-670 | the decoder's loop, a malformed escape left as it stands |
| Links.ReadExactlyWithoutRepeats | crates/protocol/src/lib.rs:514-562 | a query is read exactly when it repeats neither `room` nor `token` |
| Links.ReadJoinQuery | crates/protocol/src/lib.rs:541-562 | the parser's loop, unknown names ignored |
| Links.BuildSessionUrl | crates/protocol/src/lib.rs:598-616 | the printer's loop and its separators |
| Links.SessionUrlRoundTrips | crates/protocol/src/lib.rs:572-616 | a printed URL reads back to the same room and token, and to the same base exactly when that has no `?` and no trailing slash |
| Invites.ReadFragment | crates/client/src/peer/invite.rs:172-205 | each key at most once, unknown names ignored, and which refusal is given |
| Invites.InviteRoundTrips | crates/client/src/relay.rs:312-321 | a printed link reads back to its base, room, token and both keys if and only if the base has no query, fragment or trailing slash and no page scheme |
| Invites.AHostsLinkReadsBack | crates/client/src/relay.rs:1203-1212 | for a base a host read out of its server's URL, exactly when it has no trailing slash and no page scheme |
| Invites.APageLinkIsItsConnection | crates/client/src/peer/invite.rs:102-164 | a page link reads exactly as the connection link it stands for |
| Invites.PagesHaveSchemes | crates/client/src/peer/invite.rs:139-164 | an address resolves exactly when it has a page's scheme: the empty-authority test never refuses |
| Conditions.PrintedParses | scripts/check_dry_run_gating.py:135-240 | every tree, printed with no more parentheses than its precedence needs, parses back to itself: the grammar's precedence, left association, access, indexing and calls |
| Conditions.Parser.ParseAll | scripts/check_dry_run_gating.py:159-163 | the whole expression with nothing left over, or a refusal |
| Conditions.Parser.Binary | scripts/check_dry_run_gating.py:165-187 | the four binary rules' loops build left-leaning trees exactly as the grammar does |
| Conditions.Parser.Access | scripts/check_dry_run_gating.py:194-209 | properties and indexes are read as far as they go |
| Conditions.Parser.First | scripts/check_dry_run_gating.py:211-240 | a literal, a name, a call or a parenthesised tree, and which tokens are refused |
| Conditions.AGatedConditionHoldsItsStep | scripts/check_dry_run_gating.py:403-415 | tokens classified as gated parse to a tree that, within the guard, is false on every dry run |
| Gating.DecidedTruthIsReal | scripts/check_dry_run_gating.py:351-378 | a truth the abstract evaluator decides is the truth under every assignment to the unknown contexts and calls |
| Gating.KnownValuesAreReal | scripts/check_dry_run_gating.py:318-378 | a known value of a faithful tree is the value every run gives it |
| Gating.PlainIsGuarded | scripts/check_dry_run_gating.py:351-378 | a tree with no `&&` or `||` directly under a comparison or call meets the guard |
| Gating.GatedStepsNeverRunDry | scripts/check_dry_run_gating.py:403-415 | a gated step is false on every dry run and a plan step on every real one |
| Gating.AGatedStepThatRuns | scripts/check_dry_run_gating.py:374-378 | a condition outside the guard that is classified gated and runs |
| Gating.AMentionIsJudged | scripts/check_dry_run_gating.py:403-415 | no condition that names the input goes unjudged, and only one that names it is reported |
| Gating.ComparisonsAreOneOrder | scripts/check_dry_run_gating.py:318-332 | the six operators are one order, total on numbers and on texts, and a value that is no number only differs |
| Gating.TheFalsyValues | scripts/check_dry_run_gating.py:302-311 | false, null, zero, no number and the empty text, and no others, count as false |
| Gating.TheAskedGuardsAreGates | scripts/check_dry_run_gating.py:87-88 | the guards the check asks for are gates, and their negation the plan |

## Left out

- The session's listing, peer leases, awareness states and their expiry, `departed`, and the
  published, handshake and applied counts: they steer nothing modelled here.
- Update structure, text offsets and awareness encoding: the CRDT library's. The document is a
  grow-only set of atoms, so deletions and pending structs are not represented.
- JSON, duplicate members and canonical payload bytes: payloads are datatypes, and a payload that
  breaks a value rule is one that does not read.
- Ed25519, AES-GCM, HKDF, SHA-256 and the CSPRNG.
- Sockets, tasks and timers: their order is modelled (`Relay.dfy`, `ByteQueue.dfy`, `Registry.dfy`),
  their I/O is not; nor are the relay's `destroyed` flag, its own
  endings and its event reports.
- The mutation-census guards and the reader's removable guards.
- `tokens` of the condition checker: the parser starts from tokens; number formatting, decimal
  parsing and case folding are parameters.
- `from_utf8_lossy` at the end of `percent_decode`: a value that is not UTF-8 stays its bytes.
- `token_matches`: tokens are compared as values.
- Saturation of the frame, announcement and generation counters below 64 bits, and clocks that run
  backwards where a lemma asks for monotone ones.
- A host with no seat of its own: the run theorems about its states assume it has one.
- Sealed.CapKeepsTheNewest: the source sorts the loose marks and drops the oldest in one pass; the model removes the oldest until 64 are left, which leaves the same marks.
- RoomRuns.ARoomFallsSilent: the sessions hold one state throughout; a host may re-send it and close the room, but an input that would publish a new edition is not a step of such a run.
- Envelopes.EnvelopeRoundTrips: the other direction holds only for shortest spellings, see Envelopes.ShortestSpelling.
- Registry.Registry.Create: the ids minted after the first are a given sequence, which holds an unused one whenever the first is taken and there is room for another.
- Gating.DecidedTruthIsReal: one direction; outside the guard a verdict may still happen to be right.
- RoomAgreement.ASilentRoomAgrees: for sessions that still work at the end, with their seals holding and budget left, and queues that lose nothing; requests a room comes to owe later are not needed and not counted on.
- Receiver.Reader.ReadOrdinary: the view keeps the marks, the committed keys and the edition; the holds by peer and the listing that an accepted frame stores steer no verdict and are not in it.
- Peer.PeerSession.DiscardSpeculative: does not carry the awareness inventory onto the new replica.
- Peer.PeerSession.AfterState: does not drop the holds of departed peers.
- Peer.PeerSession.SeatLeft: does not note the departed peer or drop its holds.
- Peer.PeerSession.Deliver: renews no lease and keeps no list of applied or dropped frames and conflicts.
- Peer.PeerSession.Tick: expires no lease and no awareness state.
- Peer.ReadMessages: an awareness message only reads or does not; its states are not kept.
- Relay.Relay.Ticked: the relay's own ending and its destroyed flag are not read.
- DebtsPaid.ADebtIsPaidByADueTick: for a session still working after the tick, its seals holding; with a seal that fails, DebtsPaid.ATickAsksExactly says what one tick does.
- AnyReader.ReadsExactlyEncodings: for primitive reads that see only the bytes they take; the library's own reads are a parameter.
- Duties.ATickTellsHoldsExactly: for sessions with no host half and two frames left in the budget.
