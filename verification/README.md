# VoHive: verified models of the stateful cores

VoHive drives cellular modems and SIM cards. This project models the parts of it whose correctness
depends on history (who holds the SIM, which fragments have arrived, which process owns a switch)
and proves what they promise over every input and every run. `dafny verify dfyconfig.toml` checks
all of it.

A component is stated twice. Its specification is a set of values and functions: one state, one
function or relation per atomic step (a critical section, a transaction), and lemmas about runs of
such steps by any number of callers in any order. Beside it stands a class or a set of methods in
the program's own imperative form (fields updated in place, loops over the queue or the table) whose
every method is proved to make exactly the specified step. What the lemmas say of the specification
therefore holds of the methods.

| component | specification and lemmas | imperative form |
|---|---|---|
| APDU arbiter: one queue for sessions, one-shots, transports and barriers, ageing, watchdog, resets | `ArbiterProtocol`, `ArbiterRuns`, `ArbiterScheduling`, `ArbiterRecovery`, `ArbiterTimers`, `ArbiterRaces`, `ArbiterAdmission` | `Arbiter` |
| SIM authentication readiness: one probe at a time, withdrawals by generation | `SimAuthReady` | `SimAuthReady` (class `SimAuthGate`) |
| Incoming concatenated SMS (sections 9.2.3.24.1 and 9.2.3.24.8 of 3GPP TS 23.040) | `IncomingSms`, `AssemblyRuns`, `AssemblyRecords` | `SmsReceiver` |
| Outgoing SMS delivery tracking | `SmsDelivery`, `SmsDeliveryRuns`, `SmsDeliveryClimb`, `SmsDeliveryReports` | `SmsDeliveryTracker` |
| Contact index of the SMS table | `SmsTables`, `SmsContacts` | `SmsContactStore` |
| Matching modems to configured devices by IMEI | `Composition`, `DeviceIdentity`, `IdentityFixedPoint`, `IdentityRules` | `IdentityResolver` |
| eSIM switch journal and crash recovery | `SwitchJournal`, `SwitchJournalRuns`, `SwitchJournalRules`, `SwitchReconciler`, `SwitchRecovery`, `SwitchCompletion`, `SwitchPlan` | `SwitchJournalStore`, `SwitchDriver` |
| Login rate limiter | `LoginLimiter` | `LoginLimiter` (class `Limiter`) |
| Block-wise tail of a log file | `LogTail` | `LogTail` (`ReadLastLines`) |

## What the proofs found

- A lease can get two watchdog callbacks: the timer fires, `touch` sets it again before the first
  callback has got the lock, that callback is held up past the new deadline, and the timer fires once
  more. Both callbacks then start a reset; if one fails, the owner's release drops the lease while the
  other is still in flight. `ArbiterRaces.TimedRaceIff` says exactly in which states this can still
  come about, and `EveryLeaseCanRace` that every lease can get there from a fresh arbiter. In runs in
  which no touch falls between a firing and its callback it never does
  (`ArbiterTimers.CalmRunsNeverRace`).
- An owner that releases while a reset is in flight has spent its handle. If that reset fails and no
  second callback is to come, the lease stays suspect for good
  (`ArbiterRecovery.SwallowedReleaseIsReachable`), and if it is a transport the arbiter never grants
  anything again (`SwallowedReleaseIsPermanent`). A suspect lease can still end exactly when its
  handle is unused, a reset of it runs, or a callback that starts one is still to come
  (`ArbiterRaces.TimedEndIff`; `ArbiterRecovery.CanEndIff` for single callbacks).
- The test for a blocking barrier ahead in the queue never decides anything: no lease behind any
  queued barrier is granted anyway (`ArbiterScheduling.PendingBarrierTestIsRedundant`).
- A part of an outgoing message falls back exactly when an upsert brings a state text the program
  does not list over a failed or timed-out part (`SmsDeliveryRuns.PartStep`). A new message can fall
  back, from acked to partly acked, exactly when its parts may carry numbers above the number it
  declares, or above one if it declares none (`SmsDeliveryClimb.NeverFallsIff`). Both are faults of
  the store's interface that its present callers do not trigger: they pass only `pending` and `failed`
  (vowifi-go/runtimehost/voiceclient/sms.go:75, 98 and 129) and declare the number of parts they send
  (line 55).
- A worker whose recovery pass fails half-way gets no second one: its own claim shuts it out until
  another owner claims the operation, whatever else happens to the journal meanwhile
  (`SwitchCompletion.SecondPassDoesNothing`).
- A peer is granted at most `2 * limit - 1` logins in any interval as long as the window, one fewer
  than twice the limit, and that bound is reached (`LoginLimiter.GrantsAreBounded`, `BoundIsReached`).
- The block-wise log tail differs from the plain one when the part it read does not hold the lines
  asked for; `LogTail.TailsAgreeIff` gives the exact condition and `LogTail.LongLineIsCut` a family
  of files for which the last line comes back cut off.

## Model

| member | source | states |
|---|---|---|
| Arbiter.NormalizeTwice | internal/apduarbiter/arbiter.go:1012-1068 | normalising a request that has been normalised already changes nothing, for every lease type |
| Arbiter.RequestsAreWellFormed | internal/apduarbiter/arbiter.go:215-243 | whatever a caller fills in, the ticket is one the runs admit: QMI channel scope only for transports with a channel, a non-empty blocked set exactly for barriers |
| Arbiter.RequestsAreFilledIn | internal/apduarbiter/arbiter.go:1012-1068 | a lease ticket keeps what the request says, blank owner, mode and class get their defaults, and it shares the modem by channel exactly if it is a transport that asks so on QMI with a channel |
| Arbiter.BarriersAreFilledIn | internal/apduarbiter/arbiter.go:211-243 | a barrier ticket blocks the classes named, USIMAKA and SMSC if none is, and a nameless class counts as USIMAKA |
| Arbiter.Arbiter.constructor | internal/apduarbiter/arbiter.go:187-205 | a new arbiter is empty; options given are kept, others are two minutes, one session and one QMI transport |
| Arbiter.Arbiter.IsBlockedByActiveBarrier | internal/apduarbiter/arbiter.go:643-650 | the scan tells whether some active barrier blocks the class |
| Arbiter.Arbiter.HasPendingBarrierAhead | internal/apduarbiter/arbiter.go:628-641 | the scan tells whether a queued barrier ahead of the ticket blocks its class |
| Arbiter.Arbiter.HasSuspectTransport | internal/apduarbiter/arbiter.go:918-925 | the scan tells whether some transport lease is suspect |
| Arbiter.Arbiter.HasActiveExclusiveTransport | internal/apduarbiter/arbiter.go:899-906 | the scan tells whether a transport outside the QMI channel scope is active |
| Arbiter.Arbiter.ActiveQMITransportCount | internal/apduarbiter/arbiter.go:908-916 | the scan counts the active QMI channel transports |
| Arbiter.Arbiter.HasActiveTransportOnChannel | internal/apduarbiter/arbiter.go:945-952 | the scan tells whether a QMI transport holds the channel |
| Arbiter.Arbiter.CanAcquireTransportNow | internal/apduarbiter/arbiter.go:593-610 | the cascade of tests decides exactly whether the transport fits beside the active ones |
| Arbiter.Arbiter.TransportWaitGatesQueue | internal/apduarbiter/arbiter.go:612-626 | the cascade decides exactly whether a waiting ticket holds back those behind it |
| Arbiter.Arbiter.SelectedBarrier | internal/apduarbiter/arbiter.go:537-544 | the result is the id of the first queued barrier, or 0 |
| Arbiter.Arbiter.SelectedTransport | internal/apduarbiter/arbiter.go:546-591 | the one-pass scan finds exactly the selected transport: first aged eligible, else first eligible of the authentication class, else first eligible |
| Arbiter.Arbiter.CanAcquireLease | internal/apduarbiter/arbiter.go:501-525 | a lease ticket may proceed exactly when it is grantable |
| Arbiter.Arbiter.CanAcquireBarrier | internal/apduarbiter/arbiter.go:527-535 | a barrier ticket may proceed exactly when it is grantable |
| Arbiter.Arbiter.Enqueue | internal/apduarbiter/arbiter.go:444-448 | joining makes the specified step and nothing else |
| Arbiter.Arbiter.RemoveTicket | internal/apduarbiter/arbiter.go:876-885 | exactly the ticket with that id leaves the queue, if it is there |
| Arbiter.Arbiter.TryAcquire | internal/apduarbiter/arbiter.go:450-481 | one look of a waiting lease: granted exactly when grantable, the state then being the specified one, and otherwise unchanged |
| Arbiter.Arbiter.TryBarrier | internal/apduarbiter/arbiter.go:251-274 | one look of a waiting barrier: entered exactly when grantable, otherwise nothing changes |
| Arbiter.Arbiter.GiveUp | internal/apduarbiter/arbiter.go:486-494 | withdrawing makes the specified step |
| Arbiter.Arbiter.FindActive | internal/apduarbiter/arbiter.go:828-848 | finds the lease of that id and type, if it is active |
| Arbiter.Arbiter.AddActive | internal/apduarbiter/arbiter.go:656-665 | a granted lease is added where its type belongs, and nothing else changes |
| Arbiter.Arbiter.RemoveActive | internal/apduarbiter/arbiter.go:850-874 | removes exactly that lease |
| Arbiter.Arbiter.Touch | internal/apduarbiter/arbiter.go:667-692 | a lease that is not suspect gets a new deadline; a suspect or missing one is refused |
| Arbiter.Arbiter.Release | internal/apduarbiter/arbiter.go:694-723 | the owner's release removes the lease, or only notes it while a reset runs |
| Arbiter.Arbiter.ReleaseExpired | internal/apduarbiter/arbiter.go:744-774 | the watchdog marks an overdue lease suspect and reports whether a reset must start |
| Arbiter.Arbiter.ResetReturned | internal/apduarbiter/arbiter.go:776-820 | a successful reset removes a suspect lease, a failed one only clears the mark |
| Arbiter.Arbiter.ReleaseBarrier | internal/apduarbiter/arbiter.go:725-742 | exactly that barrier leaves |
| Arbiter.Arbiter.MarkBarrierSuspect | internal/apduarbiter/arbiter.go:790-803 | exactly that barrier turns suspect |
| ArbiterRuns.StepKeeps | internal/apduarbiter/arbiter.go:427-535 | every critical section, watchdog firing, reset result and release keeps exclusion, fencing, unique ids and the meaning of the recovery flags |
| ArbiterRuns.StartHolds | internal/apduarbiter/arbiter.go:187-205 | a fresh arbiter satisfies the invariant |
| ArbiterRuns.RunKeepsInv | internal/apduarbiter/arbiter.go:427-820 | in every state of every run from one that satisfies it, sessions, the one-shot and transports exclude each other, an exclusive transport is alone, QMI transports are on distinct channels within their limit, no active lease has a blocked class, and no ticket id is held twice |
| ArbiterScheduling.LeaseWaitsForBarrierAhead | internal/apduarbiter/arbiter.go:501-558 | no lease queued behind a barrier is grantable, whatever classes the barrier blocks |
| ArbiterScheduling.PendingBarrierTestIsRedundant | internal/apduarbiter/arbiter.go:508-521 | a ticket with a blocking barrier ahead is neither at the head nor the selected transport |
| ArbiterScheduling.AgedIsNotOvertaken | internal/apduarbiter/arbiter.go:546-626 | an aged exclusive transport outside the authentication class that no active barrier blocks is not overtaken by any later lease |
| ArbiterScheduling.OnlyAKAOvertakes | internal/apduarbiter/arbiter.go:568-590 | before it has aged, and with tickets queued in time order, only the authentication class overtakes it |
| ArbiterScheduling.SomeTransportSelected | internal/apduarbiter/arbiter.go:581-590 | whenever some transport is eligible one is selected |
| ArbiterScheduling.SelectionIsUnique | internal/apduarbiter/arbiter.go:546-591 | at most one transport is selected |
| ArbiterScheduling.IdleArbiterProgress | internal/apduarbiter/arbiter.go:501-650 | with no lease active something is grantable exactly when a barrier is queued or an unblocked lease has only transports ahead of it |
| ArbiterScheduling.StuckOnlyWhenAllBlocked | internal/apduarbiter/arbiter.go:501-650 | with no lease active and only transports and barriers queued, nothing is grantable exactly when every queued one is a transport of a blocked class |
| ArbiterScheduling.QuietArbiterIsNeverStuck | internal/apduarbiter/arbiter.go:501-626 | with neither leases nor barriers active a non-empty queue has someone grantable |
| ArbiterScheduling.PositionAfter | internal/apduarbiter/arbiter.go:876-885 | a waiting ticket keeps its place or moves up by the one that left ahead of it; the others ahead stay as they were and nothing new gets there |
| ArbiterScheduling.BarrierWaitIsBounded | internal/apduarbiter/arbiter.go:251-292 | over any stretch of any run in which a barrier waits, the leases granted were ahead of it at the start, and there are at most as many grants as leases were ahead of it |
| ArbiterScheduling.BarrierTurn | internal/apduarbiter/arbiter.go:251-544 | after any stretch of any run in which a barrier waits it is grantable exactly when no lease that was active or queued ahead of it at the start is active and no barrier that was ahead of it is still queued |
| ArbiterScheduling.AgedWaitIsBounded | internal/apduarbiter/arbiter.go:546-591 | the same bound for an aged, unblocked exclusive transport outside the authentication class |
| ArbiterAdmission.GrantableIff | internal/apduarbiter/arbiter.go:501-650 | the cascade of tests lets a ticket go exactly when it may by its own and the active leases' data: the barriers, the limits and the channels; among transports that fit behind none that waits for more than its channel, first those that waited half a second, then the authentication class, then the rest, each in queue order |
| ArbiterAdmission.GatesIff | internal/apduarbiter/arbiter.go:612-626 | a transport that cannot go holds back those behind it exactly if no other channel would help it |
| ArbiterAdmission.TransportAlone | internal/apduarbiter/arbiter.go:593-610 | a transport alone in the queue goes exactly when no active barrier names its class, no session or one-shot is active, and either no transport is or it and all active ones are QMI channel transports, none suspect, fewer than the limit and on other channels |
| ArbiterAdmission.SessionAtHead | internal/apduarbiter/arbiter.go:522-524 | a session at the head goes exactly when no active barrier names its class, no one-shot or transport is active and fewer sessions are than the limit |
| ArbiterAdmission.BarriersAfter | internal/apduarbiter/arbiter.go:725-803 | what every step does to the list of active barriers |
| ArbiterAdmission.BarrierStep | internal/apduarbiter/arbiter.go:251-292 | a barrier is active from the step it enters at to the step it leaves at, even if its owner is lost |
| ArbiterAdmission.BarrierFences | internal/apduarbiter/arbiter.go:628-650 | over every run, between those two steps no lease of a class it blocks is granted |
| ArbiterRecovery.SuspectTransportGrantsNothing | internal/apduarbiter/arbiter.go:527-626 | while a transport lease is suspect no lease and no barrier is grantable |
| ArbiterRecovery.StepOnLease | internal/apduarbiter/arbiter.go:455-820 | what every step does to any lease: a grant makes it with a deadline one hold time ahead, a touch renews, the watchdog marks it when due, a reset ends or unmarks it, a release ends or notes, and nothing else changes it |
| ArbiterRecovery.SuspectEndsOnlyBy | internal/apduarbiter/arbiter.go:694-820 | a suspect lease leaves the active set at a step exactly when a reset of it succeeds or its owner releases it with no reset marked |
| ArbiterRecovery.TouchMovesDeadline | internal/apduarbiter/arbiter.go:667-692 | touching a lease that is not suspect keeps it so and sets its deadline one hold time ahead |
| ArbiterRecovery.ProgressHoldsOffWatchdog | internal/apduarbiter/arbiter.go:744-762 | over any run in which the watchdog's clock stays before a lease's deadline, that lease does not turn suspect and its deadline never moves back |
| ArbiterRecovery.FailClosed | internal/apduarbiter/arbiter.go:593-820 | from the moment a transport is suspect until a step ends it, no step of the run grants anything |
| ArbiterRecovery.GoneStaysGone | internal/apduarbiter/arbiter.go:828-874 | a lease that has left never comes back |
| ArbiterRecovery.EndsOnce | internal/apduarbiter/arbiter.go:694-820 | a suspect lease leaves exactly once in every run |
| ArbiterRecovery.ReleaseNeverRacesReset | internal/apduarbiter/arbiter.go:702-706 | if the callback of a lease fires once, an owner's release drops a suspect lease only when no reset of it is in flight |
| ArbiterRecovery.DoubleFiringRacesReset | internal/apduarbiter/arbiter.go:744-788 | any held lease of any type whose handle is unused can, with a way to reset configured and two callbacks, be dropped by its owner's release while a reset of it runs |
| ArbiterRecovery.RaceIff | internal/apduarbiter/arbiter.go:694-788 | with callbacks that fire any number of times that race can still happen to a granted lease exactly when it is held, its handle unused and a way to reset configured |
| ArbiterRecovery.SwallowedReleaseIsReachable | internal/apduarbiter/arbiter.go:702-788 | every held lease that is not suspect, with its handle unused and a way to reset, can come to be suspect with its handle used and no reset in flight, though callbacks fire once |
| ArbiterRecovery.SwallowedReleaseIsPermanent | internal/apduarbiter/arbiter.go:702-706 | a transport that has come there stays there and the arbiter grants nothing in every continuation in which callbacks fire once per lease |
| ArbiterRecovery.CanEndIff | internal/apduarbiter/arbiter.go:694-820 | in such continuations a suspect lease can still end exactly when its handle is unused or a reset of it is in flight |
| ArbiterTimers.TimedRunKeepsInv | internal/apduarbiter/arbiter.go:455-820 | with timers that are armed by grants and touches, re-armed by early callbacks and stopped by releases, the invariant holds in every run; a lease that is not suspect has a callback to come, and one that is was overdue |
| ArbiterTimers.CalmRunsNeverRace | internal/apduarbiter/arbiter.go:667-788 | in runs from a fresh arbiter in which no touch falls between a lease's timer firing and that callback's turn, no release ever drops a lease under a reset of it |
| ArbiterRaces.TimedRaceIff | internal/apduarbiter/arbiter.go:667-788 | from any reachable state a granted lease can still be dropped under a reset exactly when it is held, its handle unused, a way to reset configured, and it is not suspect, has an unmarked reset running, or has two resets running or to come |
| ArbiterRaces.TimedEndIff | internal/apduarbiter/arbiter.go:694-820 | a suspect lease can still end exactly when its handle is unused, a reset of it runs, or a callback is to come and a way to reset configured |
| ArbiterRaces.EveryLeaseCanRace | internal/apduarbiter/arbiter.go:427-788 | with a way to reset configured, every well-formed lease request to a fresh arbiter can come to that race |
| ArbiterRaces.EveryLeaseCanGetStuck | internal/apduarbiter/arbiter.go:427-788 | and every one can come to be suspect for good |
| SimAuthReady.RunKeepsInv | internal/apduarbiter/simauth_ready.go:25-115 | the gate's invariant holds in every interleaving of callers, probes and withdrawals |
| SimAuthReady.SingleFlight | internal/apduarbiter/simauth_ready.go:66-92 | at most one probe is in flight |
| SimAuthReady.ClosedExactlyOnce | internal/apduarbiter/simauth_ready.go:84-104 | a channel has been closed exactly once if its probe has ended and not at all otherwise, and a probe that began has ended exactly if it is no longer running |
| SimAuthReady.NoLostWakeUp | internal/apduarbiter/simauth_ready.go:71-104 | a waiting caller's channel is closed already, or will be when the probe in flight returns |
| SimAuthReady.ReadyIsJustified | internal/apduarbiter/simauth_ready.go:94-99 | ready implies a successful probe that began after the latest withdrawal |
| SimAuthReady.NilIsJustified | internal/apduarbiter/simauth_ready.go:66-112 | whenever a caller goes away without an error, from its look or from its own successful probe, such a probe has succeeded at that very step |
| SimAuthReady.LookComesTo | internal/apduarbiter/simauth_ready.go:66-92 | a look at an open gate lets the caller pass, one while a probe is in flight makes it wait on that probe's channel, and otherwise it becomes the prober on a new channel |
| SimAuthReady.ProbeComesTo | internal/apduarbiter/simauth_ready.go:92-112 | a failed probe sends its caller away with the gate closed, a stale success back to looking, and any other success opens the gate |
| SimAuthReady.StaleSuccessDoesNotOpen | internal/apduarbiter/simauth_ready.go:95-112 | the success of a probe overtaken by a withdrawal neither opens the gate nor lets its caller through |
| SimAuthReady.SimAuthGate.Invalidate | internal/apduarbiter/simauth_ready.go:34-41 | a withdrawal raises the generation and closes the gate, leaving a probe in flight alone |
| SimAuthReady.SimAuthGate.Decide | internal/apduarbiter/simauth_ready.go:66-90 | the first critical section: pass, wait on the current channel, or become the prober |
| SimAuthReady.SimAuthGate.Finish | internal/apduarbiter/simauth_ready.go:94-105 | the second: the result counts only for the generation it began in, and the channel is closed once |
| IncomingSms.FragmentsAre | internal/db/sms_incoming.go:67-73 | the query yields exactly the pending rows of the key within the window, in sequence order |
| IncomingSms.DistinctInRange | internal/db/sms_incoming.go:74-95 | distinct sequence numbers between 1 and n, sorted, number at most n, and if they are n none is missing |
| IncomingSms.StoreKeepsInv | internal/db/sms_incoming.go:40-123 | two pending rows of one key and sequence are more than the window apart, completed rows keep no content, fingerprints and inbox rows do not repeat |
| IncomingSms.CountErrorsUnreachable | internal/db/sms_incoming.go:84-92 | under that invariant neither the fragment count nor the sequence error can occur |
| IncomingSms.ErrorsChangeNothing | internal/db/sms_incoming.go:56-122 | every error leaves all tables as they were |
| IncomingSms.OtherKeysUntouched | internal/db/sms_incoming.go:68-117 | rows of other messages and earlier inbox rows are never touched |
| AssemblyRuns.AssembledExactlyOnce | internal/db/sms_incoming.go:40-123 | the parts of one message in any order, with any repeats and any other traffic between them, give exactly one inbox row with the parts joined in sequence order, reported stored exactly once |
| AssemblyRuns.OwnPartsAreNeverRefused | internal/db/sms_incoming.go:74-92 | none of those deliveries is refused |
| AssemblyRuns.WholeIs | internal/db/sms_incoming.go:87-99 | the assembled message has the parts' subscriber and sender, their texts one after the other, and the second the first part falls in |
| AssemblyRuns.AnyTraffic | internal/db/sms_incoming.go:64-117 | from empty tables the invariant holds after any traffic, and the two count errors never occur |
| AssemblyRecords.MalformedIff | internal/db/sms_incoming.go:45-48 | the exact conditions for a fragment to be refused as malformed |
| AssemblyRecords.RepeatIgnored | internal/db/sms_incoming.go:59-65 | a fragment delivered before changes nothing |
| AssemblyRecords.StoredIsRecorded | internal/db/sms_incoming.go:96-119 | a delivery that reports a message stored appends it to the inbox with the columns of its fragment and line, no earlier row being the same message, and makes the thread's contact row tell of it with one more unread; every other contact row stays, and without such a report inbox and contacts do |
| AssemblyRecords.MessageMeans | internal/db/sms_incoming.go:40-73 | what makes fragments one message: numbered through, of one subscriber, sender and reference, and within a window |
| AssemblyRecords.LastPartStores | internal/db/sms_incoming.go:68-119 | over every run of deliveries, the one that brings the last missing part stores the whole message, every column given, exactly unless the inbox has the same already, and marks all its parts as done |
| SmsReceiver.Receiver.SeenTwice | internal/db/sms_incoming.go:74-80 | the loop over the fragments finds a repeated sequence number exactly if there is one |
| SmsReceiver.Receiver.JoinInOrder | internal/db/sms_incoming.go:87-95 | the loop yields the joined content and the fingerprints exactly if the sequence is complete |
| SmsReceiver.Receiver.StorePart | internal/db/sms_incoming.go:40-123 | the transaction makes exactly the specified change, or none |
| SmsDeliveryRuns.MergedIsForward | internal/db/sms_delivery.go:147-178 | the upsert's state choice never moves a final part, and lowers a part's rank exactly for an unlisted state over a failure |
| SmsDeliveryRuns.PartStep | internal/db/sms_delivery.go:147-441 | no step loses a part; ranks fall at a step exactly when an upsert brings an unlisted state over a failed or timed-out part |
| SmsDeliveryRuns.RankNeverFalls | internal/db/sms_delivery.go:147-441 | without such an upsert a part's rank never falls over any run |
| SmsDeliveryRuns.FinalNeverChanges | internal/db/sms_delivery.go:256-271 | delivered, unconfirmed and delivery-failed parts keep their state for ever |
| SmsDeliveryRuns.EvidenceOfDerived | internal/db/sms_delivery.go:497-561 | the state derived from the counts says what it should of the parts, for instance acked only if every declared part is acked |
| SmsDeliveryRuns.DerivedClimbs | internal/db/sms_delivery.go:530-561 | with the evidence of a state the counts give that state or a later one |
| SmsDeliveryRuns.MessageStep | internal/db/sms_delivery.go:485-581 | every step keeps that evidence and lets the message state and its count of acknowledged parts only climb |
| SmsDeliveryRuns.MessagesOnlyClimb | internal/db/sms_delivery.go:123-581 | from its creation a message that declares its parts only climbs; failed leaves only to delivered, delivered is for good and means that every declared part is delivered |
| SmsDeliveryRuns.DeliveredIffEveryPart | internal/db/sms_delivery.go:548-573 | a recomputation reports delivered exactly when every declared part is |
| SmsDeliveryRuns.RecomputeTwice | internal/db/sms_delivery.go:485-581 | recomputing again at any other time changes the time of the update and nothing else |
| SmsDeliveryClimb.NeverFallsIff | internal/db/sms_delivery.go:91-581 | over every run that creates a new message and brings its parts under numbers up to n, its state and its count of acknowledged parts never fall between any two moments after the creation, exactly when n is at most the number of parts it declares, or at most one if it declares none |
| SmsDeliveryReports.StatesRoundTrip | internal/db/sms_delivery.go:22-31 | every state is read back from the text it is written as |
| SmsDeliveryReports.UpsertWrites | internal/db/sms_delivery.go:123-179 | every column a submission writes, and whether its state takes the stored one's place |
| SmsDeliveryReports.ReportIsAbout | internal/db/sms_delivery.go:359-421 | a submission report is about the newest part of the call it answers, else of its own call, else the one part with its reference in a listed state and two minutes old at most; none or several are errors |
| SmsDeliveryReports.SubmitFills | internal/db/sms_delivery.go:425-449 | into a pending part it writes the state its text names, failed for blank text, with the reply id, SIP code, cause, error text and time; a part that is not pending stays |
| SmsDeliveryReports.StatusFills | internal/db/sms_delivery.go:186-276 | a delivery report moves exactly the one part of its subscriber, device, recipient and reference a week old at most, to the state it names or else unconfirmed, unless that part is final; otherwise nothing changes |
| SmsDeliveryReports.CanonicalIs | internal/db/sms_delivery.go:287-308 | a number is its own canonical form, and text with any other character has none |
| SmsDeliveryReports.DerivedIsShown | internal/db/sms_delivery.go:512-561 | the state counted from the database is the one the declared parts' states show: failed if any failed, then delivered, unconfirmed, delivery pending, acked, partly acked, pending |
| SmsDeliveryReports.RecomputeWrites | internal/db/sms_delivery.go:485-581 | recomputing writes that state unless the message is delivered, or failed and not now delivered, and the number of acknowledged parts |
| SmsDeliveryReports.ErrorIsOfLastFailure | internal/db/sms_delivery.go:525-535 | and the error of the part that failed last, a failed message keeping its own if there is none |
| SmsDeliveryReports.AllAcked | internal/db/sms_delivery.go:332-581 | once reports have acknowledged every declared part of a new message, in any order, the message is acked and its history status 2 |
| SmsDeliveryRuns.HistoryFollows | internal/db/sms_delivery.go:457-476 | after a report the history row of its message shows the message's state, and no other row changes |
| SmsDeliveryRuns.HistoryShowsDelivery | internal/db/db.go:806-821 | the history shows 5 exactly for delivered, 3 exactly for failed, 2 exactly for acked, delivery pending and unconfirmed, and 4 for the rest |
| SmsDeliveryRuns.CanonicalShape | internal/db/sms_delivery.go:287-308 | a canonical recipient is digits with at most a leading plus, never a lone plus, and its own canonical form |
| SmsDeliveryRuns.SeparatorIgnored | internal/db/sms_delivery.go:293-302 | a separator behind the first character does not change the canonical recipient |
| SmsDeliveryTracker.Tracker.UpsertPart | internal/db/sms_delivery.go:123-179 | insert or conflict update of one part, exactly as specified, row ids staying unique |
| SmsDeliveryTracker.Tracker.FindCandidate | internal/db/sms_delivery.go:230-254 | the scan finds the one candidate, none, or more than one, over all eligible parts |
| SmsDeliveryTracker.Tracker.MarkPartStatusReport | internal/db/sms_delivery.go:186-285 | a status report moves the one part it can be about and brings its message up to date; otherwise nothing changes |
| SmsDeliveryTracker.Tracker.FindLatest | internal/db/sms_delivery.go:359-383 | the newest part with that call id on that device, if any |
| SmsDeliveryTracker.Tracker.FindByReference | internal/db/sms_delivery.go:384-414 | one recent part with that reference, none, or ambiguity |
| SmsDeliveryTracker.Tracker.Correlate | internal/db/sms_delivery.go:365-421 | replied-to call before call before reference, as specified |
| SmsDeliveryTracker.Tracker.MarkPartReport | internal/db/sms_delivery.go:332-455 | a submission report changes its part only if it is pending and brings the message up to date |
| SmsDeliveryTracker.Tracker.Count | internal/db/sms_delivery.go:505-547 | a count query counts the parts of the message in that kind of state |
| SmsDeliveryTracker.Tracker.LatestFailing | internal/db/sms_delivery.go:525-529 | the failing part touched last, if any |
| SmsDeliveryTracker.Tracker.Recompute | internal/db/sms_delivery.go:485-581 | counting, deriving and the two sticky states give exactly the specified message row |
| SmsDeliveryTracker.Tracker.SyncHistory | internal/db/sms_delivery.go:457-476 | exactly the message's own history row is rewritten |
| SmsContacts.OneContact | internal/db/db.go:1227-1259 | the messages of a thread determine its contact row |
| SmsContacts.LatestIs | internal/db/db.go:1227-1259 | a thread's latest message is the newest, of several with one time the one with the highest id |
| SmsContacts.PeerIs | internal/db/db.go:836-844 | a blank peer is filled in with the recipient of an outgoing message, if there is one, and with the sender of any other |
| SmsContacts.SaveIsExactIff | internal/db/db.go:935-970 | saving a message keeps its thread's row right exactly when the message is the latest of the thread |
| SmsContacts.ScanKeepsExact | internal/db/db.go:1006-1021 | scanning on to a later message keeps the whole index right |
| SmsContacts.RebuildAgrees | internal/db/db.go:1220-1272 | once the index is right, rebuilding any thread directly changes nothing |
| SmsContacts.DeleteKeepsExact | internal/db/db.go:1297-1313 | deleting a message and rebuilding its thread keeps every addressable thread right |
| SmsContacts.DeleteThreadKeepsExact | internal/db/db.go:1328-1338 | so does deleting a whole thread with its row |
| SmsContactStore.PageAdvances | internal/db/db.go:994-1029 | moving the cursor to a page's last row passes exactly that page, all earlier rows coming before it |
| SmsContactStore.ContactStore.FetchPage | internal/db/db.go:994-1000 | a page is the first rows past the cursor, in order, and all of them if fewer than the limit |
| SmsContactStore.ContactStore.UpsertContactFromSMS | internal/db/db.go:935-970 | the row takes the message's data, and one more unread if it is incoming and unread |
| SmsContactStore.ContactStore.ProcessPage | internal/db/db.go:1005-1023 | a page's transaction fills in its peers and leaves the index right for everything scanned |
| SmsContactStore.ContactStore.BackfillPeerAndContacts | internal/db/db.go:972-1053 | the paged backfill ends for every page size; if it was needed, every peer that can be told is filled in and the index is right for every thread, and otherwise nothing changes |
| SmsContactStore.ContactStore.RebuildContact | internal/db/db.go:1220-1272 | one thread is recomputed from its latest message and its unread count, or its row removed |
| SmsContactStore.ContactStore.DeleteByID | internal/db/db.go:1287-1315 | a missing id changes nothing; otherwise that message goes, its thread is rebuilt and the index stays right |
| SmsContactStore.ContactStore.DeleteByIMSIAndPeer | internal/db/db.go:1317-1340 | a thread goes with its row, nothing happens for an empty one, and the index stays right |
| IdentityFixedPoint.KeyShape | internal/config/imei.go:8-20 | an identity key is fourteen digits or absent, and is its own key |
| IdentityFixedPoint.TrimmedIMEI | internal/device/identity_resolver.go:69-73 | trimming an IMEI does not change its key |
| IdentityRules.KeyIs | internal/config/imei.go:8-20 | the key of digits is the first fourteen, and none if there are fewer |
| IdentityRules.OthersAreSkipped | internal/config/imei.go:8-20 | characters between the digits change nothing |
| DeviceIdentity.RanksInOrder | internal/device/identity_resolver.go:137-152 | qmi ranks before mbim, ncm, ecm and rndis in that order, and the modes that rank last are exactly those that are none of the five up to case and blanks |
| DeviceIdentity.RankIgnoresCase | internal/device/identity_resolver.go:138 | a mode's case, upper or lower, and the blanks around it do not matter |
| DeviceIdentity.DedupeIs | internal/device/identity_resolver.go:116-135 | each IMEI stays once, with the first of its best-ranked compositions, none is lost, and modems without an IMEI stay in order |
| DeviceIdentity.ResolutionPartitions | internal/device/identity_resolver.go:29-96 | matched, unmatched and degraded together hold every deduplicated modem as often as it was there |
| DeviceIdentity.LeftOversAreTyped | internal/device/identity_resolver.go:52-88 | unmatched modems have an IMEI no configuration carries, degraded ones have none |
| DeviceIdentity.PairsAreJustified | internal/device/identity_resolver.go:59-88 | a configuration with an IMEI is paired only on an equal key; one without only on its path, and is to get the modem's IMEI if it has one |
| DeviceIdentity.MatchingIsMaximal | internal/device/identity_resolver.go:29-111 | no left-over modem could still take an offline configuration |
| DeviceIdentity.NoTakeoverAcrossPorts | internal/device/identity_resolver.go:154-163 | with both USB paths known, a configuration without IMEI is paired only in its own port |
| IdentityRules.InPlaceIff | internal/device/identity_resolver.go:157-170 | the path decides by the USB port if both sides know it, else by an equal control node or interface that is not blank |
| IdentityRules.PathPairs | internal/device/identity_resolver.go:66-111 | configurations without IMEI are paired only with modems in their place, and stay offline only if no left-over modem is there |
| IdentityRules.BestComposition | internal/device/identity_resolver.go:116-135 | of several compositions of one modem the first with the best back-end mode stays |
| IdentityRules.IMEIDecides | internal/device/identity_resolver.go:51-64 | a modem whose IMEI a configuration carries goes to the first that does |
| IdentityRules.TakesTheFirst | internal/device/identity_resolver.go:98-111 | of several free configurations in its place a modem takes the first |
| IdentityRules.IMEIChoosesFirst | internal/device/identity_resolver.go:66-88 | no modem with an IMEI is left over in the place of a configuration that one without got |
| IdentityFixedPoint.MatchedOnceOrOffline | internal/device/identity_resolver.go:51-95 | with distinct ids no configuration is paired twice, and the offline ones are exactly the unpaired |
| IdentityFixedPoint.BackfillIsFixedPoint | internal/device/identity_resolver.go:29-110 | with distinct ids, writing the reported IMEIs back and resolving again gives the same pairs, no further IMEI to write, and the same unmatched, offline and degraded lists |
| IdentityResolver.DedupeCompositions | internal/device/identity_resolver.go:116-135 | the loop with its index of places computes the specified list |
| IdentityResolver.IndexConfigs | internal/device/identity_resolver.go:35-45 | the map holds the first configuration of each key, the list those without one |
| IdentityResolver.TakeLegacyConfig | internal/device/identity_resolver.go:98-111 | the first unused configuration without IMEI whose path matches is taken and marked used |
| IdentityResolver.MatchByIMEI | internal/device/identity_resolver.go:51-64 | round one computes the specified pairs, used ids and left-overs |
| IdentityResolver.TakeByPath | internal/device/identity_resolver.go:66-88 | rounds two and three compute the specified pairs, left-overs and used ids |
| IdentityResolver.CollectOffline | internal/device/identity_resolver.go:90-94 | the configurations with unused ids, in order |
| IdentityResolver.ResolveDeviceIdentities | internal/device/identity_resolver.go:29-96 | the three loops compute the specified resolution |
| SwitchJournal.BlockingIsUnique | internal/db/esim_switch_journal.go:457-461 | a device has at most one open operation |
| SwitchJournalRuns.StepKeeps | internal/db/esim_switch_journal.go:136-347 | every create, transition and claim keeps one open operation per device, acceptance fitting the phase, and terminal exactly for the two terminal phases |
| SwitchJournalRuns.RunKeepsInv | internal/db/esim_switch_journal.go:136-435 | so they hold in every state of every run |
| SwitchJournalRuns.ErrorsChangeNothing | internal/db/esim_switch_journal.go:136-347 | every error leaves every row as it was |
| SwitchJournalRuns.Born | internal/db/esim_switch_journal.go:152-178 | a row appears only by a creation for a device with no open operation, in the intent, with version 1, unknown acceptance and open |
| SwitchJournalRuns.VersionCountsUpdates | internal/db/esim_switch_journal.go:238-324 | over any stretch of a run the version grows by the number of successful updates, and what the operation is about never changes |
| SwitchJournalRuns.SameVersionSucceedsOnce | internal/db/esim_switch_journal.go:248-264 | of any two updates expecting the same version at most one succeeds |
| SwitchJournalRuns.TerminalNeverChanges | internal/db/esim_switch_journal.go:248-257 | a terminal row never changes again |
| SwitchJournalRuns.SucceededThroughRestoring | internal/db/esim_switch_journal.go:374-391 | succeeded is reached only through accepted and then restoring |
| SwitchJournalRuns.FailedOnlyFromIntent | internal/db/esim_switch_journal.go:374-391 | an operation that failed before the physical switch was never in any phase but the intent |
| SwitchJournalRuns.OldOwnerIsFenced | internal/db/esim_switch_journal.go:282-331 | after another owner's claim every well-formed update of the old owner is stale until it claims again |
| SwitchJournalRuns.LastClaimantIsRefused | internal/db/esim_switch_journal.go:313-317 | whoever claimed last cannot claim again before another owner does |
| SwitchJournalRules.TransitionIff | internal/db/esim_switch_journal.go:212-280 | a transition goes through exactly if the open row stands as expected, the move is one of twelve, the acceptance befits the phase and the code is listed, and writes exactly the given columns |
| SwitchJournalRules.TransitionErrors | internal/db/esim_switch_journal.go:212-280 | it is invalid exactly if malformed, and any other failure is stale |
| SwitchJournalRules.ClaimIff | internal/db/esim_switch_journal.go:282-347 | a claim goes through exactly if the row stands as expected and the claimant was not the last to claim, and writes exactly owner, generation, both marks, version and time |
| SwitchJournalRules.CreateIff | internal/db/esim_switch_journal.go:136-179 | a creation goes through exactly if its fields are filled in, the id is new and the device has no open operation, and writes exactly that row |
| SwitchJournalRules.OrdinarySwitch | internal/db/esim_switch_journal.go:374-391 | undisturbed, an owner takes a new operation through teardown, apply, accepted and restoring to succeeded, and the device is free again |
| SwitchJournalStore.JournalStore.Create | internal/db/esim_switch_journal.go:136-179 | validation, the two unique constraints and the insert, exactly as specified |
| SwitchJournalStore.JournalStore.GetBlockingByDevice | internal/db/esim_switch_journal.go:181-210 | an open operation of the device, not found exactly if there is none, invalid exactly for a blank device |
| SwitchJournalStore.JournalStore.Transition | internal/db/esim_switch_journal.go:212-280 | validation, compare and swap, exactly as specified |
| SwitchJournalStore.JournalStore.ClaimForReconciliation | internal/db/esim_switch_journal.go:282-347 | validation, compare, the last claimant's exclusion and the swap, exactly as specified |
| SwitchReconciler.RestoreRestores | internal/device/pool_esim_switch_reconcile.go:175-214 | a restore that succeeds leaves radio, network and VoWiFi as the operation saved them, and restoring a restored device changes nothing |
| SwitchReconciler.EpochIsTrimmed | internal/device/pool_esim_switch.go:97-103 | an owner epoch has no blanks around it, so the trimmed one the journal stores is the one the pool compares |
| SwitchPlan.SameDigits | internal/device/pool_esim_switch.go:1034-1038 | ICCIDs of digits are the same exactly if they are equal |
| SwitchPlan.SpacesIgnored | internal/device/pool_esim_switch.go:1034-1038 | a space anywhere changes no identity |
| SwitchPlan.CaseIgnored | internal/device/pool_esim_switch.go:1034-1038 | nor does case |
| SwitchPlan.FillIgnored | internal/device/pool_esim_switch.go:1034-1038 | nor an F at the end, behind anything but a blank |
| SwitchPlan.NothingMatchesBlank | internal/device/pool_esim_switch_reconcile.go:91-95 | a blank identity, or one of nothing but fill, is the same as none |
| SwitchPlan.RestoreSucceedsIff | internal/device/pool_esim_switch_reconcile.go:175-214 | a restore succeeds exactly when each call it needs does, and changes no setting before those in front of it are right |
| SwitchPlan.PassFollowsPlan | internal/device/pool_esim_switch_reconcile.go:73-135 | whatever others do to the journal, a pass asks for the moves its operation still has to make, in order and each after the last was granted, stops at a refused one or before succeeded if the device cannot be restored, and is done exactly if it made them all |
| SwitchPlan.AcceptedExactlyOnTarget | internal/device/pool_esim_switch_reconcile.go:82-104 | over an operation whose outcome is open, with ICCIDs of digits, a pass asks for accepted exactly when the SIM reports the target, and else for needs_reconciliation unless it is there or the SIM cannot be read |
| SwitchPlan.RefusedAtOnce | internal/device/pool_esim_switch_reconcile.go:29-48 | a pass that may not start touches nothing and says invalid, unavailable or stale as the reason demands |
| SwitchPlan.NothingToClaim | internal/device/pool_esim_switch_reconcile.go:49-71 | without an open operation, or with its claim refused, a pass is done; no claim is ever invalid |
| SwitchPlan.ReplacedWorkerIsRefused | internal/device/pool_esim_switch.go:376-392 | a worker that has been replaced has every request refused as stale and writes no transition |
| SwitchRecovery.ForeignUpdateIsNoticed | internal/device/pool_esim_switch_reconcile.go:137-157 | an update by anyone else since the snapshot makes the next request stale |
| SwitchRecovery.RequestsAreAdmissible | internal/device/pool_esim_switch_reconcile.go:29-173 | whatever others do in between, every requested transition is one the journal admits, none is refused as invalid, and accepted is requested only after the SIM reported the target, by the comparison `SwitchPlan` pins down |
| SwitchCompletion.PassAlone | internal/device/pool_esim_switch_reconcile.go:29-173 | an undisturbed pass ends in the phase the situation calls for, with the device restored if that is succeeded, and frees the device exactly when the phase was intent, accepted or restoring or the SIM reports the target |
| SwitchCompletion.SecondPassDoesNothing | internal/device/pool_esim_switch_reconcile.go:56-71 | once a worker has claimed an operation, and while no other owner claims it, a later pass that finds that operation or none asks for nothing and changes neither journal nor device, however the first pass ended and whatever others did during it, since and meanwhile |
| SwitchCompletion.SecondPassAlone | internal/device/pool_esim_switch_reconcile.go:56-71 | with nobody else about, a second pass straight after the first changes neither journal nor device |
| SwitchDriver.Modem.RestoreReconciled | internal/device/pool_esim_switch_reconcile.go:175-214 | the calls in their order make the specified change, up to the first failure |
| SwitchDriver.Driver.TransitionReconciled | internal/device/pool_esim_switch_reconcile.go:137-157 | a request is refused by the pool or answered by the journal, after what others did |
| SwitchDriver.Driver.MarkReconciledAmbiguous | internal/device/pool_esim_switch_reconcile.go:159-173 | an operation already parked stays; any other is parked, keeping an accepted acceptance |
| SwitchDriver.Driver.FindAndClaim | internal/device/pool_esim_switch_reconcile.go:49-71 | finds the open operation and claims it from what was read |
| SwitchDriver.Driver.Recover | internal/device/pool_esim_switch_reconcile.go:73-135 | the driver after its claim makes exactly the specified pass |
| SwitchDriver.Driver.ReconcileForWorker | internal/device/pool_esim_switch_reconcile.go:29-135 | the whole driver makes exactly the specified pass on journal and device |
| LoginLimiter.TableIsBounded | internal/api/login_rate_limit.go:57-75 | in every run the table never exceeds its capacity and no entry counts more than the limit |
| LoginLimiter.AllowIff | internal/api/login_rate_limit.go:46-76 | an attempt is granted exactly if the peer has attempts left in its window, or has none and the table has room; it is counted under the trimmed name, and every other entry that has not run out stays |
| LoginLimiter.GrantsAreBounded | internal/api/login_rate_limit.go:46-76 | in any half-open interval as long as the window a peer is granted at most twice the limit less one |
| LoginLimiter.BoundIsReached | internal/api/login_rate_limit.go:46-76 | for every limit and every window of two instants or more some run reaches that bound |
| LoginLimiter.WindowIsBounded | internal/api/login_rate_limit.go:63-75 | in the window an attempt opens, that peer is granted at most the limit |
| LoginLimiter.Limiter.constructor | internal/api/login_rate_limit.go:28-44 | positive settings are kept, others are two minutes, ten attempts and 4096 peers, and the table is empty |
| LoginLimiter.Limiter.Prune | internal/api/login_rate_limit.go:57-61 | exactly the entries whose window has run out go |
| LoginLimiter.Limiter.TryLogin | internal/api/login_rate_limit.go:46-76 | an attempt makes exactly the specified change of the table |
| LogTail.SplitConcat | internal/api/server.go:901 | splitting a concatenation joins the last line of the one to the first of the other |
| LogTail.SplitRoundTrip | internal/api/server.go:901 | the lines put together again are the text, and none has a newline in it |
| LogTail.LinesAre | internal/api/server.go:901-904 | blank lines are dropped from the end only, up to the last that is not blank |
| LogTail.ReadsBlocks | internal/api/server.go:848-894 | whole blocks of 32 KiB are read from the end, up to the first that makes enough newlines or bytes; an unset cap is one mebibyte |
| LogTail.TailsAgreeIff | internal/api/server.go:848-909 | the block-wise tail is the plain tail exactly when the part read starts the file, holds more lines than asked for, holds as many and starts at a line, or the file is blank |
| LogTail.TailsAgree | internal/api/server.go:877-909 | with at most one trailing blank line and the scan not ended by the byte cap the two are equal, for every file and number of lines |
| LogTail.LongLineIsCut | internal/api/server.go:877-894 | every line longer than a block followed by two newlines comes back cut off |
| LogTail.ReadBlocks | internal/api/server.go:871-894 | the chunks read backwards are together the end of the file from where the scan stopped |
| LogTail.TrimmedLines | internal/api/server.go:901-904 | splitting and dropping trailing blanks yields the lines of the text |
| LogTail.ReadLastLines | internal/api/server.go:848-909 | the whole reading returns the specified tail |

## Left out

- Logging, statistics, snapshots and the `Active`, `IsIdle` and `WaitIdle` queries of the arbiter: they change nothing.
- Wake-ups of the arbiter's waiters: progress is stated as grantable, not as granted, because ageing can change the selection between two looks without a signal.
- Panics in a SIM authentication probe, and the reason and error texts of the readiness gate: they decide nothing in it.
- Storage faults of the database: every transaction is taken to commit or to leave the tables unchanged.
- Text is ASCII: Unicode blanks and case mappings are not modelled.
- The SHA-256 assembly key is the tuple it hashes, so collisions do not exist here; lookups of ICCID and phone number are parameters.
- Wrap-around of 64-bit versions, generations and ticket numbers: they are unbounded here.
- Create: which of two violated unique constraints SQLite names first is a parameter, so the error for a repeated operation id on a busy device is either of the two.
- GetBlockingByDevice: the order by creation time is kept in the method but decides nothing, because a device has at most one open operation.
- ReconcileForWorker: a failed device call is taken to leave the device as it was, and a successful one to do what it says; the registered workers, the SIM's answer and everything other processes do are parameters.
- Next: creating a delivery again under an existing id and overwriting a delivery's state directly are no steps of the delivery runs, because both reset the state at will.
- MessagesOnlyClimb: only messages that declare a positive number of parts, with part numbers in that range; `NeverFallsIff` says exactly when a new message climbs, whatever it declares, but only of messages no part of which arrived before the creation.
- Contact rows deleted by ICCID and the time a contact row was last written: only deletion by id and by IMSI and peer is claimed to keep the index right.
- BackfillPeerAndContacts: new messages saved while the backfill runs are not modelled.
- ReadLastLines: the file is a fixed text; a file that shrinks or grows while it is read, and read errors, are not modelled.
- Resetting a transport, reading a SIM, switching radio modes and the rest of the modem backends: foreign calls with arbitrary results.
- HTTP handlers, notification settings, discovery, traffic counting, USSD, calls and audio: plumbing or easier members.
