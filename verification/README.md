# The fingerprint daemon, modelled and proved

This project models the fingerprint daemon of sailfish-fpd-community: `FPDCommunity`, the state
machine behind the D-Bus service `org.sailfishos.fingerprint1`, and `AndroidFP`, the adapter that
turns the callbacks of the Android fingerprint HAL into notices for the daemon.

`dafny verify dfyconfig.toml` checks everything.

## How it is built

| file | content |
|---|---|
| Vocabulary.dfy | states, replies, D-Bus signals, adapter notices, HAL requests and callbacks |
| Index.dfy | the id-to-name index: key order, decimal rendering, reconciliation with the sensor's report |
| AdapterSpec.dfy, AndroidFP.dfy | the adapter as functions on values, and as the class with its fields |
| DaemonSpec.dfy, FPDCommunity.dfy | the daemon as functions on values, and as the class with its fields |
| Runs.dfy, System.dfy | runs of any step function; the daemon, its event queue, the HAL, the clock and restarts as one step function |
| EnrolProgress.dfy, EnrolValues.dfy, Removals.dfy | what the adapter reports for whole streams of callbacks |
| TraceGrammar.dfy, Sessions.dfy, CancelTimer.dfy, Acquisition.dfy | what holds on every run, without any assumption about the HAL |
| Speech.dfy, Streams.dfy, ProgressBar.dfy, Replies.dfy | what each event says, asks, posts and answers, told from its cause; over whole runs, which signal stands for which event |
| RequestShape.dfy | the common shape of the five requests that start an operation |
| Frames.dfy | what each event leaves alone |
| Agreement.dfy, AgreementLimits.dfy, Observers.dfy | index and sensor store; where they part; what a listening client knows |
| Persistence.dfy, UniqueNames.dfy, KeyZero.dfy | the database across restarts; unique names; the id 0 |
| Scenarios.dfy | runs from the start of a process that show what does not hold |
| MakePath.dfy | the recursive creation of the store directories |

The two classes have the fields of the C++ classes and one method for each C++ method; every method is
proved to take the object from its old value to the one that a function of AdapterSpec or DaemonSpec
gives. A run is a list of events over those same functions: a client request, a HAL callback (it changes
the adapter at once and puts its notices in the queue), the delivery of the oldest notice, timer expiry,
passing time, a restart. Whatever the HAL and the file system answer is part of the event, so a step is a
function, and a theorem about all runs is a theorem about all lists of events. A refused HAL request
reports its failure inside the request, as a nested call does. The traces of signals and HAL requests
belong to one daemon process and start anew with a restart; the database and the sensor's templates
survive it. `System.Power` is a process that has just started, on any database and any sensor store.
The table below names the methods with a search, a loop or a decision of their own; the remaining ones
refine their specification function in the same way.

## What the sensor is assumed to do

Nothing, unless a lemma asks for it. `Agreement.HalContract` is the assumption where one is needed: one
operation at a time, new non-zero ids, finished enrolments, clears that count down over the stored
templates, enumerations that report exactly the stored templates, no callback for an operation that is not
under way. A cancelled operation may still deliver results. `Agreement.Patient` is the assumption on the
order of requests: no removal is asked for while the HAL is at one; `Agreement.Contract` is both.
`Agreement.ReadRight` is weaker: the HAL keeps its contract and no removal callback is misread
(`Agreement.ContractReadsRight`). `Observers.RemovesStored`, needed for one theorem about the listening
client, says that the HAL accepts the removal of a stored template only.

## What does not hold

Some statements one would expect are false of the code. Each is stated with the exact condition under which
it holds on a whole run or, for the adapter, a whole stream of callbacks.

- Index and sensor can part although the sensor keeps its contract: the adapter records the id to be
  removed before it asks the HAL, so a removal or clear that the HAL refuses because it is busy makes it
  misread the end of the operation under way. They agree throughout if and only if no final removal
  callback is misread (`AgreementLimits.AgreementHoldsIff`); what the adapter expects can be read off the
  requests (`AgreementLimits.RemovingIsLastAsked`), and `Scenarios.IndexIsEmptied` is a run
  that parts them.
- An idle daemon can be locked: Verify and Remove take the lock after the refused request has already
  unlocked it (`Sessions.IdleOwnedIffLeak`, `Scenarios.IdleIsLocked`).
- A running 30 s timer need not mean an identification: the timer outlives one that the HAL refuses, and
  one that ends with an error or a late notice, and then ends whatever runs. It means one if and only if
  the request that armed it was accepted and nothing has settled since
  (`CancelTimer.RunningTimerIdentifiesIff`, `CancelTimer.StaleTimerEndsEnrolment`).
- Two ids can share a name: a verification that the sensor completes is entered into the index under the
  pending name, normally the empty one (`Scenarios.EmptyNameIsShared`), and a load can make up a name that the
  file has on another id (`Scenarios.LoadClashes`). Names are unique throughout if and only if no delivery
  clashes (`UniqueNames.NamesAreUniqueIff`, `UniqueNames.OwnNamesAreUniqueIff`).
- A client that follows Added and Removed can lose track. On any run it knows the list throughout if and
  only if no delivery misleads it (`Observers.ObserverKnowsTheListIff`): no success for an id that the index
  already has, which replaces a name without a Removed signal (`Observers.ReusedIdMisleads`,
  `Scenarios.ClientIsMisled`); no removal of an absent id while some id has the empty name, which is
  announced as the removal of the empty name (`Observers.RemoveTwiceMisleads`); and no load that changes
  the list. Where the HAL keeps its contract and no removal callback is misread, only the removal is
  left from the load on (`Observers.LoadedObserverKnowsIff`).
- A removal callback that counts down to 0 after the end of a removal is taken for a clear
  (`Removals.RemovalCompletesOnce`).
- A first progress counter of 2^32-1 wraps the progress baseline to 0 (`EnrolProgress.EnrolmentPercentages`).

Where the header's comments and the code differ, the model follows the code: Verify answers a foreign
caller with ALREADY_IDLE, which src/fpdcommunity.h describes as the reply to an Abort while idle.

## Model

| member | source | states |
|---|---|---|
| Agreement.IndexAgreesWithSensor | src/fpdcommunity.cpp:409-418 | under the HAL contract, at every point after the first load, through aborts, late notices and restarts, delivering the queue makes the index's ids the sensor's templates plus those a running clear has deleted; with nothing queued and no clear they are equal |
| Agreement.StepAgrees | src/androidfp.cpp:156-196 | under the contract and with patient clients every event keeps the invariant that links index, queue, adapter and sensor, and misreads nothing |
| Agreement.StepAgreedIff | src/androidfp.cpp:156-196 | under the HAL contract alone an event keeps the agreement if and only if it is no misread final removal callback |
| Agreement.RemovalCallbackAgreesIff | src/androidfp.cpp:186-196 | for every state of adapter, HAL and store, a removal callback keeps the agreement if and only if it is not final or what the adapter takes to be removed costs the index just what the sensor loses |
| Agreement.NoticeKeys | src/fpdcommunity.cpp:409-517 | each slot acts on the ids of the index exactly as its notice says, and not on the adapter |
| AgreementLimits.AgreementHoldsIff | src/androidfp.cpp:105-196 | for every run under the HAL contract alone, whatever clients ask for and when: index and sensor agree at every point, up to the queue, if and only if no final removal callback is misread |
| AgreementLimits.RemovingIsLastAsked | src/androidfp.cpp:105-113 | the id that the adapter takes to be under removal is that of the last removal request that reached the HAL in this process, accepted or refused, unless its final callback has come |
| AgreementLimits.ImpatientRequestAgreesIff | src/androidfp.cpp:105-113 | after a removal or clear request that the HAL refuses during another removal or clear, any lawful removal callback keeps the agreement if and only if it is not misread under the refused request |
| AgreementLimits.ImpatientRequestCases | src/androidfp.cpp:105-148 | the same in plain cases at the end of the operation under way: during a removal only a request for the same id, or a clear of a store with nothing else, is harmless; during a clear only a clear, or an empty store, or the one template that request and last callback both name |
| AgreementLimits.RefusedClearEmptiesIndex | src/androidfp.cpp:140-148 | in every settled world, remove, abort and a refused clear empty the index while the sensor loses one template |
| AgreementLimits.RefusedClearIsLawful | src/androidfp.cpp:140-148 | the HAL keeps its contract throughout that run |
| Agreement.ContractReadsRight | src/androidfp.cpp:186-196 | with patient clients no run under the HAL contract misreads a removal callback |
| Scenarios.IndexIsEmptied | src/androidfp.cpp:140-148 | a run from the start, lawful for the HAL, that ends with an empty index and a template in the sensor |
| Scenarios.IdleIsLocked | src/fpdcommunity.cpp:336-341 | a run from the start under the contract that ends idle and locked |
| Scenarios.LoadClashes | src/fpdcommunity.cpp:203-210 | a run from the start under the contract whose load gives two ids one made-up name |
| Scenarios.EmptyNameIsShared | src/fpdcommunity.cpp:397-418 | a run from the start under the contract after which two ids have the empty name |
| Scenarios.ClientIsMisled | src/fpdcommunity.cpp:409-418 | a run from the start, lawful for the HAL, whose next delivery misleads every client |
| Observers.ObserverKnowsTheListIff | src/fpdcommunity.cpp:409-517 | on any run, from any point: a client that takes GetAll and applies every Added and Removed has GetAll's multiset at every later point of the process if and only if no delivery is a success for an id already in the index, a removal of an absent id while some id has the empty name, or a load that changes the multiset |
| Observers.LoadedObserverKnowsIff | src/fpdcommunity.cpp:472-488 | where the HAL keeps its contract and no removal callback is misread, from the load on, only such a removal can mislead the client |
| Observers.ObserverKnowsTheList | src/fpdcommunity.cpp:296-300 | under the contract with patient clients, and where the HAL accepts the removal of stored templates only, a client that starts after the load always has GetAll's multiset, through enrolments, removals and clears |
| Observers.RemoveTwiceMisleads | src/fpdcommunity.cpp:472-488 | under the contract, removing the same finger twice around an abort misleads every client in this way, from every settled world where another id has the empty name |
| Observers.InOrderAlong | src/fpdcommunity.cpp:409-418 | where the HAL keeps its contract and nothing is misread every success still queued is for an id new to the index; with patient clients and removals accepted for stored templates only, every queued removal is of a present id |
| Observers.StepTellsIff | src/fpdcommunity.cpp:409-517 | in every world, an event's Added and Removed signals are exactly its change of the list if and only if the event is no such delivery |
| Observers.ReusedIdMisleads | src/fpdcommunity.cpp:409-418 | lawful for the HAL, from every settled world with two ids: a clear interrupted by a refused removal, then an enrolment under an id that the index still has, misleads every client |
| TraceGrammar.EveryRunSpeaks | src/fpdcommunity.cpp:519-530 | on every run announced states alternate busy/Idle starting with Enumerating, the last is the current one and never an unused one, each announced Idle directly follows Aborted, Failed, Identified or ListChanged, and HAL requests match busy states one to one in order |
| TraceGrammar.RejectedRequestsDoNothing | src/fpdcommunity.cpp:218-378 | a request that does not reach the HAL changes nothing at all; Started is replied exactly when it does |
| TraceGrammar.ReachingRequestsAskOnce | src/fpdcommunity.cpp:235-241 | a request that reaches the HAL announces its state and issues exactly one request of the matching kind |
| Streams.IdentificationsAreNamed | src/fpdcommunity.cpp:490-501 | on every run the Identified signals of a process are, in order and one for one, the recognized ids delivered to it, each with its name in the index at that moment, or a made-up one exactly if it has none there |
| Streams.VerificationsAreReported | src/fpdcommunity.cpp:397-407 | on every run the Verified signals of a process are, in order and one for one, the progresses delivered to a verification; each directly follows that progress and directly precedes Aborted |
| Streams.CancellationsReachTheHal | src/androidfp.cpp:115-119 | on every run the cancel requests of a process to the HAL are, in order and one for one, the accepted Aborts, the progresses delivered to a verification and the timer expiries |
| Streams.FailuresAreReported | src/fpdcommunity.cpp:420-432 | on every run the ErrorInfo signals of a process are, in order and one for one, its failures, each with its own message: refused first requests, refused client requests, delivered failures |
| Streams.EnrolmentsAreNamed | src/fpdcommunity.cpp:409-418 | on every run the Added signals of a process are, in order and one for one, the successes delivered to it, each under the name of the last Enroll that reached the HAL and is not used up, or the empty one |
| Streams.SuccessEntersPendingName | src/fpdcommunity.cpp:409-418 | on every run a delivered success enters its id under that name and changes nothing else in the index |
| Streams.NoticesArriveInOrder | src/androidfp.cpp:156-248 | on every run the notices delivered to a process, followed by those queued, are exactly what the callbacks posted, in order, with every message and id, up to progress values |
| Streams.SignalsAreSaid | src/fpdcommunity.cpp:218-530 | on every run the whole signal trace of a process is the concatenation of what each event says by its cause, state and notice |
| Streams.RequestsAreAsked | src/androidfp.cpp:71-184 | on every run the whole log of HAL requests is the concatenation of what each event asks |
| Speech.StepSays | src/fpdcommunity.cpp:218-530 | each event adds exactly the signals of a reference that is told from causes and uses neither slots nor requests of the specification |
| Speech.StepAsks | src/androidfp.cpp:71-184 | each event adds exactly the HAL requests of such a reference |
| Speech.StepPosts | src/androidfp.cpp:156-248 | each callback appends exactly the notices of such a reference, and a delivery takes the oldest |
| Replies.RepliesMean | src/fpdcommunity.cpp:218-378 | every reply of every request is given if and only if its reasons hold: lock, state, listed name, empty index, name on id 0 |
| Sessions.OwnerIsolation | src/fpdcommunity.cpp:223-227 | deleting every request of a client other than the lock's owner leaves daemon, database, HAL requests, signals, queue and sensor identical, and every remaining event meets the same world |
| Sessions.ForeignDoesNothing | src/fpdcommunity.cpp:307-311 | a request against a foreign lock changes nothing and is answered as busy or idle |
| Sessions.SessionOrigin | src/fpdcommunity.cpp:235-241 | a busy state other than Enumerating goes back to one accepted request of that kind by the lock's owner, with state and owner unchanged since |
| Sessions.StepOwner | src/fpdcommunity.cpp:519-530 | for every event: a busy state and its owner are as before or begun by this request, and an idle owner is as before or left by a refused Verify or Remove |
| Sessions.EnumeratingIsUnowned | src/fpdcommunity.cpp:388-395 | nobody owns the lock while fingerprints are enumerated |
| Sessions.IdleOwnedIffLeak | src/fpdcommunity.cpp:336-341 | an idle daemon has an owner if and only if a Verify or Remove was refused by the HAL and nothing has returned to Idle since |
| Sessions.AcceptedRequestsLeaveIdleFree | src/fpdcommunity.cpp:374-377 | if the HAL accepts every Verify and Remove, an idle daemon has no owner |
| CancelTimer.TimerRunsIffArmed | src/fpdcommunity.cpp:31-34 | the timer runs if and only if an identification started and none of accepted Abort, authentication, verification, expiry or restart followed; its deadline is 30 s after the start |
| CancelTimer.StepTimer | src/fpdcommunity.cpp:380-386 | no other event than these starts, stops or moves the timer |
| CancelTimer.IdentificationIsBounded | src/fpdcommunity.cpp:420-432 | with prompt timers an identification is within 30 s of the request that started it, whatever was not recognized, and its deadline never moved |
| CancelTimer.ExpiryEndsAnything | src/fpdcommunity.cpp:503-509 | an expiry emits Failed and returns to a free Idle from any state |
| CancelTimer.RunningTimerIdentifiesIff | src/fpdcommunity.cpp:420-432 | a running timer means an identification if and only if the HAL accepted the request that armed it and nothing has returned the daemon to Idle since; in every other case it is stale |
| CancelTimer.StaleTimerEndsEnrolment | src/fpdcommunity.cpp:503-509 | in every idle world whose timer runs, the next enrolment fails at the timer's deadline |
| CancelTimer.RefusalLeavesTimer | src/fpdcommunity.cpp:265-269 | a refused identification returns to Idle with its timer running |
| CancelTimer.ErrorLeavesTimer | src/fpdcommunity.cpp:420-432 | so does an accepted one that a hardware error ends |
| Acquisition.AcquisitionsAreDestuttered | src/fpdcommunity.cpp:434-470 | on every run the acquisition signals are the delivered codes, translated by the table of the seven codes, with consecutive duplicates dropped, starting with the first; the last is the remembered one |
| Acquisition.EachCodeHasItsImage | src/fpdcommunity.cpp:439-469 | for each of the codes 0 to 6 and all others, the image that the daemon remembers on delivery, and a signal of it exactly if it differs from the last |
| Acquisition.DestutterRepeatsNothing | src/fpdcommunity.cpp:466-469 | the signalled list never repeats directly and ends like the delivered one |
| Acquisition.DestutterKeepsDistinct | src/fpdcommunity.cpp:466-469 | where consecutive codes differ nothing is dropped |
| Persistence.DatabaseFollowsIndex | src/fpdcommunity.cpp:160-174 | with successful writes the database decodes to the index at every point from the first save on |
| Persistence.FileIsLastSaved | src/fpdcommunity.cpp:160-174 | on every run, whether writes fail or not, the file holds the index as it was after the last change whose write succeeded |
| Persistence.UnreadableLoadForgetsNames | src/fpdcommunity.cpp:176-216 | a load that cannot read the file, or finds none, gives every reported id a made-up name |
| Persistence.RestartRestoresIndex | src/fpdcommunity.cpp:176-216 | a restart whose enumeration is loaded first brings back exactly the enumerated ids, with the names from before or made-up ones |
| Persistence.RestartRestoresSensor | src/fpdcommunity.cpp:192-210 | under the HAL contract alone the ids so restored are the templates that the sensor held when its enumeration ended |
| Persistence.NameIsStable | src/fpdcommunity.cpp:409-418 | on every run that is lawful for the HAL, misreads no removal callback and writes successfully, an id keeps its name, in index and file, for as long as the sensor keeps its template, through all other events and restarts, if each process loads before it changes its index |
| Persistence.NonIndexKeeps | src/fpdcommunity.cpp:397-470 | no event but a delivered success, removal or enumeration, or a restart, touches the index or its file |
| Persistence.LoadTwiceIsOnce | src/fpdcommunity.cpp:176-216 | a second load under the same circumstances changes nothing |
| Index.ReconcileInTwo | src/fpdcommunity.cpp:192-210 | dropping unreported ids and then adding unknown ones is the reconciliation with the report |
| Index.UnknownInjective | src/fpdcommunity.cpp:208-208 | made-up names of different ids differ |
| Index.UnknownNameReads | src/fpdcommunity.cpp:208-208 | a made-up name is Unknown, a space, and the id in decimal digits without leading zeros |
| UniqueNames.NamesAreUniqueIff | src/fpdcommunity.cpp:192-216 | from any database without shared names, for every run: no two ids ever share a name if and only if no success is delivered while the pending name is on another id and no load makes up a name that the file has on another reported id |
| UniqueNames.OwnNamesAreUniqueIff | src/fpdcommunity.cpp:409-418 | with made-up names only on their own ids in the file and none enrolled: no two ids ever share a name if and only if no success is delivered while the pending name is on another id |
| UniqueNames.NamesStayInjective | src/fpdcommunity.cpp:229-233 | so it is whenever successes are delivered while enrolling, because Enroll refuses names in use |
| UniqueNames.VerifyEntersPendingName | src/fpdcommunity.cpp:397-418 | a verification that the sensor completes enters the new id under the pending name |
| UniqueNames.TwoVerificationsAreLawful | src/fpdcommunity.cpp:397-418 | the HAL keeps its contract through two such verifications under new ids |
| UniqueNames.TwoVerificationsShareName | src/fpdcommunity.cpp:397-418 | two such verifications leave two ids under the empty name |
| KeyZero.ZeroIsNeverAKey | src/fpdcommunity.cpp:203-210 | if neither database nor sensor supplies id 0, it is never in the index |
| KeyZero.RemoveMissesIff | src/fpdcommunity.cpp:362-372 | an idle permitted Remove answers that the key does not exist if and only if GetAll does not list the name or it is on id 0 |
| KeyZero.RemoveFindsTheName | src/fpdcommunity.cpp:362-377 | where 0 is no key, an idle permitted Remove misses exactly the unlisted names, and otherwise asks the HAL for the least id with the name |
| KeyZero.RemovedDeletesExactly | src/fpdcommunity.cpp:472-488 | a delivered removal deletes exactly its id, or with 0 everything, and renames nothing |
| EnrolProgress.EnrolmentPercentages | src/androidfp.cpp:165-184 | for a never-rising counter that ends at 0, among callbacks of any other kinds and after any earlier enrolment, all percentages have defined values if and only if the counter does not start at 2^32-1; then there is one for each result, in 0..100, never falling and ending at 100, under any sound rounding |
| EnrolValues.EnrolmentValues | src/androidfp.cpp:165-184 | the percentage of each result of an enrolment is 100 * (first + 1 - counter) / (first + 1) rounded down, within 700 u for roundings of accuracy u |
| EnrolValues.PercentReads | src/androidfp.cpp:170-174 | the same for every counter up to the first one, under the baseline that the first one sets |
| EnrolValues.ReadsExactly | src/androidfp.cpp:170-174 | without rounding errors that is exactly the integer quotient |
| EnrolValues.RisenReads | src/androidfp.cpp:170-174 | a counter above the first one shows no positive percentage |
| ProgressBar.ProgressIsShown | src/fpdcommunity.cpp:397-400 | on every run the progress signals of a process are, in order and one for one, the starts of enrolments and verifications, with 0, and the enrolment results delivered, with the share done of their counter since the first one after that start, 100 at the end, and no defined value exactly while the first is 2^32-1 |
| EnrolProgress.PercentMonotone | src/androidfp.cpp:173-173 | under a covering baseline a smaller counter never shows a smaller percentage |
| EnrolProgress.LargestCounterHasNoPercentage | src/androidfp.cpp:170-172 | a counter that starts at 2^32-1 wraps the baseline and has no defined percentage |
| Removals.RemovalCompletesOnce | src/androidfp.cpp:186-196 | among callbacks of any kinds, a removal is reported exactly once, as itself, if and only if no removal callback counts down to 0 after its first final one |
| Removals.RemoveReports | src/androidfp.cpp:186-196 | every removal that a pending removal reports for any stream of callbacks |
| Removals.ClearReports | src/androidfp.cpp:186-196 | with no single removal pending every removal countdown to 0 reports a clear |
| Removals.ClearCompletesOnce | src/androidfp.cpp:140-148 | a clear answered by a countdown n-1..0, among any other callbacks, is reported exactly once, as a clear; with no removal callback at all, never |
| MakePath.FileTree.MakePath | src/fpdcommunity.cpp:100-131 | succeeds if and only if every missing step can be made; then exactly the missing steps are added with the attributes asked for and the whole chain exists; existing entries are never touched, and a failure leaves at most its last step half done |
| MakePath.FileTree.MakeLeaf | src/fpdcommunity.cpp:116-130 | makes one step in an existing directory with its attributes, if and only if all calls succeed |
| AndroidFPModule.AndroidFP.Remove | src/androidfp.cpp:105-113 | the id is recorded before the request and stays recorded whatever the HAL answers, the cause of every misreading that AgreementLimits describes |
| AndroidFPModule.AndroidFP.EnumerateCallback | src/androidfp.cpp:156-163 | refines the report step: every non-zero finger is kept in order, the end is posted exactly at 0 |
| AndroidFPModule.AndroidFP.EnrollCallback | src/androidfp.cpp:165-184 | refines the enrolment step whose values EnrolValues.EnrolmentValues and ProgressBar.ProgressIsShown give; the outcome of postEnroll decides success or failure |
| AndroidFPModule.AndroidFP.RemoveCallback | src/androidfp.cpp:186-196 | refines the removal step that Removals.RemovalCompletesOnce characterizes |
| FPDCommunityModule.FPDCommunity.constructor | src/fpdcommunity.cpp:19-39 | a new daemon, for any database and any two HAL answers, is the start of every run (System.Power) |
| FPDCommunityModule.FPDCommunity.LoadFingers | src/fpdcommunity.cpp:176-216 | the two in-place passes over snapshots leave exactly Index.Reconcile of the stored index and the report, which is then saved |
| FPDCommunityModule.FPDCommunity.DropUnreported | src/fpdcommunity.cpp:194-201 | the first pass leaves exactly the entries that are both stored and reported, unchanged |
| FPDCommunityModule.FPDCommunity.AddUnknown | src/fpdcommunity.cpp:203-210 | the second pass adds made-up names for exactly the reported ids that were missing, however often reported |
| FPDCommunityModule.FPDCommunity.Enroll | src/fpdcommunity.cpp:218-244 | refines the Enroll step of every run, for every caller, name and HAL answer: who may start, which reply, one HAL request or none |
| FPDCommunityModule.FPDCommunity.Identify | src/fpdcommunity.cpp:246-270 | refines the Identify step of every run, with the timer that CancelTimer bounds and the names that Streams.IdentificationsAreNamed gives |
| FPDCommunityModule.FPDCommunity.Clear | src/fpdcommunity.cpp:272-288 | refines the Clear step of every run; nothing happens under a foreign lock or while busy |
| FPDCommunityModule.FPDCommunity.Abort | src/fpdcommunity.cpp:302-319 | refines the Abort step of every run; the reply tells whether anything was aborted, and Streams.CancellationsReachTheHal that the HAL is told |
| FPDCommunityModule.FPDCommunity.Verify | src/fpdcommunity.cpp:321-345 | refines the Verify step of every run, with the late lock that Sessions.IdleOwnedIffLeak describes and the outcome of Streams.VerificationsAreReported |
| FPDCommunityModule.FPDCommunity.FindKey | src/fpdcommunity.cpp:362-368 | the search loop in key order finds the least id with the name, or 0 if there is none |
| FPDCommunityModule.FPDCommunity.Remove | src/fpdcommunity.cpp:347-378 | refines the Remove step of every run, whose target and replies KeyZero.RemoveFindsTheName states |
| FPDCommunityModule.FPDCommunity.GetAll | src/fpdcommunity.cpp:296-300 | lists the name of every entry, each as often as it occurs, in ascending order of the ids: the list that Observers reconstructs |
| FPDCommunityModule.FPDCommunity.SlotSucceeded | src/fpdcommunity.cpp:409-418 | refines the success step that Agreement, Observers and UniqueNames reason about: one entry, one Added, saved, idle |
| FPDCommunityModule.FPDCommunity.SlotFailed | src/fpdcommunity.cpp:420-432 | refines the failure step: always reported, fatal to every operation except an identification whose finger was not recognized |
| FPDCommunityModule.FPDCommunity.SlotAcquired | src/fpdcommunity.cpp:434-470 | refines the acquisition step for every code: a signal exactly on a change (Acquisition.EachCodeHasItsImage) |
| FPDCommunityModule.FPDCommunity.SlotRemoved | src/fpdcommunity.cpp:472-488 | refines the removal step; the loop announces every name once, in key order, which lets Observers follow a clear |

## Left out

- D-Bus registration, bus policy, packaging, signal handlers and daemonization, which carry no state; the first StateChanged signal of a process is part of its trace although the service is registered after it.
- The bridge macros, symbol resolution, getprop and the HIDL and Gatekeeper shim: foreign calls, present only as the HAL's statuses and callbacks.
- The texts of statuses, errors and acquisition codes: a failure is modelled by its origin, and the one text that the code compares with, FINGER_NOT_RECOGNIZED, is its own case.
- The QDataStream byte layout and torn writes: the file holds an index value, and opening it can fail.
- IEEE bit patterns: the progress theorems hold for any monotone roundings to float and double that fix 0, 1 and 100, those about values for any accuracy u up to 1/3; IEEE float has u = 2^-24.
- EnrolValues.RisenReads: bounds the percentage of a counter that has risen above the first one by 0 and does not give its value, because no enrolment counts up.
- Interleaving inside one request or callback: each is one atomic step, so in particular no enrolment callback comes between the HAL's enroll call and the reset of the progress baseline.
- The effect of cancel on the HAL: the model lets a cancelled operation go on delivering results until the next accepted request replaces it.
- A HAL operation that outlives the daemon process: a restart ends whatever the HAL is at, and the notices still queued are lost with the process.
- The Reply codes FAILED, DENIED and KEY_IS_INVALID and the Error enumeration, which the code never uses; GetState, which only names the state.
- FPDCommunityModule.FPDCommunity.SetUser: does not create the two store directories, because the daemon goes on alike whether that succeeds; their creation is modelled by itself in MakePath.
- FPDCommunityModule.FPDCommunity.SaveFingers: does not model a write that fails after the file was opened, because the code does not look at it.
- AndroidFPModule.AndroidFP.SetGroup: does not model the path, its truncation to PATH_MAX or the refusal of an empty path, because the daemon always passes a non-empty one.
- MakePath.FileTree.MakePath: does not model relative paths or symbolic links, because its callers pass absolute paths.
