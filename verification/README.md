# Multitool desktop shell: verified model

This project models the parts of the Multitool desktop shell whose correctness
depends on every interleaving or on every input, and proves what they are for.

- **Attention coordinator.** `Attention` gives each critical section of the
  coordinator as a function on values; `AttentionClasses` has the same sections as
  objects updated in place and proves every method against those functions;
  `AttentionRuns` runs them against timers, the delivery worker, banner observers
  and broker callbacks in any order; `AttentionLedger` says what its callers can
  count on, from the events alone. `RateLimiter`, `Debounce` and `RemoteRefresh`
  are its three protocols, each proved on its own; `AttentionRemote` runs the
  coordinator together with brokers that hold real queues.
- **Broker switching.** `BrokerSwitch` interleaves `connect_remote` and
  `switch_local` attempts and follows every local runtime; `BrokerClasses` holds
  the state that is replaced in place.
- **SSH import.** `IncludeScan`, `SshCommand`, `KnownHosts`.
- **DSN rewriting and quoting.** `PercentCoding`, `LibpqKeywords`, `DsnRewrite`,
  `ShellQuoting`.
- **Clipboard hygiene.** `Clipboard` interleaves copies, timers, other applications
  and the shutdown; `ClipboardClasses` holds the state updated in place.
- **Secret references and activity paging.** `SecretReference`, `ActivityPaging`.

Books that a run needs but the program does not keep (timers asleep, reads in
flight, how often something was handed over, which runtime was dropped) are fields
of the `World` of each module. Where a book records that something left the active
set, it is read off the active sets before and after, not off what the coordinator
claims.

The table below lists the results and the operations they rest on. Methods that
are a plain assignment or two (constructors, `BeginTransition`, `SetProfile`,
`NotificationFinished`, `DrawGeneration` and the like) and the step lemmas that only
serve an invariant are left to the files.

## Where the code does not do what its comments say

- A refresh generation from before a scope change can be applied after it, when
  the user leaves a remote broker and comes back while a read is out
  (`RemoteRefresh.StaleReadCanLand`). `StaleAppliedIff` says exactly when; it is
  never a rollback, since the snapshot must continue the run applied last.
- Re-picking this machine while local is meant to stop a connect still in flight.
  `switch_local` looks at the mode before it takes its number and outside the
  transition lock, so the connect can commit in between
  (`BrokerSwitch.RepickCanBeLost`, `RepickStaysLocal`).
- Parameter names are decoded and printed without quoting, so one that holds white
  space or `=` turns into settings of its own, a host among them
  (`DsnRewrite.NameForgesHost`, `LibpqKeywords.NameForgesPair`,
  `RenderedReadsBackIff`).
- The authority's host is never percent-decoded, so a socket directory or a zone
  identifier does not survive unless the query names the host
  (`DsnRewrite.EscapedHostIsLost`, `RewritePreservesMeaningIff`).
- `decode_url_component` is meant to expand percent-escapes only; a raw `&`, which
  RFC 3986 allows in these components, cuts the value off
  (`LibpqKeywords.ComponentMeansItsEscapesIff`, `RawAmpersandIsCut`).
- The exit cleanup is said never to clear content copied later. Multitool's own
  copies are kept out by the lock, but another application that writes between the
  read and the erasure loses its text (`Clipboard.GapErasesForeignText`,
  `ClearErasesOnlyTheLatestCopy`).

## Model

| member | source | states |
|---|---|---|
| RemoteRefresh.NoRollback | src-tauri/src/attention.rs:324-332 | Over every interleaving of read begins, answers, deliveries, losses, broker advances, restarts and scope changes: the snapshots applied within a scope never move any broker backwards in its own (restart, sequence) order, and neighbours of one broker strictly advance |
| RemoteRefresh.OneBrokerStrictlyIncreases | src-tauri/src/attention.rs:849-911 | When one broker stands behind the scope, any two applied snapshots are strictly ordered by (restart, sequence) |
| RemoteRefresh.StepKeepsInv | src-tauri/src/attention.rs:324-352 | The invariant that carries the protocol: everything applied from the newest outstanding read's broker was seen before that read began, or belongs to the run already established |
| RemoteRefresh.AcceptedIsAhead | src-tauri/src/attention.rs:324-332 | Why the acceptance test suffices: an accepted answer is at least as new as everything applied from its broker and strictly newer than the last one applied |
| RemoteRefresh.AppliedIff | src-tauri/src/attention.rs:324-332 | A delivery takes effect if and only if it continues the established broker run further on, whichever read brings it, or opens another run and comes from the newest read |
| RemoteRefresh.StaleAppliedIff | src-tauri/src/attention.rs:334-352 | A generation taken before a scope change is applied after it if and only if its snapshot continues, further on, the broker run of the snapshot applied last; it never opens a scope |
| RemoteRefresh.StaleReadCanLand | src-tauri/src/attention.rs:324-352 | A concrete run in which a read begun before leaving a broker is applied after coming back to it |
| RemoteRefresh.ReadOutlivesScope | src-tauri/src/attention.rs:334-352 | Over every run after a scope change, a read that was out when the scope changed is applied exactly when its snapshot continues, further on, the run applied last in the scope it arrives in; it is never the first to be applied there |
| RemoteRefresh.BeginDrawsFresh | src-tauri/src/attention.rs:849-853 | The generation a read is given is that of no read still out |
| AttentionRemote.QueuesMirrorNewestPosition | src-tauri/src/attention.rs:849-911 | Coordinator and brokers together, over every run: as long as a scope's queues come from snapshots alone, they are exactly what the broker held at the newest position applied, and those positions never go back |
| AttentionRemote.DeliveryIsAgreed | src-tauri/src/attention.rs:855-911 | The coordinator replaces its queues with what a read brought exactly when the snapshot protocol logs that read |
| RateLimiter.DequeIsRecentHistory | src-tauri/src/attention.rs:450-470 | With a clock that does not run backwards, after every call the deque is exactly the Normal admissions of the whole history that are less than 60 s old |
| RateLimiter.NormalIffRoomInWindow | src-tauri/src/attention.rs:450-470 | A call is Normal if and only if fewer than four Normal admissions lie less than 60 s before it |
| RateLimiter.MinuteHoldsFour | src-tauri/src/attention.rs:25-30 | No half-open 60 s window holds more than four Normal admissions |
| RateLimiter.FiveMinutesHoldTwenty | src-tauri/src/attention.rs:27-30 | No half-open five minutes hold more than twenty, which is the argument for the observer cap |
| RateLimiter.NormalsAreSpread | src-tauri/src/attention.rs:450-470 | The fifth of any five successive Normal admissions comes at least a window after the first |
| RateLimiter.StormsAreSpaced | src-tauri/src/attention.rs:457-470 | At least four Normal admissions lie between any two Storm results |
| RateLimiter.ThreeStormsOutlastAWindow | src-tauri/src/attention.rs:457-470 | Any three Storm results span strictly more than 60 s |
| RateLimiter.HistoryRefines | src-tauri/src/attention.rs:450-470 | The full history splits into forgotten admissions, all expired, and the deque, which is fresh, sorted and at most four long |
| RateLimiter.PruneSplits | src-tauri/src/attention.rs:451-457 | Pruning the front of the deque removes only expired admissions and leaves only fresh ones |
| RateLimiter.StormIffNoneStands | src-tauri/src/attention.rs:450-470 | A call that is not Normal is told Storm if and only if every earlier Storm was followed by a call that found no Normal admission less than 60 s old; otherwise it is suppressed |
| Debounce.ScheduleKeepsSound | src-tauri/src/attention.rs:937-943 | Scheduling keeps: one outstanding timer carries the current generation iff the flag is up, none a future one, waiting work has a timer |
| Debounce.ResetKeepsSound | src-tauri/src/attention.rs:339-342 | A scope change makes every outstanding timer stale and leaves nothing waiting |
| Debounce.FireKeepsSound | src-tauri/src/attention.rs:991-995 | A timer that fires with the current generation was the scheduled one; a stale one leaves the debouncer as it was |
| AttentionRuns.ReachableIsSound | src-tauri/src/attention.rs:540-911 | Every state reachable by any interleaving of callbacks, snapshots, scope changes, settings, timers, banner deliveries, observers and shutdown satisfies all five invariants below |
| AttentionRuns.FlushLosesAndDoublesNothing | src-tauri/src/attention.rs:991-1005 | In every reachable state at most one outstanding timer carries the current flush generation, exactly one if requests are pending; firing it hands over every pending request as it then stands and leaves none; a stale timer changes nothing |
| AttentionRuns.HandedOverOncePerLifetime | src-tauri/src/attention.rs:165-275 | Between entering and leaving the active set a request is handed over at most once, never if it entered by adoption or unannounced, and an announced one is pending exactly until it is handed over |
| AttentionRuns.TakenIsAllPending | src-tauri/src/attention.rs:269-274 | Because pending stays within active, taking the pending requests drops none |
| AttentionRuns.EscalatedOncePerLifetime | src-tauri/src/attention.rs:1340-1365 | Escalated subjects are always active ones, and each subject is in at most one due set per active lifetime, whatever timers, reschedules and settings changes there were |
| AttentionRuns.RescheduledTimersStayDead | src-tauri/src/attention.rs:689-711 | After a change of schedule or scope no continuation of the run lets an earlier escalation timer find anything due |
| AttentionRuns.StepKeepsBanners | src-tauri/src/attention.rs:1412-1508 | Every step of enqueue, check, show, attach, observe, resolve, replace, scope change and shutdown keeps each banner's exact account: what it was tracked for, what left since, how often it was handed out |
| AttentionRuns.ClaimedGoneIsGone | src-tauri/src/attention.rs:588-687 | The subjects the coordinator resolves in a step are exactly those that leave the active set in it |
| AttentionRuns.LimiterReflectsHistory | src-tauri/src/attention.rs:450-470 | In every reachable state the deque is the recent part of all admissions asked for in the scope |
| AttentionRuns.StepKeepsLives | src-tauri/src/attention.rs:183-274 | Every step keeps the announcement account: handed over plus still pending is one for an announced request and zero for any other |
| AttentionRuns.StepKeepsEscalation | src-tauri/src/attention.rs:588-711 | Every step keeps the escalation account: a subject was due once if marked and never otherwise |
| AttentionRuns.ExpiryLosesAndDoublesNothing | src-tauri/src/attention.rs:1007-1025 | In every reachable state exactly one live timer is asleep if any expiry is owed a notice; firing it hands over exactly the owed ones, each as the request was when it last expired, and leaves none owed; a stale timer hands over nothing and changes nothing |
| AttentionRuns.EveryExpiryIsAccountedFor | src-tauri/src/attention.rs:945-954 | In every reachable state each expiry of the scope had its notice, was merged into a later expiry of the same id, or is queued, counted exactly |
| AttentionRuns.QueuedExpiryIsHandedOverOnce | src-tauri/src/attention.rs:1007-1025 | Over every run that stays in its scope a queued expiry is handed over exactly once: not before its timer fires, then once, and not again unless it expires anew |
| AttentionRuns.BannersHaveOneOwner | src-tauri/src/attention.rs:354-417 | A banner past its attach step with a native identifier is tracked with live subjects, handed out for withdrawal once, or finished by its observer, and only one of these; one whose subjects all resolved between show and attach is handed out there; none is handed out twice; outside a scope change or shutdown only after all its subjects left |
| AttentionRuns.NeverHandedOutAgain | src-tauri/src/attention.rs:1412-1508 | Whatever run follows, a banner that was handed out or is finished is never tracked or handed out again |
| AttentionLedger.LedgerIsKept | src-tauri/src/attention.rs:576-711 | After every run the active requests, parked elicitations, scope, settings and availability are those of a ledger kept from the events alone |
| AttentionLedger.LedgerStartsEmpty | src-tauri/src/attention.rs:545-572 | The coordinator starts with nothing waiting, no scope and banners unavailable |
| AttentionLedger.RequestStaysActive | src-tauri/src/attention.rs:183-197 | From the moment it is asked for until it is resolved, its queue is set anew or the scope changes, a request is active in the version last asked for |
| AttentionLedger.RequestIsHandedOver | src-tauri/src/attention.rs:576-586 | A new request that is to be announced has one live flush timer asleep for it through any run that neither resolves nor sweeps it away, and that timer hands it over in the version last asked for |
| AttentionLedger.DueIff | src-tauri/src/attention.rs:1340-1365 | An escalation timer finds due exactly those of its subjects that wait and were not due before in this stay, if neither schedule nor scope changed since and notifications are on |
| AttentionLedger.EnqueuedIsTracked | src-tauri/src/attention.rs:789-820 | A banner is tracked exactly when banners are available and something is to be said, and then for exactly those of its subjects that wait |
| AttentionLedger.CheckedIffTracked | src-tauri/src/attention.rs:1451-1457 | A queued banner goes on to the screen exactly when it is still tracked |
| AttentionLedger.HandedOutIsItsOwn | src-tauri/src/attention.rs:394-417 | What is handed out for withdrawal is the identifier the platform gave that banner |
| Attention.CollectKeepsLast | src-tauri/src/attention.rs:199-206 | Reading a list of requests into a map keeps every id listed, in its last version, and invents none |
| Attention.CrossedInTwoSteps | src-tauri/src/attention.rs:394-410 | Resolving subjects one after the other or all at once leaves the same banners and hands out the same identifiers, none twice |
| AttentionClasses.CollectAll | src-tauri/src/attention.rs:201-205 | The collecting loop builds exactly that map |
| AttentionClasses.AttentionTracker.Upsert | src-tauri/src/attention.rs:183-197 | Whole new tracker state; a request is announced only if it is new and announcing is asked for |
| AttentionClasses.AttentionTracker.Reconcile | src-tauri/src/attention.rs:199-227 | Snapshot becomes the active set, surviving and new ids pend, and exactly the vanished ids are reported resolved |
| AttentionClasses.AttentionTracker.Adopt | src-tauri/src/attention.rs:233-255 | The same without announcing anything new |
| AttentionClasses.AttentionTracker.Resolve | src-tauri/src/attention.rs:257-267 | Removes the request from both sets and reports it |
| AttentionClasses.AttentionTracker.TakePending | src-tauri/src/attention.rs:269-274 | Hands over the pending requests that are active and empties the pending set |
| AttentionClasses.AttentionInner.SetScope | src-tauri/src/attention.rs:334-352 | Has exactly the effect of the scope change of the run model and hands out every native identifier |
| AttentionClasses.AttentionInner.ResolveNotificationSubject | src-tauri/src/attention.rs:394-410 | Crosses the subject off every banner, forgets the emptied ones and hands out exactly their identifiers |
| AttentionClasses.AttentionInner.CrossOff | src-tauri/src/attention.rs:395-401 | The first loop: every banner loses the subject, and the emptied keys are collected |
| AttentionClasses.AttentionInner.Remove | src-tauri/src/attention.rs:402-409 | The second pass: the emptied banners are removed and their identifiers collected |
| AttentionClasses.AttentionInner.ResolveAll | src-tauri/src/attention.rs:673-682 | The batch loop over resolved subjects equals one crossing-off of them all, and clears their escalation marks |
| AttentionClasses.AttentionInner.EnqueueNotification | src-tauri/src/attention.rs:789-820 | Refused while unavailable, dropped when nothing active is left to say, else tracked for exactly the subjects kept |
| AttentionClasses.AttentionInner.AttachNativeNotification | src-tauri/src/attention.rs:367-382 | Attaches the identifier iff the banner is still tracked with a subject; otherwise tells the caller to withdraw |
| AttentionClasses.AttentionInner.ScheduleGeneration | src-tauri/src/attention.rs:937-943 | A timer token is given out exactly when something was added and none is outstanding |
| AttentionClasses.AttentionInner.QueueExpiration | src-tauri/src/attention.rs:945-954 | Queues the expired request; a token is given out iff no expiry timer is outstanding |
| AttentionClasses.AttentionInner.Upsert | src-tauri/src/attention.rs:576-586 | New state and timer token are those of the run model |
| AttentionClasses.AttentionInner.Resolve | src-tauri/src/attention.rs:588-609 | New state, withdrawn identifiers and expiry token are those of the run model; an expiry is queued only for a request that was active |
| AttentionClasses.AttentionInner.RemoveElicitation | src-tauri/src/attention.rs:628-641 | Drops the elicitation with its banners and escalation mark |
| AttentionClasses.AttentionInner.Reseed | src-tauri/src/attention.rs:652-687 | Adopts both queues and withdraws exactly the banners whose subjects all vanished |
| AttentionClasses.AttentionInner.ReplaceElicitations | src-tauri/src/attention.rs:661-682 | The shared end of both queue replacements |
| AttentionClasses.AttentionInner.ReconcileRemote | src-tauri/src/attention.rs:855-911 | Applies iff the version parses and is accepted; then new state, withdrawals and timer token are those of the run model, else nothing changes |
| AttentionClasses.AttentionInner.TakePendingFlush | src-tauri/src/attention.rs:991-1005 | A current timer takes everything pending, a stale one nothing |
| AttentionClasses.AttentionInner.TakePendingExpirations | src-tauri/src/attention.rs:1007-1025 | A current timer takes all queued expiries, a stale one nothing |
| AttentionClasses.AttentionInner.TakeDueEscalation | src-tauri/src/attention.rs:1340-1365 | Due are exactly the subjects still active and never escalated, under the current schedule; they are marked |
| AttentionClasses.AttentionInner.SetSettings | src-tauri/src/attention.rs:689-711 | A changed schedule invalidates timers and reschedules every active subject unless notifications are off |
| AttentionClasses.AttentionInner.AdmitNotification | src-tauri/src/attention.rs:450-470 | The deque loop and the decision have exactly the effect and verdict of the limiter proved against the full history |
| BrokerSwitch.ReachableIsSound | src-tauri/src/broker_mode.rs:315-326 | Numbering, conservation, coherence and shell.json hold in every state reachable by any interleaving of attempts, link updates and settings writes |
| BrokerSwitch.ModesAreCoherent | src-tauri/src/broker_mode.rs:395-466 | Local mode: slot filled, no stream armed, backend the slot's. Remote mode: slot empty and, after a commit, stream and backend those of the profile's URL. Attention scope agrees; with working writes shell.json says the same and keeps the last remote URL |
| BrokerSwitch.RuntimesAreConserved | src-tauri/src/broker_mode.rs:518-584 | Every runtime ever started is in the slot, held by exactly one attempt, or dropped exactly once, and only one of these |
| BrokerSwitch.LocalCommitFindsEmptySlot | src-tauri/src/broker_mode.rs:545-571 | A local commit never overwrites a runtime: the slot is empty and the mode remote |
| BrokerSwitch.NewestCommitWins | src-tauri/src/broker_mode.rs:420-458 | Committed numbers strictly increase, and mode and URL on show are those of the newest commit |
| BrokerSwitch.OvertakenNeverCommits | src-tauri/src/broker_mode.rs:315-326 | Once overtaken, no continuation of the run lets that number commit |
| BrokerSwitch.RepickStaysLocal | src-tauri/src/broker_mode.rs:522-529 | Re-picking this machine keeps the shell local through any run in which no un-overtaken connect was waiting at the look and none begins |
| BrokerSwitch.RepickCanBeLost | src-tauri/src/broker_mode.rs:522-529 | And only then: with such a connect waiting there is an interleaving that ends remote although the re-pick was the later choice |
| BrokerSwitch.OvertakenAppliesNothing | src-tauri/src/broker_mode.rs:315-326 | However the run goes on after an attempt was overtaken, no later step of it touches backend, slots, profile, tokens, shell.json or scope |
| BrokerSwitch.SavedTokenIsReused | src-tauri/src/broker_mode.rs:407-430 | Over every run the token a committed connect saved serves each later connect to that URL, until another is saved for it |
| BrokerSwitch.SettingsSurvive | src-tauri/src/broker_mode.rs:363-371 | After any run of transitions and settings writes, the settings in shell.json are the ones saved last |
| BrokerSwitch.ChoiceSurvives | src-tauri/src/broker_mode.rs:363-371 | And the broker choice in it stands until a transition commits and its write succeeds |
| BrokerSwitch.RepickIsLostFromLaunch | src-tauri/src/broker_mode.rs:518-529 | From a local launch, one connect and one re-pick suffice for that interleaving |
| BrokerSwitch.TypedTokenIsUsed | src-tauri/src/broker_mode.rs:408-414 | A token the user types is the one the connect carries, whatever is saved for that URL |
| BrokerSwitch.UntypedTokenIsSaved | src-tauri/src/broker_mode.rs:408-414 | Without one the saved token is carried; with neither there is no attempt and nothing changes |
| BrokerSwitch.TypedTokenReplacesSaved | src-tauri/src/broker_mode.rs:407-430 | Over runs: once the connect with a typed token commits and saves, every later connect to that URL without a token uses it, until another is saved |
| BrokerSwitch.NewestAttemptCommits | src-tauri/src/broker_mode.rs:427-458 | An attempt that was not overtaken does commit: its choice is in force, its runtime or stream in place, the link shown as up |
| BrokerSwitch.LinkIsLastReported | src-tauri/src/broker_mode.rs:379-389 | After any run link status and error are those of the last report in remote mode or of the last commit |
| BrokerSwitch.ScopesAreDistinct | src-tauri/src/attention.rs:1823-1828 | The attention scope tells every remote URL from every other and from this machine |
| BrokerClasses.BrokerState.BeginConnect | src-tauri/src/broker_mode.rs:407-421 | The given token, else the saved one, else no attempt and no number |
| BrokerClasses.BrokerState.FinishConnect | src-tauri/src/broker_mode.rs:427-465 | Commits iff still newest, with the whole new state; the displaced runtime is handed to the caller |
| BrokerClasses.BrokerState.FinishLocal | src-tauri/src/broker_mode.rs:543-583 | Commits iff still newest, with the whole new state; a refused runtime is handed back |
| IncludeScan.ScanConfigsForExec | src-tauri/src/ssh_import.rs:360-375 | For the file given with -F, and for the two default files under HOME: success means that at most 64 files were seen, exactly those reachable from there, and that none of them has a Match exec line; it is reached whenever a closed harmless set of fewer than 64 files covers the roots. No file at all succeeds, the default without HOME fails |
| IncludeScan.ScanConfig | src-tauri/src/ssh_import.rs:377-434 | One path, over any graph with cycles and sharing: success covers it and everything added is inspected |
| IncludeScan.ScanLines | src-tauri/src/ssh_import.rs:400-432 | The line loop: every line harmless, everything included covered |
| IncludeScan.ScanLine | src-tauri/src/ssh_import.rs:401-431 | One line: a Match exec or unparsable line fails, an Include line covers all its patterns |
| IncludeScan.ScanPattern | src-tauri/src/ssh_import.rs:422-430 | One pattern: all its matches covered |
| IncludeScan.NoReachableMatchExec | src-tauri/src/ssh_import.rs:360-434 | Every existing file reachable from the roots through Include edges was inspected and has no Match exec line |
| IncludeScan.ChainsStayInside | src-tauri/src/ssh_import.rs:421-431 | No chain of Include edges leads out of the set the scan returns |
| IncludeScan.ExecCriterionIgnoresBangsAndCase | src-tauri/src/ssh_import.rs:410-414 | Neither negation marks nor letter case hide the exec criterion |
| IncludeScan.ReachableIsLeast | src-tauri/src/ssh_import.rs:360-434 | What a successful scan returns is the least closed harmless set that covers the roots |
| IncludeScan.ScanRoots | src-tauri/src/ssh_import.rs:371-374 | The loop over the roots decides as stated, for any roots |
| IncludeScan.MatchExecIff | src-tauri/src/ssh_import.rs:407-414 | A line is refused exactly when it is Match, in any case, with a word that is exec or starts with exec= after any number of negation marks, in any case |
| IncludeScan.IncludeIff | src-tauri/src/ssh_import.rs:421-421 | A line includes files exactly when its first word is Include, in any case |
| SshCommand.ParseCommand | src-tauri/src/ssh_import.rs:211-274 | Accepts iff the words read as a sentence, and then returns its destination, its arguments in separate spelling and its last -F selection; otherwise reports exactly the problem of the first fault |
| SshCommand.TakeOption | src-tauri/src/ssh_import.rs:240-305 | One option word, attached or separate: accepted iff complete and supported, with its value, its effect and where to go on |
| SshCommand.AcceptsExactlyTheGrammar | src-tauri/src/ssh_import.rs:211-342 | The accepted words are exactly the sentences: valid options over p, l, i, J, F, o with allowed -o keys, then one valid destination |
| SshCommand.ReadIsSentence | src-tauri/src/ssh_import.rs:211-274 | What is read spells the words back |
| SshCommand.SentenceIsRead | src-tauri/src/ssh_import.rs:211-274 | Every sentence is read as itself, so no sentence has two readings |
| SshCommand.PrintedParsesBack | src-tauri/src/ssh_import.rs:211-274 | Printing ssh, arguments and destination and parsing again gives the same destination, arguments and -F selection |
| SshCommand.RefusalNamesFirstFault | src-tauri/src/ssh_import.rs:211-342 | What precedes the fault a refusal names is a run of valid options |
| SshCommand.OptionValue | src-tauri/src/ssh_import.rs:289-305 | The attached value, else the next word, else the missing-value refusal |
| SshCommand.SshMayLead | src-tauri/src/ssh_import.rs:211-219 | The source is accepted exactly when it is a sentence, with ssh before it or not starting with ssh, and reads as that sentence |
| SshCommand.ArgumentsListAll | src-tauri/src/ssh_import.rs:242-262 | OpenSSH is handed every option, flag and value, in order |
| SshCommand.LastFDecides | src-tauri/src/ssh_import.rs:247-256 | The last -F decides which configuration is read |
| SshCommand.HomeIsExpanded | src-tauri/src/ssh_import.rs:350-358 | ~ is the home directory, ~/x lies in it, other paths stay as they are |
| SshCommand.KeyBeforeEquals | src-tauri/src/ssh_import.rs:321-342 | With an equals sign, a -o value is allowed exactly when what stands before the first one is one of the eight keywords, in any case |
| SshCommand.KeyIsFirstToken | src-tauri/src/ssh_import.rs:321-342 | Without one, exactly when its first run of other than white space is |
| SshCommand.DestinationIff | src-tauri/src/ssh_import.rs:307-319 | The separate checks for slashes and white space follow from the alphabet of destinations |
| KnownHosts.ScanKnownHosts | src-tauri/src/ssh_import.rs:560-625 | Fails iff a file could not be searched; else candidates are, in order, the first unmarked sighting of each fingerprint revoked nowhere, and revoked is the duplicate-free list of revoked ones |
| KnownHosts.CollectFile | src-tauri/src/ssh_import.rs:594-613 | The entry loop sorts a file's entries into the three collections |
| KnownHosts.RetainFirst | src-tauri/src/ssh_import.rs:615-616 | The first retain keeps the first candidate of each fingerprint |
| KnownHosts.RetainFirstPrints | src-tauri/src/ssh_import.rs:617-618 | The second retain keeps the first of each revoked fingerprint |
| KnownHosts.RetainUnrevoked | src-tauri/src/ssh_import.rs:619-619 | The third retain drops revoked candidates |
| KnownHosts.PassesMeetReference | src-tauri/src/ssh_import.rs:615-619 | Collect, drop repeats, drop revoked arrives at the one-pass reference |
| KnownHosts.RevokedMeetsReference | src-tauri/src/ssh_import.rs:617-618 | So does the list of revoked fingerprints |
| KnownHosts.OfferedIff | src-tauri/src/ssh_import.rs:615-619 | A fingerprint is offered iff it was seen unmarked and is not revoked |
| KnownHosts.RevokedListedIff | src-tauri/src/ssh_import.rs:617-618 | A fingerprint is listed as revoked iff it was seen revoked |
| KnownHosts.NothingListedTwice | src-tauri/src/ssh_import.rs:615-618 | Neither list repeats a fingerprint |
| KnownHosts.OfferedAndRevokedAreDisjoint | src-tauri/src/ssh_import.rs:619-619 | No fingerprint is both offered and revoked |
| KnownHosts.OrderDoesNotDecide | src-tauri/src/ssh_import.rs:569-619 | Reordering the sightings changes neither set |
| KnownHosts.CandidatesAreFirstSightings | src-tauri/src/ssh_import.rs:594-619 | The candidates are, in order, the first unmarked sightings of keys revoked nowhere, each with its own algorithm and file |
| KnownHosts.RevokedAreFirstSightings | src-tauri/src/ssh_import.rs:617-618 | The revoked list names, in order, the first revoked sighting of each key |
| KnownHosts.FilesAreSeenInOrder | src-tauri/src/ssh_import.rs:569-614 | Files are seen one after the other, and one that could not be searched stops it all |
| KnownHosts.OneFileIsSeen | src-tauri/src/ssh_import.rs:594-613 | Every entry of a file is seen, in its order, with the path of the file |
| KnownHosts.MergeIsOfEverything | src-tauri/src/ssh_import.rs:566-624 | Offered, revoked and saw-authority each say what was seen in all files together |
| DsnRewrite.RewritePreservesMeaningIff | src-tauri/src/commands.rs:1959-2043 | For every user, password, plain or bracketed host, port, database and parameter list: print it as a canonical URI (section 2.1 of RFC 3986), rewrite it and read the result by the keyword/value grammar (section 34.1.1.1 of the PostgreSQL 16 documentation); exactly its non-empty settings come back in order, query host and port overriding the authority, if and only if no parameter name holds white space or an equals sign and host and port need no escape or are overridden |
| DsnRewrite.PgLibpqKeywords | src-tauri/src/commands.rs:1959-2011 | The program, push by push, computes the rewrite that the meaning theorem is about; a bracket without its partner or a foreign scheme is refused |
| DsnRewrite.CollectOthers | src-tauri/src/commands.rs:1999-2003 | The loop pushes the query's other keywords that have a value, in order |
| DsnRewrite.JoinRendered | src-tauri/src/commands.rs:2004-2010 | Rendering and joining the pairs |
| DsnRewrite.QueryReadsBack | src-tauri/src/commands.rs:1975-1975 | Any list of parameters, repeats and empty values included, survives printing and form parsing |
| DsnRewrite.SettingsAreTheMeaning | src-tauri/src/commands.rs:1976-2003 | The pushes amount to the independent definition of what the connection means |
| DsnRewrite.NameForgesHost | src-tauri/src/commands.rs:1999-2007 | A connection that names no host but has a parameter named x=1 host is rewritten to one with a host |
| DsnRewrite.EscapedHostIsLost | src-tauri/src/commands.rs:1966-1974 | postgres://%2Ft means the host /t and is rewritten to the host %2Ft |
| DsnRewrite.UriComesApart | src-tauri/src/commands.rs:1960-1974 | The canonical URI of any connection is taken apart into exactly its encoded pieces |
| DsnRewrite.RawUriComesApart | src-tauri/src/commands.rs:1960-1974 | Which raw delimiter counts: the first question mark, the last at sign before it, the first slash after that, the first colon of the credentials, the last of the authority |
| DsnRewrite.UnclosedBracketIsRefused | src-tauri/src/commands.rs:1967-1968 | A host that opens a bracket which nothing closes is refused |
| DsnRewrite.FormParseOdd | src-tauri/src/commands.rs:1975-1975 | A parameter without an equals sign has an empty value, and empty ones are skipped |
| LibpqKeywords.RenderedReadsBackIff | src-tauri/src/commands.rs:2004-2043 | Whatever the non-empty values contain, the rendered string reads back to the same pairs if and only if no name holds white space or an equals sign |
| LibpqKeywords.DecodeUrlComponentIs | src-tauri/src/commands.rs:2013-2025 | Protecting plus signs and form-decoding is percent-decoding of the part before the first raw ampersand |
| LibpqKeywords.ComponentMeansItsEscapesIff | src-tauri/src/commands.rs:2013-2025 | A component decodes to what its escapes say if and only if it holds no raw ampersand |
| LibpqKeywords.RawAmpersandIsCut | src-tauri/src/commands.rs:2013-2025 | The user a&b becomes a |
| LibpqKeywords.NameForgesPair | src-tauri/src/commands.rs:2004-2009 | Otherwise a name can pass itself off as settings of its own, for any two settings |
| LibpqKeywords.ReadNamesAreReadable | src-tauri/src/commands.rs:2004-2009 | No keyword/value string whatever yields such a name |
| LibpqKeywords.FormDecodeUndoes | src-tauri/src/commands.rs:1975-1975 | In a query a plus sign is a space: form decoding undoes form encoding |
| LibpqKeywords.QuotedIff | src-tauri/src/commands.rs:2027-2043 | A value is quoted exactly when it holds white space, a quote or a backslash |
| PercentCoding.DecodeUndoesEncode | src-tauri/src/commands.rs:2013-2025 | Percent-decoding undoes percent-encoding, whichever bytes are left plain |
| PercentCoding.EncodedAvoids | sidecars/onepassword/main.go:286-288 | An encoded text never holds a delimiter that is not left plain |
| PercentCoding.OwnEncodingIff | src-tauri/src/commands.rs:1966-1974 | A text is its own encoding if and only if none of its bytes needs an escape |
| PercentCoding.EitherCaseDecodes | src-tauri/src/commands.rs:2019-2024 | Escapes are read in either case |
| ShellQuoting.QuotedReadsBack | src-tauri/src/commands.rs:1841-1850 | A shell reads any quoted value back as it was (section 2.2.3 of the POSIX shell command language), expands nothing in it and stops at its end |
| ShellQuoting.ShellQuoted | src-tauri/src/commands.rs:1841-1850 | The fold prints the quoted value that reads back |
| SecretReference.ReferenceReadsBack | sidecars/onepassword/main.go:280-297 | Splitting and decoding a reference recovers vault, item, whether there was a section and which, field, and whether it is a one-time password |
| SecretReference.ReferencesAreInjective | sidecars/onepassword/main.go:280-297 | Distinct fields never share a reference |
| SecretReference.BuildSecretReference | sidecars/onepassword/main.go:280-297 | The in-place escaping and appending loops print exactly the reference that reads back |
| SecretReference.PathReadsBack | sidecars/onepassword/main.go:286-292 | The path part alone recovers the payload (section 3.3 of RFC 3986) and holds no question mark |
| SecretReference.EscapeInPlace | sidecars/onepassword/main.go:286-288 | The escaping loop replaces every part by its segment |
| SecretReference.AppendParts | sidecars/onepassword/main.go:289-292 | The appending loop joins the parts by slashes |
| SecretReference.TotpIff | sidecars/onepassword/main.go:275-278 | A field is a one-time password if and only if its type is totp or otp, white space around it and case aside |
| SecretReference.ReferenceIsSpelled | sidecars/onepassword/main.go:280-297 | Three or four segments after op://, and the attribute last |
| Clipboard.ReachableIsSound | src-tauri/src/clipboard.rs:23-33 | In every reachable state the pending token is the latest copy's, an untouched copy is still pending, and generations are unique |
| Clipboard.GapErasesForeignText | src-tauri/src/clipboard.rs:120-148 | Text another application writes between a clear's read and its erasure is erased |
| Clipboard.EarlierTimerIsHarmless | src-tauri/src/clipboard.rs:120-124 | The timer of an earlier copy changes nothing, even when the later copy has the same text |
| Clipboard.OwnTimerErases | src-tauri/src/clipboard.rs:98-104 | A copy in place when its own timer runs is erased, given working platform calls |
| Clipboard.CleanupErases | src-tauri/src/clipboard.rs:111-118 | The exit cleanup erases a copy that is in place |
| Clipboard.ClearErasesOnlyTheLatestCopy | src-tauri/src/clipboard.rs:120-148 | With an injective digest, what a clear erases is the latest copy in lock order if and only if no other application wrote since the clear read, or the last to do so wrote that same text; otherwise it is what that application wrote |
| Clipboard.ForeignIsTheLastWrite | src-tauri/src/clipboard.rs:126-147 | Over every run during a clear, what counts as written since is the last foreign write of that run |
| Clipboard.CleanupStartsOnce | src-tauri/src/clipboard.rs:43-69 | Over every interleaving, looking and deciding being two steps: the exit cleanup starts at most once; a request that found a copy pending starts it, waits while it runs, and lets the app exit only once it has ended |
| Clipboard.CleanupBeginsIff | src-tauri/src/clipboard.rs:154-169 | The cleanup begins exactly with the first request that found a copy pending |
| Clipboard.FailedClearKeepsToken | src-tauri/src/clipboard.rs:126-146 | A clear that cannot read, or cannot erase what it found, leaves the copy to be cleared later |
| Clipboard.MismatchLeavesClipboard | src-tauri/src/clipboard.rs:136-147 | A clear that finds anything else leaves the clipboard alone and forgets the copy |
| Clipboard.FailedCopyChangesNothing | src-tauri/src/clipboard.rs:84-95 | A copy that fails is not remembered, and the one before it is not forgotten |
| ClipboardClasses.ClearedIsCompareThenErase | src-tauri/src/clipboard.rs:120-148 | The uninterrupted clear of the class is the two steps of the interleaved model in a row |
| ClipboardClasses.ClipboardGuard.WriteCopy | src-tauri/src/clipboard.rs:84-96 | A successful write is remembered by digest and generation; a failed one leaves the pending token alone |
| ClipboardClasses.ClipboardGuard.ClearDigestIfUnchanged | src-tauri/src/clipboard.rs:120-148 | Erases only on a matching digest under the still pending token; platform failures keep the token for the exit cleanup |
| ClipboardClasses.ClipboardGuard.ExitAction | src-tauri/src/clipboard.rs:56-64 | The first caller with something pending starts the cleanup, later ones wait |
| ActivityPaging.RefreshActivityPages | ui/src/activity-refresh.ts:5-29 | Terminates for any pager whose cursors come from a finite set; against a faithful pager returns exactly the newest min(log length, target) entries and the matching boundary cursor |

## Left out

- Wrap-around of generations, epochs and sequence numbers: they are unbounded naturals here; the source wraps (attention, clipboard) or overflows (transition epoch) at 2^64.
- Order inside collections: ordered maps, sets and lists of withdrawn identifiers are unordered maps and sets; subjects are a datatype in place of prefixed strings; request summaries keep only identity, context and deadline.
- Parsing of the snapshot version text: a version is given parsed, or as absent when malformed.
- Notification wording, sanitising, permission probing, tray counts, window surfacing and the delays of the timers: timers fire at any time after they are started. Showing, withdrawing and observing are environment steps.
- Depth of the delivery queue and the cap on observers: a queued or cleared banner may be abandoned at any time.
- Escalation timers in the run model may carry any subjects, lead and generation, not only those that were scheduled.
- Burst sequencing of `arm_sse`: a read of any broker may begin at any time, which includes a delayed refresh of a broker already left.
- `retry_remote`, `start_saved_remote`, capabilities, URL normalisation and token trimming: they reach the model only as connect attempts and as link updates at any time. A failed save leaves the file as it was.
- BrokerSwitch.RuntimesAreConserved: assumes that a local stack starts only while no other is alive, as the instance lock enforces.
- Splitting command lines and config lines into shell words, glob expansion, canonicalisation and file sizes: given by the environment, and the file system does not change during a scan. Matches that the glob library cannot read are skipped by the source and so are not part of a given expansion.
- IncludeScan.ScanConfigsForExec: does not promise success on graphs of exactly 64 files, where the verdict depends on the order of the Include lines, because the limit is looked at before a path is known to be new.
- `ssh -G`, `ssh-keygen`, key decryption and the lookup of known_hosts files: given results. The wording of refusals is not modelled, only which one it is.
- Texts of the rewriter are bytes: lossy UTF-8 decoding is not modelled, and white space outside ASCII is a parameter that may force quoting.
- Clipboard.ClearErasesOnlyTheLatestCopy: SHA-256 is taken to be injective.
- Clipboard formats: the concealed and transient markers of macOS and history exclusion elsewhere are not modelled, and an erased clipboard is empty on every platform.
- The rest of the commands, events, windows, the React interface and the 1Password SDK calls: forwarding and text that would only add easy members.
