# A verified model of tuigreet

tuigreet is a terminal login greeter for greetd. This project models its concurrent protocols, its stores and its parsers
in Dafny and proves what they promise, for every input and every run. To verify it, use `dafny verify dfyconfig.toml`.

Code that changes things in place is modelled by classes and loops, each method proved to compute exactly the step or
function that the theorems are about:

| Part | Modules |
|---|---|
| greetd transactions (`src/ipc.rs`, `src/keyboard.rs`, `src/greeter.rs`, `src/main.rs`) | `GreeterState`, `Keyboard` and `Replies` (what one step does), `FineProtocol` (the code's own steps), `Greeter` and `Ipc` (the same, on objects updated in place); `KeyboardTheorems` and `GreeterTheorems` (what keys, replies, start-up and reloads mean), `FineSafety`, `FineTheorems`, `FineRuns`, `FineExactness`, `FineExits`, `LoginTheorems` (runs); `Protocol`, `ProtocolSafety`, `ProtocolHistory` and `ProtocolTheorems` (a coarser protocol that the proofs go through) |
| reload coordination and the event queue (`src/reload.rs`, `src/event.rs`) | `Reload`, `ReloadTheorems`, `Events`, `EventTheorems` |
| remembered state (`src/cache.rs`) | `CacheState`, `Disk`, `StateFile`, `Migration`, `MigrationTheorems`, `CacheStore`, `CommitOrder` |
| parsers and printers (`src/desktop_entry.rs`, `recover_options` in `src/greeter.rs`) | `DesktopEntry`, `ExecTheorems`, `FieldCodes`, `Shell`, `CliOptions`, `CliTheorems`, `Getopts` |
| configuration, power commands, batteries (`src/config.rs`, `src/power.rs`, `src/battery.rs`) | `Config`, `Power`, `Battery` |
| shared vocabulary | `Wrappers`, `Text`, `Sessions` |

## How runs are modelled

The greetd protocol is a transition system. The UI task (keys, reloads, power commands, signals, exit), the IPC actor and
an arbitrary greetd take steps in any order; greetd may answer anything at any time, fail, or never answer. A step is one
critical section of the greeter lock or one poll of a `select!` (`FineProtocol`). In particular taking a request from the
queue, comparing its generation, noticing a cancellation, resetting the greeter, firing of the recovery timer, reading the user name and
queueing the retry are steps of their own. `Protocol` is coarser: there a cancellation is handled together with dropping
its stale requests, and the timer fires together with queueing the retry. It is not assumed to be what the code does;
`FineTheorems` proves for which runs of the code its safety carries over. Assumptions:

- Noticing a cancellation includes writing CancelSession to greetd, and queueing a request includes reading the cancel
  generation. A sender never waits for room in the queue; without races it never holds more than one request.
- A biased `select!` looks at all its branches at one instant. Timers fire at any time. Counters are naturals; the failure
  counter is never near 255. No mutex is poisoned.
- The greeter's run-time copies of settings are the settings last applied, so they are one value.
- An editing key leaves arbitrary text in the active field.
- The reload coordinator's two threads interleave at atomic accesses, mutex sections and channel operations. The event
  queue is a FIFO of ten places that may refuse a render early when a place is promised to a waiting sender.
- The disk model keeps, for every directory entry changed since the last directory sync, all the files that the entry may
  stand for after a crash, and lets the contents of files that were not synced become anything. A rename changes one entry
  at once. JSON is an injective codec: a complete document reads as the state written. What a legacy file reads as depends
  on its contents only.
- The strict command-line parse is that of getopts 0.2.24: a name of one byte is a short option even after two dashes, a
  required value is whatever argument comes next, and an option that may not repeat is an error if it does.
- The power model answers every system call and every await in every possible way, an abort at every await included.

## Findings

- `recover_options` is a normal form exactly for the schemas in which every option that takes a value has a long name (as
  all of tuigreet's do). An option with only a short name is rendered as `-s=x`, which reads back as the value `=x`
  (`CliTheorems.NormalFormExactlyWhenValuesHaveLongNames`, `CliTheorems.ShortValueOptionIsNotStable`; `src/greeter.rs:71-83`).
- The user can race with the actor. A step races if it starts an attempt while the actor is about to reset the greeter or
  still has a cancellation to look at (an unnoticed one, one handled while backing off, or a stale request left in the
  queue), or if it cancels an attempt after the retry timer has fired and before the retry is queued (`src/ipc.rs:280-299`,
  `498-506`). State and outstanding work correspond along a run, and the actor left alone would keep it so, if and only if
  no step races (`FineTheorems.CorrespondenceHoldsExactlyWithoutRaces`). Each kind of race can happen
  (`FineRuns.EveryRaceCanHappen`).
- Which safety clauses need runs without races: in every run, racing or not, modes and menus stay consistent, no stale
  request is written, the third failure in a row stops the actor, and no cancellation is lost (`FineSafety`). That a commit
  follows the success of a session start, that there is at most one commit, that nothing is written after a session start
  and that an uncertain start is final hold in every run without races (`FineTheorems.OrderlyRunsAreSafe`), and each of these
  four fails in some run with races (`FineRuns.RacesBreakTheHistory`): a request that outlives a reset is answered in
  another state than it was made for. For the history as a whole the condition is exact but for one kind of race: it is
  safe along a run, and stays so whatever follows short of another race, if and only if no step races, except steps that
  ask to exit (`FineExactness.HistoryStaysSafeExactlyWithoutRaces`). Any other single race can be followed, without a
  second one, by a commit on the answer to a CreateSession; a racing exit leaves a retry behind that nobody waits for, but
  the user has no further part in the run.
- Recovery and the strict parse agree on every command line that holds nothing but options, but for one spelling: after two
  dashes the strict parse takes a name of one byte for a short option (`--c=sway`), and recovery drops it as unknown
  (`Getopts.RecoveryAgreesWithStrictParse`, `Getopts.ShortOptionAfterDashesIsDropped`; `src/greeter.rs:1655-1663`).
- With more than 184467440737095516 battery readings the 128-bit product can saturate, and full batteries are no longer
  seen as full; up to that number it never does (`Battery.AggregateLiesBetweenExactlyUpToMax`; `src/battery.rs:207-210`).
- A protocol error resets the failure count before it adds one (`src/ipc.rs:314`), so only failures without a decoded
  response in between are bounded; that is what `FineSafety.BasicSafetyOfEveryRun` says.

## Model

| member | source | states |
|---|---|---|
| FineTheorems.OrderlyRunsAreSafe | src/ipc.rs:260-509 | In every run of the code in which no step of the user races with the actor, the authentication state says exactly which request is queued or in flight, nothing is written after a session start unless greetd refused it, an uncertain start is final, and at most one update is committed, right after Success answers a start, holding what the greeter selected when that start was queued |
| FineTheorems.CorrespondenceHoldsExactlyWithoutRaces | src/ipc.rs:280-299 | The condition is exact: along a run from start-up state and work correspond, and stay so while only the actor moves, if and only if no step races |
| FineTheorems.OrderlyExactlyWhenMatched | src/ipc.rs:260-509 | The same from every safe state of the program |
| FineExactness.HistoryStaysSafeExactlyWithoutRaces | src/ipc.rs:260-509 | Along a run from start-up the history is safe, and stays so whatever follows short of another race, if and only if no step races, except steps that ask to exit |
| FineExactness.PeacefulExactlyWhenSafe | src/ipc.rs:566-722 | The same from every state that such runs lead through |
| FineExactness.RaceBreaksHistory | src/ipc.rs:280-299 | Any single race, exits apart, can be followed without another one by a commit that answers a CreateSession |
| FineExactness.PeacefulMoveStaysSteady | src/main.rs:516-526 | After a racing exit too every step leads on to states from which the history stays safe |
| LoginTheorems.CommittedLoginsMeanWhatWasCaptured | src/ipc.rs:138-156 | In every run without races, exits apart, each committed update changes any stored state slot by slot as captured when the session start was queued: the last user if users are remembered, the global slot if sessions are, the user's own slot if sessions of users are, commands only with the editor, and nothing else |
| LoginTheorems.UpdateMeans | src/cache.rs:274-301 | The same for any captured session and policy |
| LoginTheorems.CaptureMeans | src/ipc.rs:106-136 | What is captured: user and full name, the listed session at the source or the typed command if the editor is allowed, and the four settings |
| LoginTheorems.LoginIsOfferedAgain | src/greeter.rs:1163-1235 | After a login is stored, the next start with the same settings and sessions fills in the same user and offers the same command, whatever was stored before |
| FineExits.SuccessfulExitFollowsACommit | src/ipc.rs:352-367 | In every run, racing or not, the greeter exits with success only after a login has been committed |
| FineExits.CommitTellsToExit | src/ipc.rs:636-646 | A session that starts commits its login and tells the main loop to exit with success |
| FineExits.GivingUpTellsToFail | src/ipc.rs:482-485 | Giving up stops the actor and tells the main loop to exit with a failure |
| FineExits.ToldExitIsRecorded | src/main.rs:298-302 | The main loop exits with the status it was told, and with a failure when terminated from outside |
| FineExits.KnownUserIsAskedFor | src/main.rs:110-145 | A user known at start-up is asked for at once, if there is something to launch |
| FineExits.ReloadCancelsAttempt | src/main.rs:408-414 | A reload cancels an attempt exactly if it leaves the attempt nothing to launch |
| FineExits.CancellationIsToldToGreetd | src/ipc.rs:511-517 | A noticed cancellation writes CancelSession exactly for a session that greetd may have and that was not started, and gives up the connection |
| FineExits.RetryIsForTheSameUser | src/ipc.rs:487-507 | After a failure that is not given up the actor asks again for the same user, with nothing typed left |
| FineExits.FailedPowerCommandChangesNothing | src/main.rs:357-391 | A power command that fails or is cancelled leaves the greeter as it was, whatever was typed meanwhile |
| FineTheorems.RacingStartIsReset | src/ipc.rs:280-299 | An attempt started before the actor is through with the last cancellation is reset by it, and its request stays |
| FineTheorems.RacingCancelIsOutlived | src/ipc.rs:503-506 | An attempt cancelled after its retry timer has fired is outlived by the retry |
| FineTheorems.UncertainStartEndsTheRun | src/ipc.rs:465-485 | In every run without races an uncertain session start is the last thing in the history, or is followed by a failing exit alone, with the actor stopped |
| FineTheorems.StartEndsOnlyByItsReply | src/ipc.rs:636-680 | Without races only a reply to the start, or giving up after a failure, ends the starting state |
| FineTheorems.OrderlyUserNeverDoublesWork | src/keyboard.rs:244-257 | A user step that does not race queues a request only when nothing is outstanding |
| FineTheorems.OrderlyUserKeepsInvariant | src/main.rs:147-325 | Every user step that does not race keeps the code-level protocol safe |
| FineTheorems.ActorMoveKeepsInvariant | src/ipc.rs:260-509 | Every actor step does, whatever the user is about to do |
| FineRuns.EveryRaceCanHappen | src/ipc.rs:280-299 | Starting behind a stale request, starting after a cancellation that is handled twice, and cancelling after the timer has fired are all reachable from start-up |
| FineRuns.RacesBreakTheHistory | src/ipc.rs:566-722 | With races there are runs with a commit that answers another request, with two commits, with a write after a session start, and with a write after an uncertain one |
| FineSafety.BasicSafetyOfEveryRun | src/ipc.rs:260-509 | In every run, racing or not, modes, menus and launch source stay consistent, no stale request is written, and the third failure without a decoded response in between stops the actor |
| FineSafety.CancellationIsNeverLost | src/ipc.rs:273-299 | In every run, while the state is Cancelling the actor is behind the cancel generation; where it rests, noticing that is what it does next, and the reset follows |
| FineSafety.ActorComesToRest | src/ipc.rs:312-384 | In every run the actor needs at most three steps between two waits, and the user cannot delay it |
| FineSafety.UserLeavesStartAlone | src/ipc.rs:724-735 | In every run no key, reload, power command or exit changes a starting session, its queue entry or the cancel generation |
| FineSafety.StoppingIsFinal | src/ipc.rs:388-396 | In every run a stopped actor never resumes, writes or queues |
| FineSafety.MoveKeepsUsable | src/ipc.rs:566-722 | Every actor step keeps modes, menus and launch source consistent, and no popup open over a running power command |
| ProtocolSafety.UiKeepsUsable | src/main.rs:357-391 | Every user step does, whatever mode a finished power command restores |
| ProtocolSafety.UiIsEffect | src/main.rs:147-325 | Every turn of the main loop changes the authentication state only together with the request or cancellation that belongs to the change |
| ProtocolHistory.UiLeavesHistory | src/keyboard.rs:37-339 | No user step writes to greetd, moves the actor, or enters or leaves a starting or started session |
| ProtocolHistory.StartCapturesTheGreeter | src/ipc.rs:117-136 | What a starting session holds for the commit is the greeter's selection and policy when the start is queued |
| Ipc.Ipc.constructor | src/main.rs:110-145 | Start-up begins the attempt of a preselected user and queues exactly its request |
| Ipc.Ipc.Run | src/ipc.rs:260-396 | Both loops in any interleaving keep what holds of every run, without races keep state, work and history safe, and with racing exits the history |
| Ipc.Ipc.Turn | src/main.rs:147-325 | One turn of the main loop takes its step and breaks the correspondence only by racing |
| Ipc.Ipc.Advance | src/ipc.rs:260-396 | One step of the actor takes its step and never breaks anything |
| Ipc.Ipc.CancelStream | src/ipc.rs:511-517 | The session is cancelled on the wire only before it starts, and the connection is dropped |
| Ipc.Ipc.FinishCancellation | src/ipc.rs:758-761 | The reset that follows a noticed cancellation |
| Ipc.Ipc.Select | src/ipc.rs:273-291 | The loop head: shutdown, then a cancellation, then the next request, stale or not |
| Ipc.Ipc.Recheck | src/ipc.rs:293-299 | A request that a cancellation has overtaken, before or since it was taken, is dropped as one more cancellation |
| Ipc.Ipc.Transmit | src/ipc.rs:414-440 | Connecting and writing |
| Ipc.Ipc.Read | src/ipc.rs:442-463 | Waiting for a reply |
| Ipc.Ipc.Parse | src/ipc.rs:313-367 | A decoded reply is applied, or is a protocol error with one failure |
| Ipc.Ipc.Recover | src/ipc.rs:465-485 | Recovery gives up for a session start and at the third failure, and otherwise prepares a retry |
| Ipc.Ipc.BackOff | src/ipc.rs:494-503 | The end of a back-off: shutdown, a cancellation that the loop will see again, or the timer |
| Ipc.Ipc.ApplyConfigReload | src/main.rs:408-414 | A reload that leaves nothing to launch cancels the attempt |
| Replies.ReplyAuth | src/ipc.rs:566-722 | Which replies are protocol errors, and which alone start, cancel or commit anything |
| Replies.ReplyIsConsistent | src/ipc.rs:566-722 | Every accepted reply keeps the greeter consistent and leaves no popup over a prompt |
| KeyboardTheorems.TypedAnswerIsPosted | src/keyboard.rs:244-257 | Whatever keys typed it, the text in the field is what Enter posts at a prompt, once, and the field is empty afterwards |
| KeyboardTheorems.OnlyEnterPostsTheBuffer | src/keyboard.rs:244-257 | An answer is posted exactly by Enter at a prompt that accepts input, and is the field's text |
| KeyboardTheorems.TypedNameIsAskedFor | src/keyboard.rs:231-231 | The name typed is the one that greetd is asked for, if there is something to launch |
| KeyboardTheorems.OnlyNamedUsersAreAskedFor | src/keyboard.rs:217-284 | Whoever greetd is asked for was entered, completed or chosen |
| KeyboardTheorems.AttemptIsForTheNamedUser | src/keyboard.rs:523-534 | An attempt is made with the remembered selection of its user: the first session it stands for, or a command if the editor is allowed |
| KeyboardTheorems.TypedCommandIsLaunched | src/keyboard.rs:259-267 | A command typed into the editor is what will be launched; a blank one is not taken |
| KeyboardTheorems.ChosenSessionIsLaunched | src/keyboard.rs:153-196 | After any arrow keys the highlighted session is what Enter makes the greeter launch |
| KeyboardTheorems.ChosenUserIsAskedFor | src/keyboard.rs:273-284 | The highlighted user is the one that greetd is asked for |
| KeyboardTheorems.ChosenPowerOptionRuns | src/keyboard.rs:296-306 | The highlighted power option is the one whose command runs |
| KeyboardTheorems.EscTakesBack | src/keyboard.rs:76-84 | Esc closes a menu or the editor, else cancels the attempt, else clears what was typed |
| KeyboardTheorems.OpeningIsUndoneByEsc | src/keyboard.rs:107-151 | Opening a menu or the editor and pressing Esc changes nothing but where the next one returns to |
| KeyboardTheorems.FunctionKeysOpen | src/keyboard.rs:107-151 | Each function key opens its menu exactly where there is something to open |
| KeyboardTheorems.BusyKeysAreIgnored | src/keyboard.rs:67-90 | While the actor works or a power command runs no key but Esc does anything |
| KeyboardTheorems.CompletionIsLongest | src/keyboard.rs:341-390 | A name is complete exactly if it is a user's; completion goes exactly as far as all matching names agree |
| KeyboardTheorems.TabCompletesOrEnters | src/keyboard.rs:217-226 | Tab completes a name; where that is off, or nothing is left to complete, it does what Enter does |
| KeyboardTheorems.EnterWithoutNameOpensTheMenu | src/keyboard.rs:233-242 | Enter without a name opens the menu of users, if there is one |
| KeyboardTheorems.ImitationRunsNoPowerCommand | src/keyboard.rs:296-306 | Where greetd is only imitated, choosing a power option leaves |
| KeyboardTheorems.ExitIsRecorded | src/main.rs:516-525 | Leaving is recorded as asked for, and cancels an attempt that can be cancelled unless a session starts |
| Keyboard.KeyAuth | src/keyboard.rs:37-339 | A key sends only when input is accepted and enters the awaiting state; it cancels only what can be cancelled; otherwise the state stays |
| Keyboard.KeyIsConsistent | src/keyboard.rs:107-306 | Every key keeps modes, menus, buffers and launch source consistent |
| Keyboard.EmittingLeavesMenu | src/keyboard.rs:296-306 | Choosing a power command has already left its menu |
| Keyboard.CompletionExtends | src/keyboard.rs:341-375 | Completion extends the typed text strictly, and only by what all matching names share |
| Keyboard.CommonPrefixIsLongest | src/keyboard.rs:377-390 | The common prefix is the longest string that all values start with |
| Keyboard.ComputeCommonPrefix | src/keyboard.rs:377-390 | The truncating loop computes the common prefix |
| Greeter.Greeter.ResetLocal | src/greeter.rs:800-835 | A reset, soft or hard, as the protocol uses it |
| Greeter.Greeter.OpenCommandEditor | src/greeter.rs:837-853 | Opening the editor remembers a mode that is not a popup |
| Greeter.Greeter.BeginAuthentication | src/greeter.rs:778-790 | An attempt begins only with something to launch |
| Greeter.Greeter.RestoreCachedSelection | src/greeter.rs:745-760 | A remembered command needs the editor, a remembered entry an existing session |
| Greeter.Greeter.NormalizeDerivedState | src/greeter.rs:1437-1461 | Normalization as specified |
| Greeter.Greeter.ApplyReload | src/greeter.rs:1247-1422 | The in-place reload computes the specified state, keeps the greeter consistent, and tells whether to cancel |
| Greeter.Greeter.ValidateUsername | src/keyboard.rs:523-534 | The remembered selection is restored before the launch source is checked |
| Greeter.Greeter.HandleKey | src/keyboard.rs:37-339 | The in-place key handler computes the specified state and effect and keeps the greeter consistent |
| Greeter.Greeter.ParseResponse | src/ipc.rs:566-722 | The in-place reply handler computes the specified state and effect, keeps the greeter consistent, and leaves it alone on a protocol error |
| GreeterTheorems.LaunchedIsTheSource | src/greeter.rs:764-776 | The launched command is the configured one, the listed session's or the typed one that the source stands for, unless it is blank or typed without the editor |
| GreeterTheorems.StartOffersTheConfiguredCommand | src/greeter.rs:1424-1435 | With nothing remembered the configured command is offered, else the first session, else nothing |
| GreeterTheorems.StartFillsInTheUser | src/greeter.rs:1163-1235 | The last user is filled in if remembered, else the configured one with the full name from the list, else the only one to choose |
| GreeterTheorems.ReloadTakesOver | src/greeter.rs:1247-1422 | A reload takes over settings and new lists, and purges commands exactly when it forbids the editor |
| GreeterTheorems.ReloadChangesWhatIsLaunched | src/greeter.rs:1371-1395 | A command configured anew is launched, one taken out no longer is, and a typed one stays as long as the editor is allowed |
| GreeterTheorems.ReloadKeepsHighlightedSession | src/greeter.rs:1326-1352 | The highlighted session stays highlighted at the first session with its identity |
| GreeterTheorems.ReloadKeepsHighlightedUser | src/greeter.rs:1247-1300 | The highlighted user does, by name |
| GreeterTheorems.ReloadKeepsHighlightedPower | src/greeter.rs:1396-1422 | The highlighted power option does, by action |
| GreeterTheorems.ReloadFindsASource | src/greeter.rs:1437-1461 | After a reload nothing is offered only if no command is configured and no session is listed |
| GreeterTheorems.ReloadLeavesEmptyMenus | src/greeter.rs:1437-1474 | A menu with nothing to show any more is left for the mode it was opened from, or the field in use |
| GreeterTheorems.ReloadOfNothingIsNothing | src/greeter.rs:1247-1422 | A reload that brings nothing new changes nothing |
| GreeterTheorems.DefaultUserIsFilledIn | src/greeter.rs:1247-1422 | A new default user is filled in only where no name was entered and no attempt is under way |
| GreeterTheorems.RepliesMean | src/ipc.rs:566-722 | What each kind of prompt, message, refusal and error does to modes, fields and the attempt, and that no reply touches the launch source |
| GreeterState.StartupIsConsistent | src/greeter.rs:1163-1235 | Start-up establishes the invariant for every configuration and remembered state |
| GreeterState.ReloadIsConsistent | src/greeter.rs:1247-1422 | Every reload keeps the invariant and the authentication state |
| GreeterState.ReloadKeepsActiveSession | src/greeter.rs:1326-1369 | An active session whose identity is still listed stays the launch source while the configured command stays the same |
| GreeterState.NormalizeEstablishes | src/greeter.rs:1437-1474 | Normalization establishes ranges, usable popups and a usable source, and keeps a source that was usable |
| Sessions.PositionOf | src/greeter.rs:1326-1352 | The first session with an identity, or none exactly when there is none |
| ReloadTheorems.EveryRunDeliversOnlyTheNewest | src/reload.rs:139-208 | In every run deliveries strictly increase, each was the newest request and carries its input, and a pending request is on its way while the worker lives |
| ReloadTheorems.PendingReloadIsAnswered | src/reload.rs:162-208 | Without new requests at most ten steps remain, and when none is left the newest request has been delivered, or the UI knows that the worker has stopped |
| ReloadTheorems.LivingWorkerDelivers | src/reload.rs:162-208 | If the worker lives, the newest request has been delivered |
| ReloadTheorems.BlockedSendIsReceived | src/reload.rs:192-208 | A worker blocked on the full channel always finds the UI ready to receive |
| ReloadTheorems.WhatIsFoundIsDelivered | src/reload.rs:192-228 | Settings, a rejection or a failure reach the UI as the worker found them, with the input they were asked for |
| ReloadTheorems.StepKeepsInv | src/reload.rs:81-208 | Every step of either thread keeps the order, the contents and the presence of what is under way |
| Reload.RequestSlot.Replace | src/reload.rs:82-90 | A request replaces an older one unless the slot is closed |
| Reload.RequestSlot.TryTake | src/reload.rs:92-103 | A request is taken once; a closed empty slot ends the worker |
| Reload.ReloadCoordinator.Publish | src/reload.rs:139-146 | A new revision is numbered and published before the slot is filled |
| Reload.ReloadCoordinator.Store | src/reload.rs:147-156 | Filling the slot makes the request pending |
| Reload.ReloadCoordinator.ReceiveOne | src/reload.rs:162-181 | Stale results are skipped, the newest one is returned, and a stopped worker is noticed |
| Reload.ReloadCoordinator.WorkerStep | src/reload.rs:192-208 | The worker takes, prepares, checks and sends as the protocol says, and otherwise waits |
| EventTheorems.KeysOnceInOrderAndRedrawsCovered | src/event.rs:200-276 | In every run keys handled, queued and in hand are exactly the keys read, in order, with a render between any two handled; a dropped render is covered by a queued one; a stale screen has its redraw ahead |
| EventTheorems.EveryChangeIsDrawn | src/event.rs:200-276 | Without new keys and changes the queue drains in a bounded number of steps, and then the screen is up to date |
| EventTheorems.RefusalIsCovered | src/event.rs:271-276 | A queue that refuses a render holds one |
| Events.EventQueue.RequestRender | src/event.rs:271-276 | A render is queued, or dropped by a full queue without an error |
| Events.EventQueue.OnKey | src/event.rs:228-236 | A key read is in the worker's hand until it is queued |
| Events.EventQueue.PollSend | src/event.rs:251-262 | A required send waits for room, succeeds, or ends with a shutdown |
| Events.EventQueue.NextResult | src/event.rs:77-103 | Events are handled in the order in which they were queued |
| StateFile.Directory.WriteState | src/cache.rs:644-688 | After every system call the state file is what it could be before or the complete new document; a failure before the rename leaves it; success makes the new one permanent |
| StateFile.ReaderFindsOldOrNew | src/cache.rs:644-688 | At every such point, and after a crash there, a reader finds the new state or what one of the files that could be there before holds |
| StateFile.OnlyValidStatesAreRead | src/cache.rs:605-642 | A document reads as the state written exactly if that is valid; no other state is ever read |
| StateFile.Directory.Prepare | src/cache.rs:664-680 | Up to the rename nothing but the temporary name changes, and the new document is complete and synced under it |
| StateFile.Directory.Publish | src/cache.rs:681-687 | The rename and the directory sync replace the document in one step and make it permanent |
| CacheStore.LoadFromDisk | src/cache.rs:437-484 | A load returns what the directory stands for, and at every point leaves the disk as it was, on the way to the migrated or purged state, or with that state permanent |
| CacheStore.MigrationSurvivesInterruptions | src/cache.rs:437-457 | From a directory of an older release, after any number of loads, each cut short at any point and followed by a power loss or not, the next load finds what the legacy files stood for at the start |
| CacheStore.LegacyDirectoryIsRecoverable | src/cache.rs:437-457 | Every directory of an older release is a start from which migration can be interrupted |
| CacheStore.LoadIsRecoverable | src/cache.rs:437-457 | Every point of a load from a recoverable directory is recoverable |
| CacheStore.LoadWritesItsTarget | src/cache.rs:437-484 | At every point of a load a reader finds the state before it or the one that the serial order ascribes to it |
| CacheStore.CommitWritesItsTarget | src/cache.rs:363-393 | The same for a commit |
| CacheStore.CrashIsRecoverable | src/cache.rs:437-457 | A crash at a recoverable point leaves a recoverable directory |
| CacheStore.Migrate | src/cache.rs:442-457 | The migrated state is permanent before the first legacy file goes |
| CacheStore.RemoveLegacy | src/cache.rs:848-860 | Only the migrated files are removed, and files that cannot be removed are left |
| CacheStore.LoadCurrent | src/cache.rs:474-483 | Forbidden commands go from the loaded state, and from the disk if it can be written |
| CacheStore.Commit | src/cache.rs:363-393 | A disabled store applies the update to nothing; otherwise a commit stores the update applied to what was stored, or changes nothing for another version or an invalid result; at every point and on a write error the old or the new document is there |
| CacheStore.LoadGivesBackWhatIsStored | src/cache.rs:437-484 | A load gives back what is stored, without commands only where the editor is off, and nothing of an unreadable document or one of another version |
| CacheStore.CommitStartsFromWhatIsStored | src/cache.rs:371-388 | An unreadable state is replaced as a missing one would be, a readable one is changed by the update alone, and a document of another version is left |
| CacheStore.LockCacheFile | src/cache.rs:508-526 | The lock is tried until it is got, fails, or the deadline has passed |
| Migration.MigrationYieldsNoCommand | src/cache.rs:696-790 | No command ever arises from migration, and the migrated state is valid |
| MigrationTheorems.MigratedIsTheMeaning | src/cache.rs:696-782 | Migration gives the state whose every slot is what its own file means, said without migration: an unknown path or an invalid name leaves its own slot empty and no other |
| MigrationTheorems.LegacyStateSurvivesMigration | src/cache.rs:696-790 | Every valid state without commands, written as legacy files with any command files beside them, is given back by migration |
| Migration.MigrateLegacy | src/cache.rs:696-782 | The loop over the directory computes the state the files stand for, and lists exactly the files to remove |
| CommitOrder.EveryRunIsSerial | src/cache.rs:363-393 | For any number of parties and any interleaving the stored state is what the operations that replaced it give one after the other, in lock order, each once |
| CommitOrder.PowerLossLeavesReportedWrites | src/cache.rs:679-687 | A power loss at any moment leaves what a prefix of that order gives, with every write in it that was reported as stored |
| CommitOrder.OtherVersionIsNeverReplaced | src/cache.rs:382-386 | A document of another version outlives every run |
| CommitOrder.PurgingLeavesNoCommand | src/cache.rs:211-246 | After an operation that purges and writes no slot holds a command, whatever others stored |
| CommitOrder.StepKeepsLockOrder | src/cache.rs:486-506 | The state file is replaced in the order in which the lock was got |
| CacheState.CacheStateCell.Apply | src/cache.rs:211-231 | The in-place update computes the specified state |
| CacheState.CacheStateCell.RemoveCommands | src/cache.rs:233-246 | Commands are removed, and a change is reported exactly when there was one |
| CacheState.PurgeRemovesExactlyCommands | src/cache.rs:233-246 | Purging removes every command and nothing else |
| CacheState.LoginWritesExactlyItsSlots | src/cache.rs:274-301 | A login changes exactly the slots its policy names |
| CacheState.LoginWithoutEditorStoresNoCommand | src/cache.rs:274-301 | Without the editor a login can never store a command |
| CacheState.Resolve | src/cache.rs:157-170 | The first session a remembered entry stands for; a command stands for none |
| ExecTheorems.ParseInvertsPrint | src/desktop_entry.rs:12-99 | Parsing a printed argument list gives the list back |
| ExecTheorems.PrintedListsParseExactlyWhenExecutable | src/desktop_entry.rs:12-99 | A printed list of NUL-free ASCII arguments is accepted exactly if it is not empty and its first argument is not empty and has no equals sign |
| ExecTheorems.TokenizerAcceptsExactlyLayouts | src/desktop_entry.rs:124-204 | The tokenizer yields some tokens exactly for the texts that spell them, as the quoting rules of the section "The Exec key" of the Desktop Entry Specification say |
| FieldCodes.ExecIsItsReading | src/desktop_entry.rs:12-99 | An Exec value parses to some arguments exactly if it can be read as spaced arguments that stand for them, quoted or in pieces, with one file code at most and an executable first; said without the parser |
| FieldCodes.BareArgumentIsItsPieces | src/desktop_entry.rs:39-85 | An unquoted argument is accepted exactly if it is spelled in literal characters, doubled percent signs and known field codes, and stands for what these stand for one after another |
| FieldCodes.PlainWordsAreTheArguments | src/desktop_entry.rs:12-99 | Words without anything special, separated by spaces, are the arguments |
| ExecTheorems.AtMostOneFileCode | src/desktop_entry.rs:55-66 | Expansion succeeds exactly when every token expands and at most one of %f %F %u %U stands outside quotes |
| ExecTheorems.AcceptedExecHasOneFileCode | src/desktop_entry.rs:12-99 | An accepted Exec value has tokens that expand and one file code outside quotes at most |
| ExecTheorems.QuotedExpansionUndoublesPercent | src/desktop_entry.rs:206-231 | Inside quotes exactly the doubled percent signs are accepted, and undoubled |
| DesktopEntry.Tokenize | src/desktop_entry.rs:124-204 | The index-advancing tokenizer computes the specified tokens or error |
| DesktopEntry.TokenizeQuoted | src/desktop_entry.rs:137-184 | The quoted branch stops right after the closing quote |
| DesktopEntry.TokenizeBare | src/desktop_entry.rs:186-200 | The bare branch stops at a space or the end |
| DesktopEntry.ExpandQuotedPercent | src/desktop_entry.rs:206-231 | The loop computes the specified expansion or error |
| DesktopEntry.ExpandFieldCodes | src/desktop_entry.rs:39-85 | The loop over field codes computes the specified expansion, remembering a file code |
| DesktopEntry.ComputeParseExec | src/desktop_entry.rs:12-99 | The whole parser computes the specified arguments or error |
| Shell.SplitInvertsJoin | src/desktop_entry.rs:104-122 | Splitting the joined line by the shell's quoting and word rules gives back exactly the arguments |
| Shell.PrintedArgumentsReachTheShell | src/desktop_entry.rs:12-122 | An argument list survives from Exec to the shell unchanged |
| Shell.ExecSurvivesTheShell | src/info.rs:602 | The shell's words of the joined command are the parsed arguments of any accepted Exec value |
| Shell.JoinIsInjective | src/desktop_entry.rs:104-122 | Two argument lists never join to the same line |
| Shell.ComputeShellJoin | src/desktop_entry.rs:104-122 | The quoting loop computes the specified line |
| CliTheorems.RecoveryIsAFixpoint | src/greeter.rs:1602-1890 | Recovering what was recovered changes nothing and warns of nothing, if every value option has a long name |
| Getopts.RecoveryAgreesWithStrictParse | src/greeter.rs:1626-1865 | Recovery warns of nothing exactly for the command lines that the strict parse accepts and that hold nothing but options, and then keeps exactly what the strict parse finds: long, attached, detached or clustered |
| Getopts.ShortOptionAfterDashesIsDropped | src/greeter.rs:1655-1663 | A short option after two dashes is the one spelling on which the two differ |
| CliTheorems.MalformedIsDropped | src/greeter.rs:1655-1735 | A malformed long option costs one warning that names it, and scanning goes on right after it |
| CliTheorems.PositionalIsDropped | src/greeter.rs:1643-1653 | An argument that is no option costs one warning, and after `--` nothing is an option |
| Getopts.StrictParseAcceptsRecovered | src/greeter.rs:1602-1624 | The strict parse accepts every recovered command line and finds exactly the kept occurrences, so the branch that ignores all options is never taken |
| CliTheorems.NormalFormExactlyWhenValuesHaveLongNames | src/greeter.rs:71-83 | That condition is exact |
| CliTheorems.ShortValueOptionIsNotStable | src/greeter.rs:71-83 | A value option without a long name reads back with another value |
| CliTheorems.RecoveredIsLegal | src/greeter.rs:1626-1865 | Only known options with the right number of values are kept, for every command line |
| CliTheorems.FirstOccurrenceWins | src/greeter.rs:1867-1886 | Of an option that may not repeat the first occurrence is kept, of others every one |
| CliOptions.RecoverOptions | src/greeter.rs:1626-1865 | The scanning loop ends and computes the specified options and warnings |
| CliOptions.Buffers.RetainOption | src/greeter.rs:1867-1886 | A duplicate is dropped with a warning, anything else is kept and marked as seen |
| CliOptions.Buffers.RecoverCluster | src/greeter.rs:1749-1861 | A cluster of short options contributes its valid members |
| CliOptions.ByLong | src/greeter.rs:142-148 | The first option with the long name, or none exactly when there is none |
| CliOptions.ByShort | src/greeter.rs:150-156 | The first option with the short name, or none exactly when there is none |
| Config.LoadedSettingsAreSound | src/config.rs:661-693 | For every stack of layers over the defaults: distinct keys, an ordered UID range, one session-remembering mode at most, remembering of users where it is needed, never both issue and greeting |
| Config.TopmostLayerWins | src/config.rs:1050-1109 | An ungrouped field is what the topmost layer that sets it says, or what it was |
| Config.KeysAreAllOrNothing | src/config.rs:1168-1189 | Keys are taken all three or none: none exactly if two would be the same, which is what the warning says |
| Config.UidsAreAllOrNothing | src/config.rs:1132-1148 | The UID bounds are taken both or neither: neither exactly if the range would be reversed |
| Config.RememberingIsAllOrNothing | src/config.rs:1150-1166 | The two ways of remembering sessions are taken together unless both would be on; remembering sessions of users turns remembering users on |
| Config.GreetingPrevails | src/config.rs:1111-1130 | A layer that sets the issue or a greeting removes the other; the greeting prevails, with a warning, if it sets both |
| Config.CommandLinePrevails | src/config.rs:661-693 | The command line prevails over the explicit file, and that over the system file |
| Config.RangeIsTakenAsGiven | src/config.rs:705-735 | The numbers given are the range, with defaults for what is not given, unless it is reversed |
| Config.NoNumberIsGiven | src/config.rs:705-735 | A field keeps its default exactly if no line gives it a number |
| Config.LastNumberIsLast | src/config.rs:705-735 | The last line that gives a field a number counts |
| Config.NumbersAreReadAsWritten | src/config.rs:705-735 | A number is read as it is written, up to 32 bits |
| Config.LayersAreIdempotent | src/config.rs:1050-1189 | Applying a layer twice is applying it once |
| Config.SkippingAnAliasIsHarmless | src/config.rs:673-684 | Skipping an explicit file that is the system file gives the settings that reading it again would give |
| Config.LoadPaths | src/config.rs:661-693 | System file, explicit file and command line are applied in this order |
| Config.SettingsCell.ApplyLayer | src/config.rs:1050-1189 | The in-place update computes the specified settings and exactly the specified warnings |
| Config.ReadUidDefaults | src/config.rs:705-735 | The last readable value of each field counts, and the result is an ordered range |
| Power.RunPowerCommand | src/power.rs:393-483 | A command that cannot be spawned fails and leaves nothing behind; any other runs under its guard |
| Power.PowerRun.RunCommand | src/power.rs:436-483 | For every answer of the system and every abort: the trace is lawful, a successful command is never signalled, the outcome tells what happened, and nothing is left behind without an attempt to kill it |
| Power.PowerRun.Terminate | src/power.rs:485-559 | The ladder never touches a reaped process that is not a group, gives a group its whole grace period before it kills, and disarms only what is secured |
| Power.PowerRun.Escalate | src/power.rs:527-558 | The end of the ladder, after the grace period |
| Power.PowerRun.Drop | src/power.rs:385-391 | A guard still armed means an unreaped child or an unsecured group, and kills it; the runtime kills a child that was not reaped |
| Power.ReapedProcessIsLeftAlone | src/power.rs:485-559 | In a lawful trace a process that is not a group is neither signalled nor probed after it has been reaped |
| Battery.AggregateLiesBetween | src/battery.rs:161-199 | For weighted energy, weighted charge and mixed samples the aggregate lies between any bounds on the single percentages, and within 0 to 100 |
| Battery.PercentageIsReached | src/battery.rs:207-210 | A percentage is the largest one that the charge reaches, and at most 100 |
| Battery.OneBattery | src/battery.rs:150-159 | One battery's aggregate is its own percentage |
| Battery.TwoBatteriesCountAsOne | src/battery.rs:166-184 | Batteries of one unit count by their size: two count as one with their readings added up |
| Battery.MixedBatteriesCountAlike | src/battery.rs:186-197 | Batteries of different units count alike: the mean of their percentages, rounded down |
| Battery.AggregateLiesBetweenExactlyUpToMax | src/battery.rs:161-210 | For a given number of batteries that holds for all readings if and only if there are at most (2^64 + 1) / 100 of them |
| Battery.FullBatteriesSaturate | src/battery.rs:207-210 | With one battery more, full ones with the largest readings come out below 100 |
| Battery.NothingSaturates | src/battery.rs:207-210 | Up to that number the 128-bit arithmetic is exact |
| Battery.MeanSumFits | src/battery.rs:186-197 | The sum of the mixed average fits into 64 bits |
| Battery.ComputeAggregate | src/battery.rs:161-199 | The folds compute the specified aggregate |

## Left out

- Drawing, layout, themes, terminal modes and cursor movement: they add only linear arithmetic and calls into libraries.
- Messages, prompts, notices, logging and the wrapping of the session command: they do not influence the modelled state.
- Secrets and their scrubbing, the IPC codec, and the mock transport, which answers at once what greetd may answer.
- Refreshing of the cache after a reload decides when `CacheLoadedStep` happens; the model lets it happen at any time.
- The Ctrl-X exit of debug builds and key release events, which are ignored.
- Discovery of users and sessions, issue expansion, the configuration watcher, TOML and the usage text of getopts: their
  results are arbitrary inputs.
- The table of tuigreet's own options (`src/greeter.rs:934-1160`): the theorems are for every schema with distinct names.
- Permission, ownership and symlink checks of the cache directory and its files: a check that fails is a failing system call.
- `PowerSupervisor`, which allows one power command at a time; the protocol model has that state in its UI task.
- Read errors of legacy files that would not occur again on the next attempt: `read_legacy_text` treats such a file as empty
  and it is then removed, so for these a repeated migration can differ.
