# Event-driven controllers, parsers and sanitizers of the egress gateway client: a Dafny model

The application supervises a proxy engine (the "sidecar"), shows its state in a tray and a web view, and can be
driven headless through a browser. This project models the parts of it whose guarantees range over every
interleaving or every input, and proves those guarantees.

| file | component |
|---|---|
| `MaximalRuns.dfy` | maximal runs of `false` in a boolean sequence, the reference for the poll loop and the drift notice |
| `HealthPoll.dfy` | the health-poll loop: 3-strike window, restart budget, terminal latch, everything it emits |
| `Supervisor.dfy` | cold boot with port re-picks, restart into the same slot, the mode graph, the exit hook |
| `ConvergeLoop.dfy`, `ConvergeListeners.dfy` | the snapshot polling controller: timer, in-flight flag, visibility, late `listen()` promises |
| `SettingsStore.dfy` | the headless settings store against its merging server |
| `Lightweight.dfy` | the lightweight-mode controller with any number of sleeping timer threads |
| `DriftNotice.dfy` | one notice per episode of unacknowledged drift |
| `Scan.dfy`, `Utf8.dfy`, `PercentCodec.dfy`, `QueryString.dfy` | percent encoding, and the query printers and reader |
| `Hostname.dfy` | reduction of Host and Origin values to a bare host |
| `SubscriptionOrder.dfy` | the user's own order of the subscription list, and dragging |
| `JsText.dfy`, `JsonValue.dfy`, `SnapshotWire.dfy`, `SnapshotSanitizer.dfy`, `SnapshotExceptions.dfy`, `SnapshotBounds.dfy`, `SnapshotContents.dfy`, `SnapshotStability.dfy`, `SnapshotFixpoint.dfy` | the sanitizer of the untrusted authoritative snapshot |
| `Optional.dfy` | `Option` |

`dafny verify dfyconfig.toml` checks all of it.

## How the state machines are written

A controller is a `Step` function over events, where one event is what the source does without being interrupted (the
code between two awaits, one compare-and-swap, one loop cycle), and `Run` over any finite event list. An event that is
not enabled changes nothing, so a theorem over all event lists is a theorem over all interleavings. Beside it stands a
class with the source's own fields, whose methods change them in place; a ghost `world` takes the same `Step`, and
`Valid()` ties the two together and carries the invariant.

What is taken for granted:

- **Supervisor**: restarts, the terminate step and exit do not overlap; kill and wait succeed; the blocking HTTP client
  builds. A child may die by itself at any time.
- **Settings store**: one client; a PUT lands at most once and before its response; a failed PUT has landed or never
  will. Any read of the settings file may fail. Stored values are JSON values (no `undefined`, NaN or infinity).
- **Converge controller**: an armed timer fires when due; a cleared timer does not fire; calling an unlisten function
  removes its listener.
- **Sanitizer**: how JavaScript reads a number from a text and prints one are parameters, so the results hold for any
  such pair. Looking up and calling `valueOf` and `toString` is modelled. The built-in prototypes are unchanged, and the
  response is not nested so deeply that joining its arrays exhausts the stack.

## Where the code departs from what is said about it

- The comment at `src-tauri/src/lightweight.rs:131-133` says a cancelled timer's callback does not run; lines 111-113
  run it always. `Lightweight.CancelledCallbackRuns` is such a run. `Lightweight.CancelledCallbacks` is the exact
  condition: the comment holds of a run so far if and only if no cancelled timer has finished.
- An entry need not be completed by its own timer. `Lightweight.OwnTimerExactly` states when it can only be: exactly when
  every timer left behind by a cancel has woken. There are runs with a single cancel in which every later entry is
  completed by the timer of the entry before (`Lightweight.OneCancelShiftsForever`).
- `src/lib/settings.ts:14-15` says `purgeLegacyDeadKeys` removes residual keys. Against the merging server a deleted key
  stays, unless a PUT is merged into a settings file the server cannot read (`SettingsStore.DeletedKeyStays`). In that
  case, and only then, keys are lost (`SettingsStore.KeyLostExactly`): the server takes the file for empty
  (`src-tauri/src/headless_shell.rs:68-74`) and rewrites it.
- `src/store/appStore.ts:216-219` gives everything but a settled converged snapshot the 5 s cadence. A snapshot pulled by a
  trigger while an older timer is armed does not change that timer, so after a settled wait it can be 30 s
  (`ConvergeLoop.StaleCadence`); `ConvergeLoop.DueAfterPull` says when.
- `applyOrder` loses a row if and only if there is an order to apply and a name is blank or repeated after trimming
  (`SubscriptionOrder.NothingLostExactly`).
- The web client prints a space in a query as `+`, which the server does not turn back
  (`QueryString.ClientServerAgree`); the server's comment at `src-tauri/src/headless_main.rs:936-938` accepts this.
- The empty list of pairs prints as the empty string, which the server reads as one pair with an empty name
  (`QueryString.StrictQueryRoundTrip`).
- `snapSnapshot` is meant to degrade any malformed response, but it throws on some: `Number` applied to an object with a
  key `toString` is a TypeError. `SnapshotExceptions.NotTotal` is a small input,
  `SnapshotExceptions.SnapshotThrowsExactly` the exact condition.
- Sanitizing twice is not the same as once for a cascade text that is cut right after white space: trimming comes before
  cutting (`src/lib/ipc.ts:1663`, `src/lib/ipc.ts:1669`). `SnapshotFixpoint.NotIdempotent` is such a response,
  `SnapshotFixpoint.SanitizeTwice` states exactly for which it happens, and `SnapshotFixpoint.SanitizeThrice` that two
  passes always suffice.

## Model

| member | source | states |
|---|---|---|
| `MaximalRuns.TrailingRunIsMaximal` | src-tauri/src/sidecar.rs:1566-1705 | the reference notion of a failing run: only failures, and a success (or nothing) right before it |
| `HealthPoll.ShapeDescribesRuns` | src-tauri/src/sidecar.rs:1566-1705 | for every outcome sequence, counting strikes in threes agrees with summing floor(length/3) over the maximal failing runs, and with counting runs of length at least 3 and those that recovered |
| `HealthPoll.CloseWindow` | src-tauri/src/sidecar.rs:1637-1700 | closing a strike window appends exactly: the cutoff (red tray, "unhealthy", OS proxy cleared) if the episode is new, and after it the restart or the termination that the number of windows closed so far calls for; it keeps every order law of the trace |
| `HealthPoll.Cycle` | src-tauri/src/sidecar.rs:1582-1703 | one poll cycle moves the counters as the outcome demands, appends exactly what the outcome and the windows closed so far call for, and keeps trace, counters and window count in step |
| `HealthPoll.Poll` | src-tauri/src/sidecar.rs:1566-1705 | for every outcome sequence the trace is exactly the one read off its maximal failing runs; with W the sum of floor(length/3) over them: min(3, W) respawns, each announced and backed off by 1, 2, 4 s in turn; terminated iff W >= 4, once, with no restart activity after it; "unhealthy" and "healthy" alternate starting with "unhealthy"; the OS proxy is cleared right after each "unhealthy" and never else, and before any restart or termination of that episode |
| `HealthPoll.CutOffBeforeRestart` | src-tauri/src/sidecar.rs:1640-1684 | at every restart announcement and at the termination the OS proxy has been cleared once more than the sidecar has recovered |
| `HealthPoll.TraceStep` | src-tauri/src/sidecar.rs:1582-1703 | the trace read off the maximal failing runs grows, outcome by outcome, by what one cycle appends |
| `HealthPoll.BackoffOfAttempt` | src-tauri/src/sidecar.rs:1535-1561 | attempt k of 1..3 waits 1000 * 2^(k-1) ms, at most 4000, untouched by the 64-bit width |
| `HealthPoll.TotalBackoffBounded` | src-tauri/src/sidecar.rs:1535-1561 | all backoff of a run adds up to 1000 * (2^min(3, W) - 1) ms, at most 7000 |
| `Supervisor.SpawnAlone` | src-tauri/src/sidecar.rs:463-642 | a spawn from no live child leaves exactly the child it reports, with the port and token asked for; a lost port race is reported only once the child is dead |
| `Supervisor.ColdBoot` | src-tauri/src/sidecar.rs:416-453 | one to three attempts; every attempt before the last lost the port race and a lost race ends the boot only on the third; the last attempt alone decides the result; never two live children; the survivor has the port and token of that attempt |
| `Supervisor.BootHandle` | src-tauri/src/sidecar.rs:374-454 | a handle exists iff one of three attempts comes up after lost races only; it has that attempt's port and token, its one child is alive with them, mode Running |
| `Supervisor.OneChildEver` | src-tauri/src/sidecar.rs:463-642 | after boot and any restarts, crashes, terminations and exits in any order: never more than one child alive at any moment; what is alive is the handle's child, spawned with the handle's port and token, which never change |
| `Supervisor.ModeGraphRespected` | src-tauri/src/sidecar.rs:142-160 | in every run, failed respawns included, all `set_mode` calls are edges of the table if and only if no terminate directly follows a terminate and nothing acts after exit; then Running holds a child, Starting holds none, and NotRunning means exited with nothing alive |
| `Supervisor.LegalTable` | src-tauri/src/sidecar.rs:142-160 | Running is entered from Starting only, Starting from NotRunning only, Terminated from Starting or Running, NotRunning from anywhere else |
| `Supervisor.FewTerminatesAreOrderly` | src-tauri/src/sidecar.rs:1662-1671 | at most one terminate and exit last make a run orderly |
| `Supervisor.PollRespectsModeGraph` | src-tauri/src/sidecar.rs:1662-1699 | the health poll's terminations, mixed with any restarts and crashes and ended by exit, never leave the mode table |
| `Supervisor.SidecarHandle.constructor` | src-tauri/src/sidecar.rs:597-607 | the handle of a child that answered `/healthz` |
| `Supervisor.SidecarHandle.RestartIntoSlot` | src-tauri/src/sidecar.rs:743-794 | ends Running with the new child or Starting with none; keeps the one-child invariant and the identity |
| `Supervisor.SidecarHandle.MarkTerminated` | src-tauri/src/sidecar.rs:1662-1671 | the terminate step sets the mode; the child, if any, stays held and no process changes |
| `Supervisor.SidecarHandle.OnExit` | src-tauri/src/main.rs:443-491 | nothing is alive or held after exit, also when it comes twice |
| `ConvergeLoop.RunKeepsInv` | src/store/appStore.ts:272-387 | every event keeps: one timer, one pull, one visibility handler; alive exactly while subscribed and visible; an armed timer is due within 30 s of the last completion |
| `ConvergeLoop.PollingAliveAndSingle` | src/store/appStore.ts:272-387 | in every reachable state at most one timer, one pull and one visibility handler; a timer only while subscribed and visible; while subscribed and visible a timer or a pull |
| `ConvergeLoop.PausedIsHeardHidden` | src/store/appStore.ts:312-387 | in every run the loop is paused exactly when the document was hidden at the last subscribe or visibility event delivered since |
| `ConvergeLoop.HideStopsPolling` | src/store/appStore.ts:346-357 | after a delivered hide no timer is armed and no pull starts, however long, until a trigger, an unsubscribe or a delivered show |
| `ConvergeLoop.ShowResumesPolling` | src/store/appStore.ts:346-357 | a show delivered to a paused loop ends the pause and starts a pull at once, or finds one in flight |
| `ConvergeLoop.PullByDueTime` | src/store/appStore.ts:279-310 | after a completion no state past the armed timer's due time is subscribed and visible without a new pull having started |
| `ConvergeLoop.DueAfterPull` | src/store/appStore.ts:279-310 | when a pull completes, an older timer that is still armed keeps its due time; otherwise, if subscribed and visible, one is armed with the interval the new snapshot calls for; due within 30 s either way, and within that interval iff no timer was armed that is due later |
| `ConvergeLoop.TriggerAnswered` | src/store/appStore.ts:220-310 | every trigger starts a pull at once, or is dropped for one in flight, and then a pull starts within 30 s of that one's completion while subscribed and visible, and within the interval its snapshot calls for if no older timer was armed |
| `ConvergeLoop.StaleCadence` | src/store/appStore.ts:279-293 | a run whose newest snapshot calls for 5 s while the loop waits out an older 30 s |
| `ConvergeLoop.ClockNeverStuck` | src/store/appStore.ts:279-293 | firing the due timer always lets time go on, so the 30 s bound is about runs that exist |
| `ConvergeListeners.RunAllKeepsInv` | src/store/appStore.ts:312-387 | every event order keeps the polling invariant and, per channel, that the current generation's listen is pending, held or rejected, in exactly one of these while subscribed and in none otherwise |
| `ConvergeListeners.ListenerAccounting` | src/store/appStore.ts:312-387 | per channel at most one live listener, of the current generation and held in its slot; none while unsubscribed, however late promises settle; exactly one while subscribed unless its listen is pending or was rejected |
| `ConvergeListeners.SubscribeListens` | src/store/appStore.ts:312-343 | a first subscribe adds exactly one pending promise, of the new generation, on each channel |
| `ConvergeListeners.ListensSettleByEvent` | src/store/appStore.ts:322-343 | a promise leaves, a listener appears and a rejection is noted only when that promise settles so, and a new listener is of the current generation |
| `ConvergeListeners.CurrentListenIsKept` | src/store/appStore.ts:326-342 | a resolved promise of the current generation becomes the one live listener, any other changes nothing |
| `ConvergeListeners.ConvergeController.ScheduleNext` | src/store/appStore.ts:279-293 | arms a timer, with the cadence of the current snapshot, exactly when none is armed and polling is on and visible |
| `ConvergeListeners.ConvergeController.OnTrigger` | src/store/appStore.ts:320-325 | takes the Trigger step and keeps the invariant |
| `ConvergeListeners.ConvergeController.OnPullDone` | src/store/appStore.ts:298-310 | stores the snapshot (or its absence), frees the flag and re-arms |
| `ConvergeListeners.ConvergeController.OnTimer` | src/store/appStore.ts:289-292 | the timer variable is cleared before the pull starts |
| `ConvergeListeners.ConvergeController.OnVisibility` | src/store/appStore.ts:346-357 | afterwards the loop is paused iff the document is hidden; hiding leaves no timer, showing after a pause leaves a pull in flight |
| `ConvergeListeners.ConvergeController.DoSubscribe` | src/store/appStore.ts:312-361 | a second subscribe does nothing; a first one raises the generation, listens, registers the handler and pulls |
| `ConvergeListeners.ConvergeController.DoUnsubscribe` | src/store/appStore.ts:363-387 | raises the generation, clears timer, handler and both slots |
| `ConvergeListeners.ConvergeController.OnListenResolved` | src/store/appStore.ts:326-342 | keeps the unlisten function of the current generation and calls any other at once |
| `SettingsStore.MergePatch` | src-tauri/src/headless_shell.rs:102-105 | the insertion loop is the right-biased union of the two documents |
| `SettingsStore.SettingsServer.Put` | src-tauri/src/headless_shell.rs:91-110 | a malformed or non-object body is refused and a failed write changes nothing; otherwise every body key is stored and every other key keeps its value, starting from empty when the file was unreadable |
| `SettingsStore.RunKeepsInv` | src/lib/settings.ts:58-97 | in every interleaving of get, set, delete, save, flush success and failure, with any read of the settings file failing: the document is dirty, or the one PUT in flight carries exactly it, or the server agrees on all its keys; and each flight carries a document version not older than its save |
| `SettingsStore.DocIsLastEdits` | src/lib/settings.ts:43-67 | in every run, once loaded, each key of the document has the value of its last set, is absent after a later delete, and is otherwise as the server's document had it at the load (read off the event list alone) |
| `SettingsStore.SetStores` | src/lib/settings.ts:58-62 | a set changes that key and no other |
| `SettingsStore.SetThenSave` | src/lib/settings.ts:58-97 | in every run, a value set and not edited again is on the server when any save called after the set resolves, whatever fails in between and whatever the server can read |
| `SettingsStore.FlushSyncs` | src/lib/settings.ts:83-97 | one undisturbed flush makes the server agree with the document |
| `SettingsStore.SaveResolvesPersisted` | src/lib/settings.ts:68-97 | when a save resolves without error, the server agrees on all keys at once with one document version the client held at or after that save call |
| `SettingsStore.SavedValueIsOnServer` | src/lib/settings.ts:68-97 | a value that stood from the save call on is on the server when the save resolves |
| `SettingsStore.KeyLostExactly` | src-tauri/src/headless_shell.rs:68-107 | a step takes a key off the server if and only if it merges a body without that key into a file it cannot read |
| `SettingsStore.ServerKeysNeverShrink` | src-tauri/src/headless_shell.rs:102-107 | over any run in which the file can be read at every merge no key leaves the server |
| `SettingsStore.DeletedKeyStays` | src/lib/settings.ts:63-97 | over every run in which a deleted key is not set again, the key is on the server if and only if it was there and no PUT was merged into an unreadable file, and then with its old value |
| `SettingsStore.DeleteThenSave` | src/lib/settings.ts:63-97 | from rest, a delete saved with success resolves and persists, and leaves the key off the document and on the server exactly when it was there and the file was readable |
| `SettingsStore.FailedLoadIsForever` | src/lib/settings.ts:43-51 | after a failed load no action loads the document or changes the server |
| `SettingsStore.HeadlessStore.EnsureLoading` | src/lib/settings.ts:43-51 | the GET is started once |
| `SettingsStore.HeadlessStore.OnGetOk` | src/lib/settings.ts:44-50 | the document becomes the stored one if the server could read it, else empty |
| `SettingsStore.HeadlessStore.SetKey` | src/lib/settings.ts:58-62 | that key has the value, every other key is as before, the document is dirty, and the invariant is kept |
| `SettingsStore.HeadlessStore.DeleteKey` | src/lib/settings.ts:63-67 | removes the key and marks the document dirty, keeping the invariant |
| `SettingsStore.HeadlessStore.CallSave` | src/lib/settings.ts:68-81 | queues one flush behind all earlier ones |
| `SettingsStore.HeadlessStore.StartFlush` | src/lib/settings.ts:83-91 | a clean flush resolves with everything persisted; a dirty one sends exactly the document and clears the flag first |
| `SettingsStore.HeadlessStore.OnPutOk` | src/lib/settings.ts:85-92 | the save that sent it is persisted |
| `SettingsStore.HeadlessStore.OnPutFail` | src/lib/settings.ts:93-96 | the document is dirty again |
| `Lightweight.RunKeepsInv` | src-tauri/src/lightweight.rs:92-161 | in every interleaving the counts balance, each entry's timer is in exactly one phase of its life, and a pending entry is not cancelled and its own timer has not woken |
| `Lightweight.OwnTimerExactly` | src-tauri/src/lightweight.rs:105-149 | in every run that ends with an entry pending, no timer but its own can complete it if and only if every timer a cancel left behind has woken (as many wake-ups failed as entries were cancelled); otherwise some timer of an earlier entry does if it wakes first |
| `Lightweight.StaleNeedsSleeper` | src-tauri/src/lightweight.rs:140-149 | an entry is completed by another's timer only from such a state |
| `Lightweight.RestedEntriesComplete` | src-tauri/src/lightweight.rs:92-149 | a run in which every entry starts with no timer asleep has no entry completed by another's timer |
| `Lightweight.Accounting` | src-tauri/src/lightweight.rs:92-161 | enters = cancels + promotions + [Entering]; promotions = exits + [InLightweight]; failed wake-ups plus pending timers = cancels + [Entering]; failed wake-ups never exceed cancels; without cancels every wake-up promotes its own entry |
| `Lightweight.CancelledCallbacks` | src-tauri/src/lightweight.rs:105-136 | in every run the cancelled timers whose callback has run are exactly those not spawning, sleeping or about to run it; so the comment at lines 131-133 holds of a run so far if and only if every cancelled timer is still in one of these phases |
| `Lightweight.DrainedAccounting` | src-tauri/src/lightweight.rs:105-136 | once all timers are done every entry's callback has run exactly once, cancelled or not; failed wake-ups equal cancels; the comment holds iff nothing was cancelled |
| `Lightweight.CancelledCallbackRuns` | src-tauri/src/lightweight.rs:131-134 | a run in which a cancelled timer's callback runs |
| `Lightweight.OneCancelShiftsForever` | src-tauri/src/lightweight.rs:140-149 | for every n a run with one cancel in which n entries in a row are completed by the timer of the entry before |
| `Lightweight.LightweightController.TryEnter` | src-tauri/src/lightweight.rs:92-117 | succeeds exactly from Normal, keeping the accounting |
| `Lightweight.LightweightController.TryCancel` | src-tauri/src/lightweight.rs:121-136 | succeeds exactly from Entering, keeping the accounting; the thread stays |
| `Lightweight.LightweightController.TimerWakes` | src-tauri/src/lightweight.rs:140-149 | promotes whatever entry is pending, its own or not, else changes nothing |
| `Lightweight.LightweightController.TryExit` | src-tauri/src/lightweight.rs:153-161 | succeeds exactly from InLightweight, keeping the accounting |
| `DriftNotice.DriftMeansSomeEntry` | src-tauri/src/tray.rs:325-345 | the count is positive iff some platform, port or route is neither consistent nor acknowledged |
| `DriftNotice.Notifier.Observe` | src-tauri/src/tray.rs:350-370 | an unreachable snapshot fires nothing and keeps the baseline; a reachable one moves the baseline and fires exactly on the rising edge |
| `DriftNotice.ProgressCountsBlocks` | src-tauri/src/tray.rs:350-370 | edge counting equals the number of maximal drift blocks among the reachable snapshots |
| `DriftNotice.ObserveAll` | src-tauri/src/tray.rs:318-370 | over every snapshot sequence the notices equal the number of maximal drift blocks among the reachable snapshots, each fires at a reachable drifted snapshot, and neighbours are separated by a clean one |
| `DriftNotice.NoticesSeparated` | src-tauri/src/tray.rs:318-370 | between any two notices there is a reachable snapshot with no unacknowledged drift |
| `Utf8.LossyKeepsValid` | src-tauri/src/headless_main.rs:956-956 | the lossy conversion always yields valid UTF-8 and changes a string iff it was not valid |
| `Utf8.LossyKeepsPrefix` | src-tauri/src/headless_main.rs:956-956 | a well-formed front stays as it is, whatever follows |
| `Utf8.BadLengthIsMaximal` | src-tauri/src/headless_main.rs:956-956 | the piece one replacement character stands for is the longest unfinished character at that point, or one byte |
| `PercentCodec.PercentDecode` | src-tauri/src/headless_main.rs:939-957 | the decoding loop replaces exactly the well-formed escapes by their bytes, keeps stray and truncated % signs, and yields valid UTF-8 |
| `PercentCodec.EscapeDecodes` | src-tauri/src/headless_main.rs:944-951 | an escape decodes to its byte whatever the case of its digits |
| `PercentCodec.NothingToDecode` | src-tauri/src/headless_main.rs:944-954 | text without a % followed by two hexadecimal digits decodes to itself |
| `PercentCodec.DecodeEncode` | crates/resin-core/src/encoding.rs:19-49 | decoding inverts both encoders on every UTF-8 string, and the form encoder iff the string has no space (each space comes back as +) |
| `PercentCodec.EncodeInjective` | crates/resin-core/src/encoding.rs:19-49 | both encoders are injective |
| `PercentCodec.EncodedBytes` | crates/resin-core/src/encoding.rs:19-49 | encoded text holds only literal bytes, % and, form only, + |
| `PercentCodec.EncodeChangesExactly` | crates/resin-core/src/encoding.rs:19-49 | an encoder leaves a text unchanged iff it consists of letters, digits and the punctuation of that encoder's set |
| `QueryString.QueryParamDecoded` | src-tauri/src/headless_main.rs:964-972 | returns the decoded value of the first pair whose decoded name is the key, or nothing |
| `QueryString.ReaderLaws` | src-tauri/src/headless_main.rs:964-972 | on any text: a pair without = has an empty value, the first = splits name from value, and the first matching pair is taken |
| `QueryString.LookupPrinted` | src-tauri/src/headless_main.rs:964-972 | for every non-empty list of UTF-8 pairs and every encoder, lookup in the printed text is lookup in the list as the reader sees it |
| `QueryString.StrictQueryRoundTrip` | src-tauri/src/headless_main.rs:929-972 | a strictly printed list reads back as the first matching value or nothing, iff the list is not empty or the key is not empty |
| `QueryString.BuildQuery` | src/lib/headless-dispatch.ts:25-35 | the two loops print the parameter list left by the constants followed by the present arguments, with a leading ? iff there is one |
| `QueryString.AppliedIsLastSet` | src/lib/headless-dispatch.ts:25-35 | after any `set` calls each name has the value set last |
| `QueryString.SetsAreIntended` | src/lib/headless-dispatch.ts:25-35 | the set calls leave each name with its last present argument, else its last constant |
| `QueryString.ArgumentIsLast` | src/lib/headless-dispatch.ts:28-32 | that argument is the one after which no present argument is declared for the name |
| `QueryString.ClientServerAgree` | src-tauri/src/headless_main.rs:929-972 | on path plus built query the server finds the path, and for each name the last present argument the route declares for it, else the last constant, else nothing, with each space as +; so the exact value iff it has no space |
| `Hostname.HostnameInvertsPrint` | src-tauri/src/headless_security.rs:142-167 | for every registered name, IPv4 or IPv6 host with any mix of padding, scheme, userinfo, port, root dots, path, query and fragment, the host comes back with A to Z, and nothing else, in lower case |
| `SubscriptionOrder.ApplyOrder` | src/views/SubscriptionsView.tsx:117-131 | the Map-and-array loops compute the reference placement |
| `SubscriptionOrder.AppliedIsOrdered` | src/views/SubscriptionsView.tsx:117-131 | for distinct non-blank names the result is a permutation, listed names first in the user's order, the rest in server order |
| `SubscriptionOrder.NothingLostExactly` | src/views/SubscriptionsView.tsx:117-131 | the result is a permutation iff there is no order or all names are distinct and non-blank |
| `SubscriptionOrder.AppliedOnAnyList` | src/views/SubscriptionsView.tsx:117-131 | on any list with an order to apply: for each name that is not blank the last row with that name is shown, nothing else, sorted by the user's order |
| `SubscriptionOrder.AppliedIdempotent` | src/views/SubscriptionsView.tsx:117-131 | re-sorting a sorted list changes nothing, on all lists |
| `SubscriptionOrder.MovedFacts` | src/views/SubscriptionsView.tsx:584-586 | the splice pair moves one row, keeps the order of the others and loses nothing |
| `SubscriptionOrder.Hover` | src/views/SubscriptionsView.tsx:573-594 | moves the dragged row to the hovered place exactly when it is another place and the drag is live; persists the names shown |
| `SubscriptionOrder.DragReproduced` | src/views/SubscriptionsView.tsx:117-131 | re-sorting any permutation of a list by that list's names gives the list |
| `SubscriptionOrder.Drag` | src/views/SubscriptionsView.tsx:573-594 | after any drag path nothing is lost, only the grabbed row has moved, it is where it was hovered last, and re-sorting any later list of the same rows by the persisted names gives the list last shown |
| `SnapshotWire.NumberThrowsExactly` | src/lib/ipc.ts:1774-1779 | by the lookup and call rules of the language, `Number` throws on a JSON value if and only if it is an object with a `toString` key or an array holding one, however deep |
| `SnapshotWire.NumberOfStrings` | src/lib/ipc.ts:1774-1779 | an array of strings reads as the strings joined with commas, so one string in an array reads like the string |
| `SnapshotWire.NumberOfObject` | src/lib/ipc.ts:1774-1779 | an object without a `toString` key reads as its standard text |
| `SnapshotExceptions.SnapshotThrowsExactly` | src/lib/ipc.ts:1888-1934 | the sanitizer throws if and only if one of the numbers it reaches (scalars, and the rows within the first 4096 that get that far) is such a value |
| `SnapshotExceptions.PlatformThrowsExactly` | src/lib/ipc.ts:1786-1831 | a platform row throws iff it is in one of the two drifted states with such a timestamp |
| `SnapshotExceptions.PortThrowsExactly` | src/lib/ipc.ts:1833-1850 | a port row throws iff its port is such a value, or it is missing on the engine with a valid port and such a timestamp |
| `SnapshotExceptions.RouteThrowsExactly` | src/lib/ipc.ts:1853-1867 | the same for a route row with a process |
| `SnapshotExceptions.SubscriptionThrowsExactly` | src/lib/ipc.ts:1870-1886 | a named subscription row throws iff one of its counts is such a value |
| `SnapshotExceptions.TotalOnPlainValues` | src/lib/ipc.ts:1888-1934 | the sanitizer returns on every JSON value without a `toString` key |
| `SnapshotExceptions.NotTotal` | src/lib/ipc.ts:1774-1779 | a response on which the sanitizer throws |
| `SnapshotContents.FamiliesExactly` | src/lib/ipc.ts:1896-1915 | each family of a returned snapshot holds exactly the acceptable rows among its first 4096, in order: a row that cannot be read costs no other row |
| `SnapshotContents.StringsExactly` | src/lib/ipc.ts:1768-1771 | a string list holds exactly the non-empty strings among its first 64 items, in order |
| `SnapshotContents.PlatformKept` | src/lib/ipc.ts:1786-1831 | a platform row is kept iff it is an object in one of the three states |
| `SnapshotContents.PortKept` | src/lib/ipc.ts:1833-1850 | a port row is kept iff it is an object with a port number, consistent or missing on the engine |
| `SnapshotContents.RouteKept` | src/lib/ipc.ts:1853-1867 | a route row is kept iff it also has a process |
| `SnapshotContents.NamedKept` | src/lib/ipc.ts:1682-1686 | a subscription row or phase row is kept iff it is an object with a non-empty name |
| `SnapshotContents.CascadeKept` | src/lib/ipc.ts:1658-1677 | a cascade record is kept iff it is an object with a known stage and a reason that is not blank; its reason is the trimmed text cut at 1024, its actions are all cleaned strings in order |
| `SnapshotContents.NumbersExactly` | src/lib/ipc.ts:1774-1779 | a timestamp is accepted iff it is a number from 0 to the ceiling, a counter iff it is at most 2^53 - 1 |
| `SnapshotContents.PortNumbersExactly` | src/lib/ipc.ts:1836-1837 | a port is accepted iff it is an integer from 0 to 65535 |
| `SnapshotContents.TextsExactly` | src/lib/ipc.ts:1763-1784 | strings are cut at 512 code units and anything else is empty; a flag is true for `true` alone |
| `SnapshotContents.PlatformFields` | src/lib/ipc.ts:1786-1831 | each field of a kept platform row comes from the key of that name |
| `SnapshotContents.PortFields` | src/lib/ipc.ts:1833-1850 | the same for a port row |
| `SnapshotContents.RouteFields` | src/lib/ipc.ts:1853-1867 | the same for a route row |
| `SnapshotContents.SubscriptionFields` | src/lib/ipc.ts:1870-1886 | the same for a subscription row |
| `SnapshotContents.PhaseFields` | src/lib/ipc.ts:1682-1711 | the same for a phase row; an unknown phase reads as "Never", an unknown stage as none |
| `SnapshotContents.ScalarFields` | src/lib/ipc.ts:1894-1933 | the same for the scalars; an unknown converge phase reads as "Unknown", a missing check time as 0 |
| `SnapshotBounds.SnapshotBounded` | src/lib/ipc.ts:1758-1939 | every snapshot returned, whatever the JSON value, meets all length, count, range and tag bounds |
| `SnapshotBounds.PhaseBounded` | src/lib/ipc.ts:1658-1711 | phase rows have a known phase and stage, bounded texts, and cascade texts without control characters or leading white space |
| `SnapshotStability.PlatformBack` | src/lib/ipc.ts:1786-1831 | a bounded platform row, printed, reads back as itself |
| `SnapshotStability.PortBack` | src/lib/ipc.ts:1833-1850 | a bounded port row, printed, reads back as itself |
| `SnapshotStability.RouteBack` | src/lib/ipc.ts:1853-1867 | a bounded route row, printed, reads back as itself |
| `SnapshotStability.SubscriptionBack` | src/lib/ipc.ts:1870-1886 | a bounded subscription row, printed, reads back as itself |
| `SnapshotStability.CascadeBack` | src/lib/ipc.ts:1658-1677 | a bounded cascade record reads back as itself with each text trimmed |
| `SnapshotStability.PhaseBack` | src/lib/ipc.ts:1682-1711 | a bounded phase row reads back as itself with its cascade texts trimmed |
| `SnapshotStability.BoundedSnapshotBack` | src/lib/ipc.ts:1888-1934 | sanitizing a bounded snapshot never throws and gives exactly that snapshot with its cascade texts trimmed |
| `SnapshotFixpoint.SanitizeTwice` | src/lib/ipc.ts:1888-1934 | whenever the sanitizer returns, it returns on its own output; both snapshots have the same scalars, families and phase rows, name, phase, stage, message and cascade stage included, and differ at most in cascade texts; they are equal iff no cascade text of the input that is kept is cut right after white space |
| `SnapshotFixpoint.SanitizeThrice` | src/lib/ipc.ts:1888-1934 | a third pass never changes anything |
| `SnapshotFixpoint.CascadeSettledExactly` | src/lib/ipc.ts:1658-1677 | the texts of a kept cascade record end in no white space iff neither its trimmed reason nor a trimmed action has white space as the last code unit before the cut |
| `SnapshotFixpoint.NotIdempotent` | src/lib/ipc.ts:1663-1669 | a response for which the second pass changes the snapshot |

## Left out

- The strategy engine and service, snapshot merge, whitebox store, orchestration and throttling: not part of this model.
- Configuration export and import (`crates/resin-core/src/config_transfer.rs`): rests on serialization shapes outside this model.
- Process spawning, sockets, HTTP, job objects, OS proxy commands, tray painting, working-set trimming: only their outcomes appear.
- A kill that fails, a child left alive when the blocking client cannot be built (`src-tauri/src/sidecar.rs:577-580`), and overlapping restarts: outside the supervisor's assumptions.
- The proxy token, log buffer, network settings and the last-check timestamp of the sidecar handle: carried along, never decided on.
- Poll interval and timeout lengths of the health poll: time enters only through the backoff.
- `Lightweight.LightweightController.TryCancel`: does not model the thread-handle slot, which is written and taken but never consulted; nor the delay arithmetic.
- `ConvergeListeners.ConvergeController.DoSubscribe`: does not model the branch for a missing `document`, nor the development-only overlap marks.
- Concurrent writers of the settings file, the desktop store, and the typed load/save helpers around the store.
- `DriftNotice.Notifier.Observe`: stops at the decision to fire; the toast and its failure are foreign calls.
- `QueryString.ClientServerAgree`: parameter names contain no space and are looked up by a non-empty key, as the route table has them; names with a space are covered by `QueryString.LookupPrinted`.
- `Hostname.HostnameInvertsPrint`: says nothing about text that is not the print of an authority.
- `SubscriptionOrder.Hover`: the state setter is taken to be applied once per pointer event.
- How JavaScript reads and prints numbers (parameters of the sanitizer), and number rounding.
- Token generation, credential extraction, log and trace buffers, route and capability tables, React rendering, translations.
