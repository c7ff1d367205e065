# GoTunnels, verified core

A Dafny model of the stateful parts of GoTunnels, with proofs of what they promise. Two kinds of file go together.
A class keeps the fields, loops and branches of the original and is proved, method by method, against a transition
function on values; the theorems are about whole runs of those functions, for every interleaving.

| file | models | main results |
|---|---|---|
| `TokenBucket.dfy` | per-key token bucket with sweeping | sweeping changes no answer; a call is allowed exactly when every window of its key stays within burst + rate * length |
| `SignupGuard.dfy` | two limiters composed by `Chain`, asked one after the other by concurrent requests | each admission asks the global limiter once; the orders agree exactly when nobody overtakes; both window bounds, exactly when the second survives the delay between the asks, and what a longest delay costs |
| `Signals.dfy` | reactive signals of the CAPTCHA page | after every `set`, each clean cache and each effect's last run is what recomputing on current state gives |
| `CaptchaSync.dfy` | batched sync protocol, any number of devices against one row, boot included | books balance on every run; every solve is somewhere |
| `CaptchaDisplay.dfy` | what the pages display | no solve is lost; exactly when a display goes backwards |
| `CaptchaReset.dfy` | resets racing with syncs | exactly when a reset brings an old solve back, and exactly when it takes a later one along, over runs and as seen at the deletion |
| `CaptchaPage.dfy` | what one page shows and remembers, resets included | the displayed total and both streaks at the end of any run; what a confirmed reset leaves; no streak is forgotten |
| `CaptchaEngine.dfy` | the page's counters, flags and timer | each handler is one turn of that protocol |
| `NotesStore.dfy` | `ListNotes` and chains of "load older" pages | pages fall strictly, deliver every survivor, and end |
| `NotesFeed.dfy` | polling, reconciliation, filter generations | window equals the server's answer; the driver never stalls or overlaps; stale answers change nothing |
| `NotesHeld.dfy` | which notes are on screen and which wait behind the pill | exactly those some turn put there and none took away since |
| `NotesControl.dfy` | polling and paging without flags | on every run the page's flags, delays, cursor and button are those of a machine with one poll, one older request and three facts seen |
| `NotesBoot.dfy` | the late assignment of the saved filter | exactly when only notes of the selected authors are held ever after |
| `NotesWorld.dfy` | the page and a table that keeps changing | what "load older" has delivered, on every run |
| `NotesPage.dfy` | the page's maps and its list of cards | each handler is one turn of the feed, with the cards always the shown notes newest first |
| `TotpCodes.dfy` | matching a code to a time step, recovery codes | at most one step of skew; fillers and case never matter |
| `SecondFactor.dfy` | the second factor's statements, and its handlers as interleaving processes | exactly which steps and codes are accepted; accepted steps strictly increase; each token is granted once; deletions match grants; exactly when an accepted code is one of the secret in force, and when a disable ends the enrolment it was granted in |
| `Flows.dfy` | WebAuthn ceremony rows and the janitor | consumed exactly when outstanding; finished at most once; the janitor is unobservable |
| `Origins.dfy`, `RelyingParty.dfy` | origin patterns, the relying-party cache | a wildcard is exactly one label; which origins are refused, static or derived; the cache is transparent and bounded; begin and finish agree |
| `Base64.dfy`, `PasswordHash.dfy` | unpadded base64, PHC strings | exact round trips, for every input; exactly which strings are accepted, and which are printed forms; verification is under the stored parameters |
| `Text.dfy`, `Sequences.dfy`, `Wrappers.dfy` | string functions, elements of sequences, `Option` and `Result` | |

Modelling decisions that hold throughout:

- One SQL statement or transaction, one call under a mutex and one event-loop turn is one atomic step; anything may
  happen between steps.
- `float64` is `real`; clocks handed to one limiter or to the database do not run backwards; random ids are fresh.
- Cryptography and library verdicts (key derivation, TOTP code generation, sealing, hashing of recovery codes, the WebAuthn
  library's acceptance of a configuration) are uninterpreted functions, passed in as parameters.
- In the CAPTCHA protocol every solve carries an identity and a ledger follows it (`Books`). Neither exists in the program;
  they are what the theorems speak about.
- A run in `SecondFactor.dfy` is one account's; `FactorStore` holds all accounts and says that the others do not change.

Some expected properties hold only under a condition. Each is stated as an equivalence, with a run that fails it:

- *A reset does not resurrect solves of its page*: it does if and only if the server runs, after the deletion, a request
  already reported failed that carries one; at the deletion, some continuation does if and only if such a request is then
  outstanding (`LateRequestResurrects` shows one).
- *Solves recorded after the discard still count*: such a solve is lost if and only if a sync with it was acknowledged and
  every execution of it came before a deletion (`FlushDuringResetIsErased`: recorded and flushed while the reset request is
  in the air). Seen at the deletion, some continuation loses it if and only if it is then neither queued nor in a request
  that the server has not run (`LossAtDeletionIff`).
- *A confirmed reset leaves on display only what the page holds*: if and only if no queued solve was discarded by a reset
  clicked during a sync since the page last counted (`ConfirmedResetShowsHeld`; `ResetCanShowDiscarded` is a run from page
  load that shows one too many).
- *The displayed count never goes backwards*: without resets it falls exactly at a boot reply that is older than a sync
  already landed (`BootReplyCanLowerDisplay`), and at a landing whose batch the boot reply had already counted
  (`LandingCanLowerDisplay`).
- *Stale filters are discarded*: ever after boot if and only if, when the saved filter is assigned, nothing current in the
  air was asked for other authors and nothing held is foreign to it (`StaleAnswerDuringBoot`, `ForeignNoteStays`).
- *The global limiter is asked in the IP limiter's order*: if and only if no request overtakes another between its two asks
  (`OvertakingHappens`). *The per-IP bound on global tokens, measured where they are spent*: for two requests if and only if they
  ask no closer together than they were admitted, and for any number if all are so spaced (`BoundSurvivesDelayIffSpaced`).
  Otherwise the bound grows by what the longest wait earns, and no less (`DelayCostsItsEarnings`, `DelayBoundIsAttained`).
- *"Load older" delivers everything below its start*: boot's late assignment of the filter keeps this, whatever notes there
  are, if and only if the saved filter narrows the one in use or no note that is not held could lie in what was paged through
  (`AssignmentKeepsCompleteIff`; its proof has the table that fails).
- *A confirming code belongs to the secret it confirms*: if and only if no enrolment started between the request's read and
  its write (`StaleCodeCanConfirm`).
- *A disable turns the factor off after verifying a current code of it* (`internal/auth/handlers.go:716`): the handler verifies
  and deletes in two steps. What it deletes is of the enrolment its token was granted in if and only if no other request
  deleted the factor in between; after a recovery code granted while the enrolment was still unconfirmed, if and only if
  also no enrolment was started in between. Otherwise it ends a later enrolment or nothing (`DisableEndsItsEnrolmentIff`;
  `DisableCanEndLaterEnrolment` and `RecoveryGrantCanEndLaterEnrolment` are runs from an empty account that end a later one).

The comment in `internal/auth/password.go` describes PHC strings as starting with `$argon2id$`; the decoder does not look
at what stands before the first dollar sign, nor at what follows the last number of a field. The model follows the decoder.

Check everything with `dafny verify dfyconfig.toml`.

## Model

| member | source | states |
|---|---|---|
| `TokenBucket.RateLimiter.constructor` | internal/httpx/middleware.go:297-308 | a new limiter tracks no key, and its burst is raised to at least one |
| `TokenBucket.RateLimiter.Allow` | internal/httpx/middleware.go:311-328 | answer and whole new state are those of one step of the specification the run theorems are about |
| `TokenBucket.RateLimiter.SweepFull` | internal/httpx/middleware.go:345-355 | the deleting loop drops exactly the buckets that have refilled, at most once a minute, and alters no other |
| `TokenBucket.SweepIsInvisible` | internal/httpx/middleware.go:276-355 | on every run, for every rate and burst, each answer is that of a limiter that never drops a bucket and starts every key full |
| `TokenBucket.AllowedIffEveryWindowFits` | internal/httpx/middleware.go:310-343 | a call is allowed if and only if admitting it keeps every window of its key, from any earlier call until now, within burst + rate * length |
| `TokenBucket.LevelIsLeastRoom` | internal/httpx/middleware.go:337-343 | a bucket holds the least room left over all windows ending now, unless it is full |
| `TokenBucket.WindowBound` | internal/httpx/middleware.go:311-355 | in any interval of length T at most burst + rate * T calls of a key are allowed, across deletions and re-creations of its bucket |
| `TokenBucket.PatientKeyNeverRefused` | internal/httpx/middleware.go:311-343 | a key whose calls are at least 1/rate apart is never refused |
| `TokenBucket.TrackedKeysAreRecent` | internal/httpx/middleware.go:276-355 | after every call the last sweep is less than a minute ago, and every tracked key was called too shortly before it for a bucket to refill, so memory is bounded by the recently active keys |
| `TokenBucket.SweepsAreAMinuteApart` | internal/httpx/middleware.go:345-355 | keys are gone through, and dropped, only when the last time was a minute ago or more |
| `SignupGuard.Chain` | internal/httpx/middleware.go:38-44 | the loop wraps so that the first listed middleware is outermost, for any list |
| `SignupGuard.Guard` | internal/server/server.go:134-150 | for each of the four configurations the assembled handler asks the configured limiters, the IP limiter first, each with its own refusal, before it goes on |
| `SignupGuard.EachLimiterSeesItsOwnRun` | internal/httpx/middleware.go:311-328 | with the two asks of a request as separate steps that others may come between, each limiter goes through exactly the calls made to it, in the order and at the times of its own mutex |
| `SignupGuard.EveryAdmissionAsksOnce` | internal/server/server.go:134-150 | the requests that asked the global limiter and those about to are one to one with the IP limiter's admissions |
| `SignupGuard.OrdersAgreeIffNobodyOvertakes` | internal/server/server.go:134-150 | the global limiter is asked in the order of the IP limiter's admissions if and only if no request overtakes an earlier one between the two |
| `SignupGuard.OvertakingHappens` | internal/httpx/middleware.go:367-377 | whenever two requests pass the IP limiter, a run lets the second ask the global limiter first |
| `SignupGuard.GuardRunsAsMachine` | internal/server/server.go:134-150 | the assembled handler with both limiters on, run by any number of interleaved requests, has exactly the runs of the two-step machine these theorems are about: same possible asks, limiters, waiting requests and signups |
| `SignupGuard.BothWindowsHold` | internal/server/server.go:134-150 | on every run signups meet the global bound on the global limiter's clock; one IP's signups and the global tokens it can spend meet the per-IP bound on the IP limiter's clock, and on the global one too if its requests are spaced |
| `SignupGuard.BoundSurvivesDelayIffSpaced` | internal/httpx/middleware.go:367-377 | two requests fit the per-IP bound on the global clock, under every limiter that admits both, if and only if they ask no closer together than they were admitted; otherwise a run exceeds it |
| `SignupGuard.DelayCostsItsEarnings` | internal/httpx/middleware.go:367-377 | if no request of an IP waits longer than D between its two asks, the global tokens they spend in [lo, hi] are at most burst + rate * (hi - lo + D), for any number of requests |
| `SignupGuard.DelayBoundIsAttained` | internal/httpx/middleware.go:367-377 | for every D a limiter and a run reach that bound exactly |
| `Signals.Runtime.constructor` | frontend/js/page-captcha.js:71-91 | initially state signals are current, computed ones dirty, and nothing stored is wrong |
| `Signals.Runtime.Get` | frontend/js/page-captcha.js:75-106 | reading leaves the signal clean and subscribes the reader; no clean result changes and no observer is lost |
| `Signals.Runtime.Run` | frontend/js/page-captcha.js:96-115 | running a function stores a result that agrees with what it read, restores the outer subscriber, and mends exactly this node |
| `Signals.Runtime.Evaluate` | frontend/js/page-captcha.js:100-113 | every value the function saw is served by a clean signal that still holds it and that it now observes |
| `Signals.Runtime.Notify` | frontend/js/page-captcha.js:82-95 | whatever runs in between sees, after the whole snapshot of observers has been told nothing that was out of date is left clean |
| `Signals.Runtime.Set` | frontend/js/page-captcha.js:79-83 | setting a state signal terminates, changes no other state signal, and leaves every clean cache and every effect's last result equal to its meaning on the new state |
| `Signals.Runtime.Peek` | frontend/js/page-captcha.js:96-106 | a read from outside returns the recomputed meaning |
| `Signals.Runtime.StartEffect` | frontend/js/page-captcha.js:109-116 | an effect's first run sees current values |
| `Signals.ConsistentIsCurrent` | frontend/js/page-captcha.js:86-107 | in any acyclic graph, dynamic dependencies included, local agreement with what was read implies equality with full recomputation |
| `Signals.OnlyObserversUpset` | frontend/js/page-captcha.js:79-95 | changing or dirtying a signal can put only its observers out of date |
| `CaptchaSync.Clamp` | internal/captcha/captcha.go:212-214 | values in the range are kept, and others go to its nearer end |
| `CaptchaSync.FoldKeepsSound` | internal/store/store.go:788-805 | whatever a client claims, the row keeps total = manual + auto and current <= best, totals never shrink, the best streak never regresses |
| `CaptchaSync.RowSumsUpSyncs` | internal/store/store.go:774-805 | after any sequence of syncs the row is the sum of the clamped deltas by kind, the last streak claimed, and the greatest streak ever claimed |
| `CaptchaSync.WorkIsNeverStranded` | frontend/js/page-captcha.js:194-267 | on every run, boot included, a device with something to send has a timer armed or a sync running, unless it is leaving for the login page |
| `CaptchaSync.EverySolveIsAccountedFor` | frontend/js/page-captcha.js:179-267 | on every run of any number of pages, opened at any time, for manual and automatic solves separately: row + erased + cut off + discarded + held = opening + recorded + applied although reported failed |
| `CaptchaDisplay.NoSolveIsLost` | frontend/js/page-captcha.js:179-267 | without resets and with batches within the cap, server totals plus what the devices hold are exactly what was recorded plus the batches applied although reported failed |
| `CaptchaDisplay.DisplayNeverGoesBack` | frontend/js/page-captcha.js:154-267 | after boot the displayed count of a page never decreases between turn boundaries, whatever fails and whatever others add, if no sync is unanswered that the boot reply had already counted |
| `CaptchaDisplay.DisplayStaysUpIffCovered` | frontend/js/page-captcha.js:154-267 | that condition is exact: some continuation lowers a booted page's display if and only if such a sync is unanswered |
| `CaptchaDisplay.PlainStep` | frontend/js/page-captcha.js:206-267 | of all steps only a boot reply and a landing can lower a display, and each exactly when its total leaves less than was shown |
| `CaptchaDisplay.DisplayFallsAtBootIff` | frontend/js/page-captcha.js:708-719 | over runs, a boot reply lowers the display if and only if a sync of the page landed between its read and its arrival with a larger row total than was read |
| `CaptchaDisplay.DisplayFallsAtLandingIff` | frontend/js/page-captcha.js:240-249 | over runs, a landing lowers the display if and only if the boot reply came between the sync's execution and its landing with a total beyond the row's before the execution; its read then came after the execution |
| `CaptchaDisplay.BootReplyCanLowerDisplay` | frontend/js/page-captcha.js:708-719 | a run from page load: a first solve synced before an older boot reply arrives makes the display fall from one to zero |
| `CaptchaDisplay.LandingCanLowerDisplay` | frontend/js/page-captcha.js:708-719 | a run from page load: a solve counted by the boot reply while its sync is unanswered makes the display rise to two and fall to one |
| `CaptchaSync.EverySolveIsSomewhere` | frontend/js/page-captcha.js:179-267 | every single solve ever recorded is queued, in flight, applied, or was dropped by a reset |
| `CaptchaReset.ResetResurrectsOnlyByLateRequests` | frontend/js/page-captcha.js:588-626 | for every interleaving, a solve of the page that was reset from before its second discard counts in the new row if and only if the server runs, after the deletion, a request already reported failed that carries one |
| `CaptchaReset.ResurrectionPossibleIffLate` | frontend/js/page-captcha.js:588-626 | seen at the deletion, some continuation does so if and only if a request reported failed and not yet run carries such a solve then |
| `CaptchaReset.LaterSolveCountsIff` | frontend/js/page-captcha.js:588-626 | until the page's next reset a solve recorded after the discard is queued, in flight or in the row if and only if no sync with it was acknowledged or the server ran one after the last deletion |
| `CaptchaReset.LossAtDeletionIff` | frontend/js/page-captcha.js:588-626 | seen at the deletion, without a further deletion or reset of the page: some continuation loses such a solve if and only if it is then neither queued nor in a request the server has not run; every continuation does if and only if it is then in no queue, no request in flight and none reported failed |
| `CaptchaReset.RowAddsUpLog` | internal/store/store.go:774-805 | on every run, for each kind, the row's counter and what the cap cut off since the last deletion are the tally of the solves logged as in the row, plus the opening count if nothing was deleted |
| `CaptchaReset.FlushDuringResetIsErased` | frontend/js/page-captcha.js:588-617 | from any state with nothing in the air, a solve flushed while the reset request is in the air can be acknowledged and yet be in no queue, request or row |
| `CaptchaReset.LateRequestResurrects` | frontend/js/page-captcha.js:250-262 | the exception occurs: from any state with an unexecuted sync, failure, reset, deletion and late execution are possible in that order, and the old solves count again |
| `CaptchaPage.DisplayIs` | frontend/js/page-captcha.js:150-210 | on every run, resets included, a page displays the total it was last told, what it has queued and in flight, and what was discarded during a sync and not counted anew |
| `CaptchaPage.ConfirmedResetShowsHeld` | frontend/js/page-captcha.js:588-626 | right after its reset is confirmed a page has no streak, and displays exactly what it has queued and in flight if and only if nothing was so discarded |
| `CaptchaPage.ResetCanShowDiscarded` | frontend/js/page-captcha.js:588-606 | a run from page load: a second reset clicked during a sync discards a solve that is still displayed when the first reset is confirmed |
| `CaptchaPage.StreaksAre` | frontend/js/page-captcha.js:380-388 | on every run the streak counts solves since the last miss or confirmed reset on top of what boot resumed, and the best is the greatest reached or told since the last confirmed reset |
| `CaptchaPage.NoStreakIsForgotten` | frontend/js/page-captcha.js:179-267 | without a reset of the page or a boot reply during its sync, a page with nothing to send and nothing in the air has the streak of the last row it was sent, and no better best than it was sent |
| `CaptchaPage.BootDuringSyncDivides` | frontend/js/page-captcha.js:708-719 | a boot reply during a sync can leave page and server with different streaks, exactly when the batch claimed another than boot resumed |
| `CaptchaEngine.CaptchaStore.Sync` | internal/store/store.go:788-805 | the stored and returned row is the clamped batch folded into the old one; it stays sound and no total shrinks |
| `CaptchaEngine.CaptchaStore.Reset` | internal/store/store.go:820-823 | the row is gone |
| `CaptchaEngine.SyncEngine.constructor` | frontend/js/page-captcha.js:146-170 | a page just opened has nothing queued and shows zero |
| `CaptchaEngine.SyncEngine.BootReplied` | frontend/js/page-captcha.js:714-719 | the boot reply replaces total and streak, raises the best streak only, and leaves what is queued and sent: one boot turn of the protocol |
| `CaptchaEngine.SyncEngine.Solved` | frontend/js/page-captcha.js:179-186 | the counters count one more solve of its kind, the display follows, and a sync is scheduled: one recording turn of the protocol |
| `CaptchaEngine.SyncEngine.Missed` | frontend/js/page-captcha.js:188-192 | a miss ends the streak, keeps every queued solve and schedules a sync |
| `CaptchaEngine.SyncEngine.ScheduleSync` | frontend/js/page-captcha.js:194-200 | a timer is armed afterwards, whether or not one was before |
| `CaptchaEngine.SyncEngine.TimerFires` | frontend/js/page-captcha.js:196-199 | the timer is disarmed before the flush, which sends the body the protocol prescribes or nothing |
| `CaptchaEngine.SyncEngine.FlushSync` | frontend/js/page-captcha.js:217-240 | sends nothing while a sync is in the air or there is no work; otherwise everything queued moves into the request and its body counts exactly those solves |
| `CaptchaEngine.SyncEngine.SyncLands` | frontend/js/page-captcha.js:240-266 | a reply releases the batch, adopts the server's totals, reschedules if there is work, and resumes every waiting reset |
| `CaptchaEngine.SyncEngine.SyncFails` | frontend/js/page-captcha.js:250-266 | a failure puts exactly the batch back into the queue, restores the streak flag, and retries unless unauthorized |
| `CaptchaEngine.SyncEngine.PerformReset` | frontend/js/page-captcha.js:588-606 | the first discard leaves an airborne batch alone; with none in the air the reset request goes out at once |
| `CaptchaEngine.SyncEngine.ResumeResets` | frontend/js/page-captcha.js:599-606 | the second discard also drops what a failed sync had put back, and each waiting reset sends one request |
| `CaptchaEngine.SyncEngine.ResetLands` | frontend/js/page-captcha.js:614-617 | a confirmed reset zeroes streak, best and total and leaves what was queued since |
| `NotesStore.TopIsPage` | internal/store/store.go:918-954 | a page is strictly falling, holds the newest members and nothing else, and all of them if it is short |
| `NotesStore.ListIsPage` | internal/store/store.go:925-945 | a list is a page of the notes that match authors and cursor, of fifty unless between 1 and 200 were asked for |
| `NotesStore.ChainFalls` | internal/store/store.go:918-954 | whatever is created or deleted between requests, the pages put together fall strictly, without repeats, below the first cursor |
| `NotesStore.ChainDeliversAllSurvivors` | frontend/js/page-notes.js:482-499 | once a short page ends the chain, every matching note below the first cursor that is still there was delivered |
| `NotesStore.ChainEnds` | frontend/js/page-notes.js:482-499 | a chain from cursor c ends within c / 50 requests, rounded up |
| `NotesFeed.WindowIsExactlyTheAnswer` | frontend/js/page-notes.js:396-424 | from any prior state, the ids held in the window are exactly the answer's, below it nothing changed, and an empty answer empties both maps |
| `NotesFeed.WindowMatchesServer` | frontend/js/page-notes.js:396-424 | those ids are the server's matching notes in that range when it answered |
| `NotesFeed.MissingIffBelowWindow` | frontend/js/page-notes.js:396-424 | after an answer the page lacks a matching note of the server if and only if it lies below the window and was not held before |
| `NotesFeed.OlderPageAddsItsIds` | frontend/js/page-notes.js:489-491 | an older page adds exactly its ids and replaces nothing held |
| `NotesFeed.CursorOnlyFalls` | frontend/js/page-notes.js:428-494 | on every run from page load a set cursor moves only by a current load-older answer, and only down, or is cleared by a change of filter |
| `NotesFeed.DriverNeverStallsOrOverlaps` | frontend/js/page-notes.js:365-477 | on every run from page load, never two polls are in the air and delays stay within 5 and 60 seconds; from the moment a first poll is in the air, whoever started it, a visible page has a poll in the air or a timer armed |
| `NotesFeed.StaleAnswersAreDiscarded` | frontend/js/page-notes.js:365-506 | from any state whose current requests were asked for the selected filter, ever after an answer changes the held notes only if it was asked for the authors selected when it lands, and after a filter change a poll for the new filter is in the air as soon as the old one settles |
| `NotesHeld.WhatIsShownAndWhatWaits` | frontend/js/page-notes.js:213-230 | on any run from page load a note is on screen if and only if some turn showed it and none dropped it since; it waits if and only if an answer deferred it and since then none dropped it and the pill was not clicked |
| `NotesHeld.ScrolledAnswerShowsOwn` | frontend/js/page-notes.js:414-424 | on any run an answer on a scrolled page, not the first of its filter, adds to the screen exactly the listed own notes not held before, and to the waiting ones exactly the others'; else none waits |
| `NotesHeld.AnswerPlaces` | frontend/js/page-notes.js:399-424 | for each id, listed or not, held or not: where the note is after the answer, and which note it is |
| `NotesControl.PageIsControlled` | frontend/js/page-notes.js:389-506 | on every run from page load the page polls, waits and pages back as that machine does: the button is on screen exactly when a full answer and no short older page has landed for the filter, a click sends one request with cursor and filter, an unauthorized reply leaves |
| `NotesControl.NextPollIsTimed` | frontend/js/page-notes.js:440-467 | on any run, when a poll of the present filter settles on a visible page the next is timed five seconds ahead, doubled for each failure in a row, at most a minute; on a hidden page none is |
| `NotesBoot.BootKeepsFilterIff` | frontend/js/page-notes.js:593-606 | over runs from page load, after the saved filter is assigned every answer changes the held notes only for the selected authors and only their notes and one's own are held, in every continuation, if and only if at the assignment nothing current in the air was asked for other authors and nothing held is foreign |
| `NotesBoot.HarmlessUnlessPolledBefore` | frontend/js/page-notes.js:593-606 | that holds if no poll was started before the assignment or the saved filter is already in use, and fails if a current poll is in the air and the filters differ |
| `NotesBoot.StaleAnswerDuringBoot` | frontend/js/page-notes.js:593-606 | a run from page load: a poll started by a visibility change lands after the filter was narrowed and is applied |
| `NotesBoot.ForeignNoteStays` | frontend/js/page-notes.js:396-424 | a run from page load: such a poll lands before the assignment, and the other author's note stays through the polls of the narrowed feed |
| `NotesWorld.LoadOlderDelivers` | frontend/js/page-notes.js:482-499 | on any run from page load, the saved filter assigned at any time that keeps the promise, with answers read from a table that keeps changing: every matching note from the cursor up to where it started is held, and every one below the start once the end is reached |
| `NotesWorld.AssignmentKeepsCompleteIff` | frontend/js/page-notes.js:593-606 | the assignment keeps that, for every table, if and only if the saved filter narrows the one in use or no note that is not held could lie in what was paged through |
| `NotesWorld.MoveKeeps` | frontend/js/page-notes.js:389-506 | what ties held notes, cursor, requests and reads to the table survives every edit, every read and every turn |
| `NotesPage.DescendingIsSorted` | frontend/js/page-notes.js:174-176 | sorting the keys yields each once, newest first |
| `NotesPage.WithoutKeepsOrder` | frontend/js/page-notes.js:196-202 | taking a card away leaves the sorted list of the others |
| `NotesPage.MoveOne` | frontend/js/page-notes.js:176-183 | appending the next card, new or already on screen, extends the sorted tail of the list by one |
| `NotesPage.NotesPage.constructor` | frontend/js/page-notes.js:593-606 | a loaded page holds nothing, selects nobody and has no request in the air |
| `NotesPage.NotesPage.AssignSavedFilter` | frontend/js/page-notes.js:602 | boot's assignment changes the selection and neither generation nor requests |
| `NotesPage.NotesPage.SyncDOM` | frontend/js/page-notes.js:174-184 | from a sorted list of some of the notes, moving cards one by one ends with exactly the held notes, newest first, each with its node |
| `NotesPage.NotesPage.InsertNote` | frontend/js/page-notes.js:186-194 | a note already held is not replaced; a new one is held and on screen in its place |
| `NotesPage.NotesPage.RemoveNote` | frontend/js/page-notes.js:196-202 | the id leaves both maps and the screen, and nothing else does |
| `NotesPage.NotesPage.FindDeleted` | frontend/js/page-notes.js:400-409 | finds exactly the held ids in the window that the answer lacks |
| `NotesPage.NotesPage.DropDeferred` | frontend/js/page-notes.js:410-412 | the deleting loop keeps exactly the waiting notes below the window or in the answer |
| `NotesPage.NotesPage.RemoveNotes` | frontend/js/page-notes.js:413 | exactly the listed ids leave both maps, and the screen stays in order |
| `NotesPage.NotesPage.DropDeleted` | frontend/js/page-notes.js:400-413 | both maps keep exactly what the window does not show to be deleted |
| `NotesPage.NotesPage.AddNew` | frontend/js/page-notes.js:415-424 | own notes, and everyone's before the first load or near the top, are shown; the others wait; nothing held is replaced |
| `NotesPage.NotesPage.Apply` | frontend/js/page-notes.js:396-434 | a current answer reconciles the held notes, resets the backoff and sets the cursor only if there was none |
| `NotesPage.NotesPage.PollOnce` | frontend/js/page-notes.js:389-394 | a second poll never starts while one is in the air; a poll is tagged with the generation and filter of its start |
| `NotesPage.NotesPage.ScheduleNextPoll` | frontend/js/page-notes.js:456-467 | exactly one timer is armed when visible, none when hidden |
| `NotesPage.NotesPage.FinishPoll` | frontend/js/page-notes.js:444-453 | a stale poll is followed by a fresh one at once, a current one by a timer |
| `NotesPage.NotesPage.PollAnswered` | frontend/js/page-notes.js:394-454 | the whole handler is one answer turn of the feed, with the screen in order |
| `NotesPage.NotesPage.PollFailed` | frontend/js/page-notes.js:436-454 | a current failure doubles the backoff up to a minute or leaves for the login page; a stale one does neither |
| `NotesPage.NotesPage.TimerFires` | frontend/js/page-notes.js:463-466 | the timer is disarmed and a poll starts unless one is in the air |
| `NotesPage.NotesPage.VisibilityChanged` | frontend/js/page-notes.js:469-477 | returning polls at once with the shortest delay; hiding disarms the timer and leaves a running poll alone |
| `NotesPage.NotesPage.ResetFeed` | frontend/js/page-notes.js:365-380 | a new generation starts empty, without cursor or timer, and a poll is in the air |
| `NotesPage.NotesPage.ApplySelection` | frontend/js/page-notes.js:300-310 | only a filter that differs starts a new generation |
| `NotesPage.NotesPage.ClickOlder` | frontend/js/page-notes.js:482-486 | the request carries the cursor, filter and generation of the click |
| `NotesPage.NotesPage.ApplyOlder` | frontend/js/page-notes.js:488-499 | the page's notes join the held ones in order on screen, the cursor moves to its last id, a short page marks the end |
| `NotesPage.NotesPage.OlderAnswered` | frontend/js/page-notes.js:486-505 | a stale page is dropped whole and still re-enables the button |
| `NotesPage.NotesPage.Posted` | frontend/js/page-notes.js:543-547 | the new note is shown, and is the cursor only if there was none |
| `NotesPage.NotesPage.Deleted` | frontend/js/page-notes.js:576-587 | a confirmed deletion removes the note from both maps |
| `NotesPage.NotesPage.ShowPending` | frontend/js/page-notes.js:222-230 | all waiting notes are shown and none waits; notes already shown win |
| `TotpCodes.MatchTOTPStep` | internal/auth/totp.go:53-71 | the loop returns the first matching candidate step, or none once a generator error occurs |
| `TotpCodes.MatchIsWithinOneStep` | internal/auth/totp.go:49-71 | a match is at most one step from the clock and is that step's code, the present step preferred; without generator errors every such code is matched |
| `TotpCodes.StepOfClock` | internal/auth/totp.go:53-60 | a clock's step is the one whose thirty seconds it lies in, with truncation toward zero before the epoch |
| `TotpCodes.NormalizeRecoveryCode` | internal/auth/totp.go:144-157 | the loop keeps exactly letters and digits, lowercased and in order |
| `TotpCodes.FormatRecoveryCode` | internal/auth/totp.go:166-183 | two groups of five alphabet characters with a dash, each the byte's residue |
| `TotpCodes.FillersDoNotMatter` | internal/auth/totp.go:143-157 | inserting or leaving out a dash, space or any other filler anywhere does not change the normal form |
| `TotpCodes.CaseDoesNotMatter` | internal/auth/totp.go:143-157 | typing a code in upper case does not change its normal form |
| `TotpCodes.NormalCharIs` | internal/auth/totp.go:143-157 | of all characters exactly the letters and digits of ASCII remain, capitals made small |
| `TotpCodes.GeneratedCodeNormalizes` | internal/auth/totp.go:143-183 | every code the generator can make, from any random bytes, has its ten characters as normal form |
| `SecondFactor.AcceptedStepsIncrease` | internal/auth/handlers.go:981-1005 | over all interleavings of enrol, confirm, login and disable, the steps accepted in one enrolment, the confirming one included, strictly increase (section 5.2 of RFC 6238) |
| `SecondFactor.AcceptedCodesBounded` | internal/auth/handlers.go:981-1005 | at most t2/30 - t1/30 + 3 codes (whole steps) are accepted in an enrolment from requests clocked in [t1, t2] |
| `SecondFactor.ConfirmedSecretLasts` | internal/store/store.go:445-531 | over any interleaving a confirmed secret is in force, and is the same secret, if and only if no disable request has deleted the factor since |
| `SecondFactor.ConfirmedSecretStays` | internal/store/store.go:445-482 | no step of any request overwrites or unconfirms a confirmed secret, except the deletion by a disable request that was granted a token |
| `SecondFactor.DeletionsMatchGrants` | internal/auth/handlers.go:716-751 | deletions are by different requests, each granted a step or recovery code, and no two requests are ever granted the same one in an enrolment, even if hashes repeat |
| `SecondFactor.DisableEndsItsEnrolmentIff` | internal/auth/handlers.go:716-751 | over all interleavings, what a disable request deletes is of the enrolment its token was granted in if and only if since the grant no other request deleted the factor and no enrolment started; the first alone decides when the factor was on at the grant, as after every code of the secret; it is then the same secret; otherwise a later enrolment ends or nothing |
| `SecondFactor.DisableCanEndLaterEnrolment` | internal/auth/handlers.go:736-746 | a run from an empty account: two disable requests are granted steps of the first secret, one deletes it, another secret is enrolled and confirmed, and the other request deletes that one |
| `SecondFactor.RecoveryGrantCanEndLaterEnrolment` | internal/store/store.go:535-544 | a run from an empty account: a recovery code is accepted while its enrolment is unconfirmed, the enrolment is replaced without a deletion, and the request deletes the one that replaced it |
| `SecondFactor.EnrolmentLasts` | internal/store/store.go:445-531 | over any interleaving an enrolment, confirmed or not, is over if and only if a later one was started or the factor deleted |
| `SecondFactor.AcceptedCodeIsInForceIffSameEnrolment` | internal/auth/handlers.go:679-702 | a step a request writes is a code of the secret it read, and that secret is the one in force if and only if no enrolment started between the read and the write |
| `SecondFactor.StaleCodeCanConfirm` | internal/auth/handlers.go:679-702 | a run from an empty account: a code of a replaced pending secret confirms the one that replaced it |
| `SecondFactor.StepsNotShared` | internal/store/store.go:499-512 | of two grants of a step in one enrolment the later has the later step |
| `SecondFactor.RunKeeps` | internal/auth/handlers.go:668-751 | the invariant that ties the stored step and code rows to the log of grants survives every interleaving |
| `SecondFactor.CodeAcceptedIff` | internal/store/store.go:535-544 | over all interleavings, a request that has come to its write with a recovery code is granted if and only if its hash was issued in the present enrolment, the factor was not deleted since, and nobody was granted it in this enrolment |
| `SecondFactor.StepAcceptedIff` | internal/store/store.go:487-512 | and with a step: a login or disable if and only if the factor is on and the step is newer than all accepted in this enrolment, a confirmation if and only if there is a secret and none was accepted yet |
| `SecondFactor.SpendIsExact` | internal/store/store.go:535-544 | spending a code uses up the rows with its hash and leaves every other code as it was |
| `SecondFactor.AloneIsHandler` | internal/auth/handlers.go:668-751 | a request that is not interrupted is granted exactly the token its handler reads like granting, from any state: by a step of the right secret, or by an unused recovery code if the code is no step's |
| `SecondFactor.FirstLookRefuses` | internal/auth/handlers.go:716-735 | a request whose first look finds the factor off, or for a confirmation no pending secret, is never granted anything, whatever follows |
| `SecondFactor.FactorStore.constructor` | internal/store/store.go:441-544 | initially no account has a secret or codes |
| `SecondFactor.FactorStore.StartTOTPEnrollment` | internal/store/store.go:450-482 | an unconfirmed enrolment is replaced with its codes, a confirmed one is refused untouched, no other account changes |
| `SecondFactor.FactorStore.ConfirmTOTP` | internal/store/store.go:487-497 | confirms a pending secret with the proving step as spent, and reports whether there was one |
| `SecondFactor.FactorStore.MarkTOTPStepUsed` | internal/store/store.go:502-512 | accepts a step of a confirmed secret exactly when it is newer than the last one, which it replaces |
| `SecondFactor.FactorStore.UseRecoveryCode` | internal/store/store.go:535-544 | succeeds exactly when an unused row has the hash, and then every row with it is used |
| `SecondFactor.FactorStore.DeleteTOTP` | internal/store/store.go:523-531 | secret and codes are gone, for this account only |
| `Flows.TableHoldsOutstanding` | internal/store/store.go:399-439 | the table holds exactly the flows saved and not consumed, apart from expired ones that may have been swept |
| `Flows.TableHoldsIff` | internal/store/store.go:399-439 | on any run, repeated ids and clocks running backwards included, the table holds a flow if and only if it was saved under a free id and since then neither consumed nor swept as expired |
| `Flows.ConsumedIffOutstanding` | internal/store/store.go:416-430 | a consume returns a flow if and only if it was saved under that id, is of the asked kind, has not expired, and nobody consumed it since |
| `Flows.FinishedAtMostOnce` | internal/auth/handlers.go:832-847 | of any two consumes of one id at most one succeeds, whatever their kinds |
| `Flows.JanitorIsInvisible` | internal/maintenance/maintenance.go:46-56 | runs that differ only in janitor passes, inserted or removed anywhere, give the same consume results |
| `Flows.FlowStore.constructor` | internal/store/store.go:399-414 | no flows at first |
| `Flows.FlowStore.SaveFlow` | internal/store/store.go:404-414 | the row is added; a taken id fails and changes nothing |
| `Flows.FlowStore.ConsumeFlow` | internal/store/store.go:419-430 | a live row of the kind is removed and returned whole; otherwise nothing changes, a row of another kind included |
| `Flows.FlowStore.DeleteExpiredFlows` | internal/store/store.go:433-439 | exactly the expired rows go, and their number is returned |
| `Origins.OriginAllowed` | internal/httpx/middleware.go:59-75 | the origin is echoed if and only if it is nonempty and any origin is allowed or some entry equals it or is a wildcard that matches it |
| `Origins.SplitIsInverseOfWritten` | internal/httpx/middleware.go:116-130 | splitting succeeds with a scheme and host if and only if the canonical spelling is that scheme and host joined, wellformed |
| `Origins.MatchIsLabelwise` | internal/httpx/middleware.go:77-114 | a pattern matches exactly the origins of its scheme with its host or, for a wildcard, with its labels and one nonempty label, without port or path, in place of the star |
| `Origins.DerivedHost` | internal/auth/passkey.go:152-165 | the RP ID of an origin is its host up to the last colon, so the whole host if and only if it has no port |
| `Origins.HostIsBetween` | internal/auth/passkey.go:152-165 | of any string the host is what stands after the first separator, or from the start without one, up to the first slash and its last colon |
| `Origins.WildcardRpId` | internal/auth/passkey.go:152-165 | for an origin a wildcard trusts the RP ID is one label followed by the pattern's suffix without its port |
| `RelyingParty.NewRPProvider` | internal/auth/passkey.go:74-95 | fails exactly when the library refuses the static configuration; otherwise the origins are kept in canonical spelling and the cache is empty |
| `RelyingParty.RPProvider.constructor` | internal/auth/passkey.go:87-94 | the provider starts valid with an empty cache |
| `RelyingParty.RPProvider.ForOrigin` | internal/auth/passkey.go:111-129 | answers as a provider without a cache would, and states the cache it leaves |
| `RelyingParty.RPProvider.FromCache` | internal/auth/passkey.go:131-150 | a hit is served, a miss derived and kept, errors are not kept, a full cache is emptied first |
| `RelyingParty.CacheIsTransparent` | internal/auth/passkey.go:107-150 | after any sequence of calls the next is answered as without a cache, and at most 256 relying parties are held |
| `RelyingParty.CacheKeeps` | internal/auth/passkey.go:131-150 | what was just derived is cached, nothing foreign enters, and other entries go only when a full cache is emptied |
| `RelyingParty.StaticOriginsHold` | internal/auth/passkey.go:79-82 | the set holds exactly the canonical spellings of the configured origins |
| `RelyingParty.WhoIsAllowed` | internal/auth/passkey.go:107-129 | an origin is refused as not allowed if and only if it is not blank, is no configured origin's canonical spelling and no pattern matches it label by label; it gets the static party if and only if it is blank or such a spelling; a blank one pins the first configured origin |
| `RelyingParty.WhatIsDerived` | internal/auth/passkey.go:131-165 | any other origin gets a party of its host up to the last colon, bound to that origin alone, or the error that applies |
| `RelyingParty.BeginAndFinishAgree` | internal/auth/passkey.go:107-129 | resolving the pinned origin gives the same relying party, and the same pin unless the request carried no origin |
| `RelyingParty.DerivedIsBoundToHost` | internal/auth/passkey.go:111-165 | a derived relying party is bound to exactly its origin; with port-free wildcards its RP ID is the whole host, one label in front of a trusted suffix |
| `Text.CanonicalIsStable` | internal/auth/passkey.go:112 | canonical spellings are exactly the bare lower-case strings, and respelling one changes nothing |
| `Text.CanonicalIs` | internal/auth/passkey.go:112 | canonical spelling takes white space off both ends, nothing else, and makes capitals small |
| `Text.LowerCharIs` | internal/auth/passkey.go:112 | of all characters exactly the capitals of ASCII change, each to its small letter |
| `Text.SpaceIsListed` | internal/auth/passkey.go:112 | white space is exactly the characters of Unicode's White_Space property |
| `Base64.DecodeOfEncode` | internal/auth/password.go:94-102 | decoding an encoding gives the bytes back, for every input (section 4 of RFC 4648) |
| `Base64.EncodedLength` | internal/auth/password.go:46-49 | an encoding has as many characters as its bits need and no padding (section 3.2 of RFC 4648) |
| `Base64.EncodeOfDecode` | internal/auth/password.go:94-102 | which texts decode, and that a text is the encoding of what it decodes to if and only if it has no line breaks and clear trailing bits |
| `Base64.EncodingHasTheBits` | internal/auth/password.go:46-49 | an encoding spells the bits of the bytes, six to a character of table 1 of RFC 4648, the last filled up with zeros (section 4) |
| `Base64.DecodingHasTheBits` | internal/auth/password.go:94-102 | whatever is decoded, canonical or not, the bytes are the leading bits of the characters' values, and fewer than eight are left over |
| `Base64.CharIsInTable` | internal/auth/password.go:94-102 | the alphabet is that table: a character has a value if and only if it stands there, and the value is its place |
| `PasswordHash.DecodeOfPrint` | internal/auth/password.go:73-104 | a printed hash decodes to the same parameters, salt and digest exactly when version and parameters fit, and otherwise to the error that says which does not |
| `PasswordHash.PrintOfDecode` | internal/auth/password.go:73-104 | whatever is accepted is in range, and printing it gives a normal form with the same content |
| `PasswordHash.PrintedFormIff` | internal/auth/password.go:73-104 | an accepted string is the printed form of what it decodes to if and only if nothing stands before the first dollar sign, the version is v=19, the parameters are m=, t= and p= with shortest numerals and nothing after them, and salt and key have no line breaks and no stray bits |
| `PasswordHash.DecimalOfNumber` | internal/auth/password.go:47-49 | the numerals that printing gives are exactly those without leading zeros |
| `PasswordHash.HashVerifies` | internal/auth/password.go:36-65 | only the empty password is refused; every other verifies against its own hash, and an attempt verifies exactly when the derivation gives it the same key |
| `PasswordHash.VerifiesUnderStored` | internal/auth/password.go:52-65 | for every version, parameters, salt, key and attempt: a stored hash is judged by deriving under its own parameters and salt a key of its own length, or refused with the decoder's error |
| `PasswordHash.VerifiesAsNormalForm` | internal/auth/password.go:52-65 | every other string is refused exactly as the decoder refuses it, or judged like the normal form of what it decodes to |
| `PasswordHash.DecodeIff` | internal/auth/password.go:73-104 | exactly which strings decode, to what, and which have only another version: six parts, the name, a version and parameters as numerals with white space in front, a sign for the version only, anything after the last, base64 |
| `PasswordHash.SignedNumeral` | internal/auth/password.go:81-84 | such a numeral of 64 bits reads as its value, and a wider one fails |
| `PasswordHash.UnsignedNumeral` | internal/auth/password.go:89-92 | one without a sign reads as its value when that fits the field, and fails otherwise |
| `PasswordHash.NumberOfDecimal` | internal/auth/password.go:47-49 | a printed number reads back as itself |
| `PasswordHash.ScanOfPrintedParams` | internal/auth/password.go:89-92 | printed parameters scan back exactly when memory and time fit 32 bits and threads 8, and are refused otherwise |

## Left out

- Float rounding in the limiter, and the saturation of Go durations at 292 years (the first sweep's distance from the zero time).
- Overflow of `bigint` and of JavaScript numbers.
- Signal functions that throw, effects that set signals, and observers that unsubscribe (the program has no unsubscription).
- `Signals.Runtime.Set`: signals are compared as integers; `Object.is` on other values is not modelled.
- The reset theorems speak of solves; the streak values a flush during the reset request still carries are not covered.
- `CaptchaDisplay.NoSolveIsLost`: states totals with the batches applied twice named separately, because a retry after a lost reply does count them again.
- `CaptchaPage.NoStreakIsForgotten`: runs in which the page is reset, or in which boot's reply comes during its sync, are not covered; there the two can differ until the next solve or miss.
- Replies without statistics in the body, the sync state chip, and the speed preference.
- Sending more than one reset while a sync is in the air is modelled by the number of waiting calls, not by separate promises.
- Sanitising author ids, persisting the filter, the author list, error messages, and the status line of the notes page.
- Ids allocated by the database in another order than they become visible.
- `NotesWorld.LoadOlderDelivers`: a run's assignment of the saved filter must leave nothing current in the air that was asked for other authors (`NotesBoot.BootKeepsFilterIff` says when it does) and meet the condition of `AssignmentKeepsCompleteIff`.
- Who one is before boot knows it: the notes page's model knows its user from the start.
- Login without a second factor, passwords and sessions around it, storage errors in the handlers (a request then stops without effect), and the activity log.
- `TotpCodes.MatchTOTPStep`: the length of a code is counted in characters; the program counts bytes, which differs only for codes that no generator produces.
- Saving two flows under one id within a run: ids are random, and the run theorems assume them distinct.
- The JSON envelope of a flow, the body cap, and the WebAuthn ceremonies themselves.
- The janitor's other two prunes and its schedule.
- `Text.CanonicalIsStable`: lower-casing is that of ASCII letters; other letters with case are left alone, in recovery codes too.
- Identity of cached `*webauthn.WebAuthn` pointers: the model has the data a relying party is built from.
- argon2's own refusal of zero time or zero threads, and bytes of a password as opposed to its characters.
- `PasswordHash.DecodeOfPrint`: `fmt.Sscanf` is modelled for literal text and `%d` only.
- HTTP plumbing, JSON, telemetry, CORS headers, CSP reports, configuration, preferences, leaderboard queries, migrations, probes and scripts.
