# Calibration page session model

This project models the arm calibration page of the OpenBot dashboard
(`openbot/dashboard/src/pages/Calibration.tsx`). It proves properties of
that model in Dafny.

The page drives one calibration run of a leader or follower arm:

- It probes the backend's health.
- It loads the step template of the configured robot type.
- It refuses to start until a port, a robot type, a robot id, a supported
  template and a reachable backend are all present.
- It then resets the steps and starts the run.
- Finally it keeps a list of four calibration steps in step with the text the
  process prints on the live feed.

The page sends Enter when the user presses Continue. It cancels the run and
tears it down on Cancel. It can poll the run's status, and after a run
finishes it checks for the saved calibration files, retrying up to three
times.

## Layout

- `text.dfy` (module `JsText`): the JavaScript string operations the page
  uses:
  - `includes`;
  - `indexOf`;
  - `replace` with a string pattern, which replaces the first occurrence only;
  - ASCII `toLowerCase` and `trim`;
  - removal of carriage returns;
  - the decimal rendering of a number in a template literal.
- `steps.dfy` (module `Steps`): the step record and its statuses. It holds
  the three `prev.map(...)` updates the page applies to its step list and the
  label and colour switches.
- `robots.dfy` (module `Robots`): the two robot templates (SO-100 and
  Giraffe v1.1) and the lookup from a configured robot type to its template.
  The lookup removes the first `_leader`, then the first `_follower` of what
  is left, then calls `find` by id.
- `reconciler.dfy` (module `Reconciler`): the page's session state as a value
  (`Session`), and one pure transition per handler.
  - The output handler recognises wait prompts and clearing phrases.
  - Its five output rules are ordered first-match-wins: connection, move
    test, move all joints, completion, error.
- `page.dfy` (module `Page`): class `CalibrationPage`.
  - Its fields are the page's state hooks and its poll-timer ref.
  - Each handler is a method that updates those fields in the handler's own
    order.
  - Each method is proved to reach exactly the state the matching
    `Reconciler` transition describes.
  - Each method keeps the step list shaped like a template.
- `scenarios.dfy` (module `Scenarios`): runs of several events.

## Captured state

The live-feed handler and the poll handler are closures created when Start
is pressed. They read the step list, cursor, cancelled flag, output text and
running flag of the render in which Start was pressed. That is the state
*before* Start reset them.

The model makes this explicit with `FeedView`. `Start` returns the view, and
the feed and poll transitions take it as a parameter beside the live session
they update. The list updates themselves (`prev.map`) act on the live list.

The consequences are proved:

- The error rule fails the step the previous run's cursor pointed at, not the
  live one (`Scenarios.StaleErrorTarget`).
- After a cancel, the next run's "finished" event reports a cancellation and
  fails every step (`Scenarios.RestartAfterCancel`).
- Completion puts the cursor at the index given by the length of the
  *captured* list. With an empty captured list the output handler changes no
  step at all.

The Continue handler captures the cursor and the list length at the moment
of the press (`ContinueView`).

## Model

| member | source | states |
|---|---|---|
| JsText.IndexOf | openbot/dashboard/src/pages/Calibration.tsx:63 | the index found is an occurrence of the pattern and no earlier index is one; `None` only when the pattern occurs nowhere |
| JsText.IncludesIndexOf | openbot/dashboard/src/pages/Calibration.tsx:312-316 | `includes` (the predicate `Includes`) holds exactly when `indexOf` finds the phrase |
| JsText.IncludesTransitive | openbot/dashboard/src/pages/Calibration.tsx:288-291 | if a text includes a phrase and that phrase includes a second one, the text includes the second one |
| JsText.ReplaceFirst | openbot/dashboard/src/pages/Calibration.tsx:63 | without an occurrence the text is returned unchanged; otherwise exactly the first occurrence is replaced and the text before and after it is kept |
| JsText.LowerMeaning | openbot/dashboard/src/pages/Calibration.tsx:285 | lower-casing (`Lower`) keeps the length, leaves no upper-case ASCII letter, maps each upper-case letter to its lower-case one and keeps every other character |
| JsText.LowerIdempotent | openbot/dashboard/src/pages/Calibration.tsx:285 | lower-casing twice is lower-casing once |
| JsText.LowerKeepsIncludes | openbot/dashboard/src/pages/Calibration.tsx:285-293 | a lower-cased text contains the lower-cased form of every phrase the original contains |
| JsText.TrimStart | openbot/dashboard/src/pages/Calibration.tsx:278 | the result is a suffix of the input; everything dropped is white space and the result does not start with white space |
| JsText.TrimEnd | openbot/dashboard/src/pages/Calibration.tsx:278 | the result is a prefix of the input; everything dropped is white space and the result does not end with white space |
| JsText.Trim | openbot/dashboard/src/pages/Calibration.tsx:278 | the result is a slice of the input with only white space cut off on either side, and it neither starts nor ends with white space |
| JsText.TrimIdempotent | openbot/dashboard/src/pages/Calibration.tsx:278 | trimming twice is trimming once |
| JsText.StripCR | openbot/dashboard/src/pages/Calibration.tsx:278 | no carriage return remains; every other character is kept with its count; a text without carriage returns is unchanged |
| JsText.StripCRAppend | openbot/dashboard/src/pages/Calibration.tsx:278 | removing carriage returns from two joined texts is removing them from each and joining the results, so the kept characters stay in order |
| JsText.StripCRChar | openbot/dashboard/src/pages/Calibration.tsx:278 | a single carriage return is removed and any other single character is kept |
| JsText.Decimal | openbot/dashboard/src/pages/Calibration.tsx:595 | a non-empty string of decimal digits, with a leading zero only for 0 |
| JsText.DecimalRoundTrip | openbot/dashboard/src/pages/Calibration.tsx:595 | reading back the rendered digits gives the number rendered |
| Steps.Advance | openbot/dashboard/src/pages/Calibration.tsx:498-505 | step `i` becomes completed, step `i + 1` in progress (each when it exists), every other step is unchanged, and no step changes anything but its status |
| Steps.MarkAll | openbot/dashboard/src/pages/Calibration.tsx:354-358 | every step gets the given status and keeps everything else |
| Steps.MarkAt | openbot/dashboard/src/pages/Calibration.tsx:371-373 | step `i` (when it exists) gets the status; every other step is unchanged |
| Steps.MarkAllTwice | openbot/dashboard/src/pages/Calibration.tsx:386-396 | marking every step twice is marking it once with the last status |
| Steps.MarkAllFixed | openbot/dashboard/src/pages/Calibration.tsx:569 | marking steps that all have a status with that status changes nothing |
| Steps.StatusText | openbot/dashboard/src/pages/Calibration.tsx:636-647 | the step label; `StatusTextDistinguishes` states which statuses share one |
| Steps.StatusStyle | openbot/dashboard/src/pages/Calibration.tsx:623-634 | the badge colour classes; `StatusStyleDistinguishes` states which statuses share them |
| Steps.StatusTextDistinguishes | openbot/dashboard/src/pages/Calibration.tsx:636-647 | two statuses get the same label exactly when they are equal or both are pending or waiting-user (the default case) |
| Steps.StatusStyleDistinguishes | openbot/dashboard/src/pages/Calibration.tsx:623-634 | two statuses get the same colour classes exactly when they are equal or both fall to the default case |
| Steps.TextAndStyleAgree | openbot/dashboard/src/pages/Calibration.tsx:623-647 | two statuses share a label exactly when they share colour classes |
| Robots.BaseRobotType | openbot/dashboard/src/pages/Calibration.tsx:63 | the base is never longer than the configured type, and a type without either suffix is its own base |
| Robots.BaseOfLeader | openbot/dashboard/src/pages/Calibration.tsx:63 | a suffix-free base followed by `_leader` maps back to the base |
| Robots.BaseOfFollower | openbot/dashboard/src/pages/Calibration.tsx:63 | a suffix-free base followed by `_follower` maps back to the base |
| Robots.OnlyFirstSuffixRemoved | openbot/dashboard/src/pages/Calibration.tsx:63 | a doubled `_leader` suffix leaves one `_leader` in the base |
| Robots.Find | openbot/dashboard/src/pages/Calibration.tsx:131 | `None` exactly when no template has the id; otherwise the first template with that id |
| Robots.SelectedRobotType | openbot/dashboard/src/pages/Calibration.tsx:131 | a template is found exactly when the base type is "so100" or "giraffe"; it has that id and the four arm steps |
| Robots.TemplateSteps | openbot/dashboard/src/pages/Calibration.tsx:66-129 | every template carries the same four arm steps |
| Robots.Supported | openbot/dashboard/src/pages/Calibration.tsx:66-131 | exactly the ids "so100" and "giraffe" have a template, and each has four pending steps |
| Robots.SuffixedSelects | openbot/dashboard/src/pages/Calibration.tsx:59-131 | leader and follower types of a supported underscore-free base select that base's template |
| Reconciler.WaitPrompt | openbot/dashboard/src/pages/Calibration.tsx:288-293 | the wait-prompt test on the lower-cased text; `WaitPromptSimplified` reduces it to three cases |
| Reconciler.ClearWaitPhrase | openbot/dashboard/src/pages/Calibration.tsx:298-303 | the phrases that clear the waiting flag; `ClearWaitIsCompletion` and `CollectedDoesNotClear` relate them to the completion phrases |
| Reconciler.ConnectionPhrase | openbot/dashboard/src/pages/Calibration.tsx:312-316 | the connection rule's phrases; `RulePrecedence` states when the rule applies |
| Reconciler.MoveTestPhrase | openbot/dashboard/src/pages/Calibration.tsx:325 | the move-test rule's phrase pair; `RulePrecedence` and `MovePromptsWait` state its role |
| Reconciler.MoveAllPhrase | openbot/dashboard/src/pages/Calibration.tsx:334 | the move-all rule's phrase pair; `RulePrecedence` and `MovePromptsWait` state its role |
| Reconciler.CompletionPhrase | openbot/dashboard/src/pages/Calibration.tsx:343-350 | the completion rule's phrases; `RulePrecedence` states when the rule applies |
| Reconciler.ErrorPhrase | openbot/dashboard/src/pages/Calibration.tsx:366-369 | the error rule's phrases; `RulePrecedence` states when the rule applies |
| Reconciler.WaitPromptSimplified | openbot/dashboard/src/pages/Calibration.tsx:288-293 | the wait-prompt test is equivalent to "press enter", or the move-test pair, or the move-all pair (the three longer "press enter" prompts are redundant) |
| Reconciler.ClearWaitIsCompletion | openbot/dashboard/src/pages/Calibration.tsx:298-350 | every phrase that clears the waiting flag is also a completion phrase |
| Reconciler.CollectedDoesNotClear | openbot/dashboard/src/pages/Calibration.tsx:298-350 | the converse fails: "Calibration data collected" without the other phrases is a completion phrase that does not clear waiting |
| Reconciler.MovePromptsWait | openbot/dashboard/src/pages/Calibration.tsx:285-340 | text that fires the case-sensitive move-test or move-all rule is also a case-insensitive wait prompt |
| Reconciler.FirstMatchSpec | openbot/dashboard/src/pages/Calibration.tsx:312-374 | no rule is chosen exactly when none fires; otherwise the chosen rule fires and every rule before it does not |
| Reconciler.ClassifyChain | openbot/dashboard/src/pages/Calibration.tsx:312-374 | first match over the ordered rules equals the source's if / else-if chain |
| Reconciler.RulePrecedence | openbot/dashboard/src/pages/Calibration.tsx:312-374 | each rule applies exactly when its phrases occur and those of every earlier rule do not; no rule applies exactly when none occurs |
| Reconciler.ClassifyOutput | openbot/dashboard/src/pages/Calibration.tsx:312-374 | the rule an output text triggers; `ClassifyChain` and `RulePrecedence` state which |
| Reconciler.AfterProbe | openbot/dashboard/src/pages/Calibration.tsx:161-177 | the backend is reachable exactly after an ok response, is never unknown after a probe, and nothing else changes |
| Reconciler.AfterRobotTypeChange | openbot/dashboard/src/pages/Calibration.tsx:133-138 | a type with a template loads four pending steps shaped like the arm template; a type without one changes nothing; nothing but the steps ever changes |
| Reconciler.StartRefusalOrder | openbot/dashboard/src/pages/Calibration.tsx:180-203 | a start proceeds exactly when all five checks pass; each refusal is reported exactly when its check is the first to fail |
| Reconciler.StartRefusal | openbot/dashboard/src/pages/Calibration.tsx:180-203 | the first failing start check, if any; `StartRefusalOrder` states its meaning |
| Reconciler.ProbeGatesStart | openbot/dashboard/src/pages/Calibration.tsx:200-203 | after a failed probe no start proceeds; after a successful one a start proceeds exactly when the configuration checks pass |
| Reconciler.AfterStart | openbot/dashboard/src/pages/Calibration.tsx:179-247 | a refused start changes nothing; otherwise the template's steps all pending, cursor 0, not cancelled, running exactly when the backend accepted, that session id and a live feed on acceptance, an empty output on failure, and the other fields kept |
| Reconciler.StartedMessage | openbot/dashboard/src/pages/Calibration.tsx:234 | the output line after an accepted start begins with the start notice and the session id |
| Reconciler.StartOutcome | openbot/dashboard/src/pages/Calibration.tsx:179-247 | a refusal reports the first failing check; a feed is launched exactly on an accepted start, and it captures the pre-start state |
| Reconciler.Clean | openbot/dashboard/src/pages/Calibration.tsx:278 | the cleaned text is a slice of the input with its carriage returns removed, starting where the leading white space ends, with only white space cut off on either side; it has no carriage return and neither starts nor ends with white space |
| Reconciler.WaitingAfter | openbot/dashboard/src/pages/Calibration.tsx:284-307 | the waiting flag after detection; `OutputWaiting` states it case by case |
| Reconciler.ApplyRule | openbot/dashboard/src/pages/Calibration.tsx:309-375 | a rule changes only statuses, cursor and waiting; no rule changes nothing; waiting is cleared only by the completion rule |
| Reconciler.AfterOutput | openbot/dashboard/src/pages/Calibration.tsx:274-375 | the output becomes the cleaned text; with an empty captured list or no rule the steps and cursor stay; the waiting flag follows detection unless completion clears it; nothing else changes |
| Reconciler.OutputWaiting | openbot/dashboard/src/pages/Calibration.tsx:284-363 | the waiting flag after an output message, case by case: completion clears it, a prompt sets it, a clearing phrase clears it, otherwise it stays |
| Reconciler.OutputConnect | openbot/dashboard/src/pages/Calibration.tsx:311-331 | the connection or move-test rule completes step 0, starts step 1, keeps the rest and sets cursor 1; move test also sets waiting |
| Reconciler.OutputMoveAll | openbot/dashboard/src/pages/Calibration.tsx:333-340 | the move-all rule completes step 1, starts step 2, keeps the rest, sets cursor 2 and waiting |
| Reconciler.OutputCompletion | openbot/dashboard/src/pages/Calibration.tsx:342-363 | completion clears waiting; with the cancellation phrase all steps fail and the cursor is 0, otherwise all complete and the cursor is the captured length minus one |
| Reconciler.OutputError | openbot/dashboard/src/pages/Calibration.tsx:365-374 | the error rule fails only the step at the captured cursor and leaves the live cursor |
| Reconciler.AfterFinished | openbot/dashboard/src/pages/Calibration.tsx:376-396 | a finished run is not running and not waiting; a cancelled one (`FinishCancelled`: captured flag or phrase) has all steps failed and cursor 0, otherwise all completed and cursor the captured length minus one |
| Reconciler.FinishIdempotent | openbot/dashboard/src/pages/Calibration.tsx:376-396 | a second "finished" event from the same feed changes nothing more |
| Reconciler.AfterMessage | openbot/dashboard/src/pages/Calibration.tsx:270-405 | error messages, other statuses and other types change nothing; every message keeps the step list's shape and the cancelled, in-flight, session, backend, feed and timer fields |
| Reconciler.FinishNotifies | openbot/dashboard/src/pages/Calibration.tsx:385-396 | the success test of a "finished" event; `FinishNotifiesCompleted` states what it means |
| Reconciler.FinishNotifiesCompleted | openbot/dashboard/src/pages/Calibration.tsx:385-396 | on a non-empty list, a "finished" event announces success exactly when it marks every step completed |
| Reconciler.ContinueGuard | openbot/dashboard/src/pages/Calibration.tsx:469-472 | a repeated press while sending, or a press without a session, is ignored (`ContinueAllowed` fails) |
| Reconciler.AfterContinueReply | openbot/dashboard/src/pages/Calibration.tsx:476-522 | the state the input reply leaves, given the cursor and length captured at the press; `ContinueReplyOutcome` states its properties |
| Reconciler.ContinueReplyOutcome | openbot/dashboard/src/pages/Calibration.tsx:476-522 | the in-flight flag always ends false; on success waiting clears, the info line is shown, the captured step completes, the next starts, the rest stay and the cursor advances only to an existing step; any other reply changes nothing else |
| Reconciler.ContinueCursorInBounds | openbot/dashboard/src/pages/Calibration.tsx:507-510 | a press with the cursor in bounds leaves it in bounds after the reply, one further on success when a next step exists |
| Reconciler.CancelOutcome | openbot/dashboard/src/pages/Calibration.tsx:525-578 | without a session nothing changes; otherwise, whatever the reply, cancelled, not running, not waiting, all steps failed, cursor 0, no feed, no timer, the cancellation line shown, session and backend kept |
| Reconciler.AfterCancel | openbot/dashboard/src/pages/Calibration.tsx:525-578 | the state Cancel leaves, defined on the session; `CancelOutcome` and `CancelIdempotent` state its properties |
| Reconciler.CancelIdempotent | openbot/dashboard/src/pages/Calibration.tsx:525-578 | a second Cancel changes nothing more |
| Reconciler.AfterMonitorTick | openbot/dashboard/src/pages/Calibration.tsx:421-453 | afterwards the process counts as running exactly when it did and the poll did not finish the run (`MonitorFinishes`: an ok reply saying not running while the captured view was running); waiting is the reported flag unless the poll finished the run, and stays as it was after a failed poll; steps, cursor and output never change |
| Reconciler.MonitorNotifies | openbot/dashboard/src/pages/Calibration.tsx:442-445 | a poll announces success exactly when it finishes the run and the captured state shows no cancellation |
| Reconciler.MonitorFinishMatchesFeed | openbot/dashboard/src/pages/Calibration.tsx:431-447 | a finishing poll agrees with the "finished" event (378-399) on the running and waiting flags and on the success notice, but leaves steps and cursor unchanged and stops the poll timer |
| Reconciler.FileCheck | openbot/dashboard/src/pages/Calibration.tsx:581-608 | another check is scheduled exactly when an ok listing has no files and fewer than three retries were made; the line starts with [SUCCESS], [INFO], [WARNING] or [ERROR] accordingly and ends with the file list, the attempt number out of 3, the cache directory, the status text or the error |
| Reconciler.FileLines | openbot/dashboard/src/pages/Calibration.tsx:588 | the listing is empty exactly when there are no files |
| Reconciler.FileLinesCount | openbot/dashboard/src/pages/Calibration.tsx:588 | when no name or path holds a line break, the listing has one line per file (one line break fewer than files) |
| Reconciler.FileCheckRequests | openbot/dashboard/src/pages/Calibration.tsx:590-596 | a chain of checks started at retry count `n` makes at most 4 − `n` requests |
| Reconciler.EmptyListingsExhaustRetries | openbot/dashboard/src/pages/Calibration.tsx:590-598 | four empty listings take all four requests, and the fourth schedules nothing |
| Reconciler.StartKeepsShape | openbot/dashboard/src/pages/Calibration.tsx:205-211 | a start leaves the step list shaped like a template |
| Reconciler.RobotTypeChangeKeepsShape | openbot/dashboard/src/pages/Calibration.tsx:133-138 | a template load leaves the list shaped like a template |
| Reconciler.FeedKeepsShape | openbot/dashboard/src/pages/Calibration.tsx:270-453 | feed messages and status polls keep the list shaped like a template |
| Reconciler.ControlsKeepShape | openbot/dashboard/src/pages/Calibration.tsx:469-579 | Continue, Cancel and probes keep the list shaped like a template |
| Page.CalibrationPage.constructor | openbot/dashboard/src/pages/Calibration.tsx:43-55 | the page starts with no steps, no session and the backend unknown |
| Page.CalibrationPage.AdvanceSteps | openbot/dashboard/src/pages/Calibration.tsx:498-505 | only the step list changes, to `Advance` of the old list, and it stays shaped like a template |
| Page.CalibrationPage.MarkAllSteps | openbot/dashboard/src/pages/Calibration.tsx:354-358 | only the step list changes, to `MarkAll` of the old list, and it stays shaped like a template |
| Page.CalibrationPage.MarkStep | openbot/dashboard/src/pages/Calibration.tsx:371-373 | only the step list changes, to `MarkAt` of the old list, and it stays shaped like a template |
| Page.CalibrationPage.Probe | openbot/dashboard/src/pages/Calibration.tsx:161-177 | the new state is `AfterProbe` of the old |
| Page.CalibrationPage.RobotTypeChanged | openbot/dashboard/src/pages/Calibration.tsx:133-138 | the new state is `AfterRobotTypeChange` of the old |
| Page.CalibrationPage.Start | openbot/dashboard/src/pages/Calibration.tsx:179-247 | the new state is `AfterStart` of the old, and the result is `StartOutcome`, including the captured view |
| Page.CalibrationPage.CheckStart | openbot/dashboard/src/pages/Calibration.tsx:180-203 | the checks in order yield `StartRefusal` |
| Page.CalibrationPage.Reset | openbot/dashboard/src/pages/Calibration.tsx:205-211 | running, cursor 0, empty output, not cancelled, the template's steps all pending |
| Page.CalibrationPage.ApplyStartReply | openbot/dashboard/src/pages/Calibration.tsx:228-246 | the new state is `AfterStartReply` of the old |
| Page.CalibrationPage.OnOutput | openbot/dashboard/src/pages/Calibration.tsx:274-375 | the new state is `AfterOutput` of the old |
| Page.CalibrationPage.ShowOutput | openbot/dashboard/src/pages/Calibration.tsx:282-307 | the output becomes the cleaned text and the waiting flag changes as wait detection says; nothing else changes |
| Page.CalibrationPage.ApplyStepRule | openbot/dashboard/src/pages/Calibration.tsx:309-375 | the new state is `ApplyRule` of the old |
| Page.CalibrationPage.Complete | openbot/dashboard/src/pages/Calibration.tsx:351-362 | the new state is `ApplyRule` of the old for the completion rule |
| Page.CalibrationPage.OnFinished | openbot/dashboard/src/pages/Calibration.tsx:376-400 | the new state is `AfterFinished` of the old; success is announced as `FinishNotifies` says |
| Page.CalibrationPage.OnMessage | openbot/dashboard/src/pages/Calibration.tsx:270-405 | the new state is `AfterMessage` of the old; files are checked exactly on a "finished" status |
| Page.CalibrationPage.PressContinue | openbot/dashboard/src/pages/Calibration.tsx:469-474 | the new state is `AfterContinuePressed`; a request, carrying the cursor and list length, is sent exactly when allowed |
| Page.CalibrationPage.ContinueReplied | openbot/dashboard/src/pages/Calibration.tsx:476-522 | the new state is `AfterContinueReply` of the old |
| Page.CalibrationPage.Cancel | openbot/dashboard/src/pages/Calibration.tsx:525-579 | the new state is `AfterCancel` of the old; confirmation exactly with a session and a successful reply (`StopConfirmed`) |
| Page.CalibrationPage.StartMonitor | openbot/dashboard/src/pages/Calibration.tsx:455-457 | the poll timer is recorded: the new state is `AfterMonitorStarted` of the old |
| Page.CalibrationPage.MonitorTick | openbot/dashboard/src/pages/Calibration.tsx:421-453 | the new state is `AfterMonitorTick` of the old; files are checked and success announced as `MonitorFinishes` and `MonitorNotifies` say |
| Page.CalibrationPage.CheckCalibrationFiles | openbot/dashboard/src/pages/Calibration.tsx:581-608 | only the output changes, to the `FileCheck` line; `retry` is its retry decision |
| Scenarios.StartAccepted | openbot/dashboard/src/pages/Calibration.tsx:228-237 | an accepted start gives a four-step run under the new id, and its feed captures the pre-start state |
| Scenarios.OutputKeeps | openbot/dashboard/src/pages/Calibration.tsx:274-375 | an output message keeps the list length, session, in-flight flag and running flag |
| Scenarios.RestartAfterCancel | openbot/dashboard/src/pages/Calibration.tsx:386-389 | after a cancel and a restart, the new run's "finished" event announces nothing, fails every step and sets cursor 0 |
| Scenarios.StaleErrorTarget | openbot/dashboard/src/pages/Calibration.tsx:370-373 | after a connection message, an error fails the step at the pre-start cursor while the live cursor stays 1, and step 1 stays in progress unless the pre-start cursor was 1 |
| Scenarios.HappyRun | openbot/dashboard/src/pages/Calibration.tsx:270-375 | connection, move all joints, Continue and completion leave all steps completed, the cursor on the last step and nothing waiting |

## Left out

- The rendered page (lines 610-621 and 649-896), its icons and its buttons. Of
  the display helpers, only the label and colour switches are modelled.
- Notifications are modelled only as booleans: whether a finish or a
  finishing poll announces success (`notified` of `OnFinished`, `OnMessage`
  and `MonitorTick`), and whether Cancel's stop request was confirmed
  (`confirmed` of `Cancel`, which tells the success notice from the failure
  notice at 552-556). The texts of the notifications, and the error
  notifications of Start and Continue, are left out; they change no state.
- Debug logging and the two logging effects (lines 152-159). They change no
  state.
- Timers:
  - the 5-second health poll (line 145);
  - the feed's 5-second connection timeout (lines 257-263) and the
    open/error/close callbacks that clear it;
  - the 2-second status poll interval (line 456);
  - the 500 ms pause after a successful Continue (line 513);
  - the 2-second delay before a file-check retry (line 594).

  Each poll or retry is one call of the matching transition. The caller
  supplies that call's outcome.
- HTTP requests, the WebSocket and JSON decoding. Each request's outcome is a
  parameter (`HealthReply`, `StartReply`, `InputReply`, `StopReply`,
  `StatusReply`, `FileReply`). The feed's messages arrive already decoded as
  `FeedMessage`. The file-check request's robot id and arm type, and the fields
  of the request bodies, are not modelled.
- React's scheduling: each handler's updates are applied at once and in
  order. Interleavings of other events during the awaits in Start, Continue
  and Cancel are not modelled. Continue is split at its await (the press and
  the reply) so the in-flight guard means something; Start and Cancel are
  atomic.
- The status poll is never started by the page, because its call is commented
  out at line 240. It is modelled as `StartMonitor` plus `MonitorTick` with
  its captured view. Its returned clean-up function (lines 460-466) is left
  out.
- `selectedArm` and `isRunning` are never updated by the handlers. The arm is
  a parameter of Start and `isRunning` is not modelled. The global `Window`
  fields (lines 15-21) are unused.
- The package the configuration comes from (`useLeRobotStore`) is not part of
  this model. Its arm configuration is the parameter `ArmConfig`.
- JsText.Lower: only ASCII letters are lower-cased; JavaScript also folds
  non-ASCII letters.
- JsText.Trim: only ASCII white space is removed; JavaScript also removes
  Unicode spaces and line terminators.
- JsText.StripCR: its own contract states that the carriage returns are gone
  and every other character keeps its count; the order of the kept characters
  is stated by `StripCRAppend` and `StripCRChar`.
- Reconciler.StartedMessage: states only that the line begins with the start
  notice and the session id; the command part that follows is given by its
  definition alone.
- Robots.BaseRobotType: its contract states only length and the suffix-free
  case. Its exact behaviour on suffixed names is given by `BaseOfLeader`,
  `BaseOfFollower` and `OnlyFirstSuffixRemoved`.
- The state after a finish or a poll pairs "waiting" with "running" only as
  the code does. The code can set waiting on an output message after the run
  stopped, so "waiting only while running" is not an invariant of the model.
- The generated gRPC stubs under `openbot/comm/proto` are not part of this
  model. They wrap a library and contain no logic of their own.
