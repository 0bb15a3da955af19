# Fedy's plugin task engine, modelled in Dafny

Fedy is a GNOME application that installs and tweaks software through
plugins. Each plugin has shell actions: `exec` (the forward action), `undo`
(its reverse) and an optional `status` probe. Most of `app.js` builds the GTK
interface. Inside it sits a small engine that decides whether a plugin
command runs, when it runs and in what order. This project models that
engine and proves what it guarantees:

- **Malicious-command scanner** (`_scanMaliciousCommand`). A command becomes
  candidate statements: its `;`-separated parts, the whole command, and the
  lines of the shell script it references. The candidates are trimmed,
  filtered and de-duplicated. The scan then reports the first candidate that
  a configured rule accepts. It searches rule by rule, then variation by
  variation, then candidate by candidate.
- **Task gate** (`_runPluginCommand`). A clean command goes to the injected
  runner at once. A suspicious one is put to the user, and only "yes" lets it
  run.
- **Command queue** (`_queueCommand`). This is the process-wide FIFO that
  serialises plugin tasks. It is a `class` whose methods are proved against
  step functions over a `QueueState` value.
- **Status resolver and action button** (`_getPluginStatus`,
  `_setButtonState`, the start of `_handleTask`). These choose between `exec`
  and `undo`, and set the button's label, style class and sensitivity.
- **Task outcome** (the completion callback of `_handleTask`). It builds the
  notification, whose id comes from `_hashString`. It decides whether to
  close the hidden window instead of settling the button.
- **Helpers**: the deep merge `_extendObject`, the category order and header
  switcher, the `_showDialog` type mapping, and the flatpak Install/Uninstall
  toggle.

Regular expressions are opaque. A rule variation is a `string -> bool`
matcher, or `None` when `new RegExp` throws. The script pattern
`/\S+\.(sh|bash)/` is the exception: it is modelled exactly, including its
leftmost start and its greedy `\S+`. Files are a map from path to contents.
A missing key is a file that does not exist; `None` is a file that cannot be
opened for reading and writing. The spawner is reduced to how far it got in starting the process, plus
the exit status. The user's answer to the confirmation dialog is an input.

Where the behaviour described for the application and the code in `app.js`
disagree, the model follows the code:

- `command.match` at app.js:251 has no `g` flag. So only the first script
  reference is expanded, not every reference. The match array also holds the
  captured extension, so `<plugin path>/sh` (or `/bash`) is looked up as
  well.
- The search nests variations outside candidates (app.js:285-296). So for
  one rule, an earlier variation wins even when a later variation matches an
  earlier candidate.
- "Single-character" candidates are judged by `p.length`, which counts
  UTF-16 code units (app.js:280). A single character above U+FFFF has length
  2, so it survives the filter.
- The completion callback is not invoked exactly once in every case. It is
  never invoked when the spawned pid is not a number (app.js:213).

The modules are:

| file | module |
|---|---|
| `wrappers.dfy` | `Wrappers` |
| `text.dfy` | `Text` (JavaScript whitespace, `trim`, `split`, UTF-16, decimal rendering) |
| `exec.dfy` | `Exec` |
| `plugins.dfy` | `Plugins` |
| `scanner.dfy` | `Scanner` |
| `command_queue.dfy` | `CommandQueue` |
| `task_gate.dfy` | `TaskGate` |
| `plugin_status.dfy` | `PluginStatus` |
| `task_outcome.dfy` | `TaskOutcome` |
| `json_merge.dfy` | `JsonMerge` |
| `categories.dfy` | `Categories` |
| `dialogs.dfy` | `Dialogs` |
| `flatpak.dfy` | `Flatpak` |

## Model

| member | source | states |
|---|---|---|
| Text.TrimStart | app.js:279 | the result is a suffix of the input, everything dropped is white space, and the result does not start with white space |
| Text.TrimEnd | app.js:279 | the result is a prefix of the input, everything dropped is white space, and the result does not end with white space |
| Text.Trim | app.js:279 | `p.trim()` neither starts nor ends with white space |
| Text.TrimIsInfix | app.js:279 | `trim` removes white space at the two ends and nothing else: the result sits inside the input, between two runs of white space |
| Text.TrimUnchanged | app.js:279 | a string with no white space at either end is its own trim |
| Text.TrimIdempotent | app.js:279 | trimming twice gives the same as trimming once |
| Text.Split | app.js:247 | `split` on a one-character separator yields at least one part, and no part contains the separator |
| Text.SplitJoin | app.js:247 | splitting loses nothing: joining the parts with the separator gives back the command |
| Text.JoinSplit | app.js:247 | the other direction: parts without the separator, joined and split again, come back unchanged |
| Text.Utf16Units | app.js:86 | a character is one code unit below U+10000, and otherwise a surrogate pair that encodes it; every unit is below 65536 |
| Text.Utf16Concat | app.js:85-86 | the code units of a concatenation are the code units of the two parts, one after the other |
| Text.JsLength | app.js:280 | `length` counts at least one and at most two code units per character |
| Text.NatToString | app.js:394 | the decimal rendering is non-empty, all digits, and has no leading zero |
| Text.DecimalRoundTrip | app.js:394 | reading the rendered digits back gives the number |
| Text.NatToStringInjective | app.js:394 | distinct numbers render differently |
| Text.IntToString | app.js:394 | a negative number, and only a negative number, renders with a leading minus; a non-negative one renders as its digits |
| Exec.ExecuteCommand | app.js:180-220 | the callback never fires exactly when the process started with a non-numeric pid; an error is reported exactly when the process did not start, and it always comes with status 1; a started process reports its pid and exit status, with no error |
| Scanner.ExtensionAt | app.js:251 | the extension group matches `sh` or `bash` after a dot, and the extension it reports is the text that follows the dot |
| Scanner.RunEnd | app.js:251 | the run of non-space characters from a position ends at the first white space or at the end, and no longer run exists |
| Scanner.Backtrack | app.js:251 | the greedy `\S+` backs off to the last dot followed by an extension, and no later position has one |
| Scanner.FindFrom | app.js:251 | the search finds a match at the leftmost start that has one, with the last possible dot; no start before it matches |
| Scanner.ScriptMatch | app.js:251-253 | `match` returns nothing exactly when the pattern matches nowhere; otherwise it returns the leftmost-greedy match and its extension `sh` or `bash` |
| Scanner.LeftmostGreedyUnique | app.js:251 | there is at most one leftmost-greedy match, so the match the engine reports is determined |
| Scanner.ScriptMatchIs | app.js:251 | given the leftmost-greedy match, `match` returns exactly that text and its extension |
| Scanner.IndexOf | app.js:280 | `indexOf` is -1 exactly when the value is absent; otherwise it is the position of its first occurrence |
| Scanner.SurvivorsFrom | app.js:279-281 | every kept candidate passes the filter and first occurs at or after the filter's start |
| Scanner.SurvivorsOrdered | app.js:279-281 | the kept candidates appear in the order of their first occurrences |
| Scanner.SurvivorsComplete | app.js:279-281 | every first occurrence that passes the filter is kept |
| Scanner.NormalizeSpec | app.js:279-281 | the candidates are exactly the trimmed parts that pass the filter, each once, in the order of their first occurrence |
| Scanner.NormalizeKeeps | app.js:279-281 | a part whose trimmed text passes the filter is among the candidates |
| Scanner.CommandPartsAreCandidates | app.js:247-249 | each `;`-separated part and the whole command are candidates once trimmed, unless the filter drops them |
| Scanner.ScriptLinesFrame | app.js:254-276 | the script lines depend only on the files at the referenced paths |
| Scanner.ScriptLinesPrefix | app.js:254-276 | the lines of earlier references come before those of later ones |
| Scanner.FirstScriptLines | app.js:254-276 | when the first referenced file exists and reads, its lines are the first script lines |
| Scanner.ScriptLineIsRaw | app.js:247-271 | the script lines follow the `;` parts and the whole command among the raw candidates |
| Scanner.ReferencedScriptLineIsCandidate | app.js:251-281 | a line of the referenced script is a candidate when the file exists, reads, and the trimmed line passes the filter |
| Scanner.GroupScriptLineIsCandidate | app.js:251-281 | the second lookup: a line of the script named by the group ("sh" or "bash") below the plugin directory is a candidate when that file exists, reads, and the trimmed line passes the filter |
| Scanner.ScanReadsOnlyReferencedScripts | app.js:251-277 | the scan reads no file other than the two paths the script reference names |
| Scanner.FirstMatchFromSpec | app.js:296-302 | the candidate loop returns the first candidate the pattern accepts, and nothing exactly when it accepts none |
| Scanner.VariationsFromSpec | app.js:285-303 | the variation loop skips patterns that do not compile and returns the first hit in variation-then-candidate order |
| Scanner.FirstHitFromSpec | app.js:283-307 | the rule loop returns the first hit in rule, variation, candidate order, with that rule's description; it is clean exactly when nothing hits |
| Scanner.ScanReportsFirstHit | app.js:244-308 | the scan is clean exactly when no compiled variation of any rule accepts any candidate; otherwise it reports the first hit in search order, with its rule's description; missing rules count as no rules |
| Scanner.ScriptLineIsReported | app.js:244-308 | a dangerous line that appears only in the referenced script is reported as the statement, although the command does not contain it |
| Scanner.ScanMaliciousCommand | app.js:244-308 | the scanner computes the scan over the candidates and the rule set |
| Scanner.CollectCandidates | app.js:247-281 | building the parts, adding the whole command, appending the script lines, then trimming, filtering and de-duplicating yields the candidates |
| Scanner.PushScriptLines | app.js:253-277 | the loop over the match appends the lines of every referenced file that exists and reads, in order, and skips the rest |
| Scanner.SearchRules | app.js:283-307 | the three nested loops with their early return compute the first hit in rule, variation, candidate order |
| CommandQueue.EnqueueKeepsValid | app.js:235-241 | enqueueing pushes to the tail and keeps the queue invariant: exactly the head is in flight, what was submitted is what completed followed by what is pending, and launches and callbacks alternate |
| CommandQueue.EnqueueAllBehind | app.js:237-241 | enqueueing behind a non-empty queue starts nothing |
| CommandQueue.EnqueueAllIntoEmpty | app.js:237-241 | enqueueing into an empty queue starts the first request, and only that one |
| CommandQueue.ExitKeepsValid | app.js:224-231 | on an exit the head is removed, its callback runs and sees the number still waiting, and then the new head, if any, starts; the invariant is kept |
| CommandQueue.ExitLastShape | app.js:224-231 | when the last request exits, its callback sees an empty queue and nothing is started |
| CommandQueue.ExitBehindShape | app.js:224-231 | while others wait, an exit runs the callback and then starts the next request, even when the callback enqueues more |
| CommandQueue.ExitDrainedShape | app.js:224-241 | when the queue has drained and the callback enqueues, the new request is started by the enqueue and again by the exit handler |
| CommandQueue.ReentrantBehindKeepsValid | app.js:224-241 | a callback that enqueues while others still wait keeps the invariant |
| CommandQueue.DrainedReentrantLaunchesTwice | app.js:224-241 | a callback that enqueues once the queue has drained gets that request started twice, which breaks the single-task invariant |
| CommandQueue.ReentrantExit | app.js:224-241 | with a callback that enqueues, the invariant survives an exit exactly when the queue had not drained |
| CommandQueue.ReplayIsFifo | app.js:222-242 | for any interleaving of submissions and exits: at most one process is in flight, the callbacks that ran are a prefix of the submissions in order, and each launch waits for the previous callback |
| CommandQueue.CommandQueue.constructor | app.js:235 | the queue starts empty |
| CommandQueue.CommandQueue.Run | app.js:223-224 | `run` starts the request's process and changes nothing else |
| CommandQueue.CommandQueue.Enqueue | app.js:235-241 | `_queueCommand` performs one enqueue step on the queue's state |
| CommandQueue.CommandQueue.ProcessExited | app.js:224-232 | the completion handler performs one exit step: it removes the head, runs the callback (which may enqueue), then restarts |
| CommandQueue.ThreeRequestsInOrder | app.js:222-242 | three requests enqueued together complete in the order A, B, C |
| CommandQueue.DrainedCalledAll | app.js:222-242 | once the queue has drained, every submitted request's callback has run, in submission order |
| CommandQueue.DrainedReentrantCallback | app.js:224-241 | concretely: a callback that enqueues X once the queue has drained yields the launches A, X, X |
| TaskGate.RunPluginCommand | app.js:310-335 | the gate asks exactly when the scan finds something, and the question names the plugin, the statement and the description; the runner gets the original command exactly when the scan is clean or the answer is yes; otherwise the callback gets `(null, 1)` |
| TaskGate.NoRulesRunsImmediately | app.js:310-335 | with no rules, whether absent or empty, every command runs at once and nothing is asked |
| TaskGate.RunnerNeedsCleanScanOrConsent | app.js:310-335 | a command runs unasked exactly when nothing hits; a runner call after a question needs a yes, and it always runs the original command |
| TaskGate.DangerScriptReference | app.js:251 | `echo start; danger.sh` references exactly `danger.sh`, with extension `sh` |
| TaskGate.ConfirmationBeforeDangerousScript | app.js:244-335 | when the script the command references is one line, and that line is the only text the single rule accepts, the gate asks with that line and the rule's description; any answer but yes means no run and status 1 |
| PluginStatus.GetPluginStatus | app.js:337-355 | there is no effect without a callback function; a probe runs exactly when a status command with a non-empty command exists; otherwise the callback gets `exec` with status 1 |
| PluginStatus.OnProbeExit | app.js:345-351 | a probe exiting 0 offers `undo`, and any other status offers `exec`; the status is passed on |
| PluginStatus.UndoOnlyAfterSuccessfulProbe | app.js:337-355 | `undo` is offered only for a probe that started and exited 0; a declined, failed or non-zero probe offers `exec`; the callback is missing only without a callback function, or for a probe whose pid is not a number |
| PluginStatus.NoProbeOffersExec | app.js:352-354 | without a status command the resolver offers `exec` with status 1 |
| PluginStatus.SetButtonState | app.js:357-369 | the button shows the action's label; it gains the destructive style for status 0 and the suggested style otherwise; it is sensitive exactly when the action has a non-empty command |
| PluginStatus.BeginTask | app.js:375-378 | a click shows "Working...", removes both styles and makes the button insensitive |
| PluginStatus.RefreshShowsOneStyle | app.js:357-378 | after a task, the refreshed button carries exactly one style, chosen by the status |
| PluginStatus.RepeatedRefreshKeepsBothStyles | app.js:361-365 | styles are only added, so two refreshes without a task between them can leave both styles on the button |
| TaskOutcome.HashString | app.js:82-90 | the accumulator loop computes the sum of the string's UTF-16 code units |
| TaskOutcome.HashAdditive | app.js:82-90 | the hash of a concatenation is the sum of the hashes, and the empty string hashes to 0 |
| TaskOutcome.HashBound | app.js:82-90 | the hash is at most 65535 times `str.length` |
| TaskOutcome.Notify | app.js:383-404 | an error takes precedence over the status, and status 0 without an error is the only success (normal urgency); the body names the plugin and action, then the error, the success or the exit code; the id is the hash of category and label |
| TaskOutcome.NotificationIdSum | app.js:403 | the notification id is the hash of the category plus the hash of the label |
| TaskOutcome.ExitCodeIsReadable | app.js:392-396 | the exit-code message ends with the status's digits, which read back as the status |
| TaskOutcome.AfterNotification | app.js:413-431 | the window is closed exactly when it is hidden and nothing is queued; otherwise the spinner stops, the label is "Finished!" for status 0 and "Error!" otherwise, and a refresh is scheduled |
| TaskOutcome.LabelAgreesWithSummary | app.js:383-425 | for a result whose error carries status 1, the label says "Finished!" exactly when the notification says "Task completed!" |
| TaskOutcome.ClosesOnlyAfterLastTask | app.js:413-417 | the queue length the callback sees is what still waits behind it, so a hidden window is closed exactly when the exit leaves the queue empty |
| JsonMerge.ExtendObject | app.js:92-116 | the loop over the sources returns a non-object target unchanged and merges source after source, stopping at the first non-object |
| JsonMerge.MergeInto | app.js:104-112 | the property loop assigns or merges every own property of the source, as the merge specifies |
| JsonMerge.MergeKeepsKind | app.js:95-112 | merging never changes whether the target is an object or an array, and a non-object target is returned unchanged |
| JsonMerge.ObjectMerge | app.js:104-112 | the keys are those of both objects; a key the source lacks keeps its value; a key that is missing, or whose value is not of object type, takes the source's value; a `null` stays `null`; an object or array is merged into and keeps its kind |
| JsonMerge.MergeItemsSpec | app.js:104-112 | an array merged into an array takes the longer length and is merged index by index; elements past the end are appended |
| JsonMerge.MergeIndexedSpec | app.js:104-112 | an array merged into an object sets the properties "0", "1", … from its elements, merged or assigned; every other property is kept |
| JsonMerge.SelfMerge | app.js:92-116 | merging a value into itself changes nothing |
| JsonMerge.MergeIdempotent | app.js:92-116 | merging the same source a second time changes nothing more |
| JsonMerge.StopsAtFirstNonObject | app.js:99-102 | the sources after the first non-object source are ignored |
| JsonMerge.UntouchedKeyKept | app.js:99-113 | a property no source mentions keeps its value, however many sources there are |
| Categories.Rank | app.js:459-465 | the rank of a category is never above the rank of the unknown ones |
| Categories.RankIsPosition | app.js:459-465 | the rank is the position in the fixed order, and only categories outside it rank at `categoryOrder.length` |
| Categories.Sorted | app.js:461-467 | the sorted categories have no pair that the comparator puts the other way round |
| Categories.Permutation | app.js:461-467 | sorting neither loses nor duplicates a category |
| Categories.Stable | app.js:461-467 | categories that compare equal keep their original relative order |
| Categories.ChooseSwitcher | app.js:469-478 | the header is a stack switcher exactly when there are two or more categories; otherwise it is the application name, or the single category's name |
| Categories.SwitcherOfSorted | app.js:461-478 | sorting does not change the header: over the sorted categories it is a switcher exactly when there are two or more, and otherwise the application name or the one category |
| Dialogs.DialogKind | app.js:143-160 | "info" gets INFO with OK, "warning" WARNING with OK/Cancel, "question" QUESTION with Yes/No; everything else gets type OTHER with no buttons; no type gets an error dialog |
| Dialogs.ErrorDialogHasNoButtons | app.js:156-159 | the "error" type, as the `switch` is written, gets type OTHER and no button, so a dialog built for it could not be dismissed by a button |
| Dialogs.IntendedDialogKind | app.js:143-160 | the corrected mapping gives "error" an error dialog with OK and agrees with the original everywhere else |
| Dialogs.UsedDialogsHaveButtons | app.js:143-160 | with the corrected mapping, every dialog type the application asks for has a button and a specific message type |
| Dialogs.DialogText | app.js:166 | a present text is shown as it is, and a missing text becomes the empty string |
| Flatpak.ProbeArguments | app.js:751 | the probe string, cut at its spaces, gives one word list headed by `flatpak list`, whose arguments include `|`, `grep`, `-q` and the app id |
| Flatpak.OnProbeExit | app.js:751-755 | the probe's status 0 offers "Uninstall", and any other status offers "Install"; the button becomes sensitive and the spinner stops |
| Flatpak.Toggle | app.js:766 | "Install" becomes "Uninstall", and anything else becomes "Install" |
| Flatpak.ToggleInvolutive | app.js:766 | on the two labels the probe sets, toggling swaps them, and toggling twice restores the label |
| Flatpak.InstallCommandIffInstallLabel | app.js:762 | a click runs the install command exactly when the button says "Install", and the uninstall command otherwise |
| Flatpak.OnTaskExit | app.js:763-783 | the spinner stops and the button becomes sensitive; status 0 flips the label and notifies success; any other status keeps the label and opens an "error" dialog |
| Flatpak.SuccessNamesTheCommand | app.js:762-771 | the success notification says "installed" exactly when the install command ran |
| Flatpak.SuccessOffersTheReverse | app.js:762-766 | after a success the button offers the reverse of the command that ran |
| Flatpak.FailureNamesTheCommand | app.js:762-780 | the failure dialog says "Failed to install" exactly when the install command ran |
| Flatpak.ClickAfterProbe | app.js:751-762 | right after the probe, a click runs the uninstall command exactly when the probe's status was 0, and the install command otherwise |
| Flatpak.FailureDialog | app.js:780 | the failure dialog asks for "error": as written it gets type OTHER and no button; with the corrected mapping it is an error dialog with OK |

Some definitions carry no contract of their own; the members named here state what each one means.

- Scanner.Scan: Scanner.ScanReportsFirstHit, Scanner.ScriptLineIsReported, Scanner.ScanMaliciousCommand.
- Scanner.FirstHitFrom, Scanner.VariationsFrom, Scanner.FirstMatchFrom: Scanner.FirstHitFromSpec, Scanner.VariationsFromSpec, Scanner.FirstMatchFromSpec.
- Scanner.Survives and Scanner.Normalize: Scanner.NormalizeSpec, Scanner.NormalizeKeeps.
- Scanner.Candidates: Scanner.CommandPartsAreCandidates, Scanner.ReferencedScriptLineIsCandidate, Scanner.GroupScriptLineIsCandidate.
- Scanner.ScriptLines: Scanner.ScriptLinesFrame, Scanner.ScriptLinesPrefix, Scanner.FirstScriptLines, Scanner.ScriptLineIsRaw.
- CommandQueue.EnqueueStep: CommandQueue.EnqueueKeepsValid, CommandQueue.EnqueueAllBehind, CommandQueue.EnqueueAllIntoEmpty.
- CommandQueue.ExitStep: CommandQueue.ExitKeepsValid, CommandQueue.ExitLastShape, CommandQueue.ExitBehindShape, CommandQueue.ExitDrainedShape, CommandQueue.ReentrantExit.
- CommandQueue.Replay: CommandQueue.ReplayIsFifo.
- PluginStatus.Resolve: PluginStatus.UndoOnlyAfterSuccessfulProbe, PluginStatus.NoProbeOffersExec.
- TaskOutcome.Hash: TaskOutcome.HashString, TaskOutcome.HashAdditive, TaskOutcome.HashBound.
- TaskOutcome.NotificationId: TaskOutcome.NotificationIdSum, TaskOutcome.Notify.
- TaskOutcome.CloseInstead: TaskOutcome.AfterNotification, TaskOutcome.ClosesOnlyAfterLastTask.
- JsonMerge.Merge and JsonMerge.MergeValue: JsonMerge.MergeKeepsKind, JsonMerge.ObjectMerge, JsonMerge.MergeItemsSpec, JsonMerge.MergeIndexedSpec, JsonMerge.SelfMerge, JsonMerge.MergeIdempotent.
- JsonMerge.Extend: JsonMerge.ExtendObject, JsonMerge.StopsAtFirstNonObject, JsonMerge.UntouchedKeyKept.
- Categories.SortCategories: Categories.Sorted, Categories.Permutation, Categories.Stable, Categories.SwitcherOfSorted.
- Categories.Compare: Categories.Sorted, Categories.RankIsPosition.

## Left out

- GTK widgets, CSS, the stack, search and filtering, icons, the options dialog and window chrome (app.js:35-69, 441-747). These are user interface and take no decisions in the engine.
- `GLib.shell_parse_argv`, `spawn_async`, `child_watch_add`, `spawn_close_pid` and the PATH augmentation (app.js:181-219). These are operating-system calls. `Exec.ExecuteCommand` takes how far the start got, plus the exit status, as inputs.
- Exec.ExecuteCommand: the status that `child_watch_add` passes is the raw wait status; the model passes the exit status through as one integer.
- Exec.ExecuteCommand: the model takes the `status === false` branch (app.js:183-186) at face value, so an unparsable command calls back with `(null, 1, Error)`. In GJS a function that reports a `GError`, as `GLib.shell_parse_argv` does, throws instead of returning false. A command with bad quoting then throws out of `_executeCommand` before the `try` at app.js:198, and the callback never fires. Through the queue (app.js:235-241) that request stays at the head for good, and every later task waits behind it. The model does not capture this stall.
- The regular-expression engine. Rule variations are opaque matchers; only the script pattern of app.js:251 is modelled exactly.
- `GLib.markup_escape_text` and the wording of the confirmation text (app.js:316-319). These are foreign escaping calls. `TaskGate.Question` records the three values the text is built from.
- File and JSON input: `_loadJSON`, plugin discovery, configuration loading, and reading the scripts inside the scanner (app.js:118-138, 257-267, 786-846). Files are a map from path to `Option<string>`, where `None` is a script that cannot be opened for reading and writing, and the merge works on `JsonMerge.Json` values.
- Scanner.Candidates: the scanner opens each referenced script with `open_readwrite` inside the `try` (app.js:262-263), so a script the user may read but not write is skipped silently and its lines are never scanned. The model records this only as `None`; it does not distinguish permissions. For a script that is not writable, as the scripts of a system-wide plugin usually are, the scan therefore covers only the command text.
- Scanner.Candidates: `query_info(...).get_size()` (app.js:258-260) sits outside the `try`, so a failure there throws out of `_scanMaliciousCommand` instead of skipping the script. The model has no such failure: an existing file either reads or is `None`.
- Dialogs: `_showDialog` ends with `dialog.show_all()` (app.js:177). The rest of `app.js` is written against GTK 4 (`set_child`, `"close-request"`, `show_title_buttons`, `add_provider_for_display`), and GTK 4 widgets have no `show_all`, so the call very likely throws before any dialog is shown. The model takes a shown dialog, and the user's answer to it, as given. Two effects are not captured. The confirmation question of `TaskGate.RunPluginCommand` (app.js:320-333) is never answered, so neither the runner nor `cb(null, 1)` is called and the task never finishes; the `catch` at app.js:434-438 re-enables the button only when the status resolved without a probe. On the flatpak failure path, the throw comes before `button.sensitive = true` (app.js:782), so the button stays insensitive, although `Flatpak.OnTaskExit` ensures it is sensitive again.
- Flatpak.OnTaskExit: holds on the assumption that `_showDialog` returns; under the throw described in the Dialogs line, a failed task leaves the button insensitive.
- TaskGate.RunPluginCommand: holds on the assumption that the question is shown and answered; under the throw described in the Dialogs line, a scan hit ends the task with no run and no callback.
- Notifications and timers (app.js:398-411, 427-431): `TaskOutcome.Notification` is the notification's content, and `TaskOutcome.Settled` records that a refresh is scheduled. The 1000 ms timeout and the `try`/`catch` around `show` are not modelled.
- The end-to-end `_handleTask` (app.js:371-439) is modelled as its parts: `PluginStatus.BeginTask`, `PluginStatus.Resolve`, `TaskGate.RunPluginCommand` with the queue as runner, `TaskOutcome.Notify` and `TaskOutcome.AfterNotification`. The `try`/`catch` at app.js:434-438 is not modelled.
- An action without a command: `_handleTask` passes `action.command` to the scanner, whose `split` then throws (app.js:381, 247). The scanner takes a string, so this path is not modelled. Nor is a missing action: when `scripts.exec` or `scripts.undo` is undefined, reading `action.command` at app.js:381 throws. Without a probe the resolver calls back at once and the `catch` at app.js:434-438 stops the spinner and re-enables the button; after a probe the throw escapes the child-watch callback and the button stays insensitive at "Working...".
- PluginStatus.SetButtonState: when the resolved action is missing, the source's callback throws on `action.label` before touching the button; the model leaves the button unchanged.
- JsonMerge.Merge: when the target is an array and the source an object, the model returns the array unchanged. In the source (app.js:104-110) the object's keys are array keys: an index key "0", "1", … replaces the element there or merges into it, and can make the array longer; a "length" key truncates or extends the array, or throws a `RangeError` when its value is not a valid length; only the remaining keys become extra properties of the array. None of these effects is modelled.
- JsonMerge.Merge: only ordinary own keys are modelled. A source key `__proto__` reads the target's prototype at app.js:106, which is an object, so its value is merged into `Object.prototype` (prototype pollution) and no own key is added. A source key "hasOwnProperty" shadows the method, so the call `objs[i].hasOwnProperty(o)` at app.js:105 throws a `TypeError`. The model treats both as plain keys.
- JsonMerge.Merge: numbers are `real`, not IEEE doubles, and values are trees. The aliasing of a source value that is assigned into the target, and later mutated through it, is not captured.
- TaskOutcome.NotificationId: the id is an unbounded `nat`; it is not narrowed to the integer width that `Notify.Notification` stores.
- CommandQueue: a callback is known by a number, and the re-entrant requests it enqueues are an input. No callback in `app.js` enqueues (the refresh goes through a timeout at app.js:427), but the model shows what would happen if one did.
- Flatpak: the probe command reads as a shell pipeline, but `_executeCommand` runs no shell: `GLib.shell_parse_argv` cuts it into an argument vector and spawns `flatpak` with it (app.js:181, 198-199), so `|`, `grep`, `-q` and the app id are arguments of `flatpak list` (Flatpak.ProbeArguments). What `flatpak` does with them, and what its exit status then says about whether the app is installed, is not modelled; the model follows the status only. The app id, `plugin.flatpak.app_id` in the source, is a parameter of the flatpak members. The flatpak commands bypass the scanner and the queue, as in the source, and no property couples them to either.
- Flatpak.ProbeWords, Flatpak.ProbeCommand, Flatpak.BeginTask and Flatpak.TaskCommand are definitions without contracts of their own; Flatpak.ProbeArguments and the lemmas about the flatpak toggle state what they mean.

## Findings

| source | as written | input that shows it | evidently intended | confidence | as-written member | corrected member |
|---|---|---|---|---|---|---|
| app.js:143-160 | the `switch` in `_showDialog` has no case for "error", which `_handleFlatpakTask` asks for at app.js:780, so the failure dialog is built with type OTHER and buttons NONE (whether any dialog appears at all depends on `dialog.show_all()` at app.js:177; see "## Left out") | a failed flatpak install: `_showDialog({type: "error", text: "Failed to install <app id>"})` | an error dialog with an OK button, like the other types the application uses | not executed | Dialogs.ErrorDialogHasNoButtons | Dialogs.UsedDialogsHaveButtons |
