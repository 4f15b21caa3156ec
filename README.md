# Reciclaje Inteligente — a verified model of the page logic

The page points a webcam at an object and asks an image classifier whether
the object is recyclable. The classifier is a hosted model that a library
runs. `app.js` sits between the classifier and the document, and this
project models what it decides:

- **Labels** (`labels.dfy`, module `Labels`):
  - the dictionary `CLASS_LABELS` and `mapLabel`;
  - `normalizeName` (lower-casing, then removing white space and underscores);
  - the verdict heuristic `isRecyclableClass`, a search for "reciclable" or "recycle";
  - `isSecureContext`.
- **Dictionary verdicts** (module `DictionaryVerdicts`): what the heuristic makes of the two dictionary entries.
- **Ranking** (`ranking.dfy`): the in-place sort in `predict`. It is a stable sort by falling probability.
  - It is specified by a functional insertion sort, `SortDesc`.
  - It is implemented on an `array` by the method `SortByProbability`.
  - Lemmas prove that the sort is a permutation, ordered and stable, and that its first entry is the earliest entry of maximal probability.
- **Presenter** (`presenter.dfy`): what one frame puts on the page. This covers the verdict, the detail, the classes `result-good`/`result-bad`, and the rows of the bar chart built by `buildBars` and rewritten by `updateBars`. These are computed as values.
- **Session** (`session.dfy`): the controls as a value, meaning `running`, `facingMode` and the `disabled` flags of the three buttons. Each handler's effect on them is a function.
- **Controller** (`controller.dfy`): the class `Page`. It holds the script's state and the parts of the document it writes, and has one method per handler:
  - `initCameraAndModel`, `startCamera`, `restartCamera`, `stop`, `handleError` and the switch handler;
  - the frame loop, split at its `await`;
  - `predict`, `buildBars` and `updateBars`.

  The methods are proved to apply the Session and Presenter functions.

Every promise from the library or the camera is an `Outcome` passed in by the caller (`Resolved`, or `Rejected` with the error's message).

Each handler runs as one step. The only exception is the loop:
- `LoopFired` is an animation frame running `loop` up to its call of the classifier.
- `PredictResolved` or `PredictRejected` is what happens when that call settles.
- The page counts frames requested (`pendingFrames`) and classifier calls outstanding (`inFlight`).

In a few places the code does not do what one would expect of such a page. The model follows the code, and the lemmas below show each difference:

- **Secure context.** One would expect HTTPS or any local loopback address to count as secure. The code accepts the protocol `https:` or the host name `localhost`, and nothing else. So `http://127.0.0.1` is refused (`Labels.LoopbackAddressRefused`).
- **Switching cameras.** One would expect a failed switch to revert to the previous facing mode. The code flips `facingMode` before restarting the camera and never reverts it. A failed restart is not caught at all (`Controller.Page.SwitchClicked`, `Session.SwitchTwiceRestores`).
- **Errors in the loop.** One would expect an inference error to halt the loop and reset the controls. Only the start button's promise has `handleError` attached. A rejected classifier call, or an empty answer that makes `predict` throw, only ends that chain of frames: the controls stay live and nothing is reported (`Controller.Page.PredictRejected`, `Controller.Page.PredictResolved`).
- **Outstanding classifier calls.** One would expect at most one at a time. `loop` requests the next frame after `await predict()` without looking at `running`. So stopping and starting again while a call is outstanding leaves two chains of frames running (`Controller.TwoLoopChains`).
- **`handleError` and `running`.** `handleError` does not clear `running`. Between clicks the controls are either idle or live, so it only ever runs while `running` is already false (`Session.ClicksKeepConsistent`, `Session.FailedStartKeepsRunning`).
- **The verdict heuristic.** The heuristic does not tell the dictionary's two classes apart. "No Reciclable" normalises to "noreciclable", which contains "reciclable". So a frame whose top class is "Class 1" is announced "RECICLABLE" and its bar is painted good (`DictionaryVerdicts.BothClassesRecyclable`, `Presenter.TwoClassFrame`).

## Model

| member | source | states |
|---|---|---|
| Labels.MapLabel | app.js:22-28 | "Class 1" maps to "No Reciclable", "Class 2" maps to "Reciclable", every other name is returned unchanged |
| Labels.MapLabelIdempotent | app.js:26-28 | mapping a display name again changes nothing |
| Labels.NormalizeText | app.js:107 | lower-casing, then removing every `\s` character and underscore; its promises are stated by `NormalizeTextIgnoresCase`, `NormalizeTextKeepsFolded`, `NormalizeTextDropsStripped`, `NormalizeTextAppend`, `NormalizeTextIsNormal` and `NormalizeTextFixed` |
| Labels.NormalizeTextIgnoresCase | app.js:107 | strings that agree once each character is lower-cased normalise to the same text, so the verdict does not depend on case |
| Labels.NormalizeTextKeepsFolded | app.js:107 | a character that is neither `\s` nor an underscore survives, lower-cased, between the normalised text before and after it |
| Labels.NormalizeTextDropsStripped | app.js:107 | a `\s` character or underscore vanishes wherever it stands |
| Labels.NormalizeName | app.js:106-108 | a missing name (`null`/`undefined`) normalises to "" |
| Labels.NormalizeTextIsNormal | app.js:107 | the normal form holds no ASCII upper-case letter, no `\s` character and no underscore, and is never longer than its input |
| Labels.NormalizeTextAppend | app.js:107 | normalisation works character by character: it distributes over concatenation |
| Labels.NormalizeTextFixed | app.js:107 | a string already in normal form is left unchanged |
| Labels.NormalizeNameIdempotent | app.js:106-108 | normalising a normalised name gives the same name |
| Labels.Contains | app.js:110 | the left-to-right search for a pattern; `ContainsOccurs` states that it finds exactly the contiguous occurrences |
| Labels.IsRecyclableClass | app.js:109-111 | the verdict heuristic; `RecyclableIffOccurs` states what it accepts |
| Labels.IsSecureContext | app.js:95-97 | `https:` or the host "localhost"; `LoopbackAddressRefused` states its edge cases |
| Labels.ContainsOccurs | app.js:110 | the left-to-right search finds a pattern exactly when the pattern occurs as a contiguous block |
| Labels.RecyclableIffOccurs | app.js:109-111 | a name is judged recyclable exactly when "reciclable" or "recycle" occurs in its normal form |
| Labels.LoopbackAddressRefused | app.js:95-97 | `http:` on "localhost" is secure; `http:` on "127.0.0.1" is not; the protocol is compared exactly, so "HTTPS:" does not count |
| DictionaryVerdicts.EndingInReciclableIsRecyclable | app.js:106-111 | any name ending in "Reciclable" is judged recyclable, whatever precedes it |
| DictionaryVerdicts.NonRecyclableClassJudgedRecyclable | app.js:22-25 | the display name of "Class 1", "No Reciclable", is judged recyclable |
| DictionaryVerdicts.RecyclableClassJudgedRecyclable | app.js:22-25 | the display name of "Class 2", "Reciclable", is judged recyclable |
| DictionaryVerdicts.BothClassesRecyclable | app.js:109-111 | the heuristic judges both dictionary classes recyclable |
| Ranking.InsertDesc | app.js:115 | one insertion step of the stable descending sort; `InsertDescPermutation`, `InsertDescOrdered`, `InsertDescStable` and `InsertDescAt` state its promises |
| Ranking.SortDesc | app.js:115 | the order `sort((a, b) => b.probability - a.probability)` leaves; `SortDescPermutation`, `SortDescOrdered` and `SortDescStable` state its promises |
| Ranking.SortDescPermutation | app.js:115 | the sort keeps every entry exactly as often as it occurs |
| Ranking.SortDescOrdered | app.js:115 | after the sort, probabilities never increase along the array |
| Ranking.SortDescStable | app.js:115 | for every probability, the entries that carry it keep their original relative order |
| Ranking.EarliestMax | app.js:116 | an independent definition of the top entry: the first index whose probability is at least every other and greater than every earlier one |
| Ranking.TopHasMaxProbability | app.js:115-116 | the first entry after the sort carries the greatest probability |
| Ranking.TopIsEarliestMax | app.js:115-116 | `prediction[0]` after the sort is the earliest entry of maximal probability |
| Ranking.MakeRoom | app.js:115 | the entries smaller than the one being inserted shift one place right; the entry before the gap is not smaller |
| Ranking.InsertLast | app.js:115 | one step of the in-place sort inserts `a[i]` into the sorted `a[..i]` and leaves the rest alone |
| Ranking.SortByProbability | app.js:115 | the array afterwards holds `SortDesc` of its old contents, which is stable, ordered and a permutation |
| Presenter.BuildRows | app.js:131-153 | the rows `buildBars` lays out; `BuildRowsDefault` and `BuildRowsLabels` state them |
| Presenter.RowFor | app.js:162-169 | the row written for one entry; `UpdateRowsShowsPrediction` states its name, level and fill |
| Presenter.UpdateRows | app.js:155-170 | the rows after `updateBars`; `UpdateRowsShowsPrediction` and `UpdateRowsEmpty` state them |
| Presenter.Present | app.js:113-128 | what `predict` writes for one answer; `PresentDefined`, `PresentVerdict`, `PresentRows` and `TwoClassFrame` state it |
| Presenter.BuildRowsDefault | app.js:131-133 | given no labels or a value that is not an array, `buildBars` lays out exactly the blank rows "Clase A" and "Clase B" |
| Presenter.BuildRowsLabels | app.js:133-152 | given labels, `buildBars` lays out one blank neutral row per label, in order, named by `mapLabel` |
| Presenter.UpdateRowsShowsPrediction | app.js:155-170 | with at least one entry, the chart has one row per entry; row i has the mapped name and level of entry i, and a good fill exactly when that name is judged recyclable, whatever was shown before |
| Presenter.UpdateRowsEmpty | app.js:155-159 | with no entries, an empty chart stays empty and any other chart becomes the two default rows |
| Presenter.PresentDefined | app.js:113-118 | a frame produces a view exactly when the classifier returned at least one entry |
| Presenter.PresentVerdict | app.js:115-126 | the detail names the earliest entry of maximal probability; the verdict is "RECICLABLE" exactly when its mapped name is judged recyclable, and "NO RECICLABLE" otherwise; the panel then has exactly one of `result-good` and `result-bad` |
| Presenter.PresentRows | app.js:115-128 | the chart shows every entry once, in the sorted order: a permutation of the classifier's answer, with probabilities never increasing, and the entries of each probability in the order the classifier gave them |
| Presenter.TwoClassFrame | app.js:113-129 | for "Class 1" at 0.2 and "Class 2" at 0.8: the verdict is "RECICLABLE" for "Reciclable" at 0.8, and the rows are "Reciclable" then "No Reciclable", both with a good fill |
| Session.Toggled | app.js:34 | the switch handler's toggle; `ToggledInvolution` states it |
| Session.Loading | app.js:45 | start disabled past the secure-context check; used by `StartClick` |
| Session.Started | app.js:53-55 | the controls at the end of a successful init; `SuccessfulStartIsLive` states them |
| Session.Stopped | app.js:82-86 | the controls after `stop`; `StopIdempotent` states them |
| Session.Errored | app.js:178-183 | the controls after `handleError`; `FailedStartKeepsRunning` and `ErrorWhileLiveKeepsRunning` state them |
| Session.Switched | app.js:33-35 | the controls after a switch click; `SwitchTwiceRestores` states them |
| Session.StartClick | app.js:31 | the controls after a start click; `InsecureStartChangesNothing`, `SuccessfulStartIsLive`, `FailedStartKeepsRunning` and `ClicksKeepConsistent` state them |
| Session.ToggledInvolution | app.js:34 | the toggle always changes the facing mode, and two toggles restore it |
| Session.InsecureStartChangesNothing | app.js:40-43 | in an insecure context a start click changes no control |
| Session.SuccessfulStartIsLive | app.js:45-55 | a successful start leaves `running` set, start disabled, stop and switch enabled, and the facing mode unchanged |
| Session.FailedStartKeepsRunning | app.js:178-183 | a failed start ends with start enabled and stop and switch disabled; `running` keeps its earlier value |
| Session.ErrorWhileLiveKeepsRunning | app.js:178-183 | `handleError` on live controls would leave `running` set with start enabled, a state outside idle and live |
| Session.StopIdempotent | app.js:82-86 | `stop` always ends idle, keeps the facing mode, and a second `stop` changes nothing |
| Session.SwitchTwiceRestores | app.js:33-35 | a switch click changes the facing mode and nothing else; two clicks restore the controls |
| Session.ClicksKeepConsistent | app.js:31-35 | every click on an enabled button takes idle-or-live controls to idle-or-live controls |
| Session.NoStartWhileRunning | app.js:45 | between clicks, start is disabled whenever `running` is set |
| Controller.CameraStarts | app.js:61-74 | `startCamera` resolves exactly when one of the two setups and then `play` succeed; used by `Opened` and `StartCamera` |
| Controller.Opened | app.js:61-74 | the webcam `startCamera` leaves behind; `Controller.Page.StartCamera` is proved to produce it |
| Controller.Page.constructor | app.js:188-190 | the page begins idle, asking for the rear camera, with no model, webcam or bars; in an insecure context the badge says so |
| Controller.Page.ToastStatus | app.js:173-176 | the badge shows the given text in the given tone |
| Controller.Page.BuildBars | app.js:131-153 | the chart afterwards is exactly `BuildRows` of the labels |
| Controller.Page.UpdateBars | app.js:155-171 | the chart afterwards is `UpdateRows` of the old chart and the entries |
| Controller.Page.Predict | app.js:113-129 | the array ends sorted; with no entries the call throws and changes nothing else; otherwise verdict, detail, panel and chart are those of `Present` |
| Controller.Page.StartCamera | app.js:61-74 | a new webcam is set up with the requested facing mode, else with default settings; it plays exactly when both a setup and `play` succeed; a rejection carries the failing step's error |
| Controller.Page.RestartCamera | app.js:76-80 | without a webcam nothing happens; otherwise the camera is started again with the current facing mode |
| Controller.Page.InitCameraAndModel | app.js:39-59 | in an insecure context: the "HTTPS" warning and no other change; otherwise, as `LoadAndStart` |
| Controller.Page.LoadAndStart | app.js:45-58 | start is disabled; the load, the bars and the camera go as far as the first failure, and a failed load leaves model, bars and webcam as they were; the canvas is shown exactly when the camera plays; only full success sets `running`, enables stop and switch, says "En vivo" and requests one frame |
| Controller.Page.GoLive | app.js:53-58 | `running` is set, stop and switch are enabled, the badge says "En vivo" and one more frame is requested |
| Controller.Page.HandleError | app.js:178-186 | the badge shows "Error: " and the message, or "ver consola" if there is none; start is enabled, stop and switch disabled, `running` untouched |
| Controller.Page.StartClicked | app.js:31 | the controls follow `StartClick`; an insecure context only shows the "HTTPS" warning; in a secure one the load, the bars, the camera and the canvas go as in `LoadAndStart`; a rejection of init is reported by `handleError`, a success leaves the result texts alone; idle-or-live is kept |
| Controller.Page.Stop | app.js:82-93 | the controls follow `Stopped`; the webcam stops; the badge, the texts and the panel show the stopped page |
| Controller.Page.SwitchClicked | app.js:33-36 | the facing mode toggles, the camera restarts with the new mode, the canvas is shown if it plays, and nothing reverts the toggle if the restart fails |
| Controller.Page.LoopFired | app.js:99-102 | a frame uses up its request; the classifier is called exactly when `running` is set, and then a model and a webcam exist |
| Controller.Page.PredictResolved | app.js:102-103 | the answer is shown as `Predict` shows it, and an empty answer changes nothing on the page; the next frame is requested unless `predict` threw, whatever `running` now is |
| Controller.Page.PredictRejected | app.js:102 | a rejected classifier call ends its chain of frames and changes nothing on the page |
| Controller.TwoLoopChains | app.js:99-104 | start, one frame, stop, start again and one more frame leave two classifier calls outstanding at once |
| Controller.CameraRefused | app.js:31 | when the camera refuses both setups, a start click ends idle, with the camera's error on the badge |

## Left out

- `script.js`, the second version of the page, is not part of this model.
- The classifier library and the camera are not modelled. Their promises are `Outcome` parameters; `webcam.update()` and the canvas are left out.
- `model.getTotalClasses()` is left out. Its result, `maxPredictions`, is never read.
- A `getClassLabels` that throws is left out; the model takes its answer as a `LabelList`.
- `webcam.stop()` is taken to succeed.
- Interleavings inside a handler are not modelled, because each handler is one step. While init loads, no button is enabled. But an old chain of frames could settle in the middle of init; that ordering is not modelled.
- Floating-point formatting (`toFixed(1)` and `Math.round` of `probability * 100`) is left out. The detail and the bars keep the probability itself.
- Probabilities are reals, so NaN and non-number probabilities are not modelled. For finite numbers the comparator's sign gives exactly the order of the two probabilities.
- Labels.Lower: `toLowerCase` is modelled on ASCII only. Letters outside 'A'..'Z' are kept, so a non-ASCII capital is not folded. The `\s` class is modelled in full.
- Labels.MapLabel: keys inherited by an object literal ("toString", "constructor" and so on) are treated as ordinary names.
- Class names and labels are modelled as strings only.
- The document's own initial texts and button states come from the page's HTML, which is not part of this model. The constructor starts idle and leaves those texts open.
- Controller.Page.constructor: it also takes the bar container to start empty and the result panel to start without `result-good` and `result-bad`; both are assumptions about the HTML.
- A webcam that was set up but failed to play is neither stopped by `handleError` nor by the next start, which replaces it (app.js:63); the model records the replacement but not the camera left open.
- Controller.Page.ToastStatus takes the badge tone directly. Every call passes "good", "bad" or "neutral" literally, and the mapping of any other mode to neutral is not modelled.
- `console.error` and the exact DOM construction (elements, class names, style widths) are left out. Only the webcam canvas replacing the placeholder is kept, as `feedShown`.
