# Voice-authentication demo: session controller model

The repository is a single React component, `App`, that walks a user through a
simulated speaker-authentication workflow. The user uploads enrollment audio
files, trains a (fake) model, uploads test files and runs a (fake)
authentication pass. Each file is labelled with a speaker derived from its name.
Training only checks that the enrollment files name at least two distinct
speakers. Authentication predicts, for every test file, either its own speaker
or, at random, the speaker of some enrollment file.

This Dafny project models the controller part of that component:

- `speaker.dfy` (module `Speaker`): the label derivation
  `fileName.split('_')[0] || fileName.split('.')[0]`, with the string `split`
  modelled as `Split` and its inverse `Join`.
- `records.dfy` (module `Records`): the file, result, model-status and
  classifier values, and the status label and colour.
- `roster.dfy` (module `Roster`): the entries an upload appends, the filter a
  removal applies, the set of distinct speakers and the statuses a training run
  assigns.
- `evaluation.dfy` (module `Evaluation`): the authentication pass over the test
  files, the count of correct results and the accuracy figure.
- `controller.dfy` (module `Controller`): class `Session`. Its fields are the
  six `useState` fields. Its methods are the handlers. The module also holds the
  button-enable guards and a scenario that exhibits the defect listed under
  Findings.

Randomness is a parameter. Upload takes the ids to assign. Authentication takes
one `Draw` per test file: `KeepTrue` (the `Math.random() > 0.3` branch) or
`Mispredict(index)` (the enrollment index `Math.floor(Math.random() * n)`).
Every contract therefore holds for every outcome of the random draws.
Training and authentication are modelled as atomic steps. `TrainModel` returns
the statuses it assigns, in order, so the model can say that a call with fewer
than two files never shows `Training`.

In two places the code behaves differently from what its intent suggests,
and the model follows the code:

- Labels: a name with no `_` is labelled with the whole name (`alice.wav`
  gives `alice.wav`, not `alice`). The text before the first `.` is used only
  when the name starts with `_` or is empty.
- Training with fewer than two enrollment files is not left to the disabled
  button alone. The handler itself sets the status to error at once, without
  passing through `training`.

## Model

| member | source | states |
|---|---|---|
| `Speaker.Split` | src/App.tsx:32 | `split` on one separator gives at least one piece, and no piece contains the separator |
| `Speaker.JoinSplit` | src/App.tsx:32 | joining the pieces of a split with the separator gives back the original name |
| `Speaker.SplitHead` | src/App.tsx:32 | the first piece of a split is the text before the first separator, or the whole name when there is none |
| `Speaker.ExtractSpeakerName` | src/App.tsx:31-33 | the label is a prefix of the file name, and it is empty only for the empty name |
| `Speaker.SpeakerBeforeFirstUnderscore` | src/App.tsx:31-33 | a name whose first `_` is at position k > 0 is labelled with the text before it |
| `Speaker.SpeakerWithoutUnderscore` | src/App.tsx:31-33 | a name without `_` is its own label, extension included |
| `Speaker.SpeakerAfterLeadingUnderscore` | src/App.tsx:31-33 | only a name starting with `_` falls back to the text before the first `.`, and that label keeps the leading `_` |
| `Speaker.SpeakerExampleAlice1` | src/App.tsx:31-33 | `alice_1.wav` gives `alice` |
| `Speaker.SpeakerExampleAlice2` | src/App.tsx:31-33 | `alice_2.wav` gives `alice` |
| `Speaker.SpeakerExampleBob1` | src/App.tsx:31-33 | `bob_1.wav` gives `bob` |
| `Speaker.SpeakerExampleNoUnderscore` | src/App.tsx:31-33 | `alice.wav` gives `alice.wav`: the extension is kept |
| `Speaker.SpeakerExampleLeadingUnderscore` | src/App.tsx:31-33 | `_x.wav` gives `_x` |
| `Records.StatusText` | src/App.tsx:193-200 | the status label is never empty; it reads "Training Failed" exactly for `error` and "Model Trained Successfully" exactly for `trained` |
| `Records.StatusColor` | src/App.tsx:184-191 | the status colour is red exactly when the label reads "Training Failed", and green exactly when it reads "Model Trained Successfully" |
| `Records.StatusRenderingDistinct` | src/App.tsx:184-200 | the four model statuses have pairwise different labels and colour classes |
| `Roster.NewEntries` | src/App.tsx:38-44 | an upload creates one entry per file in arrival order, with the given id, the file's name, its derived speaker and status `uploaded` |
| `Roster.WithoutId` | src/App.tsx:118-124 | removal keeps exactly the entries whose id differs from the removed one |
| `Roster.WithoutIdAppend` | src/App.tsx:118-124 | removal distributes over concatenation, so kept entries stay in their original relative order |
| `Roster.WithoutAbsentId` | src/App.tsx:118-124 | removing an id that no entry carries leaves the collection unchanged |
| `Roster.WithoutIdIdempotent` | src/App.tsx:118-124 | removing the same id twice is the same as removing it once |
| `Roster.Speakers` | src/App.tsx:74 | the speaker set holds the speaker of every file and nothing else |
| `Roster.TwoSpeakersIff` | src/App.tsx:74-75 | the speaker set has at least two elements exactly when two files carry different labels |
| `Roster.TrainTrace` | src/App.tsx:63-81 | a training run assigns one or two statuses; it shows `training` first exactly when there are at least two files, ends `trained` or `error`, and ends `trained` only with at least two files |
| `Roster.NamesDiffer` | src/App.tsx:74-75 | two file names yielding different labels takes at least two files |
| `Roster.TrainTraceByNames` | src/App.tsx:63-81 | for files that carry their derived labels, training ends `trained` exactly when two of the names yield different labels |
| `Roster.TrainTraceOutcome` | src/App.tsx:63-81 | fewer than two files give just `error`; otherwise `training` comes first, and the run ends `trained` exactly when two files have different speakers, `error` otherwise |
| `Roster.TrainTwoFiles` | src/App.tsx:63-81 | two uploaded files go `training` then `trained` exactly when their names yield different speakers, else `training` then `error` |
| `Roster.TrainExampleTwoSpeakers` | src/App.tsx:63-81 | enrollment `alice_1.wav`, `bob_1.wav` goes `training` then `trained` |
| `Roster.TrainExampleOneSpeaker` | src/App.tsx:63-81 | enrollment `alice_1.wav`, `alice_2.wav` goes `training` then `error` |
| `Evaluation.DrawsFit` | src/App.tsx:94 | with a non-empty enrollment every drawn index is in range; draws that always keep the true speaker fit any enrollment |
| `Evaluation.FloorIndex` | src/App.tsx:94 | `Math.floor(u * n)` for `0 <= u < 1` is below `n`, or 0 when `n` is 0, so it is an admissible draw |
| `Evaluation.Predict` | src/App.tsx:94 | the prediction fails exactly when the drawn enrollment index is out of range; otherwise it is the true speaker or the speaker of an enrollment file |
| `Evaluation.Evaluate` | src/App.tsx:92-104 | the pass fails exactly when some prediction fails; otherwise it gives one result per test file, in order, carrying the file's name and speaker and the drawn prediction, with `isCorrect` true exactly when the speakers agree |
| `Evaluation.EvaluateCompletesIff` | src/App.tsx:92-104 | for every admissible draw, the pass completes exactly when enrollment is non-empty or every draw keeps the true speaker |
| `Evaluation.EvaluatePredictions` | src/App.tsx:93-102 | every prediction is the true speaker or an enrollment speaker, and a result is correct exactly when it names the test file's own speaker |
| `Evaluation.CorrectCount` | src/App.tsx:373 | the number of correct results never exceeds the number of results |
| `Evaluation.CorrectCountAll` | src/App.tsx:373 | the correct-count equals the number of results exactly when every result is correct |
| `Evaluation.CorrectCountNone` | src/App.tsx:373 | the correct-count is zero exactly when no result is correct |
| `Evaluation.CorrectCountAppend` | src/App.tsx:373 | the correct-counts of two batches add up |
| `Evaluation.AccuracyPercent` | src/App.tsx:323-374 | accuracy is computed only for non-empty results, so it never divides by zero; it lies between 0 and 100, is 100 exactly when all results are correct, and is 0 exactly when none are |
| `Controller.AuthGuard` | src/App.tsx:84 | authentication proceeds exactly when the status label reads "Model Trained Successfully" and a test file exists |
| `Controller.TrainEnabled` | src/App.tsx:276 | the train button is on only with at least two enrollment files and no training running, and is on whenever both hold |
| `Controller.AuthenticateEnabled` | src/App.tsx:295 | the authenticate button is on only when the handler's guard holds, no authentication is running and the label reads "Model Trained Successfully" |
| `Controller.TrainEnabledStartsTraining` | src/App.tsx:276 | the train button is off while training; otherwise it is on exactly when pressing it would pass through `training` |
| `Controller.AuthenticateEnabledMeansGuard` | src/App.tsx:295 | the authenticate button is on exactly when the handler's guard holds and no authentication is running |
| `Controller.Session.constructor` | src/App.tsx:24-29 | initial state: empty collections and results, `not-trained`, `SVM`, not authenticating |
| `Controller.Session.HandleFileUpload` | src/App.tsx:35-51 | a missing file list changes nothing; otherwise the new entries are appended to the chosen collection, and the other collection, the status, the classifier and the results are unchanged |
| `Controller.Session.RemoveFile` | src/App.tsx:118-124 | the chosen collection becomes its id-filter; the other collection and the model status are unchanged |
| `Controller.Session.TrainModel` | src/App.tsx:63-81 | the statuses assigned are the training trace of the enrollment files at call time, and the status ends as the last of them; the run ends `trained` exactly when two enrollment names yield different labels; nothing else changes |
| `Controller.Session.Authenticate` | src/App.tsx:83-108 | outside the guard nothing changes; a completed pass stores the evaluation results and clears the running flag; a pass that throws leaves the flag set and the results empty |
| `Controller.Session.AuthenticateChecked` | src/App.tsx:83-108 | with the guard extended to a non-empty enrollment, the pass never throws and always stores one result per test file |
| `Controller.Session.Reset` | src/App.tsx:110-116 | both collections and the results are empty, the status is `not-trained`, no authentication is running, and the classifier choice is kept |
| `Controller.Session.SelectClassifier` | src/App.tsx:251-255 | the classifier select changes the choice and nothing else |
| `Controller.StaleSession` | src/App.tsx:63-124 | for any two enrollment names with different speakers and distinct ids: after training, adding a test file and removing both enrollment files, the status still reads `trained` with no enrollment file left and no authentication running |
| `Controller.StaleModelScenario` | src/App.tsx:83-124 | on such a session the authenticate button is enabled; authentication with a misprediction draw then throws, and afterwards the button stays disabled |
| `Controller.StaleModelScenarioApplies` | src/App.tsx:83-124 | the names `alice_1.wav` and `bob_1.wav` meet the scenario's precondition |

Every `Session` method also keeps `Valid()`. This invariant says that every
file carries the label derived from its name and status `uploaded`, and that
every stored result is marked correct exactly when its two speakers agree.
`TrainModel` uses it: because every enrollment file is labelled from its name,
the outcome of training depends on the file names alone.

## Left out

- JSX rendering, CSS classes, icons and the drag-and-drop plumbing (`handleDrop`, `handleDragOver`) are not modelled. They are presentation only.
- The timer waits (3000 ms, 2000 ms) and the interleavings they allow are not modelled. Examples are a `reset` during the training wait, which the finishing run then overwrites, or a second click during a wait. Each handler is one atomic step.
- `Math.random` is not modelled. Ids are a parameter, and no uniqueness is assumed: removal drops every entry with the id. The 0.7/0.3 split is replaced by the `Draw` oracle.
- The random confidence value is not modelled, and neither is the `toFixed(1)` formatting. These are floating point. `Evaluation.AccuracyPercent` is the exact rational value, not the rounded text.
- The browser `File` payload, `FileList` and the `accept` filter are not modelled. A file is its name, and a missing list is `None`.
- The `processing`, `processed` and `error` file statuses are never assigned by the code. They exist only as values.
- Controller.Session.SelectClassifier: does not model the select's `disabled` attribute while training. That attribute is a UI guard, and the handler itself does not check it.
- Controller.Session.Authenticate: requires one draw per test file that fits the enrollment size. This is the shape of the random oracle, not a demand the source makes of its callers.
- The `Session` methods require `Valid()`. The constructor establishes this object invariant and every handler keeps it.

## Findings

| source | as written | input that shows it | evidently intended | confidence | as-written member | corrected member |
|---|---|---|---|---|---|---|
| src/App.tsx:94 | `removeFile` never resets `modelStatus`, and `authenticate` checks only the status and the test files. With no enrollment file left, the misprediction branch reads `.speaker` of `enrollmentFiles[0]`, which is `undefined`, and throws. `isAuthenticating` then stays `true`, so the authenticate button stays disabled until reset | enroll `alice_1.wav`, `bob_1.wav` (ids `a`, `b`); train; add test file `alice_2.wav`; remove both enrollment files; authenticate with a draw at or below 0.3 | authentication runs only while an enrollment speaker exists, and every run finishes with one result per test file | not executed; follows from the code as written | `Controller.StaleModelScenario` | `Controller.Session.AuthenticateChecked` |
