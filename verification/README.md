# AI Image Classifier Playground: a Dafny model

This project models the core of the AI Image Classifier Playground. The playground asks
a vision model whether each image of a test set is AI-generated. It has four parts:

- **The browser experiment runner** (`BrowserImageClassifier.runExperiment`). It
  classifies images one at a time and turns each free-text answer into a Yes, No or
  Unsure verdict. A recoverable failure is recorded as an Unsure result. An
  authentication failure aborts the whole run. At the end the runner computes the
  counts, the confusion matrix and the accuracy.
- **The command-line batch script** (`generate_predictions.ts`). It checks its
  arguments, classifies every image file of a folder, never aborts, and tallies the
  verdicts.
- **The offline metrics** (`visualize_predictions.py`). These are confusion
  matrices and prompt accuracy over prediction files, plus recall per generation
  method.
- **The browser page's state** (`App.tsx`). This covers the fixed list of 100 test
  images, the filter chips, image selection, the prompt tabs and the API-key
  dialog.

The vision model is not part of the model. Each call is an entry of an `answers`
sequence: `Success(text)` is the answer as `classifyImage` returns it, and
`Failure(message)` is the message of the exception it threw. Side effects are
modelled as an event trace, built in `Traces`:

- a progress callback or console line, `Progress(i + 1, n)`;
- the call for image `i`, `Call(i)`;
- the pause between calls, `Delay`.

Accuracies and recalls are exact fractions (`Ratio(num, den)`).

Modules:

- `Common`: `Option`, `Ratio` and `Range`.
- `Text`: ASCII `trim`, `toLowerCase`, `toUpperCase`, `startsWith`, `includes`, and
  decimal rendering.
- `Verdicts`: the normaliser. The command-line script carries a verbatim copy of it,
  so both runners use the one definition here.
- `Traces`: the oracle's outcomes, the events and the pacing rules.
- `BrowserClassifier`: the records, the fatal-error test, the run and its summary.
- `BrowserProperties`: reconciliation, fail-fast and pacing lemmas, and the worked
  cases.
- `GeneratePredictions`: argument checks, the batch loop and the summary.
- `VisualizePredictions`: confusion matrices, prompt accuracy and recall over time.
- `Policies`: how the three consumers treat the same answers.
- `Manifest`: the page's test-image list.
- `App`: the page's state machine and its invariant.

The browser run's accuracy follows the code. A guard on the decided count would
give 0 when every result is Unsure. The code guards only the empty run
(src/util/browser_classifier.ts:190-192), so a non-empty all-Unsure run divides 0
by 0, which is NaN in JavaScript. The model keeps this as `Ratio(0, 0)`: see
`BrowserProperties.AllUnsureRun`.

The docstring of `calculate_confusion_matrix` names a different layout for each
ground truth. The code always returns `[[tn, fp], [fn, tp]]`, and the model follows
the code.

## Model

| member | source | states |
|---|---|---|
| Verdicts.NormalizeMeaning | src/util/browser_classifier.ts:42-52 | The verdict is Yes exactly when the answer, after leading whitespace, begins with "yes" in any letter case. It is No exactly when it does not begin with "yes" but begins with "no". It is Unsure exactly when it begins with neither. |
| Verdicts.NormalizePrediction | src/util/browser_classifier.ts:42-52 | Trim, lower-case, then test "yes" and then "no" as prefixes. The function has no contract of its own; NormalizeMeaning states its meaning. |
| Verdicts.TrimmedPrefix | src/util/browser_classifier.ts:43-47 | Testing a prefix word on the trimmed, lower-cased answer is the same as the answer opening with that word after its leading whitespace. |
| Verdicts.NormalizeIgnoresCase | src/util/browser_classifier.ts:43 | Upper-casing the answer never changes its verdict. |
| Verdicts.NormalizeIgnoresTrim | scripts/generate_predictions.ts:29-39 | Trim is idempotent, so an answer that was trimmed before (as `classifyImage` does) gets the same verdict from the command-line copy of the normaliser. |
| Verdicts.OpensWithYes | src/util/browser_classifier.ts:45-46 | Any answer starting with "Yes" is Yes, whatever follows. |
| Verdicts.OtherInitialIsUnsure | src/util/browser_classifier.ts:45-51 | An answer whose first character is a letter other than y or n is Unsure. |
| Verdicts.NormalizeNoExample | src/util/browser_classifier.ts:43-48 | "  NO." reads as No: surrounding whitespace and case are ignored. |
| Verdicts.NormalizeYesExample | src/util/browser_classifier.ts:45-46 | "Yes, I think so" reads as Yes. |
| Verdicts.NormalizeNotSureExample | src/util/browser_classifier.ts:47-48 | "Not sure" reads as No, because the test is a bare prefix test. |
| Verdicts.NormalizeNopeExample | src/util/browser_classifier.ts:47-48 | "nope" reads as No. |
| Verdicts.NormalizeLateNoExample | src/util/browser_classifier.ts:45-51 | "I think no" is Unsure: only the start of the answer matters. |
| Verdicts.NormalizeUnsureExample | src/util/browser_classifier.ts:49-51 | "I'm not sure" is Unsure. |
| Verdicts.NormalizeEmptyExample | src/util/browser_classifier.ts:98 | The empty answer (the fallback when the model returns no content) is Unsure. |
| Text.TrimShape | src/util/browser_classifier.ts:43 | Trim returns a slice of its input with only whitespace around it, and the result neither starts nor ends with whitespace. |
| Text.Contains | src/util/browser_classifier.ts:155-159 | `includes` holds exactly when the substring occurs at some position. |
| Text.DecimalString | src/App.tsx:108 | The rendering of a number is a non-empty string of digits that denotes the number, with no leading zero. |
| Text.DecimalInjective | src/App.tsx:108 | Different numbers render as different strings. |
| Traces.StepEventsCounts | src/util/browser_classifier.ts:124-150 | One image's events hold exactly one call for it and one announcement of its one-based position. They hold a pause exactly when the call succeeded and it was not the last image. |
| Traces.AppendPaced | src/util/browser_classifier.ts:147-150 | The pacing rules survive concatenation. Every call follows its announcement, every pause follows a successful non-final call, and every such call is followed by a pause. |
| Traces.StepsShape | src/util/browser_classifier.ts:121-150 | Processing images lo to hi calls them in order lo, ..., hi-1, announces lo+1, ..., hi, and keeps the pacing rules. |
| Traces.AllSuccessDelays | src/util/browser_classifier.ts:147-150 | When every call succeeds, processing images lo to n-1 pauses n-1-lo times. |
| BrowserClassifier.IsCriticalError | src/util/browser_classifier.ts:154-159 | The catch block's test: the message contains one of five fixed, case-sensitive substrings. The predicate has no contract of its own; CriticalMeansMarker states it over the marker list. |
| BrowserClassifier.CriticalMeansMarker | src/util/browser_classifier.ts:154-159 | A message is fatal exactly when it contains one of the markers "Incorrect API key", "invalid_api_key", "authentication", "401", "unauthorized". |
| BrowserClassifier.SuccessRecord | src/util/browser_classifier.ts:128-145 | The record after a successful call is correct exactly when its verdict is decided and says AI-generated for an AI image and real for a real one. |
| BrowserClassifier.ErrorRecord | src/util/browser_classifier.ts:167-175 | The record after a recoverable failure: Unsure, an empty raw text, never correct, carrying the message. The function has no contract of its own; WalkRecords states these fields. |
| BrowserClassifier.Walk | src/util/browser_classifier.ts:121-177 | The loop over the images from index i on. The function has no contract of its own; WalkStops, WalkRecords and WalkEvents state when it stops, what it records and what it emits. |
| BrowserClassifier.WalkStops | src/util/browser_classifier.ts:151-164 | The loop finishes exactly when no failure from the current image on carries a fatal marker. Otherwise it aborts at the first such failure, with that failure's message. |
| BrowserClassifier.WalkRecords | src/util/browser_classifier.ts:121-176 | A finished loop holds one record per image, in order. Each record copies its image's id, file name and ground truth, and sets `correct` as Yes-and-AI or No-and-real. A success stores the normalised verdict and the raw text. A failure stores Unsure, an empty raw text and the error message. |
| BrowserClassifier.WalkEvents | src/util/browser_classifier.ts:121-150 | A finished loop emits the event blocks of every image. An aborted one emits them up to and including the failing image and nothing after. |
| BrowserClassifier.OutcomeClassesPartition | src/util/browser_classifier.ts:180-182 | Every record is exactly one of correct, incorrect and unsure. |
| BrowserClassifier.Count | src/util/browser_classifier.ts:180-188 | A filter count never exceeds the number of records. |
| BrowserClassifier.Summarize | src/util/browser_classifier.ts:179-208 | The summary keeps the records and counts them all. Correct, incorrect and unsure add up to the total. The accuracy is 0 for no records and correct over (total - unsure) otherwise. |
| BrowserClassifier.RunExperiment | src/util/browser_classifier.ts:112-209 | The run completes exactly when no answer is a fatal failure. It then summarises records that describe every image. Otherwise it throws the first fatal failure's message at that index. Either way the events are those of the images processed. |
| BrowserProperties.CellsReconcile | src/util/browser_classifier.ts:180-188 | On records whose `correct` flag is consistent, the correct ones are the true positives and true negatives, and the incorrect ones are the false positives and false negatives. |
| BrowserProperties.CompletedRecordsConsistent | src/util/browser_classifier.ts:134-136 | Every record of a completed run has a consistent `correct` flag. |
| BrowserProperties.CountsReconcile | src/util/browser_classifier.ts:180-199 | In a completed run the total is the number of images, correct + incorrect + unsure is the total, and the four matrix cells plus unsure add up to the number of images. |
| BrowserProperties.AccuracyOfRun | src/util/browser_classifier.ts:190-192 | The accuracy of a non-empty completed run is the matrix diagonal over the matrix total. It is 0 for an empty run and never exceeds 1. |
| BrowserProperties.UnsureImages | src/util/browser_classifier.ts:128-175 | An image is Unsure exactly when its call failed or its answer opens with neither "yes" nor "no". |
| BrowserProperties.AllUnsureRun | src/util/browser_classifier.ts:190-192 | A non-empty run of recoverable failures completes with every image Unsure, an empty matrix and the accuracy 0/0. |
| BrowserProperties.AllUndecided | src/util/browser_classifier.ts:182-188 | On all-Unsure records only the unsure filter matches. |
| BrowserProperties.CallsStopAtFatal | src/util/browser_classifier.ts:121-164 | A completed run calls every image in order. An aborted run calls exactly images 0 to the failing index, and no call goes beyond it. The announcements are 1 up to the number of images processed. |
| BrowserProperties.RunPaced | src/util/browser_classifier.ts:147-150 | Every run, completed or aborted, keeps the pacing rules. |
| BrowserProperties.SuccessfulRunDelays | src/util/browser_classifier.ts:147-150 | A run of n > 0 successful calls completes and pauses n-1 times. |
| BrowserProperties.EmptyRun | src/util/browser_classifier.ts:190-192 | The empty run completes with everything 0 and no events. |
| BrowserProperties.ShortMessageRecoverable | src/util/browser_classifier.ts:154-159 | A message of at most twelve characters with no '4' that is not "unauthorized" itself matches none of the fatal markers. |
| BrowserProperties.CapitalisedUnauthorizedIsRecoverable | src/util/browser_classifier.ts:154-159 | The fatal test is case-sensitive: "Unauthorized" is not fatal. |
| BrowserProperties.TimeoutIsRecoverable | src/util/browser_classifier.ts:154-175 | "timeout" is not fatal, so it becomes an Unsure record. |
| BrowserProperties.StatusCodeIsFatal | src/util/browser_classifier.ts:158 | Any message ending in "401" is fatal. |
| BrowserProperties.ThreeImageExample | src/util/browser_classifier.ts:121-208 | The worked case has three images: (AI, "Yes"), (real, "Yes") and (AI, timeout). It gives 1 correct, 1 incorrect, 1 unsure, accuracy 1/2, one true and one false positive, and exactly two pauses. |
| BrowserProperties.FatalOnSecondOfFive | src/util/browser_classifier.ts:151-164 | A 401 failure on image 2 of 5 aborts the run with that message, after calls for images 1 and 2 only. |
| GeneratePredictions.BasenameShape | scripts/generate_predictions.ts:126 | The base name is a separator-free suffix of the path, and it is the whole path or starts right after a '/'. |
| GeneratePredictions.BasenameOfJoin | scripts/generate_predictions.ts:59 | The base name of a file joined onto a folder is that file's name. |
| GeneratePredictions.PredictionFor | scripts/generate_predictions.ts:130-157 | The prediction the loop pushes for one file. The function has no contract of its own; PredictFrom states what each prediction holds. |
| GeneratePredictions.PredictFrom | scripts/generate_predictions.ts:124-158 | The loop yields one prediction per file, in order. A success stores the normalised verdict and the raw text. A failure stores Unsure with "ERROR: " + message. The loop never stops early and emits every file's events. |
| GeneratePredictions.VerdictsPartition | scripts/generate_predictions.ts:161-166 | Yes, No and Unsure counts add up to the number of predictions. |
| GeneratePredictions.Summarize | scripts/generate_predictions.ts:161-166 | The total is the number of predictions and equals aiGenerated + real + unsure. |
| GeneratePredictions.RunBatch | scripts/generate_predictions.ts:121-166 | The batch result holds one correctly recorded prediction per file, its summary, and the events of every file. |
| GeneratePredictions.Validate | scripts/generate_predictions.ts:62-110 | An invocation is accepted exactly when all six checks pass. A rejection names the first check that fails, in the script's order. An accepted invocation has three arguments and takes its fields from them. The delay text is the fourth argument when given and non-empty, and "1000" otherwise. |
| GeneratePredictions.Main | scripts/generate_predictions.ts:62-158 | The script stops exactly when validation rejects, with the same error. Otherwise it runs with the configuration validation accepted and classifies every image file, of which there is at least one. Each prediction records its file and answer, the summary tallies the predictions, and the events are the per-file steps, with calls in order. |
| VisualizePredictions.Add | scripts/visualize_predictions.py:79 | Matrix addition is cell-wise and adds the totals. |
| VisualizePredictions.CalculateConfusionMatrix | scripts/visualize_predictions.py:27-57 | The cells add up to the number of predictions. For ground truth "Yes", tp counts the "Yes" predictions and fn the rest. For any other ground truth, tn counts the "No" predictions and fp the rest. |
| VisualizePredictions.PromptConfusion | scripts/visualize_predictions.py:74-82 | A prompt's matrix combines its AI folder (tp/fn) with its real folder (tn/fp). Its accuracy is ("Yes" on AI + "No" on real) over all predictions, and it is at most 1. |
| VisualizePredictions.FilterByPrefix | scripts/visualize_predictions.py:124 | The method filter keeps at most all the rows. FilterByPrefixMembers, FilterByPrefixAppend and FilterByPrefixOne state which rows it keeps, in what order and how many times. |
| VisualizePredictions.FilterByPrefixMembers | scripts/visualize_predictions.py:124 | A row is kept exactly when it is one of the rows and its file name starts with the prefix. |
| VisualizePredictions.FilterByPrefixAppend | scripts/visualize_predictions.py:124 | The filter of a concatenation is the concatenation of the filters, so order and copies are kept. |
| VisualizePredictions.FilterByPrefixOne | scripts/visualize_predictions.py:124 | A single row is kept exactly when its file name starts with the prefix. Together with FilterByPrefixAppend this fixes the filter on every input. |
| VisualizePredictions.MethodRecall | scripts/visualize_predictions.py:122-130 | Recall is the "Yes" count over the method's rows. It is 0 when the method has no rows, and it is at most 1. |
| VisualizePredictions.RecallOverTime | scripts/visualize_predictions.py:113-130 | Entry k is the recall of method k in the chronological order gan, diffusion1-4, and each lies between 0 and 1. No "Yes" row is counted toward two recalls: the numerators plus the "Yes" rows of no method are all the "Yes" rows. |
| VisualizePredictions.MethodsDisjoint | scripts/visualize_predictions.py:113-124 | No file name starts with two different method names, so no image counts toward two recalls. |
| VisualizePredictions.AtMostOneMethod | scripts/visualize_predictions.py:113-124 | Every file name starts with at most one of the five method names. |
| VisualizePredictions.RowsSplitByMethod | scripts/visualize_predictions.py:119-129 | The rows of the five methods plus the rows of no method are all the rows, so no row counts toward two recall denominators. |
| VisualizePredictions.YesSplitByMethod | scripts/visualize_predictions.py:119-129 | The "Yes" rows of the five methods plus the "Yes" rows of no method are all the "Yes" rows. |
| VisualizePredictions.RowsOfCountYes | scripts/generate_predictions.ts:161-166 | A prediction file read back by the recall plot has as many "Yes" rows as the script counted Yes verdicts. |
| Policies.AiFolderUnsureIsMiss | scripts/visualize_predictions.py:44-48 | On AI images, the offline tp is the browser's true positives. The offline fn is the browser's false negatives plus its Unsure results. |
| Policies.RealFolderUnsureIsFalseAlarm | scripts/visualize_predictions.py:49-53 | On real images, the offline tn is the browser's true negatives. The offline fp is the browser's false positives plus its Unsure results. |
| Policies.AccuracyPolicies | scripts/visualize_predictions.py:74-82 | The offline accuracy and the browser accuracy share their numerator. The offline denominator exceeds the browser's by exactly the Unsure count. |
| Policies.OfflineAccuracyNoHigher | scripts/visualize_predictions.py:74-82 | The offline accuracy never exceeds the browser's: both have the numerator "Yes" on AI plus "No" on real, and num / (all records) <= num / (decided records), compared by cross-multiplying. |
| Policies.TalliesAgree | scripts/generate_predictions.ts:161-166 | With the same verdicts, the script's Yes count is the browser's TP + FP, its No count is TN + FN, and its Unsure count is the browser's. |
| Policies.CliAgreesWithCompletedRun | scripts/generate_predictions.ts:124-166 | On answers where the browser run completes, the script reaches the same verdict per image, regroups the matrix in its summary, and emits the same events. |
| Policies.CliSurvivesFatalFailure | scripts/generate_predictions.ts:147-157 | Where the browser run aborts, the script records that image as Unsure with "ERROR: " + message and still calls every file. |
| Manifest.GroupsEntry | src/App.tsx:106-113 | Entry p of the flattened groups is image p % 10 + 1 of kind p / 10. |
| Manifest.TestImages | src/App.tsx:104-130 | The list of test images. The function has no contract of its own; ManifestEntry, ManifestHalves, ManifestNames and ManifestIdsDistinct state its shape. |
| Manifest.ManifestEntry | src/App.tsx:104-130 | The list has 100 images. Entry p is image p % 10 + 1 of kind p / 10, and it is AI-generated exactly for p < 50. |
| Manifest.ManifestHalves | src/App.tsx:104-130 | The first 50 images are AI-generated and the last 50 are real. |
| Manifest.ManifestNames | src/App.tsx:107-128 | Every file name is id + ".jpg", and every URL puts it under /images/ai or /images/real according to its ground truth. |
| Manifest.ManifestIdsDistinct | src/App.tsx:104-130 | No two test images share an id. |
| App.FilterMembers | src/App.tsx:132-135 | An image is shown exactly when it is in the list and the filter keeps it. |
| App.FilterAppend | src/App.tsx:132-135 | Filtering preserves order: filtering a concatenation concatenates the filtered parts. |
| App.ManifestFilter | src/App.tsx:132-135 | "all" shows the whole list, "ai" shows its first 50 images and "real" its last 50. |
| App.ShownCount | src/App.tsx:132-135 | Every filter shows at least one image: 100, 50 or 50. |
| App.ShownIds | src/App.tsx:162-164 | Select-all selects distinct ids, all of them manifest ids. |
| App.FilteredImages | src/App.tsx:132-135 | The shown list is never longer than the full list. FilterMembers and FilterAppend state which images it keeps and that it keeps their order. |
| App.RemoveMembers | src/App.tsx:149 | Removal drops every copy of the id and keeps every other id. |
| App.ToggleMembership | src/App.tsx:146-152 | Clicking an image flips that id's membership and leaves every other id's membership alone. |
| App.ToggleAppends | src/App.tsx:150 | An unselected id is appended at the end, after the old selection. |
| App.ToggleTwice | src/App.tsx:146-152 | Clicking an unselected image twice restores the selection exactly. |
| App.ToggleKeepsDistinct | src/App.tsx:146-152 | Clicking keeps the selection free of duplicates. |
| App.Toggle | src/App.tsx:146-152 | The click handler's update of the selection. The function has no contract of its own; ToggleMembership, ToggleAppends, ToggleTwice and ToggleKeepsDistinct state its effect. |
| App.Enabled | src/App.tsx:137-184 | Which actions reach their handler: nothing behind the open dialog, the dialog's controls only while it is open, only shown images, only a tab other than the selected one, and Save only for a non-blank key. StepKeepsInvariant and ReselectTabKeepsPrompt rely on it. |
| App.Step | src/App.tsx:137-184 | The handlers. The function has no contract of its own; StepKeepsInvariant, TabChange, SelectAllAndNone and DialogOutcomes state their effects. |
| App.InitialInvariant | src/App.tsx:95-101 | The first render satisfies the invariant. |
| App.StepKeepsInvariant | src/App.tsx:137-184 | Every enabled action keeps the invariant. A closed dialog holds no typed key, a saved key is never blank, the selection has distinct manifest ids, and the tab is 0, 1 or 2. |
| App.ReplayKeepsInvariant | src/App.tsx:137-184 | Any sequence of actions keeps the invariant, since disabled controls ignore their clicks. |
| App.ReachableInvariant | src/App.tsx:94-184 | Every state reachable from the first render satisfies the invariant. |
| App.TabChange | src/App.tsx:137-144 | Tab 0 loads the basic prompt, tab 1 the detailed prompt, and any other tab keeps the text. Nothing else changes. |
| App.ReselectTabKeepsPrompt | src/App.tsx:221-229 | Clicking the tab that is already selected changes nothing, so an edited prompt stays on the page. |
| App.SelectAllAndNone | src/App.tsx:162-168 | Select-all selects the shown ids in order. Deselect-all clears the selection. Neither touches anything else. |
| App.RunAfterSelection | src/App.tsx:276-278 | With a saved key, Run is enabled after select-all and disabled after deselect-all. |
| App.RunEnabled | src/App.tsx:276-278 | "Run Experiment" is enabled exactly when something is selected and a key is saved. The predicate has no contract of its own; RunAfterSelection states its behaviour after select-all and deselect-all. |
| App.FilterKeepsSelection | src/App.tsx:293-306 | A filter chip changes what is shown but keeps the selection, including hidden ids. |
| App.DialogOutcomes | src/App.tsx:170-184 | Save stores the typed key and Cancel keeps the old one. Both close the dialog, clear the typed key and leave the rest of the page alone. |
| App.BlankKeyNotSaved | src/App.tsx:481-485 | Clicking Save with a blank typed key changes nothing. |
| App.SaveEnabled | src/App.tsx:481-485 | "Save API Key" is enabled exactly when the typed key is not blank after trimming. The predicate has no contract of its own; BlankKeyNotSaved and StepKeepsInvariant state its effect. |
| App.DialogRoundTrips | src/App.tsx:170-184 | Opening the dialog shows the saved key. Cancelling right away, or saving the shown key unchanged, returns exactly the previous state. |

## Left out

- The transport is not modelled: `classifyImage`, `urlToBase64`, and the command-line `ImageClassifier` with its `imageToBase64`. Each call is an entry of the `answers` sequence. `src/util/classifier.ts` is not part of this model.
- The trim of the model's reply (`content?.trim() || ''`) is left out. The `Success` text is taken as `classifyImage` returns it, and `Verdicts.NormalizeIgnoresTrim` shows that trimming twice reads the same.
- The pause between calls is an event, not a timer. `delayMs`, `parseInt` of the delay argument and `setTimeout` are not modelled. `Config.delayText` keeps the argument string.
- Timestamps (`new Date().toISOString()`) are left out. They come from the clock.
- `error instanceof Error ? error.message : String(error)` is left out: a failure carries its message string directly.
- A progress callback that throws is left out. The callback is an event in the trace.
- Traces.StepEvents assumes a progress callback is supplied. `onProgress` is optional (src/util/browser_classifier.ts:116) and is called only when given (:124). Without one the `Progress` events are absent and every other event is the same. The caller in `src/App.tsx` is a stub.
- Floating-point accuracy and recall are left out. They are exact fractions, so 0/0 stays `Ratio(0, 0)` rather than NaN.
- `trim`, `toLowerCase` and `toUpperCase` are modelled over ASCII only. JavaScript's Unicode whitespace and case mappings are left out.
- File-system and console work is left out: `getImageFiles` (directory listing, extension filter), `fs.existsSync`, `fs.statSync`, `mkdirSync`, JSON writing and logging. The folder checks and the listed files are fields of `Environment`.
- GeneratePredictions.Basename models only the '/' separator of `path.basename`. It does not model Windows separators or the stripping of a trailing '/'.
- In `visualize_predictions.py`, `load_predictions`, the JSON reading and all plotting are left out, as is `main`. The metrics take the `prediction` and `filename` fields as sequences.
- `scripts/visualize_data.py` is not part of this model.
- React rendering, styling, the theme and the `handleRunExperiment` stub are left out. The stub only logs, so only the Run button's enable condition is modelled.
- The prompt texts of `src/util/prompts.ts` are opaque parameters (`App.Prompts`).
- App.Enabled treats the page behind the open API-key dialog as unreachable, because the dialog is modal. It also limits the tab change to the three tabs the page renders, and to a tab other than the selected one, because the tab bar reports a change only when an unselected tab is clicked. That behaviour belongs to the UI library, which is not part of this model.
- `classifyWithBothPrompts` is left out. It runs two calls concurrently with `Promise.all`, and no runner modelled here uses it.
