# Batch classification pipeline — a Dafny model

This project models the batch classification pipeline of a desktop tool that
sorts photographs of deer (roe deer, musk deer, red deer) with a YOLO
classification model:

- `backend/inference.py` — `process_images_classification`, the stop check
  of `run_inference`, and `process_archive_classification` (module
  `Inference`, file `inference.dfy`);
- `gui/tabs/classification_tab.py` — the `ClassificationWorker` thread that
  dispatches each selected file, merges the per-file counts and emits
  progress, completion and error signals, and the tab's handling of a
  finished run: save the history record, pick the newest history file,
  export it (module `ClassificationTab`, file `classification_tab.dfy`);
- `gui/utils/file_operations.py` — the history store under `metadata/`, the
  Excel export under `reports/`, the timestamped names, and
  `clear_directory` (module `FileOperations`, file `file_operations.dfy`);
- `gui/tabs/classification_dialog.py` — the dialog that shows Russian button
  names and stores the English class (module `ClassificationDialog`, file
  `classification_dialog.dfy`).

`base.dfy` (module `Base`) holds the shared pieces: Python's
exception-or-value results, `str.endswith`, `str.join` and Python's
code-point ordering of strings (`LexLess`, proved a strict total order).

How the model is built:

- The vision model and image decoding are an oracle `Model.predict` from a
  path to `DecodeFail`, `InferFail` or the top-1 class indices of its
  results; the zip reader is an oracle from an archive path to its members
  (or `None` for a file that is not a zip archive).
- The `threading.Event` shared by the tab and the worker is a `Flag`: it
  never clears once set, and every `is_set()` check takes one entry of a
  schedule of stop requests. This lets the proofs cover every moment at
  which the user may press "Отмена".
- The worker is a class whose `Run` method runs the same loop as
  `run()`, proved equal to the recursive specification `RunFrom`, which
  dispatches each input through `Kind` and `ProcessInput`. The signals Qt
  would deliver are appended to the field `emitted`. `ExpectedRun` states,
  without the stop event, what a run nobody stops classifies; the
  `Quiet…` lemmas connect it to `RunFrom`.
- The two store directories are maps from file names to files (JSON text,
  workbook, or unparsable bytes) or sub-directories. The clock is a
  `DateTime` parameter.
- Exceptions are `Error` values (inference side) and `IoError` values
  (file side) instead of their message strings.

Behaviour of the code that a user of the tool would not expect from its
interface (a cancel button, a history of runs, one report per run). The
model follows the code in each case:

- A stop observed by `process_images_classification` at the start of an
  image raises `InterruptedError`. The worker catches it and emits
  `error_occurred`, so a cancelled run can surface as an error. A stop
  observed inside `run_inference` is swallowed for that image. If a later
  image of the same call follows, the check before it raises
  `InterruptedError` (`Inference.AbsorbedStopRaisesAtNextImage`), and the
  worker emits `error_occurred`. If that image is the last one of the call,
  the call returns normally without its entry
  (`Inference.AbsorbedStopOnLastImage`). The worker then merges the result
  and emits `progress_changed(i + 1)`. Its check before the next input
  breaks, or, after the last input, its check at
  gui/tabs/classification_tab.py:48 finds the event set, so no
  `classification_done` is emitted (`ClassificationTab.RunOutcome`).
- The `image` stored for each classification is the full path, not the
  base name.
- All archives of one run are extracted into one temporary directory,
  and each archive classifies every image found there. A second archive in
  the same run therefore classifies the first archive's images again
  (`Inference.ArchiveRecollectsEarlierImages`), and they are counted twice.
  The directory is never deleted.
- The history listing keeps every regular file, whatever its extension.
  The tab exports whichever name sorts last, and that may not be the
  record it just saved. `ClassificationTab.DoneExportsNewestRecord` states
  the condition under which it is the new record.
- Record names carry only the second. A second save in the same second
  replaces the first (`FileOperations.SaveTwiceSameSecond`).
- The report has one row per image, with its translated labels joined by
  ", ".

## Model

| member | source | states |
|---|---|---|
| `Inference.TopLabels` | backend/inference.py:66-72 | succeeds exactly when every top-1 index of a result with probabilities is inside the names table; the labels are then the names of those indices, one per such result, in order; otherwise it raises `UnknownClass` for the first index outside the table |
| `Inference.TopLabelsSnoc` | backend/inference.py:66-72 | reading one more result keeps an earlier error, adds nothing for a result without probabilities, and otherwise adds that index's name or raises `UnknownClass` for an index outside the table |
| `Inference.ReadResults` | backend/inference.py:66-72 | the loop over a prediction's results yields exactly `TopLabels` and, when it succeeds, adds one count per label |
| `Inference.TallyTotal` | backend/inference.py:71 | counting labels adds exactly one to the total per label, keeps old keys, adds each label as a key with count at least 1, and never lowers a count |
| `Inference.TallyStep` | backend/inference.py:71 | counting one more label adds one to the total, adds the label as a key with a count of at least 1, and lowers no count |
| `Inference.LabelTotalAppend` | backend/inference.py:74 | the number of class entries of concatenated classification lists is the sum of the two |
| `Inference.ClassifyKeepsConsistency` | backend/inference.py:41-76 | the returned counts add up to the number of class entries, and every counted label is a model name with count at least 1 |
| `Inference.ClassifyKeepsOrder` | backend/inference.py:45-74 | earlier classifications are kept, and the new ones are for a subsequence of the given paths, in order |
| `Inference.ClassifyWithoutStop` | backend/inference.py:41-76 | with no stop request the result is exactly one entry per image that opens and predicts, in order, counted on top of the accumulated counts, or the first unknown-class error |
| `Inference.ClassifyFlagSticky` | backend/inference.py:45-47 | the stop event stays set once set, and `Interrupted` is raised only when the event is set; conversely, with images to classify, an event set at the first check raises `Interrupted` before any image is read |
| `Inference.ClassifyKeepsQuiet` | backend/inference.py:45-62 | if nobody asks to stop, the event is still clear after the loop |
| `Inference.PollKeepsQuiet` | backend/inference.py:46 | one `is_set()` check with no pending request leaves the event clear |
| `Inference.AbsorbedStopRaisesAtNextImage` | backend/inference.py:45-62 | a stop seen inside `run_inference` only skips that image; the check before the next image raises `Interrupted` |
| `Inference.AbsorbedStopOnLastImage` | backend/inference.py:45-62 | the same stop seen on the last image returns normally without that image's entry |
| `Inference.ProcessImagesClassification` | backend/inference.py:41-76 | the loop computes `ClassifyFrom`, its result is consistent, its images are a subsequence of the paths, and there are no more entries than paths |
| `Inference.ImagesLength` | backend/inference.py:74 | there is one image path per classification entry |
| `Inference.AddFilesContents` | backend/inference.py:116-117 | after extraction the directory holds exactly the old files and the members, and the old files keep their place |
| `Inference.AddFilesIdempotent` | backend/inference.py:116-117 | extracting members that are already there changes nothing |
| `Inference.ImagePathsExact` | backend/inference.py:119-123 | the collected paths are exactly the files ending in `.png`, `.jpg` or `.jpeg`, joined to the directory |
| `Inference.CollectImagePaths` | backend/inference.py:119-123 | the walk loop returns `ImagePaths`, the image files of the directory and nothing else |
| `Inference.ArchiveRecollectsEarlierImages` | backend/inference.py:115-125 | an image left in the shared directory by an earlier archive is collected again for a later archive |
| `Inference.ClassifyArchive` | backend/inference.py:115-125 | a file that is not a zip archive raises `BadArchive` and leaves the directory as it was; otherwise the directory afterwards holds exactly the old files and the members, old files first, and the result is that of classifying every image file of the directory |
| `Inference.ArchiveResolutionStable` | backend/inference.py:115-123 | extracting the same archive again into its directory leaves the file list unchanged |
| `Inference.ProcessArchiveClassification` | backend/inference.py:115-125 | a bad archive raises `BadArchive`; otherwise the result is consistent and every entry is an image file of the extraction directory |
| `Inference.ImagesMembers` | backend/inference.py:64-74 | every entry's image is among the listed images |
| `FileOperations.EnsureDirectoriesExist` | gui/utils/file_operations.py:11-15 | afterwards both directories exist, an existing one is untouched, a missing one is created empty |
| `FileOperations.LoadHistoryFiles` | gui/utils/file_operations.py:20-22 | creates the directories, then lists exactly the regular files of `metadata/` |
| `FileOperations.LoadReportFiles` | gui/utils/file_operations.py:24-26 | creates the directories, then lists exactly the regular files of `reports/` |
| `FileOperations.ListingIdempotent` | gui/utils/file_operations.py:20-26 | listing again changes nothing, and both listings leave the same file system |
| `FileOperations.Digits` | gui/utils/file_operations.py:18 | a zero-padded field has exactly its width and only decimal digits |
| `FileOperations.DigitsOrder` | gui/utils/file_operations.py:18 | zero-padded numbers of one width compare as strings exactly as they compare as numbers |
| `FileOperations.GetTimestamp` | gui/utils/file_operations.py:17-18 | the timestamp has 15 characters: digits with `_` at position 8 |
| `FileOperations.ClockOrder` | gui/utils/file_operations.py:18 | the `%H%M%S` part of two timestamps compares as strings as the times of day compare, and is equal exactly for the same hour, minute and second |
| `FileOperations.DateOrder` | gui/utils/file_operations.py:18 | the `%Y%m%d` part compares as strings as the dates compare, ties being broken by what follows it, and is equal exactly for the same date |
| `FileOperations.TimestampOrder` | gui/utils/file_operations.py:17-18 | timestamps compare as strings exactly as the instants compare in time, and equal timestamps mean the same second |
| `FileOperations.RecordName` | gui/utils/file_operations.py:39-40 | the record name is `classification_results_`, the 15-character timestamp of the save, then `.json` |
| `FileOperations.RecordNameOrder` | gui/utils/file_operations.py:39-40 | record names sort as their instants do, and differ exactly when the instants differ |
| `FileOperations.LastIndexOf` | gui/utils/file_operations.py:64 | the index is the last occurrence of the character, or -1 if it is absent |
| `FileOperations.SplitExtRoot` | gui/utils/file_operations.py:64 | the root of `os.path.splitext` is a prefix of the path; it is shorter exactly when the path has an extension, and it then ends just before the extension's dot: a dot with no `.` or `/` after it and a character other than `.` or `/` before it in the last path component |
| `FileOperations.ExtStartIsLastDot` | gui/utils/file_operations.py:64 | an extension's dot is the last dot of the path, after the last `/`, and follows some non-dot character of the last component |
| `FileOperations.ReportName` | gui/utils/file_operations.py:63-64 | the report name is the root of the record name, `_`, the 15-character timestamp of the export, then `.xlsx` |
| `FileOperations.ExtStartAfterStem` | gui/utils/file_operations.py:64 | a dot between a stem with no `/` that does not start with a dot and an extension with no dot or `/` is where the extension starts |
| `FileOperations.RecordStemHasNoSlash` | gui/utils/file_operations.py:39-40 | a record name has no `/` before its `.json` |
| `FileOperations.RecordNameExtStart` | gui/utils/file_operations.py:40 | the `.json` of a record name is the extension `os.path.splitext` finds |
| `FileOperations.ReportNameOfRecord` | gui/utils/file_operations.py:64 | the report of a record is named by the record's prefix and timestamp, `_`, the export timestamp and `.xlsx` |
| `FileOperations.EncodeRecord` | gui/utils/file_operations.py:35-38 | the saved object has exactly the keys `class_counts` and `image_classifications` |
| `FileOperations.DecodeEncodeRecord` | gui/utils/file_operations.py:35-42 | a saved record reads back as the pair it was saved from |
| `FileOperations.SaveClassificationResults` | gui/utils/file_operations.py:33-43 | the save succeeds exactly when no directory has the record's name; it then writes the record under that name and leaves every other file alone |
| `FileOperations.LoadClassificationHistory` | gui/utils/file_operations.py:28-31 | succeeds exactly for a JSON file in `metadata/`, with its content; a missing file raises `NotFound` |
| `FileOperations.SaveLoadRoundTrip` | gui/utils/file_operations.py:28-42 | loading the name a save wrote gives back the saved record |
| `FileOperations.SaveTwiceSameSecond` | gui/utils/file_operations.py:39-42 | two saves in one second leave one file, holding the later record |
| `FileOperations.FlattenClassifications` | gui/utils/file_operations.py:53-61 | the loop yields `Rows` of the items, one row per item when it succeeds |
| `FileOperations.RowOfEncoded` | gui/utils/file_operations.py:53-61 | a saved classification becomes the row of its image and its translated labels joined by ", " |
| `FileOperations.RowsOfEncoded` | gui/utils/file_operations.py:53-61 | a saved list of classifications becomes one row per image, in order, with the translated labels joined by ", " |
| `FileOperations.ExportToExcel` | gui/utils/file_operations.py:45-67 | succeeds exactly when the file in `metadata/` is a JSON object with an `image_classifications` list whose table can be built and has a row, `reports/` exists and no folder has the report's name; it then returns `reports/<root>_<timestamp>.xlsx` and writes there the workbook with the two columns and those rows, keeping every other file; on failure writes nothing |
| `FileOperations.ExportSavedRecord` | gui/utils/file_operations.py:45-67 | exporting a saved record writes the expected rows under the record-derived name; a record with no classifications raises `NoColumns` |
| `FileOperations.ExportContentIndependentOfTime` | gui/utils/file_operations.py:63-65 | two exports of one record write the same sheet |
| `FileOperations.EncodeRecordAsWritten` | gui/utils/file_operations.py:35-38 | the record as actually saved, with (label, confidence) pairs, has the same two keys |
| `FileOperations.RowOfAsWritten` | gui/utils/file_operations.py:53-54 | with (label, confidence) pairs, an image with a class fails with `WrongType`, and one without gives its row with an empty class cell |
| `FileOperations.RowsOfAsWritten` | gui/utils/file_operations.py:53-54 | with (label, confidence) pairs, the table fails with `WrongType` exactly when some image has a class |
| `FileOperations.AsWrittenRecordCannotBeExported` | gui/utils/file_operations.py:45-54 | exporting such a record with any class raises `WrongType` and writes nothing |
| `FileOperations.ClearDirectory` | gui/utils/file_operations.py:71-81 | the result is the user's answer; on No nothing changes; on Yes exactly the sub-directories remain, unchanged |
| `ClassificationDialog.GetOr` | gui/tabs/classification_dialog.py:35 | a mapped key gives the value of its first entry; anything else gives the default |
| `ClassificationDialog.KeyOfValue` | gui/tabs/classification_dialog.py:46 | a mapped value gives the key of its first entry; anything else is returned unchanged |
| `ClassificationDialog.KeyOfValueOfKey` | gui/tabs/classification_dialog.py:28-46 | for a one-to-one mapping, the reverse lookup of a key's value is the key |
| `ClassificationDialog.ClassNamesMappingInjective` | gui/tabs/classification_dialog.py:28-32 | the three Russian names are distinct |
| `ClassificationDialog.ButtonRoundTrip` | gui/tabs/classification_dialog.py:34-46 | pressing the button shown for a mapped class stores that class |
| `ClassificationDialog.UnmappedRoundTrip` | gui/tabs/classification_dialog.py:35-46 | an option that is neither an English nor a Russian name is shown and stored unchanged |
| `ClassificationDialog.ExportTranslationAgrees` | gui/tabs/classification_dialog.py:28-35 | the dialog's button texts equal the names the Excel export writes |
| `ClassificationDialog.Dialog.constructor` | gui/tabs/classification_dialog.py:6-40 | no class is selected yet, and there is one button per option, labelled with its Russian name |
| `ClassificationDialog.Dialog.OnClassSelected` | gui/tabs/classification_dialog.py:42-47 | stores the English class of the pressed button and accepts the dialog |
| `ClassificationTab.Merged` | gui/tabs/classification_tab.py:43-44 | the merged keys are exactly those of both sides |
| `ClassificationTab.MergedTotal` | gui/tabs/classification_tab.py:43-44 | merging counts adds their totals |
| `ClassificationTab.MergedStep` | gui/tabs/classification_tab.py:44 | merging one more key adds its count to the total |
| `ClassificationTab.MergedBounds` | gui/tabs/classification_tab.py:43-44 | the merged keys are the union of both sides; a key on one side keeps its count and a key on both sides gets the sum |
| `ClassificationTab.MergeKeepsConsistency` | gui/tabs/classification_tab.py:42-45 | merging two consistent results gives a consistent result |
| `ClassificationTab.MergeCounts` | gui/tabs/classification_tab.py:43-44 | the key loop computes `Merged`, the key-wise sum |
| `ClassificationTab.MergeLoopStep` | gui/tabs/classification_tab.py:43-44 | one turn of the key loop turns the merge of the keys done so far into the merge with one more key done |
| `ClassificationTab.KindOfExtension` | gui/tabs/classification_tab.py:33-38 | whatever the stem, a `.zip` name is dispatched as an archive and a `.png`, `.jpg` or `.jpeg` name as an image |
| `ClassificationTab.KindWithoutDot` | gui/tabs/classification_tab.py:33-40 | a name without a dot is skipped |
| `ClassificationTab.MergedBump` | gui/tabs/classification_tab.py:43-44 | merging counts with one more label counted is counting that label on the merge |
| `ClassificationTab.MergedTally` | gui/tabs/classification_tab.py:43-44 | merging counts of labels is counting those labels on top of the merge |
| `ClassificationTab.MergedTallyAll` | gui/tabs/classification_tab.py:43-45 | merging the counts of classifications is counting their labels on top of the merge |
| `ClassificationTab.TallyAllAppend` | backend/inference.py:71-74 | counting two lists of classifications in turn equals counting their concatenation |
| `ClassificationTab.MergedFresh` | gui/tabs/classification_tab.py:43-45 | merging the counts of a per-file result into the counts so far is counting that file's labels on top of them |
| `ClassificationTab.QuietInput` | gui/tabs/classification_tab.py:33-38 | with nobody asking to stop, a supported input yields exactly the expected classifications of its image paths (the image, or every image of the extraction directory) counted from nothing, and leaves the event clear |
| `ClassificationTab.EmitsAfter` | gui/tabs/classification_tab.py:43-46 | one progress signal and one input's classifications, followed by what the rest of the run emits, is what the run from that input emits |
| `ClassificationTab.QuietSkip` | gui/tabs/classification_tab.py:29-40 | with nobody asking to stop, an unsupported input only polls the event: nothing is emitted, added or extracted, and the expected result and progress are those of the next input |
| `ClassificationTab.QuietStep` | gui/tabs/classification_tab.py:29-46 | with nobody asking to stop, a supported input that succeeds adds its classifications and counts, emits `progress_changed(i + 1)` and continues with the next input |
| `ClassificationTab.QuietFail` | gui/tabs/classification_tab.py:33-53 | with nobody asking to stop, a supported input that raises ends the run with `error_occurred` of that error |
| `ClassificationTab.QuietRunResult` | gui/tabs/classification_tab.py:24-53 | a run nobody stops emits `progress_changed(i + 1)` for every supported input, then `classification_done` carrying the counts and classifications of all inputs merged in input order; if an input raises, the run ends with `error_occurred` of the first such error |
| `ClassificationTab.QuietRunContinue` | gui/tabs/classification_tab.py:24-53 | the same, from a supported input that succeeds on |
| `ClassificationTab.QuietImageRun` | gui/tabs/classification_tab.py:24-53 | a run over images only that nobody stops emits progress 1 to n and then `classification_done` with one classification per readable image, in order, and their label counts, or ends with `error_occurred` |
| `ClassificationTab.ExpectedRunOfImages` | gui/tabs/classification_tab.py:36-38 | over images only, the run's expected classifications are those of the remaining image paths in one call |
| `ClassificationTab.ExpectedEntriesCons` | backend/inference.py:45-74 | the expected classifications of a path followed by more paths are those of the path, then those of the rest |
| `ClassificationTab.ProgressOfImages` | gui/tabs/classification_tab.py:46 | over images only, the progress values are each input's index plus one, in order |
| `ClassificationTab.InputFacts` | gui/tabs/classification_tab.py:33-38 | each input's result is consistent; a set event stays set; with no stop requests the event stays clear |
| `ClassificationTab.WellFormedFacts` | gui/tabs/classification_tab.py:46-53 | in a well-formed signal list, all but the last signal are progress, progress values rise strictly, and they stay in range |
| `ClassificationTab.WellFormedWeaken` | gui/tabs/classification_tab.py:46 | a signal list that is well formed after a progress value is also well formed after any lower value |
| `ClassificationTab.ReportsSupportedCons` | gui/tabs/classification_tab.py:33-46 | adding the progress of a processed input keeps every progress value pointing at a processed input |
| `ClassificationTab.RunAppends` | gui/tabs/classification_tab.py:24-53 | a run only appends signals |
| `ClassificationTab.RunSignals` | gui/tabs/classification_tab.py:29-53 | the new signals are rising progress values, each for a file that was not skipped, then at most one terminal signal |
| `ClassificationTab.RunOutcome` | gui/tabs/classification_tab.py:48-53 | `classification_done` is emitted exactly when the run did not fail and the event was clear at the last check, and it carries the result accumulated over the run (`ClassificationTab.QuietRunResult` states that result for a run nobody stops) |
| `ClassificationTab.RunKeepsConsistency` | gui/tabs/classification_tab.py:25-49 | the merged counts add up to the class entries, and every counted label is a model name |
| `ClassificationTab.StoppedRunEmitsNothing` | gui/tabs/classification_tab.py:29-31 | once the event is set, the run emits nothing |
| `ClassificationTab.QuietRunTerminates` | gui/tabs/classification_tab.py:24-53 | a run nobody stops ends with exactly one `done` or `error` signal |
| `ClassificationTab.WholeRun` | gui/tabs/classification_tab.py:24-53 | over a whole run: progress rises strictly up to the number of files and only for processed files; at most one terminal signal, last; `done` carries consistent counts |
| `ClassificationTab.WholeRunSignals` | gui/tabs/classification_tab.py:29-53 | well-formed signals of a run from its start, whose `done` is last and carries the consistent merged result, have the properties `WholeRun` states |
| `ClassificationTab.ClassificationWorker.constructor` | gui/tabs/classification_tab.py:16-22 | a worker starts with a clear stop event, an empty extraction directory and no signals |
| `ClassificationTab.ClassificationWorker.Run` | gui/tabs/classification_tab.py:24-53 | the loop leaves the event, the directory and the signals exactly as `RunFrom` specifies |
| `ClassificationTab.ClassificationWorker.Stop` | gui/tabs/classification_tab.py:55-57 | sets the stop event and changes nothing else |
| `ClassificationTab.LoadFileClassification` | gui/tabs/classification_tab.py:69-89 | no worker when no file is chosen; otherwise a new worker over the chosen files, the classification model and a new temporary directory |
| `ClassificationTab.LatestExists` | gui/tabs/classification_tab.py:113 | a non-empty listing has a name that sorts last |
| `ClassificationTab.LatestUnique` | gui/tabs/classification_tab.py:113 | only one name can sort last |
| `ClassificationTab.Latest` | gui/tabs/classification_tab.py:113 | `sorted(...)[-1]` is in the listing and sorts after every other name |
| `ClassificationTab.LabelTotalPositive` | gui/tabs/classification_tab.py:101 | a positive number of class entries means some image has a class |
| `ClassificationTab.OnClassificationDone` | gui/tabs/classification_tab.py:99-114 | empty counts save nothing and change nothing; other counts never end as `NothingSaved`, and `metadata/` afterwards is exactly what the save left; a save that raises ends there with its error; after a save that succeeds, the whole outcome, `reports/` included, is that of `ExportToExcel` on the history file that sorts last among the regular files of the saved `metadata/`: its written file system, and `Reported` with its path or `Raised` with its error; when a report results, `metadata/` holds the encoded record under the save's record name |
| `ClassificationTab.NonEmptyCountsHaveEntries` | gui/tabs/classification_tab.py:101-105 | a consistent result with some count has an image with a class |
| `ClassificationTab.SavedRecordIsLatest` | gui/tabs/classification_tab.py:105-113 | if every other history file sorts before the new record, the save succeeds, listing the history changes nothing, and the new record is the one that sorts last |
| `ClassificationTab.DoneExportsNewestRecord` | gui/tabs/classification_tab.py:99-115 | if every other history file sorts before the new record, the tab saves the record and exports exactly it, writing one row per classified image |
| `ClassificationTab.EarlierRecordsSortFirst` | gui/tabs/classification_tab.py:112-113 | records saved at earlier instants sort before the new one |
| `ClassificationTab.PipelineRecordNeverExports` | gui/tabs/classification_tab.py:105-114 | with classes saved as (label, confidence) pairs, any run with a count produces a record whose export raises `WrongType` |

## Left out

- The YOLO model, PIL decoding, `imgsz` and the confidence values are not modelled. The model is an oracle from a path to an outcome.
- Inference.ProcessImagesClassification: each classification keeps only the labels, not the `(label, confidence)` pairs of backend/inference.py:72. That pairing is the defect described under Findings.
- `zipfile` and `os.walk` are not modelled. Extraction is an oracle from an archive to its member names. Members are joined to the directory with one `/`, and the walk visits files in the order they were first extracted.
- A corrupt member inside a valid archive and extraction errors other than a bad archive are not modelled.
- Qt is not modelled: the thread start, signal delivery, `QProgressDialog`, `processEvents`, message boxes, the window title and the picture.
- `display_plot` is left out. So are the list refreshes of the metadata and reports tabs (classification_tab.py:108-110 and 115); once the directories exist they only re-read the listings.
- ClassificationTab.ClassificationWorker.Stop: the `wait()` for the thread is not modelled. The interleaving of a cancel with the worker's checks is represented by the stop schedule the worker is built with.
- `cancel_classification` and its `isRunning()` guard are not modelled. The `_is_running` attribute, which nothing reads, is left out too.
- `on_classification_error` and `show_error` only display text, so they are left out.
- The `stop_event=None` default is not modelled: every caller in the core passes an event.
- Logging and `print` messages are not modelled, and exception messages are reduced to their kind.
- FileOperations.GetTimestamp: readings are limited to four-digit years and in-range fields. The day is not checked against the length of its month.
- FileOperations.ExportToExcel: a `classes` value that is a string or an object is treated as a type error, although Python would iterate it. An item without a string `image` is also treated as a type error, where pandas would give an empty cell. An `image_classifications` value that is not a list is a type error too, whereas Python loops zero times over `{}` or `""` and then fails on the empty table as `NoColumns` does, and fails inside the loop for a non-empty string or object.
- FileOperations.ExportToExcel: the workbook is a value with the two columns and the rows. Excel formatting and pandas' column handling are not modelled.
- FileOperations.ClearDirectory: a missing directory, which makes `os.listdir` raise, is not modelled. The method takes the directory's contents.
- `ensure_directories_exist` is not modelled for the case where a plain file sits at a directory's path.
- JSON numbers that are not counts keep no value, and key order in the saved file is not modelled.
- `process_image_detection`, `process_video`, the detection model, and the other tabs and utilities are not part of this model.

## Findings

| source | as written | input that shows it | evidently intended | confidence | as-written member | corrected member |
|---|---|---|---|---|---|---|
| gui/utils/file_operations.py:54 | each `classes` element is looked up in `animal_dict`, but backend/inference.py:72 stores `(label, confidence)` tuples, which the record holds as two-element lists, so `animal_dict.get` raises TypeError (unhashable list) | a run with one image classified as `deer`: its record has `"classes": [["deer", 0.93]]` | `classes` holds the labels, and the report shows their Russian names | not executed | `ClassificationTab.PipelineRecordNeverExports` | `FileOperations.ExportSavedRecord` |
