# image-generation: a verified model of the batch ledger and its helpers

This project models the core of the furniture-photo pipeline in Dafny:

- **Submission.** A batch of image tasks is submitted to the Gemini batch API.
- **Polling and reconciliation.** The batch jobs are polled, and their per-image results are reconciled into a two-table ledger: `BatchJob` and `BatchJobImage`.
- **Aggregation.** The ledger is summarised for the Telegram bot.
- **Publishing.** Finished images are captioned, published to the CMS gallery and marked done in the results spreadsheet.
- **Supporting services.** These are modelled around that core:
  - the Drive-to-gateway sync;
  - the spreadsheet row logic;
  - the response parser of the description service;
  - the catalogue parser;
  - the bot's text formatters.

All outside collaborators are parameters of the operations that use them (Gemini client, Google Drive, CMS gateway, `slugify`, `uuid4`, the clock, JSON decoding and PIL). A `None` or `Err` from such a parameter stands for the exception the real call raises. Code that updates state in place is modelled imperatively:

- the ledger is a `Ledger` class whose tables are maps from id to record, with their insertion order;
- `StatusCheckResult`, `SyncResult` and the job report are classes with counter fields;
- a worksheet is a `Worksheet` class whose `rows` change.

Each loop method is proved equal to a fold over its input. What the source promises is then proved about those folds as lemmas.

Modules, one per source file:

| module | models |
|---|---|
| `Wrappers` | `Option` / `Result` |
| `Strings` | Python `strip`, `rstrip`, `split`, `join`, `find`, `rfind`, `str(int)`, `int(str)` |
| `Models` | `models/models.py` |
| `Ledger` | the two tables |
| `Submission` | `create_batch_job` |
| `Reconcile` | result files and inline results |
| `Poll` | job polling, the status check and the per-image update |
| `Aggregate` | `check_and_download_results` and `get_overall_statistics` |
| `Sync` | `services/sync/sync_service.py` |
| `Sheets` | `services/google_sheets/google_sheets.py` |
| `Publish` | `services/bot/handlers/publish.py` |
| `Formatters` | `services/bot/formatters.py` |
| `Description` | `services/image_description/image_description_service.py` |
| `Schemas` | `ParseResult` / `ParseStats` |
| `Parser` | `services/parser/parser.py` |

## Model

| member | source | states |
|---|---|---|
| Strings.TrimLeftMeaning | services/google_sheets/google_sheets.py:51-52 | `strip` (left half) removes exactly the leading run of whitespace: the result is a suffix, starts with a non-space, and everything dropped is whitespace |
| Strings.TrimRightMeaning | services/google_sheets/google_sheets.py:51-52 | `strip` (right half) removes exactly the trailing run of whitespace: the result is a prefix, ends with a non-space, and everything dropped is whitespace |
| Strings.StripFixed | services/google_sheets/google_sheets.py:51-52 | a text that neither starts nor ends with whitespace is its own `strip()` |
| Strings.RStripChar | models/models.py:97 | `rstrip("/")` keeps a prefix that does not end in the character and drops only copies of it |
| Strings.IndexOf | services/image_description/image_description_service.py:253 | `find` is -1 exactly when the character is absent, else the position of its first occurrence |
| Strings.LastIndexOf | services/image_description/image_description_service.py:254 | `rfind` is -1 exactly when the character is absent, else the position of its last occurrence |
| Strings.Split | services/image_description/image_description_service.py:244 | `split` always yields at least one piece and no piece contains the separator |
| Strings.JoinSplit | services/image_description/image_description_service.py:244-250 | joining the pieces of a split with the same separator gives back the text |
| Strings.SplitJoin | services/image_description/image_description_service.py:244-250 | splitting a join of separator-free pieces gives back the pieces |
| Strings.SplitBeforeLast | services/sync/sync_service.py:122 | splitting `a + c + b` where `b` is free of `c` gives the pieces of `a` followed by `b` |
| Strings.JoinSplitButLast | models/models.py:98 | `"/".join(path.split("/")[:-1])` is the text before the last "/", or "" when there is none |
| Strings.LastPieceAfterLastSeparator | services/batch/batch_service.py:320-321 | `split(c)[-1]` is the text after the last occurrence of `c` |
| Strings.NatToString | services/batch/batch_service.py:119 | `str(n)` of a natural is a non-empty string of digits |
| Strings.NatToStringInjective | services/batch/batch_service.py:119 | distinct numbers print differently |
| Strings.ParseIntToString | services/bot/handlers/publish.py:180-203 | `int(str(n)) == n`: a CMS id stored as `str(image_id)` is read back as the same number |
| Models.NewBatchJob | models/models.py:29-37 | a new job is PENDING, stamped with the creation time, and has no completion time, result file or error |
| Models.NewBatchJobImage | models/models.py:56-68 | a new image row is PENDING and unpublished, and has no result, error, CMS id or caption fields |
| Models.UuidShortOfCanonical | models/models.py:78 | for a canonical uuid, `str(uuid4()).split("-")[0]` is its first 8 characters, all hex digits |
| Models.OutputFilenameDisambiguates | models/models.py:77-79 | two output names of one row are equal only if their short uuids are equal |
| Models.CmsFilenameIgnoresGrouping | models/models.py:88-90 | the CMS name depends only on the model name and the uuid (not on order number or position), and has length slug + 13 |
| Models.CollectionPathIsBeforeLastSlash | models/models.py:94-98 | the collection path is the text before the last "/" of the URL without trailing slashes, or None when that is empty |
| Models.CollectionPathMeaning | models/models.py:92-98 | the result is `Some(p)` exactly when the stripped URL is `p + "/" + seg` with `p` non-empty and `seg` free of "/" |
| Models.CollectionPathDropsNonEmptySegment | models/models.py:97-98 | a collection path is shorter than the stripped URL by at least "/" plus one character |
| Models.CollectionPathNoTrailingSlash | models/models.py:97-98 | for a URL with no empty segment (no "//"), the collection path never ends with "/" |
| Models.CollectionPathOfProductUrl | models/models.py:97-98 | "/products/a/b/" gives "/products/a" |
| Models.CollectionPathOfSingleSegment | models/models.py:94-98 | "/x", "x", "" and a missing URL give None |
| Models.CollectionPathDoubleSlash | models/models.py:97-98 | "/a//b" gives "/a/", which does end with "/" |
| Ledger.Rows | models/models.py:39-68 | the rows of a table, listed in insertion order |
| Ledger.SameKeysKeepsTable | models/models.py:39-68 | replacing rows under the same keys keeps the table well formed |
| Ledger.AppendKeepsTable | models/models.py:39-68 | adding a row under a fresh id keeps the image table well formed |
| Ledger.AppendKeepsJobTable | models/models.py:13-37 | adding a job under a fresh id keeps the job table well formed |
| Ledger.Ledger.constructor | models/models.py:13-68 | both tables start empty |
| Ledger.Ledger.ImageRows | models/models.py:39-68 | one row per image id, in insertion order |
| Submission.NewImageTask | services/batch/batch_service.py:58-69 | `ImageTask` defaults: position 0 and empty category, page URL and source URL |
| Submission.FirstMissing | services/batch/batch_service.py:98-100 | None exactly when every task path exists; otherwise the first missing path |
| Submission.UploadSources | services/batch/batch_service.py:105-112 | when every upload succeeds, there is one uploaded file per task |
| Submission.UploadSourcesAt | services/batch/batch_service.py:105-112 | upload `i` uses display name `batch-image-{key}-{i}` and its file is the `i`-th entry |
| Submission.UploadErrPropagates | services/batch/batch_service.py:105-112 | when an upload among the first `k` tasks fails, the whole upload step fails with that same error, whatever the later tasks are |
| Submission.ManifestLines | services/batch/batch_service.py:117-148 | one manifest line per task |
| Submission.Names | services/batch/batch_service.py:161-165 | fails exactly when some uploaded file has no name; otherwise lists the names in order |
| Submission.NamesAgree | services/batch/batch_service.py:161-165 | the collected names are exactly the files' names |
| Submission.RequestKeysDistinct | services/batch/batch_service.py:119 | the keys `{batch_key}-{i}` of two different positions differ |
| Submission.SubmissionRows | services/batch/batch_service.py:194-209 | one PENDING, unpublished row per task, in task order, with the job id, key `{batch_key}-{i}`, prompt `custom_prompt + ". " + BASE_PROMPT`, the fields of task `i` and the `i`-th source name; the keys are pairwise distinct |
| Submission.MissingPathFailsFast | services/batch/batch_service.py:98-100 | a missing path refuses the submission with FileNotFound, whatever the provider would have done |
| Submission.PlannedNamesUploads | services/batch/batch_service.py:98-178 | a planned submission had every path present, every upload succeed, and one source name per task, each the `i`-th upload's name |
| Submission.CheckPaths | services/batch/batch_service.py:98-100 | the validation loop finds the first missing path |
| Submission.UploadAll | services/batch/batch_service.py:105-112 | the upload loop computes `UploadSources` |
| Submission.WriteManifest | services/batch/batch_service.py:117-148 | the manifest loop writes `ManifestLines` |
| Submission.CollectNames | services/batch/batch_service.py:161-165 | the name loop computes `Names` |
| Submission.Prepare | services/batch/batch_service.py:98-178 | everything before the database write computes `PlanSubmission` |
| Submission.IdsOf | services/batch/batch_service.py:194-209 | the ids of the new rows, in order |
| Submission.AddRows | services/batch/batch_service.py:194-209 | adding rows keeps every existing row id |
| Submission.AddRowsKeys | services/batch/batch_service.py:194-209 | after the insert, the ids are exactly the old ids and the new rows' ids |
| Submission.AddRowsLookup | services/batch/batch_service.py:194-209 | each new row is stored under its id, and other rows are unchanged |
| Submission.AddRowsKeepsTable | services/batch/batch_service.py:194-211 | inserting rows with fresh distinct ids keeps the image table well formed |
| Submission.InsertRows | services/batch/batch_service.py:194-209 | the insert loop computes `AddRows` |
| Submission.Commit | services/batch/batch_service.py:180-211 | the commit adds exactly one job and the new rows, in order, and nothing else |
| Submission.CreateBatchJob | services/batch/batch_service.py:88-214 | a refused plan (missing path, failed upload, unnamed manifest, file or job) or a duplicate key leaves the ledger unchanged; otherwise exactly one PENDING job and one row per task are added |
| Reconcile.JobResult.constructor | services/batch/batch_service.py:325-333 | a fresh report: not completed, not successful, no files, no errors, no error message |
| Reconcile.MarkStored | services/batch/batch_service.py:543-545 | storing a result keeps the table's ids |
| Reconcile.MarkFailed | services/batch/batch_service.py:558-562 | failing a row keeps the table's ids |
| Reconcile.ImagePart | services/batch/batch_service.py:526-568 | one image part keeps the table's ids |
| Reconcile.Parts | services/batch/batch_service.py:515-568 | a response's parts keep the table's ids |
| Reconcile.PartStep | services/batch/batch_service.py:524-568 | one step of the parts loop keeps the table's ids |
| Reconcile.PartsPrefix | services/batch/batch_service.py:524-568 | the parts fold extended by one part is one more step |
| Reconcile.Fail | services/batch/batch_service.py:573-579 | recording a failure keeps the table's ids |
| Reconcile.FileResponse | services/batch/batch_service.py:505-589 | one file line keeps the table's ids |
| Reconcile.InlineResponse | services/batch/batch_service.py:420-483 | one inline response keeps the table's ids; content whose parts are `None` raises, with or without a row for the key (proved in `UnlistedResponseRaises`) |
| Reconcile.FileLines | services/batch/batch_service.py:501-589 | all file lines keep the table's ids |
| Reconcile.FileLine | services/batch/batch_service.py:502-589 | one raw line keeps the table's ids |
| Reconcile.InlineResponses | services/batch/batch_service.py:420-485 | all inline responses keep the table's ids; an exception in one ends the fold there (proved in `InlineStopAtRaise` and `InlineUnlistedEndsProcessing`) |
| Reconcile.ReadFile | services/batch/batch_service.py:496-589 | reading and processing the result file keeps the table's ids |
| Reconcile.ProcessFile | services/batch/batch_service.py:496-609 | the whole file path, with its exception handler, keeps the table's ids |
| Reconcile.FileLinesPrefix | services/batch/batch_service.py:501-589 | the lines fold extended by one line is one more line step |
| Reconcile.InlinePrefix | services/batch/batch_service.py:420-485 | the inline fold extended by one response is one more step |
| Reconcile.PartsStopAtRaise | services/batch/batch_service.py:524-568 | once a part raises, later parts have no effect |
| Reconcile.FileLinesStopAtRaise | services/batch/batch_service.py:501-591 | once a line raises, the rest of the file is not processed |
| Reconcile.InlineStopAtRaise | services/batch/batch_service.py:420-485 | once a response raises, later responses are not processed |
| Reconcile.PartsTouchOnlyTheirRow | services/batch/batch_service.py:524-568 | a response's parts change no row but its own |
| Reconcile.TextPartsChangeNothing | services/batch/batch_service.py:524-526 | parts without inline data change nothing and store nothing |
| Reconcile.ResponseTouchesOnlyItsRow | services/batch/batch_service.py:420-589 | a response, file or inline, changes no row other than the one its key names |
| Reconcile.UnknownKeyReportsOneError | services/batch/batch_service.py:515-579 | a key of no row of this job changes no row and stores nothing, and adds exactly one error: the line's own, or "not generated"; unless some parts are `None`, when iterating them raises and nothing is reported |
| Reconcile.ErrorLineLeavesRowFailed | services/batch/batch_service.py:582-588 | a response with an error leaves its row FAILED with that error, whatever its parts stored (unless a part raised), and on the file path reports it last |
| Reconcile.NoImageNoErrorIsNotGenerated | services/batch/batch_service.py:571-579 | a file line with neither an image nor an error sets its row FAILED with "Изображение не сгенерировано" and reports it |
| Reconcile.InlineNoImageNoErrorChangesNothing | services/batch/batch_service.py:420-485 | the inline path has no "not generated" failure: such a response changes nothing |
| Reconcile.StoredImageSucceeds | services/batch/batch_service.py:530-556 | an accepted upload sets the row SUCCEEDED with the returned file id and records the output file |
| Reconcile.RefusedUploadEndsNotGenerated | services/batch/batch_service.py:557-579 | a refused upload on the file path ends FAILED with "not generated", having reported both errors |
| Reconcile.SingleImagePart | services/batch/batch_service.py:524-568 | a response with one image part is that part's step |
| Reconcile.MissingDataRaises | services/batch/batch_service.py:530-537 | an image part whose data cannot be read (no "data" key, or null data) raises that exception: after any text parts, the response ends there with no row changed, nothing stored and the later parts skipped |
| Reconcile.UnlistedPartsRaise | services/batch/batch_service.py:520-526 | content whose parts are `None` raises `TypeError` when reached: after any text parts the response ends there, nothing stored |
| Reconcile.UnlistedResponseRaises | services/batch/batch_service.py:431-433 | on both paths, a keyed response whose parts are `None` before any image raises whether or not its key has a row: no row, output or error changes |
| Reconcile.InlineUnlistedEndsProcessing | services/batch/batch_service.py:420-433 | on the inline path that `TypeError` propagates out of `_process_inline_responses`: the later responses are not processed and the state is the one the earlier responses left |
| Reconcile.FileLinesTouchOnlyIndexedRows | services/batch/batch_service.py:501-589 | the file path changes only rows whose keys are indexed |
| Reconcile.InlineTouchesOnlyIndexedRows | services/batch/batch_service.py:420-485 | the inline path changes only rows whose keys are indexed |
| Reconcile.ContainsAfter | services/batch/batch_service.py:595 | a text contains its own suffix (substring test used by the download handler) |
| Reconcile.ContainsInside | services/batch/batch_service.py:595 | a text contains every infix |
| Reconcile.DownloadFailureReported | services/batch/batch_service.py:591-607 | a failed download never propagates: it changes no row and appends exactly one "download" error, which names the file when the message mentions "40 characters" or "INVALID_ARGUMENT" and otherwise carries the message |
| Reconcile.StoreImagePart | services/batch/batch_service.py:526-568 | the in-place image-part step equals the `ImagePart` fold step |
| Reconcile.ProcessParts | services/batch/batch_service.py:515-568 | the in-place parts loop equals `Parts` |
| Reconcile.RecordFailure | services/batch/batch_service.py:573-579 | the in-place failure step equals `Fail` |
| Reconcile.ProcessFileResponse | services/batch/batch_service.py:505-589 | the in-place handling of one file line equals `FileResponse` |
| Reconcile.ProcessInlineResponse | services/batch/batch_service.py:420-483 | the in-place handling of one inline response equals `InlineResponse` |
| Reconcile.ProcessInlineResponses | services/batch/batch_service.py:411-485 | `_process_inline_responses` equals the `InlineResponses` fold |
| Reconcile.ProcessFileLine | services/batch/batch_service.py:502-589 | the in-place handling of one raw line equals `FileLine` |
| Reconcile.ProcessFileLines | services/batch/batch_service.py:501-589 | the line loop equals the `FileLines` fold |
| Reconcile.DownloadAndProcessFile | services/batch/batch_service.py:487-609 | `_download_and_process_file` equals `ProcessFile` and never raises |
| Poll.NormalizeState | services/batch/batch_service.py:319-321 | the normalised state has no "." and is the input when it had none |
| Poll.NormalizeStateIsLastComponent | services/batch/batch_service.py:319-321 | the normalised state is the text after the last "." |
| Poll.PolledStatusNames | services/batch/batch_service.py:338-346 | JOB_STATE_SUCCEEDED, FAILED, CANCELLED and RUNNING are stored under their short names; any other state leaves the status as it was |
| Poll.ByKey | services/batch/batch_service.py:384-389 | the key index maps each key to a row of this job with that key |
| Poll.ByKeyComplete | services/batch/batch_service.py:384-389 | every row of the job is reachable through its key |
| Poll.Poll | services/batch/batch_service.py:302-409 | a poll keeps the table's ids |
| Poll.Collect | services/batch/batch_service.py:391-407 | collecting results keeps the table's ids |
| Poll.PollKeepsJobIdentity | services/batch/batch_service.py:338-371 | a poll changes only the job's status and error message (never `completed_at`) |
| Poll.NonTerminalTouchesNoImage | services/batch/batch_service.py:349-355 | a non-terminal state touches no image, raises nothing and reports not completed |
| Poll.FailedOrCancelledTouchesNoImage | services/batch/batch_service.py:359-371 | FAILED or CANCELLED sets the fixed job message, reports completed and unsuccessful, and leaves every image row unchanged |
| Poll.MissingResultsOnlyReported | services/batch/batch_service.py:377-379 | a succeeded job whose results are missing or in an unknown format becomes SUCCEEDED and nothing else: no `dest` is reported as the returned error, an unknown format as one error entry, and no row changes |
| Poll.ProcessFileTouchesOnlyIndexedRows | services/batch/batch_service.py:392-397 | the file path of a poll changes only rows reachable through the index |
| Poll.PollTouchesOnlyItsJobsRows | services/batch/batch_service.py:384-407 | a poll changes no row of another job |
| Poll.IndexByKey | services/batch/batch_service.py:384-389 | the index loop computes `ByKey` |
| Poll.DownloadBatchResults | services/batch/batch_service.py:302-409 | `_download_batch_results` either propagates the provider's error with the ledger unchanged, or applies `Poll` to the ledger |
| Poll.ApplyPoll | services/batch/batch_service.py:319-409 | the in-place poll stores exactly `Poll`'s job, rows and report |
| Poll.RecordPolledState | services/batch/batch_service.py:337-346 | only the job's status is mapped, as `PolledJob` says |
| Poll.CollectResults | services/batch/batch_service.py:391-407 | result collection equals `Collect`, including the unknown-format error |
| Poll.FirstJobNamed | services/batch/batch_service.py:240-242 | None exactly when no job has the name; otherwise a job with that name |
| Poll.CheckedJobNeverCompletes | services/batch/batch_service.py:243-246 | as written, a `JOB_STATE_*` name never sets `completed_at` and is stored outside the ledger's status vocabulary |
| Poll.CheckedJobSucceededExample | services/batch/batch_service.py:243-246 | JOB_STATE_SUCCEEDED leaves `completed_at` unset as written, and is stamped by the corrected check |
| Poll.CheckedJobCorrected | services/batch/batch_service.py:243-246 | the corrected check stamps `completed_at` exactly for a terminal state (or keeps an earlier stamp) |
| Poll.CheckedJobCorrectedAgreesWithPoll | services/batch/batch_service.py:243-246 | the corrected check stores the same short status as polling (a terminal state `JOB_STATE_X` becomes `X`) and stamps an unstamped job exactly for a terminal state |
| Poll.CheckJobStatus | services/batch/batch_service.py:230-249 | as written: a provider error propagates with the ledger unchanged; otherwise the first job of that name, if any, gets the provider's state name as its status (`CheckedJob`, which never stamps a `JOB_STATE_*` name), and the state name or "UNKNOWN" is returned |
| Poll.CheckJobStatusCorrected | services/batch/batch_service.py:230-249 | the same lookup and result, with the job updated by the corrected check: the short status of the polling path, and `completed_at` stamped for a terminal state |
| Poll.FindJob | services/batch/batch_service.py:240-242 | the lookup loop finds `FirstJobNamed` |
| Poll.FirstImageKeyed | services/batch/batch_service.py:268-272 | None exactly when no row has the key; otherwise a row with that key |
| Poll.UpdatedImageRules | services/batch/batch_service.py:273-279 | a result file sets SUCCEEDED, an error sets FAILED and wins over a result, and with neither the status is unchanged |
| Poll.UpdateImageResult | services/batch/batch_service.py:260-280 | an unknown key changes nothing; otherwise only the first row with the key changes, by `UpdatedImage` |
| Poll.RefusedDeletions | services/batch/batch_service.py:290-300 | the refused deletions are exactly the attempted names the provider refuses |
| Poll.CleanupGeminiFiles | services/batch/batch_service.py:282-300 | an unknown job deletes nothing; otherwise deletion of every source upload and then of the manifest is attempted, in that order, whatever the provider answers, and each refusal is swallowed (the swallowed ones are exactly `RefusedDeletions`) |
| Aggregate.StatusCheckResult.constructor | services/batch/batch_service.py:38-55 | every counter is 0 and the groups and job list are empty |
| Aggregate.GroupIntoPrefix | services/batch/batch_service.py:656-661 | grouping one more message bumps its count |
| Aggregate.GroupIntoAppend | services/batch/batch_service.py:656-669 | grouping two lists in turn is grouping their concatenation |
| Aggregate.GroupSnoc | services/batch/batch_service.py:656-661 | grouping from empty, one more message bumps its count |
| Aggregate.GroupCounts | services/batch/batch_service.py:656-669 | a message is grouped exactly when it occurs, and its count is its number of occurrences |
| Aggregate.StateNamesArePrefixed | services/batch/batch_service.py:645-654 | the five counted provider states are the short statuses with the "JOB_STATE_" prefix |
| Aggregate.OutcomeMessages | services/batch/batch_service.py:656-669 | a raising job contributes its exception message; an answering job contributes its errors' messages in order |
| Aggregate.Labels | services/batch/batch_service.py:644 | one state label per swept job |
| Aggregate.CountOutcomesMeaning | services/batch/batch_service.py:644-664 | each job counter is the number of jobs reporting that state, with raised jobs also counted as failed |
| Aggregate.CountOutcomesBounded | services/batch/batch_service.py:644-664 | the job counters add up to at most the number of swept jobs |
| Aggregate.CountStatusesMeaning | services/batch/batch_service.py:698-708 | each job counter is the number of jobs with that stored status |
| Aggregate.CountImagesMeaning | services/batch/batch_service.py:675-681 | succeeded and failed count those statuses, pending counts every other one, and the three add up to the number of rows |
| Aggregate.FailedMessagesMeaning | services/batch/batch_service.py:716-722 | the grouped messages are exactly the non-empty error messages of FAILED rows |
| Aggregate.JobsWithStatus | services/batch/batch_service.py:626-632 | the swept jobs are exactly those whose status is one of the requested statuses |
| Aggregate.CheckedJobLeavesSweep | services/batch/batch_service.py:243-246 | as written, after `check_job_status` stores a `JOB_STATE_*` name the job is no longer among the PENDING/RUNNING jobs the default sweep polls |
| Aggregate.CorrectedCheckKeepsSweep | services/batch/batch_service.py:243-246 | with the corrected check, a PENDING or RUNNING job given a non-terminal state stays in the default sweep |
| Aggregate.SweepOne | services/batch/batch_service.py:636-669 | sweeping one job keeps both tables' ids |
| Aggregate.SweepAll | services/batch/batch_service.py:636-669 | the sweep keeps both tables' ids and has one outcome per job |
| Aggregate.SweepAllPrefix | services/batch/batch_service.py:636-669 | the sweep extended by one job is one more job step |
| Aggregate.JobNames | services/batch/batch_service.py:637 | the processed jobs are the swept jobs' names, in order |
| Aggregate.RecordOutcome | services/batch/batch_service.py:644-669 | one outcome bumps its state counter and groups its messages, and nothing else changes |
| Aggregate.GroupMessages | services/batch/batch_service.py:656-661 | the grouping loop computes `GroupInto` |
| Aggregate.TallyImages | services/batch/batch_service.py:672-681 | the image loop computes `CountImages` |
| Aggregate.CheckAndDownloadResults | services/batch/batch_service.py:611-683 | the jobs with the requested statuses (PENDING and RUNNING by default) are swept in order; the ledger becomes the sweep's result; the result holds their number, their names, the state counts, every error grouped by message with its number of occurrences, and the image counts of the updated table |
| Aggregate.SweepJobs | services/batch/batch_service.py:636-669 | the in-place sweep equals `SweepAll`, one poll per job, with an exception caught per job |
| Aggregate.RecordOutcomes | services/batch/batch_service.py:644-669 | the counters and groups are exactly those of all outcomes |
| Aggregate.JobRows | services/batch/batch_service.py:695 | the job rows in insertion order |
| Aggregate.OverallStatistics | services/batch/batch_service.py:685-724 | totals and counts by status of all jobs and images; only FAILED rows with a non-empty message are grouped, and no job is listed |
| Aggregate.TallyJobStatuses | services/batch/batch_service.py:698-708 | the job loop computes `CountStatuses` |
| Aggregate.TallyFailedImages | services/batch/batch_service.py:713-724 | the image loop computes `CountImages` and the failed-message groups |
| Sync.CharLines | services/sync/sync_service.py:40-44 | a characteristic line is emitted exactly for the items whose label and value are both non-empty |
| Sync.EmptyProductMarkdown | services/sync/sync_service.py:26-70 | an empty reply renders as "" |
| Sync.DescriptionOnlyMarkdown | services/sync/sync_service.py:49-70 | a reply with only a description renders as its "## Описание" section |
| Sync.GalleryNumbering | services/sync/sync_service.py:59-68 | the heading of gallery image `i` is numbered `i + 1` whenever it is rendered |
| Sync.SkippedImageKeepsNumbering | services/sync/sync_service.py:59-68 | an image without alt or title still consumes its number |
| Sync.BeforeLast | services/sync/sync_service.py:118-122 | the text before the last occurrence of a character, or None when it is absent |
| Sync.BeforeLastCount | services/sync/sync_service.py:122 | the text before the last separator holds one separator fewer |
| Sync.ExtractModelNameMeaning | services/sync/sync_service.py:117-128 | None exactly when the stem has fewer than 3 underscores; otherwise the text before the third-from-last underscore of the stem |
| Sync.BeforeLastOf | services/sync/sync_service.py:118 | the text before the last `c` of `a + c + b` (with `b` free of `c`) is `a` |
| Sync.OutputFilenameRoundTrip | services/sync/sync_service.py:117-126 | an output file name, whose order number has no "_" and whose slug has no ".", yields back its slug |
| Sync.ModelOrder | services/sync/sync_service.py:144-152 | the slugs in first-seen order, without duplicates |
| Sync.ModelOrderMeaning | services/sync/sync_service.py:144-152 | a slug is listed exactly when some file's name yields it |
| Sync.FileGroupsMeaning | services/sync/sync_service.py:144-152 | the groups are keyed by the slugs, and each holds the ids of the files yielding it, in input order |
| Sync.IdsForAbsent | services/sync/sync_service.py:144-152 | a slug no file yields has no ids |
| Sync.GroupFiles | services/sync/sync_service.py:130-154 | the grouping loop computes the slug order and the groups |
| Sync.PageUrls | services/sync/sync_service.py:169-186 | a duplicate-free list of exactly the non-empty page URLs of SUCCEEDED rows whose slugged model is the slug |
| Sync.PageUrlsForModel | services/sync/sync_service.py:156-186 | the query loop computes `PageUrls` |
| Sync.RequestKeepsBalance | services/sync/sync_service.py:260-274 | one request keeps sent = success + failed and responses = success, and records the URL as sent |
| Sync.RequestAllKeepsBalance | services/sync/sync_service.py:260-274 | a list of URLs keeps the balance and adds exactly those URLs to the sent set |
| Sync.RequestModelsKeepBalance | services/sync/sync_service.py:248-274 | from any balanced state, the loop over the models stays balanced and adds exactly the union of their page URLs to the URLs sent |
| Sync.RequestModelsBalanced | services/sync/sync_service.py:248-274 | a whole run keeps sent = success + failed and responses = success, each URL is requested at most once, and the URLs sent are exactly the page URLs of the listed models |
| Sync.RequestAllPrefix | services/sync/sync_service.py:260-274 | the request fold extended by one URL is one more request |
| Sync.SendPageUrls | services/sync/sync_service.py:260-274 | the URL loop computes `RequestAll` |
| Sync.SendModels | services/sync/sync_service.py:250-274 | the model loop computes `RequestModels` |
| Sync.MarkVanished | services/sync/sync_service.py:310-318 | the sweep keeps the table's ids |
| Sync.MarkVanishedMeaning | services/sync/sync_service.py:302-318 | exactly the SUCCEEDED, unpublished rows with a result file that no longer exists become DELETED; every other row is unchanged |
| Sync.CountVanishedMeaning | services/sync/sync_service.py:310-322 | the count is the number of rows that became DELETED |
| Sync.CheckDeletedFiles | services/sync/sync_service.py:287-322 | the table becomes `MarkVanished`, and the count is returned |
| Sync.SweepVanished | services/sync/sync_service.py:310-318 | the sweep loop computes `MarkVanished` and its count |
| Sync.MarkVanishedUntouched | services/sync/sync_service.py:310-318 | rows after the sweep's position are not yet touched |
| Sync.SyncResult.constructor | services/sync/sync_service.py:73-85 | every counter is 0 and every list is empty |
| Sync.NoFilesNoRequests | services/sync/sync_service.py:234-240 | with no files, every counter but the deleted count is 0 and nothing is requested |
| Sync.SyncFiles | services/sync/sync_service.py:214-285 | the deleted-file sweep runs exactly when `check_deleted` is set, with or without files; the result equals `SyncOutcome` of the files, the table and the gateway |
| Sheets.Worksheet.constructor | services/google_sheets/google_sheets.py:43 | a worksheet holds the rows it was read with |
| Sheets.Body | services/google_sheets/google_sheets.py:48 | `all_values[1:]`: the header row is skipped |
| Sheets.Counts | services/google_sheets/google_sheets.py:48-56 | models are counted exactly when they got an order number |
| Sheets.CountsMeaning | services/google_sheets/google_sheets.py:48-56 | a model is counted exactly when it occurs, by its number of occurrences |
| Sheets.OccurrencesPositive | services/google_sheets/google_sheets.py:48-56 | a model occurs exactly when some row of 2 or more cells has it as its stripped, non-empty model |
| Sheets.OccurrencesTwo | services/google_sheets/google_sheets.py:48-56 | two rows of the same model count at least twice |
| Sheets.OccurrencesOne | services/google_sheets/google_sheets.py:48-56 | a model in exactly one row counts once |
| Sheets.LastOrderIsLast | services/google_sheets/google_sheets.py:56 | the order number kept is that of the model's last row |
| Sheets.OrderNumbersKeys | services/google_sheets/google_sheets.py:48-63 | the map's keys are exactly the models of the usable rows |
| Sheets.OrderNumbersDuplicate | services/google_sheets/google_sheets.py:60-61 | a model in two rows maps to "" |
| Sheets.OrderNumbersSingle | services/google_sheets/google_sheets.py:62-63 | a model in one row maps to its stripped order number |
| Sheets.GetOrderNumbersMap | services/google_sheets/google_sheets.py:36-66 | the method returns `OrderNumbers` of the rows after the header |
| Sheets.TallyModels | services/google_sheets/google_sheets.py:48-56 | the counting loop computes the counts and last order numbers |
| Sheets.PopulatedOrderNumber | services/google_sheets/google_sheets.py:74-75 | each item keeps every field but its order number, which is the map's value, or "" for an unknown model |
| Sheets.PopulatedIdempotent | services/google_sheets/google_sheets.py:74-75 | populating twice is populating once |
| Sheets.PopulateOrderNumbers | services/google_sheets/google_sheets.py:68-79 | the items are updated in place as `Populated` says, and the same array is returned |
| Sheets.UrlsMeaning | services/google_sheets/google_sheets.py:89-93 | a URL is collected exactly when it is the non-empty stripped column H of a row with 8 or more cells |
| Sheets.UrlsAppend | services/google_sheets/google_sheets.py:89-93 | the URLs of two row lists are the union of their URLs |
| Sheets.GetExistingUrls | services/google_sheets/google_sheets.py:81-96 | the method returns the URLs of the rows after the header |
| Sheets.NewItems | services/google_sheets/google_sheets.py:109 | the new items are items whose URL is not known |
| Sheets.ResultRows | services/google_sheets/google_sheets.py:115-128 | one row per new item |
| Sheets.NewItemsMeaning | services/google_sheets/google_sheets.py:109 | an item is new exactly when its URL is not already in the sheet |
| Sheets.ResultRowsUrls | services/google_sheets/google_sheets.py:117-128 | every written row carries its item's URL in column H |
| Sheets.ExistingUrlsAppend | services/google_sheets/google_sheets.py:130-132 | appending rows adds exactly their URLs |
| Sheets.WrittenUrlsKnown | services/google_sheets/google_sheets.py:106-132 | after the write, every item's URL is in the sheet |
| Sheets.WriteResultsIdempotent | services/google_sheets/google_sheets.py:106-136 | a second write of the same items adds nothing |
| Sheets.WriteResults | services/google_sheets/google_sheets.py:98-136 | exactly the rows of the new items are appended, and their number is returned (0 and no append when none are new) |
| Sheets.StrippedCells | services/google_sheets/google_sheets.py:157-174 | one stripped cell per cell |
| Sheets.Collect | services/google_sheets/google_sheets.py:153-176 | the filter keeps at most one record per row |
| Sheets.CollectSound | services/google_sheets/google_sheets.py:153-176 | every kept record comes from some row |
| Sheets.CollectComplete | services/google_sheets/google_sheets.py:153-176 | every row's record is kept |
| Sheets.CollectMeaning | services/google_sheets/google_sheets.py:153-176 | a record is kept exactly when some row yields it |
| Sheets.PendingRecordsMeaning | services/google_sheets/google_sheets.py:153-176 | the pending records are exactly those of rows of 8 or more cells, with a status other than "Готово" or "И так классно" and a non-empty custom prompt |
| Sheets.PendingPageUrl | services/google_sheets/google_sheets.py:173-174 | the page URL is "" for a row of fewer than 9 cells, else stripped column I; the URL is stripped column H |
| Sheets.GetPendingImages | services/google_sheets/google_sheets.py:138-181 | the method returns the pending records of the rows after the header |
| Sheets.FirstMatch | services/google_sheets/google_sheets.py:196-202 | the index of the first body row with that URL, or None when there is none |
| Sheets.MarkImageAsDone | services/google_sheets/google_sheets.py:183-205 | the first matching row (sheet row = index + 2) gets status "Готово" and True is returned; with no match, nothing changes and False is returned |
| Sheets.MatchCount | services/google_sheets/google_sheets.py:226-232 | the count is at most the number of body rows |
| Sheets.MatchCountNone | services/google_sheets/google_sheets.py:217-218 | no URLs match nothing |
| Sheets.MarkAllIdempotent | services/google_sheets/google_sheets.py:226-232 | marking twice is marking once |
| Sheets.MarkedNotPending | services/google_sheets/google_sheets.py:217-235 | after marking, no pending record has a marked URL |
| Sheets.MarkImagesAsDone | services/google_sheets/google_sheets.py:207-235 | every row whose URL is in the set gets status "Готово", and the number of such rows is returned (0 and no change for an empty list) |
| Sheets.MarkRows | services/google_sheets/google_sheets.py:226-232 | the marking loop computes `MarkAll` and its count |
| Publish.StageRows | services/bot/handlers/publish.py:64-110 | the staged rows are rows of the table still needing a caption for this model whose file exists and downloads, with their photo and the name `{model_name}_{id}` at the same position |
| Publish.StageRowsComplete | services/bot/handlers/publish.py:64-110 | every row needing a caption whose file exists and downloads is staged |
| Publish.StageRowsDistinct | services/bot/handlers/publish.py:94-110 | no row is staged twice |
| Publish.AssignFirst | services/bot/handlers/publish.py:122-135 | the assignment keeps the table's ids |
| Publish.AssignFirstMeaning | services/bot/handlers/publish.py:122-135 | the `i`-th staged row gets the `i`-th description's alt, title and caption (each "" by default), and unstaged rows are unchanged |
| Publish.CaptionModel | services/bot/handlers/publish.py:56-142 | one reply keeps the table's ids |
| Publish.CaptionAll | services/bot/handlers/publish.py:56-142 | all replies keep the table's ids |
| Publish.CaptionOnlyTransitive | services/bot/handlers/publish.py:56-142 | the caption-only relation composes over replies |
| Publish.CaptionModelMeaning | services/bot/handlers/publish.py:56-142 | a reply changes only staged rows of its model that needed a caption, and only by captioning them; the counter grows by at most the number of rows |
| Publish.CaptionModelPositional | services/bot/handlers/publish.py:115-137 | descriptions are assigned positionally: extras are ignored, rows beyond the list keep what they had, and the counter grows by the number written |
| Publish.CaptionAllOnlyCaptions | services/bot/handlers/publish.py:56-142 | over all replies, a row changes only in its alt, title and description (all three then set), and only if it was SUCCEEDED, unpublished, with a result file and missing a title or description |
| Publish.AssignPositional | services/bot/handlers/publish.py:122-135 | with `min(len(descriptions), len(staged))` writes, staged row `i` gets description `i` when there is one and is otherwise unchanged |
| Publish.StagePhotos | services/bot/handlers/publish.py:90-110 | the staging loop computes `StageRows` |
| Publish.WriteDescriptions | services/bot/handlers/publish.py:122-135 | the writing loop computes `AssignFirst` for as many rows as there are descriptions |
| Publish.CaptionReplies | services/bot/handlers/publish.py:56-142 | the reply loop computes `CaptionAll` |
| Publish.GenerateDescriptions | services/bot/handlers/publish.py:54-147 | the table becomes the captioned table and the counter is returned |
| Publish.Candidates | services/bot/handlers/publish.py:153-161 | candidates are rows that are SUCCEEDED, have a result file, title and description, and are unpublished |
| Publish.CandidatesComplete | services/bot/handlers/publish.py:153-161 | every such row is a candidate, once |
| Publish.CaptionedIsCandidate | services/bot/handlers/publish.py:153-161 | a captioned, SUCCEEDED, unpublished row with a result file is a publish candidate |
| Publish.PublishOne | services/bot/handlers/publish.py:173-233 | one publish step keeps the table's ids |
| Publish.PublishAll | services/bot/handlers/publish.py:173-233 | the publish loop keeps the table's ids |
| Publish.PublishOneRows | services/bot/handlers/publish.py:173-233 | one step changes only its own row, only in CMS id and published flag; a stored CMS id is kept, and a row becomes published only if it has a page URL and the gallery call answered success |
| Publish.PublishOneCounters | services/bot/handlers/publish.py:173-233 | an upload happens only without a CMS id; `published_count` grows exactly when the row becomes published; `error_count` grows by at most one and never together with publication; the source URL is kept exactly when the row becomes published |
| Publish.UploadCommitted | services/bot/handlers/publish.py:193-204 | after an upload the row holds the new id whatever the gallery answered, and a later pass reuses it without uploading |
| Publish.NoPageUrlIsNoError | services/bot/handlers/publish.py:207-209 | a row without page URL is never published and is not counted as an error unless its CMS id failed |
| Publish.PublishedFrame | services/bot/handlers/publish.py:219-228 | the published count and URLs depend only on the listed rows |
| Publish.PublishAllRow | services/bot/handlers/publish.py:173-233 | over distinct unpublished ids, the loop changes only those rows and only as allowed |
| Publish.PublishAllCounts | services/bot/handlers/publish.py:169-233 | the loop counts exactly the rows it published, keeps exactly their source URLs in order, and charges each row at most once |
| Publish.PublishAllUploads | services/bot/handlers/publish.py:175-204 | the loop uploads only rows that had no CMS id |
| Publish.PublishRunRows | services/bot/handlers/publish.py:152-233 | only candidates change, and only as allowed |
| Publish.PublishRunCounts | services/bot/handlers/publish.py:152-233 | `published_count` is the number of candidates now published, the URLs are exactly theirs, no candidate is charged twice, and only candidates without a CMS id are uploaded |
| Publish.PublishImage | services/bot/handlers/publish.py:174-233 | the loop body computes `PublishOne` |
| Publish.PublishLoop | services/bot/handlers/publish.py:173-233 | the loop computes `PublishAll` from zero counters |
| Publish.PublishImages | services/bot/handlers/publish.py:149-243 | the table becomes the publish run's result, and the sheet is marked for the collected URLs only when there are some |
| Publish.HandlePublishImages | services/bot/handlers/publish.py:54-243 | captions first, then publishing from the captioned table and marking the sheet, with the counters of both steps |
| Formatters.StatsLinesNoNewline | services/bot/formatters.py:6-16 | none of the fixed lines nor the failure note contains a newline |
| Formatters.FormatStatsLines | services/bot/formatters.py:5-17 | the text splits back into the five fixed lines, followed by "" and the failure note exactly when a catalog or product failed |
| Formatters.InsertMultiset | services/bot/formatters.py:43 | inserting adds exactly the one item |
| Formatters.InsertSorted | services/bot/formatters.py:43 | inserting keeps counts non-increasing |
| Formatters.BelowHead | services/bot/formatters.py:43 | a sorted list with a smaller head has no item of a larger count |
| Formatters.InsertWithCount | services/bot/formatters.py:43 | inserting places the item after the others of the same count |
| Formatters.WithCountAppend | services/bot/formatters.py:43 | the items of a given count in a concatenation are those of each part, in order |
| Formatters.SortByCountSorted | services/bot/formatters.py:43 | the sort by `-count` is non-increasing |
| Formatters.SortByCountPermutes | services/bot/formatters.py:43 | the sort is a permutation |
| Formatters.SortByCountStable | services/bot/formatters.py:43 | the sort is stable: items of equal count keep their insertion order |
| Formatters.TopErrorsMeaning | services/bot/formatters.py:43-45 | exactly `min(10, n)` entries, in non-increasing count order, each from the groups, and no entry left out has a higher count than one kept |
| Formatters.Shorten | services/bot/formatters.py:47 | a message of more than 80 characters becomes its first 80 characters and "..."; shorter ones are unchanged |
| Formatters.ErrorLines | services/bot/formatters.py:43-48 | one line per kept error, none of them the heading |
| Formatters.ItemsOfEmpty | services/bot/formatters.py:40 | the groups' entries are empty exactly when the groups are |
| Formatters.StatusErrorSection | services/bot/formatters.py:20-50 | the heading appears exactly when there are grouped errors, the output is the 15 fixed lines plus "", the heading and one line per top error, and the counters appear verbatim |
| Formatters.HeadingNotInHead | services/bot/formatters.py:22-38 | the fixed part has 15 lines and none is the error heading |
| Description.FencedReply | services/image_description/image_description_service.py:241-250 | a reply fenced as "```tag\n" + body + "\n```" is cleaned to exactly the body |
| Description.Candidate | services/image_description/image_description_service.py:253-264 | no candidate exactly when "{" or "}" is missing |
| Description.CandidateOfWrapped | services/image_description/image_description_service.py:253-264 | with no "{" before and no "}" after, the candidate is the braced text itself |
| Description.CandidateInverted | services/image_description/image_description_service.py:253-264 | when every "}" precedes every "{", the slice `text[start:end + 1]` is the empty string |
| Description.SkipSpaces | services/image_description/image_description_service.py:277 | `\s*` matches the maximal run of whitespace |
| Description.SubsequenceSkip | services/image_description/image_description_service.py:277 | dropping characters keeps a subsequence |
| Description.KeptSkipsSpaces | services/image_description/image_description_service.py:277 | skipped whitespace does not change the non-comma, non-space characters |
| Description.RepairDeletes | services/image_description/image_description_service.py:277 | the repaired text is a subsequence of the candidate: the repair only deletes |
| Description.RepairKeepsOthers | services/image_description/image_description_service.py:277 | every character other than commas and whitespace is kept, in order |
| Description.RepairWithoutComma | services/image_description/image_description_service.py:277 | text without a comma is left alone |
| Description.RepairDropsComma | services/image_description/image_description_service.py:277 | a comma, whitespace and a closer become just the closer |
| Description.ParseResponse | services/image_description/image_description_service.py:229-296 | every failure returns the original text as `raw_response` |
| Description.ParseNotFound | services/image_description/image_description_service.py:256-262 | the "JSON structure not found" failure happens exactly when the cleaned text lacks "{" or "}" |
| Description.DecodeErrorIsNotNotFound | services/image_description/image_description_service.py:279-289 | the two failure messages are different |
| Description.ParseDecoded | services/image_description/image_description_service.py:264-282 | the result is decoded JSON exactly when the candidate decodes, or fails to decode and its repair does |
| Description.FallbackNamesDistinct | services/image_description/image_description_service.py:101-103 | fallback names `image_{i}` of different positions differ |
| Description.ImagePartsOk | services/image_description/image_description_service.py:98-112 | when every resize succeeds, there is one JPEG part per photo, the resized photo under its filename (`filenames[i]` or `image_{i}`) |
| Description.ImagePartsErr | services/image_description/image_description_service.py:98-112 | a failed preparation is the error of the first photo whose resize failed |
| Description.ImagePartsFailed | services/image_description/image_description_service.py:98-112 | photos after the first failing one do not matter |
| Description.GenerateDescriptions | services/image_description/image_description_service.py:72-142 | empty input gives [] with no request; a resize or API failure propagates; otherwise one request of the image parts plus the prompt is sent, and the result is the parsed `images` list ([] when absent or unparsed) |
| Parser.FlattenMembers | services/parser/parser.py:72-74 | a URL is collected exactly when some category lists it |
| Parser.ParseMenu | services/parser/parser.py:67-76 | a failed menu fetch propagates; otherwise the catalog URLs of all categories in order |
| Parser.ExtractCategoryFirst | services/parser/parser.py:116-122 | the category is that of the first "Product" node ("достал херню" when it has none) |
| Parser.ExtractCategoryNone | services/parser/parser.py:116-122 | with no "Product" node the category is "не найдено" |
| Parser.ParseProduct | services/parser/parser.py:93-114 | one record per gallery image, positions 1..n in order, image URL = CDN + full_jpeg (or ""), with the product's model, category and page URL, and an empty order number |
| Parser.CatalogsCounts | services/parser/parser.py:30-41 | parsed + failed catalogs = the number of catalogs, one error per failure |
| Parser.ChairsPageIgnored | services/parser/parser.py:81-83 | the chairs catalog is never fetched: the pass does not depend on what its page would return |
| Parser.ProductsCounts | services/parser/parser.py:45-55 | parsed + failed products = the number of products, one error per failure, and `images_total` = the number of records |
| Parser.ProductsAppend | services/parser/parser.py:45-55 | one more product adds its records when its page parses, and nothing otherwise |
| Parser.ParseCatalogs | services/parser/parser.py:26-43 | the catalog loop adds the pass's counts and errors to the stats and returns its product URLs |
| Parser.ParseProducts | services/parser/parser.py:43-55 | the product loop adds the pass's counts and errors to the stats and returns its records |
| Parser.Parse | services/parser/parser.py:13-65 | a menu failure gives no records and exactly one error with all totals 0; otherwise parsed + failed = total for catalogs and products, `images_total` = the number of records, and one error per failure |

## Left out

- I/O, logging and the manifest temp file are not modelled (the file's creation, the debug log at services/batch/batch_service.py:121, the `unlink`). The manifest is modelled as its list of lines.
- Submission.CreateBatchJob: services/batch/batch_service.py:121 as written is a syntax error: `+` is missing between `". "` and `BASE_PROMPT` inside the f-string. Python before 3.12 ends the f-string at the inner quote, and 3.12 and later reject a string literal followed by a name. So the module, and everything that imports `services.batch`, does not load as given. The model assumes that line reads `task.custom_prompt + ". " + BASE_PROMPT`, as lines 128 and 207 do. Since the line only logs, nothing else in the model depends on it.
- The Gemini client, Google Drive, the CMS gateway and httpx are oracle parameters. Their exceptions are the `Err`/`None` of those oracles. Base64 decoding, JSON parsing and serialisation, `slugify`, `uuid4` and `datetime.now` are parameters too.
- `_resize_image_for_api` is a `resize` oracle. PIL image I/O and the float scaling are not modelled, and photo bytes are opaque.
- The prompt texts are not spelled out. The description request's prompt is `PromptPart(markdown, imagesCount)`, and `BASE_PROMPT` is a named constant.
- The database session is not modelled: queries are filters over the ledger maps in insertion order. The only commit failure modelled is a duplicate key at submission. Other commit exceptions are not modelled.
- Sync.PageUrls: the list is in first-seen order, whereas the source returns `list(set(...))`, whose order is unspecified.
- The bot's UI, the per-stage asyncio locks and the concurrency between handlers are not modelled. The pending-jobs guard in the generation handler is not part of this model.
- Sheets.WriteResults: column G (the attempt number) is written as the string "0", whereas the source writes the integer 0.
- `get_all_values`, `append_rows` and `update_cell` are reads and writes of `Worksheet.rows`, and their network failures are not modelled.
- Strings.ParseInt accepts optional surrounding whitespace, a sign and ASCII digits. It does not accept underscores or non-ASCII digits, which Python's `int` does.
- Strings.IsSpace covers ASCII and Latin-1 whitespace, not every Unicode space that Python's `strip` and `\s` recognise.
- Publish.ProductReply: a gateway reply is abstracted to its model name and product data. A description entry is typed as a `map<string, string>`, so an entry that is not a dict cannot be represented: in the source its `.get` at services/bot/handlers/publish.py:132 raises `AttributeError`, which the handler at lines 139-141 catches for that model, after the earlier entries of the same reply were already assigned and counted in `descriptions_generated`.
- Formatters.TopErrorsMeaning: `errors_grouped.items()` is taken as the dict's entries in insertion order, via the `ItemsOf` relation.
- Description.ParseResponse: the "Unexpected error" branch at services/image_description/image_description_service.py:291-296 is not modelled. `json.loads` can raise exceptions other than `JSONDecodeError` (a `RecursionError` on deeply nested braces, for instance), and those reach that branch in the source; the `decode` parameter folds every failure into the decode-error path, so the model answers "JSON decode error" there instead.
- Parser.ParseProduct: a product page without a "url" key (page URL `None`) is not modelled. The page URL is a string.
- Parser.ParseMenu: the menu and catalogue JSON are abstracted to lists of URLs. Exceptions inside `parse_product` are the `Err` of the product-page oracle.
- Migrations, configuration, credential loading, the one-off download script and the `GoogleDriveService`/`GatewayClient` wrappers are not part of this model.
- Aggregate.CheckAndDownloadResults: image counts are taken after the sweep, as in the source. The sweep order is the table's insertion order.

## Findings

| source | as written | input that shows it | evidently intended | confidence | as-written member | corrected member |
|---|---|---|---|---|---|---|
| services/batch/batch_service.py:243-246 | `check_job_status` stores `job_info.state.name` (a `JOB_STATE_*` name) as the job's status. It then tests that name against "SUCCEEDED", "FAILED" and "CANCELLED" before setting `completed_at`. | provider state `JOB_STATE_SUCCEEDED`: the status becomes "JOB_STATE_SUCCEEDED" and `completed_at` stays unset; likewise `JOB_STATE_RUNNING` on a PENDING job takes it out of the default sweep | map the state to the short vocabulary used by `_download_batch_results` (lines 338-346), and stamp `completed_at` for a terminal state | not executed | Poll.CheckedJobNeverCompletes | Poll.CheckedJobCorrectedAgreesWithPoll |

`Poll.CheckJobStatus` is the operation as written; `Poll.CheckJobStatusCorrected` is the same operation with the corrected update, and `Aggregate.CheckedJobLeavesSweep` / `Aggregate.CorrectedCheckKeepsSweep` state the consequence for the default sweep of each.
