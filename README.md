# jobseeker-analytics: the mail-ingestion backend, modelled in Dafny

jobseeker-analytics reads a job seeker's Gmail, classifies each job-search
mail with a language model (company, status, job title), stores the results
per user and serves statistics, charts and a CSV export over them. This
project models the deterministic core of its Python backend:

- the ingestion task (`fetch_and_process_emails`): the one-hour cooldown, the
  resume-or-reset decision, the loop over message ids with its storage
  dedup, phrase cache, classifier call, normalisation, false-positive drop,
  checkpoints and quota handling, the final bulk insert, `on_failure` and
  `get_processing_status`;
- the retry and rate-limit policy: the sliding-window limiter, the phrase
  cache, the batch accumulator, the rate-limit error parser and the retry
  decision;
- the keyword status predictor and its keyword table, with the cases of its test;
- the storage helpers: the dedup gate and address-prefix cleaning for stored
  mails, the test-email table with its CRUD operations, the fixture mails
  and the mock Gmail service;
- the provider-reply cleaning and provider dispatch of both language-model
  utility files;
- the integer parts of the statistics and export routes;
- the evaluation helpers of the local zero-shot classification script.

One module per source file:

| module | file |
|---|---|
| `EmailTasks` | email_tasks.dfy |
| `LlmOptimization` | llm_optimization.dfy |
| `GeminiRetry` | gemini_retry.dfy |
| `StatusPredictor` | status_predictor.dfy |
| `Constants` | constants.dfy |
| `UserEmailUtils` | user_email_utils.dfy |
| `TestEmailUtils` | test_email_utils.dfy |
| `TestEmailData` | test_email_data.dfy |
| `MockGmailService` | mock_gmail_service.dfy |
| `LlmUtilsMulti` | llm_utils_multi.dfy |
| `LlmUtilsFixed` | llm_utils_fixed.dfy |
| `StatsRoutes` | stats_routes.dfy |
| `FileRoutes` | file_routes.dfy |
| `LocalMailClassification` | local_mail_classification.dfy |
| `TestStatusPredictor`, with one `PredictorCase...` module per test case | test_status_predictor.dfy |

Four helper modules carry shared definitions:

- `Wrappers` has `Option` and `Result`.
- `Strings` has ASCII case, Python's `strip`, substring search, character removal and replacement, slices and string order.
- `Counts` models an insertion-ordered dict of counts, with `Tally` as the dict a counting loop builds.
- `JobEmails` has the stored-mail record the routes read and the route reply type.

Everything the code reads from outside becomes a parameter: Gmail, the
language models, the database session, the clock, the environment and the
regular-expression engine. The ingestion task takes them as an `Env` value;
the routes and the scripts take explicit oracle functions. Where an object
updates its own fields, the model is a class with `modifies` clauses:

- `EmailTasks` keeps the tables of task runs and stored mails;
- `BatchProcessor`;
- `RateLimitManager`;
- `TestEmailStore`.

Each such method is proved against a pure specification function.

The source's own defects are stated as lemmas about the code as written:

- **A Gemini-mode cache miss never reaches the provider.** The limiter has no `get_wait_time`, so the call raises an error that is not a quota error (`GeminiCacheMissDropped`).
- **Outside Gemini mode, a quota error loses the buffered rows.** The one-argument retry stub raises a TypeError that leaves the task (`QuotaErrorEscapesOutsideGemini`).
- **An aborted run is never resumed** (`FinishedRunRestartsFromZero`, `ResumeOnlyAfterUnreportedFailure`).
- **A successful retry is thrown away** (`SuccessfulRetryDiscarded`).
- **An unknown quota error with no hint always aborts** (`UnknownQuotaErrorStopsLoop`).
- **The evaluation script's accuracy is always zero.** No candidate label is a key of its label map (`CandidateLabelsNeverCorrect`, `AccuracyAlwaysZero`).

## Model

| member | source | states |
|---|---|---|
| EmailTasks.Admit | backend/tasks/email_tasks.py:85-115 | turned away exactly when a record exists, is FINISHED and was updated less than 3600 s ago, with next_allowed = updated + 3600; otherwise a STARTED record with the task id, keeping and resuming from processed_emails when it was STARTED with a positive total, and otherwise resetting counters and error to zero/None with resume point 0 |
| EmailTasks.Normalize | backend/tasks/email_tasks.py:229-232 | same keys; every falsy value becomes "unknown" and every truthy one is kept |
| EmailTasks.NormalizeResult | backend/tasks/email_tasks.py:229-232 | the in-place loop over the dict's keys computes Normalize |
| EmailTasks.TryItem | backend/tasks/email_tasks.py:204-255 | one item's try block (fetch, cache or provider, normalisation, false-positive drop, row creation) equals the specification ItemBody |
| EmailTasks.HandleException | backend/tasks/email_tasks.py:257-280 | the except block equals the specification HandleError |
| EmailTasks.EmailTasks.constructor | backend/tasks/email_tasks.py:83-85 | the store starts with the given run records, stored mails and users |
| EmailTasks.EmailTasks.FetchAndProcessEmails | backend/tasks/email_tasks.py:60-303 | the reply and the new run and mail tables are those of the specification Run on the old tables; the users are unchanged |
| EmailTasks.EmailTasks.RunAdmitted | backend/tasks/email_tasks.py:117-303 | after admission: the credentials and user checks, the listing, the loop and the finish equal the specification Admitted |
| EmailTasks.EmailTasks.ProcessMessages | backend/tasks/email_tasks.py:177-284 | the loop state is the specification Loop from position 0; only the user's run record changes and stored mails are untouched until the insert |
| EmailTasks.EmailTasks.OnFailure | backend/tasks/email_tasks.py:46-56 | with a non-empty user id naming a stored run, that run becomes FINISHED with the error text; otherwise nothing changes |
| EmailTasks.EmailTasks.ExecuteTask | backend/tasks/email_tasks.py:46-56 | the task, then on_failure exactly when it raised |
| EmailTasks.EmailTasks.GetProcessingStatus | backend/tasks/email_tasks.py:307-320 | "not_started" exactly when the user has no run record; otherwise the record's status, counters, stamp and task id |
| EmailTasks.OwnErrorsAreNotQuota | backend/tasks/email_tasks.py:259 | the missing-attribute, lower() and KeyError texts the task itself raises are not quota errors |
| EmailTasks.CachedAnswerStatus | backend/tasks/email_tasks.py:210-214 | a trusted cache answer carries one of the three cached statuses |
| EmailTasks.ClassifiedFacts | backend/tasks/email_tasks.py:236-255 | the classified step adds one skip for a false positive, or buffers one new, storable row, or changes nothing, and raises no quota error |
| EmailTasks.ItemBodyFacts | backend/tasks/email_tasks.py:204-255 | the try block changes at most one counter or buffers one new row; in Gemini mode it never calls the provider and raises a quota error only when the fetch did |
| EmailTasks.HandleErrorFacts | backend/tasks/email_tasks.py:257-280 | a non-quota error is logged and checkpointed; the loop stops only in Gemini mode with "Rate limited: " + error, and escapes only outside it; counters and buffer are kept |
| EmailTasks.LoopKeepsInv | backend/tasks/email_tasks.py:177-284 | the loop invariant holds at the loop's end: one buffered row per processed mail, each new and from a visited position, at most one count per position, checkpoints past the resume point |
| EmailTasks.InsertFacts | backend/tasks/email_tasks.py:286-290 | the bulk insert of rows with new distinct keys adds exactly those rows and keeps every stored one |
| EmailTasks.FinishFacts | backend/tasks/email_tasks.py:286-303 | after the loop: the success reply, the FINISHED record and the stored rows, or the raised error; on success processed + skipped <= len(messages) - resume point |
| EmailTasks.RunTable | backend/tasks/email_tasks.py:252-255 | stored mails change only on success; then every old row stays, exactly `processed` new rows of listed ids appear, and processed + skipped <= total - min(resume point, total) for the resume point the run was admitted with (also lines 287-290, 298-303) |
| EmailTasks.RunTouchesOnlyItsUser | backend/tasks/email_tasks.py:87-98 | a rate-limited call changes nothing; any other call rewrites only its own user's run record |
| EmailTasks.RunStatus | backend/tasks/email_tasks.py:118-158 | every reply leaves the record FINISHED, with "Invalid credentials" / "User not found" for those replies; a raise leaves it STARTED; after success the total is the listing's length and the checkpoint is the admitted one or lies past the resume point within the listing (also lines 292-294) |
| EmailTasks.RunFailureReasons | backend/tasks/email_tasks.py:140 | the task raises only for a non-ISO last_updated, a failed listing, a quota error reaching the one-argument stub outside Gemini mode, or a listing that repeats an id (also lines 152, 261, 288) |
| EmailTasks.FinishedRunRestartsFromZero | backend/tasks/email_tasks.py:90-111 | a FINISHED record is either turned away by the cooldown or restarted from 0 with a reset record |
| EmailTasks.ResumeOnlyAfterUnreportedFailure | backend/tasks/email_tasks.py:46-56 | after any reply, or after a failure reported with the user id, the next admission is turned away or starts from 0 (also lines 101-111, 277, 293) |
| EmailTasks.ResumeSkipsEarlierPositions | backend/tasks/email_tasks.py:177-180 | from any position below the resume point the loop ends exactly as the loop started at the resume point (or at the listing's end), so those positions see no fetch, no provider call and no checkpoint |
| EmailTasks.StoredMailSkipped | backend/tasks/email_tasks.py:194-200 | an id already stored for the user adds one skip and checkpoints idx+1 without a fetch |
| EmailTasks.GeminiCacheMissDropped | backend/tasks/email_tasks.py:216-226 | in Gemini mode a cache miss raises the missing get_wait_time error, is logged and checkpointed, with no row and no provider call (also lines 278-284) |
| EmailTasks.QuotaErrorEscapesOutsideGemini | backend/tasks/email_tasks.py:30 | outside Gemini mode a quota error leaves the loop with the stub's TypeError (also lines 259-261) |
| EmailTasks.UnknownQuotaErrorStopsLoop | backend/tasks/email_tasks.py:261-277 | in Gemini mode an unknown-kind quota error with no hint records "Rate limited: " + error and stops the loop |
| EmailTasks.GeminiLoopCallsNoProvider | backend/tasks/email_tasks.py:216-226 | in Gemini mode, with no quota error from a fetch, the whole loop makes no provider call (also lines 268) |
| EmailTasks.StatusAfterSuccess | backend/tasks/email_tasks.py:293 | after a success the status reply is FINISHED with the listed total, stamped now, with the task id (also lines 307-320) |
| EmailTasks.SuccessfulRetryDiscarded | backend/tasks/email_tasks.py:263-268 | a retry that succeeds calls the provider once more and checkpoints the item with no row (also lines 283-284) |
| EmailTasks.FailedRetrySkipsCheckpoint | backend/tasks/email_tasks.py:263-271 | a Gemini-mode retry that cannot run or whose provider call raises ends in `continue`: no checkpoint for the item, the loop goes on, record and buffer kept |
| LlmOptimization.SectionsInOrder | backend/utils/llm_optimization.py:26-47 | the prompt for a prefix of the batch followed by the next mail's section is a prefix of the whole prompt |
| LlmOptimization.BatchProcessor.constructor | backend/utils/llm_optimization.py:15-17 | an absent or zero size falls back to the setting; the batch starts empty |
| LlmOptimization.BatchProcessor.AddEmail | backend/utils/llm_optimization.py:19-24 | appends exactly the mail and answers whether the batch length reached the batch size |
| LlmOptimization.BatchProcessor.GetBatchPrompt | backend/utils/llm_optimization.py:26-47 | the prompt is the header followed by one numbered section per mail, in order; the batch is unchanged |
| LlmOptimization.BatchProcessor.ClearBatch | backend/utils/llm_optimization.py:49-51 | the batch becomes empty and the size is kept |
| LlmOptimization.Prune | backend/utils/llm_optimization.py:63-66 | keeps exactly the timestamps less than 60 s older than now and drops every other; never longer than the window |
| LlmOptimization.PruneCounts | backend/utils/llm_optimization.py:66 | each recent timestamp is kept as many times as it was recorded; an older one not at all |
| LlmOptimization.PruneAppend | backend/utils/llm_optimization.py:66 | the comprehension distributes over concatenation, so the kept timestamps stay in their recorded order |
| LlmOptimization.RateLimitManager.constructor | backend/utils/llm_optimization.py:57-59 | no timestamps, the given limit |
| LlmOptimization.RateLimitManager.CanMakeRequest | backend/utils/llm_optimization.py:61-69 | prunes the window, then admits iff fewer than requests_per_minute remain |
| LlmOptimization.RateLimitManager.RecordRequest | backend/utils/llm_optimization.py:71-73 | appends exactly now and changes nothing else |
| LlmOptimization.RateLimitManager.WaitTime | backend/utils/llm_optimization.py:75-83 | prunes the window; the answer is 0 when admissible, else 60 - (now - oldest) + 1 |
| LlmOptimization.WaitTimeBounds | backend/utils/llm_optimization.py:75-83 | with no future timestamps and a positive limit, the wait is 0 exactly when a request is admissible, and otherwise lies in (1, 61] |
| LlmOptimization.FirstHitFrom | backend/utils/llm_optimization.py:112-121 | the first table index at or after `from` whose phrase occurs and whose confidence exceeds 85, or None if there is none |
| LlmOptimization.CheckPatternCache | backend/utils/llm_optimization.py:112-121 | a result exactly when some entry's phrase occurs in the lower-cased text with confidence above 85; then it is the first such entry in table order |
| LlmOptimization.LowConfidenceEntriesUnreachable | backend/utils/llm_optimization.py:93-96 | the "unfortunately" and "interview" entries (80) are never returned; a cached answer has confidence above 85 (also lines 105-108, 117) |
| GeminiRetry.HintOr | backend/utils/gemini_retry.py:24-25 | a non-zero hint wins; an absent or zero hint gives the default (also lines 31) |
| GeminiRetry.ParseRateLimitError | backend/utils/gemini_retry.py:11-50 | rpm iff the text mentions "per minute"/"rpm"; daily iff not rpm and it mentions "per day"/"daily"/"resource_exhausted"; unknown otherwise; a non-zero hint replaces the defaults 60, seconds to UTC midnight, 300 |
| GeminiRetry.ShouldRetryTask | backend/utils/gemini_retry.py:53-84 | (False, 0) for a daily limit over 3600; (True, wait) for rpm; otherwise (True, min(wait, 300*2^attempt)) while attempts remain, else (False, 0) |
| GeminiRetry.RpmWinsOverDaily | backend/utils/gemini_retry.py:28-34 | text matching both the rpm and the daily words is rpm |
| GeminiRetry.DailyDefaultWaitBounds | backend/utils/gemini_retry.py:36-42 | the default daily wait lies in (0, 86400] |
| GeminiRetry.RpmAlwaysRetried | backend/utils/gemini_retry.py:76-77 | an rpm limit is retried at every attempt number with the same wait |
| GeminiRetry.RefusalIsFinal | backend/utils/gemini_retry.py:70-84 | once an attempt is refused, every later attempt is refused too |
| GeminiRetry.UnknownWithoutHintWaits300 | backend/utils/gemini_retry.py:48 | an unknown-kind error with no hint is retried, if at all, after exactly 300 s (also lines 80-82) |
| GeminiRetry.CalculateOptimalBatchSize | backend/utils/gemini_retry.py:87-105 | 1 when current <= target; otherwise min(max(1, trunc(current/target)), 10); always in [1, 10]; a zero target with a positive rate raises |
| Constants.KeywordStatusesAreStatuses | backend/constants.py:12-74 | every keyword's status is in ALL_STATUSES |
| Constants.NoKeywordMapsToNoResponse | backend/constants.py:13 | no keyword maps to "No Response" (also lines 25-74) |
| Constants.KeywordsAreLowercase | backend/constants.py:25-74 | every keyword is lower-case |
| Constants.PriorityIsNotByLength | backend/constants.py:22-42 | the shorter "unfortunately" precedes "offer of employment" in search order |
| StatusPredictor.FirstKeywordFrom | backend/status_predictor.py:15-19 | the first keyword at or after `from`, in table order, that occurs in the text, or None |
| StatusPredictor.PredictInterviewStatus | backend/status_predictor.py:4-20 | the result is in ALL_STATUSES; "No Response" iff no keyword occurs in lower(subject + " " + body); otherwise the status of the first keyword that occurs |
| StatusPredictor.CaseInsensitive | backend/status_predictor.py:12 | subjects and bodies equal up to letter case give the same prediction |
| StatusPredictor.MissingFieldsReadEmpty | backend/status_predictor.py:8-12 | a missing subject and body read as "" |
| TestStatusPredictor.FirstHitPredicts | backend/status_predictor.py:15-20 | when the first keyword, in table order, that occurs in the mail's text is keyword i, the prediction is keyword i's status |
| TestStatusPredictor.NoHitPredictsNoResponse | backend/status_predictor.py:20 | when no keyword occurs in the mail's text, the prediction is "No Response" |
| PredictorCaseInterviewConfirmation.Case | backend/tests/test_status_predictor.py:10 | ("Interview Confirmation", "Your interview is confirmed.") is predicted "Interview Scheduled" |
| PredictorCaseWhenAvailable.Case | backend/tests/test_status_predictor.py:15 | ("Availability", "When are you available to chat?") is predicted "Request for Availability" |
| PredictorCaseOnHold.Case | backend/tests/test_status_predictor.py:18 | ("Update", "Your application is currently on hold.") is predicted "On Hold" |
| PredictorCaseDecidedNotTo.Case | backend/tests/test_status_predictor.py:22 | ("Application Update", "We have decided not to move forward with your application.") is predicted "Rejection" |
| PredictorCaseNotTheRightFit.Case | backend/tests/test_status_predictor.py:23 | ("Thank you for your interest", "You are not the right fit for this position.") is predicted "Rejection" |
| PredictorCaseOfferOfEmployment.Case | backend/tests/test_status_predictor.py:26 | ("Job Offer", "We would like to extend an offer of employment.") is predicted "Offer Extended" |
| PredictorCaseCongratulations.Case | backend/tests/test_status_predictor.py:27 | ("Congratulations!", "We are pleased to congratulate you on your offer.") is predicted "Offer Extended" |
| PredictorCaseGenericEmail.Case | backend/tests/test_status_predictor.py:30 | ("A generic email", "This email has no keywords.") is predicted "No Response" |
| UserEmailUtils.CheckEmailExists | backend/db/utils/user_email_utils.py:22-31 | on a well-keyed table, true iff a stored row matches both the user id and the mail id |
| UserEmailUtils.CreateUserEmail | backend/db/utils/user_email_utils.py:34-56 | None for an unparsable date or an already-stored (user_id, id); otherwise the row copies the message fields with "from" as email_from |
| UserEmailUtils.BeforeAt | backend/db/utils/user_email_utils.py:60 | the prefix before the first '@', or the whole text |
| UserEmailUtils.DropPunctuation | backend/db/utils/user_email_utils.py:60 | keeps exactly the non-punctuation characters |
| UserEmailUtils.CleanEmailPrefixFacts | backend/db/utils/user_email_utils.py:58-61 | the cleaned prefix has no '@', punctuation, space or upper-case letter; a tab survives |
| UserEmailUtils.CleanEmailPrefixIdempotent | backend/db/utils/user_email_utils.py:58-61 | cleaning twice equals cleaning once |
| UserEmailUtils.EmailIsSimilarEquivalence | backend/db/utils/user_email_utils.py:63-76 | similarity is reflexive, symmetric and transitive |
| UserEmailUtils.DomainIgnored | backend/db/utils/user_email_utils.py:63-76 | addresses with the same local part are similar whatever their domains |
| LlmUtilsFixed.StripFencesNotLonger | backend/utils/llm_utils_fixed.py:62-71 | cleaning never lengthens the reply |
| LlmUtilsFixed.CleanReplyUnchanged | backend/utils/llm_utils_fixed.py:62-71 | a stripped reply without fences is unchanged |
| LlmUtilsFixed.FencedJsonCleans | backend/utils/llm_utils_fixed.py:62-71 | "```json\n" + x + "\n```" cleans to x for a stripped x |
| LlmUtilsFixed.ProcessGeminiReply | backend/utils/llm_utils_fixed.py:57-81 | None exactly for the empty reply; an API error is re-raised; any other failure is the parse error |
| LlmUtilsFixed.FencedReplyParses | backend/utils/llm_utils_fixed.py:62-74 | a reply fenced as "```json\n" + x + "\n```" gives the object parsed from x, or the parse error when x is not JSON |
| LlmUtilsFixed.Dispatch | backend/utils/llm_utils_fixed.py:13-24 | only "gemini" and "openai" are served; any other name raises "Unknown LLM provider: " + name |
| LlmUtilsFixed.DefaultProviderIsGemini | backend/utils/llm_utils_fixed.py:11 | unset gives Gemini; the variable's letter case never matters |
| LlmUtilsMulti.CleanGeminiResponseFacts | backend/utils/llm_utils_multi.py:153-162 | the cleaned reply has no single quote and is never longer |
| LlmUtilsMulti.CleanReplyUnchanged | backend/utils/llm_utils_multi.py:153-162 | a stripped unfenced reply without single quotes passes through unchanged |
| LlmUtilsMulti.FencedReplyCleans | backend/utils/llm_utils_multi.py:153-162 | a fenced reply cleans to its content with ' replaced by " |
| LlmUtilsMulti.ProcessGeminiReply | backend/utils/llm_utils_multi.py:146-172 | None exactly for the empty reply; an API error is re-raised; any other failure is the parse error |
| LlmUtilsMulti.FencedReplyParses | backend/utils/llm_utils_multi.py:152-165 | a fenced reply gives the object parsed from its content with ' replaced by ", or the parse error |
| LlmUtilsMulti.Dispatch | backend/utils/llm_utils_multi.py:174-187 | each of "claude", "openai", "gemini" reaches its own provider; anything else raises ValueError |
| LlmUtilsMulti.DefaultsDiffer | backend/utils/llm_utils_multi.py:15 | unset gives Claude here, unlike the other utility file's Gemini |
| TestEmailData.GetTestEmailsByCategory | backend/tests/test_email_data.py:300-303 | exactly the fixtures whose category equals the argument |
| TestEmailData.GetTestEmailsByStatus | backend/tests/test_email_data.py:306-309 | exactly the fixtures whose application_status equals the argument |
| TestEmailData.WhereFacts | backend/tests/test_email_data.py:300-309 | the comprehension keeps exactly the satisfying elements, each as often as it occurs |
| TestEmailData.WhereAppend | backend/tests/test_email_data.py:300-309 | filtering a concatenation filters each part, in order |
| TestEmailData.AllTestEmailsShape | backend/tests/test_email_data.py:10-297 | 8 demo fixtures flagged demo, then 2 edge cases not flagged |
| TestEmailData.FixtureIdsDistinct | backend/tests/test_email_data.py:12-269 | the ten fixture ids are pairwise different |
| TestEmailData.FiltersSelectOneFixture | backend/tests/test_email_data.py:300-309 | each fixture's own category and status select exactly that fixture |
| TestEmailUtils.CreateTestEmail | backend/db/utils/test_email_utils.py:14-37 | None iff a required key is missing; otherwise the row under (id, user_id), is_demo_email defaulting to false |
| TestEmailUtils.FixtureRoundTrip | backend/db/utils/test_email_utils.py:14-37 | a row created from a fixture exists, is the user's and carries every fixture field back |
| TestEmailUtils.DemoFlagDefaultsToFalse | backend/db/utils/test_email_utils.py:31 | a dict without is_demo_email makes a non-demo row |
| TestEmailUtils.RowsToLoadAreNew | backend/db/utils/test_email_utils.py:58-66 | every row to load has an absent key, is the user's and comes from a fixture |
| TestEmailUtils.RowsToLoadComplete | backend/db/utils/test_email_utils.py:58-66 | every fixture with an absent key has its row loaded |
| TestEmailUtils.LoadTwiceLoadsNothing | backend/db/utils/test_email_utils.py:51-76 | a second load builds no rows |
| TestEmailUtils.LoadKeepsExistingRows | backend/db/utils/test_email_utils.py:51-76 | existing rows untouched; exactly the loaded rows are added, each under its key |
| TestEmailUtils.Column | backend/db/utils/test_email_utils.py:155-157 | a value exactly for the record's column names; class members that `hasattr` also finds (such as `metadata`) are no columns |
| TestEmailUtils.SetField | backend/db/utils/test_email_utils.py:155-157 | a key that is no attribute leaves the row; a column takes the value and no other column changes; a value the column cannot hold, or a class member such as `metadata` on which `setattr` raises, fails |
| TestEmailUtils.ApplyUpdates | backend/db/utils/test_email_utils.py:154-160 | fails iff some update does not fit; unnamed columns are kept and each column gets its last update |
| TestEmailUtils.NonColumnUpdatesIgnored | backend/db/utils/test_email_utils.py:155-157 | updates naming no attribute of the row leave the row as it was |
| TestEmailUtils.OtherAttributeUpdateFails | backend/db/utils/test_email_utils.py:156-168 | an update naming a non-column class member makes `setattr` raise, so the answer is None (and the store method leaves the table unchanged) |
| TestEmailUtils.TestEmailStore.constructor | backend/db/test_emails.py:8-9 | an empty, well-keyed table |
| TestEmailUtils.TestEmailStore.CheckTestEmailExists | backend/db/utils/test_email_utils.py:39-49 | true iff a row matches both ids |
| TestEmailUtils.TestEmailStore.GetUserTestEmails | backend/db/utils/test_email_utils.py:78-88 | exactly the user's rows, demo ones only when asked for |
| TestEmailUtils.TestEmailStore.SearchTestEmails | backend/db/utils/test_email_utils.py:170-185 | exactly the user's rows whose company, subject, body or title contains the term, ignoring case |
| TestEmailUtils.TestEmailStore.LoadDemoEmailsForUser | backend/db/utils/test_email_utils.py:51-76 | returns the demo fixtures whose key is absent, as rows, and inserts exactly them |
| TestEmailUtils.TestEmailStore.AddCustomTestEmail | backend/db/utils/test_email_utils.py:90-116 | generates "custom_" + 8 hex characters when no id is given; no row when the key is taken or a key is missing; else exactly one row inserted |
| TestEmailUtils.TestEmailStore.DeleteTestEmail | backend/db/utils/test_email_utils.py:118-140 | true iff the row existed; only that row is removed |
| TestEmailUtils.TestEmailStore.UpdateTestEmail | backend/db/utils/test_email_utils.py:142-168 | None for a missing row; otherwise the updated row replaces only itself; a failed commit leaves the table unchanged |
| TestEmailUtils.GeneratedIdShape | backend/db/utils/test_email_utils.py:96-98 | a generated id is "custom_" followed by 8 UUID characters; a given id is kept |
| TestEmailUtils.UpdateTouchesOneRow | backend/db/utils/test_email_utils.py:142-168 | every other row stays; the row's new key was free unless unchanged |
| TestEmailUtils.UpdateKeepsKeyWithoutKeyColumns | backend/db/utils/test_email_utils.py:142-168 | fitting updates that avoid id and user_id succeed and keep the key |
| TestEmailUtils.SearchEmptyTermListsAll | backend/db/utils/test_email_utils.py:170-185 | the empty term lists all the user's rows |
| TestEmailUtils.SearchIgnoresCase | backend/db/utils/test_email_utils.py:170-185 | the term's letter case does not matter |
| TestEmailUtils.GetTestEmailCategories | backend/db/utils/test_email_utils.py:187-197 | strictly sorted, duplicate-free, exactly the non-empty fixture categories |
| MockGmailService.Snippet | backend/utils/mock_gmail_service.py:47 | the subject when at most 100 characters; else its first 100 + "..." |
| MockGmailService.ConvertTestEmailToGmailFormat | backend/utils/mock_gmail_service.py:41-64 | id, "thread_" + id, snippet, sizeEstimate = body length, and the four headers |
| MockGmailService.ServiceEmails | backend/utils/mock_gmail_service.py:28-39 | raw demo fixtures without a user id or on a failed query; else the user's rows, converted, in order |
| MockGmailService.ListExecute | backend/utils/mock_gmail_service.py:110-132 | equals the specification ListResult |
| MockGmailService.FilterByQuery | backend/utils/mock_gmail_service.py:114-123 | the filtering loop keeps, in order, the mails matching the lower-cased query |
| MockGmailService.ListResultFacts | backend/utils/mock_gmail_service.py:126-132 | the first maxResults kept ids, in order; resultSizeEstimate counts them; a next page token iff the page is full |
| MockGmailService.QueryKeepsMatches | backend/utils/mock_gmail_service.py:114-123 | a mail is kept iff its subject, sender or company contains the query |
| MockGmailService.QueryFindsNoConvertedMail | backend/utils/mock_gmail_service.py:41-64 | a non-empty query filters out every converted mail (also lines 119-121) |
| MockGmailService.FirstWithId | backend/utils/mock_gmail_service.py:147-151 | the first position carrying the id, or None |
| MockGmailService.GetExecute | backend/utils/mock_gmail_service.py:143-162 | equals the full response for the specification Target |
| MockGmailService.GetTargetFacts | backend/utils/mock_gmail_service.py:147-162 | the answer's id is the requested one when a mail carries it, else the first mail's; an empty list gives a stand-in with the requested id and the default texts |
| MockGmailService.ConvertedTargetUsesDefaults | backend/utils/mock_gmail_service.py:152-162 | a converted mail answers with the fixed defaults |
| JobEmails.DaysBetween | backend/routes/stats_routes.py:50 | the whole days between two times, rounded down as timedelta.days does |
| StatsRoutes.CountStatusesAndCompanies | backend/routes/stats_routes.py:32-43 | the loop's dicts are the tallies of the stripped statuses and of the counted companies |
| StatsRoutes.CompanyKeysFacts | backend/routes/stats_routes.py:40-43 | a company is counted iff it is non-empty and not "unknown" in any case after strip |
| StatsRoutes.Earliest | backend/routes/stats_routes.py:47-48 | a mail's receive time, no later than any mail's |
| StatsRoutes.Latest | backend/routes/stats_routes.py:47 | a mail's receive time, no earlier than any mail's (also lines 49) |
| StatsRoutes.CountWithinMonotone | backend/routes/stats_routes.py:54-55 | a wider day window counts at least as many mails, never more than all |
| StatsRoutes.SortByCountFacts | backend/routes/stats_routes.py:98-106 | sorted by count, non-increasing, a permutation, with the same total |
| StatsRoutes.GetUserStats | backend/routes/stats_routes.py:17-113 | 401 "Unauthorized" for an empty user id; otherwise the UserStats of the user's mails |
| StatsRoutes.StatusCountsSumToTotal | backend/routes/stats_routes.py:29-38 | total_emails = mail count; the status counts and the distribution both sum to it; the distribution is non-increasing and a permutation of the counts (also lines 103-106) |
| StatsRoutes.CompanyCountsFacts | backend/routes/stats_routes.py:40-43 | companies counted exactly as above, never "" or "unknown"; unique_companies is their number (also lines 74) |
| StatsRoutes.TopCompaniesFacts | backend/routes/stats_routes.py:98-102 | at most 10, non-increasing, drawn from the company counts; every omitted company counts no more than any kept one |
| StatsRoutes.ActivityWindows | backend/routes/stats_routes.py:53-55 | last_7_days <= last_30_days <= total_emails |
| StatsRoutes.DaysActiveFacts | backend/routes/stats_routes.py:46-50 | no mail: 0 days and no dates; else days_active = days between first and last + 1 >= 1, with the earliest and latest times (also lines 62-68) |
| StatsRoutes.BreakdownFacts | backend/routes/stats_routes.py:75 | each breakdown field is the number of mails with its label (0 if absent); total_applications is the "Applied" count (also lines 81-92) |
| StatsRoutes.BreakdownWithinTotal | backend/routes/stats_routes.py:81-92 | the breakdown fields and the "Applied" count together never exceed the mail count |
| StatsRoutes.ResponseRateFacts | backend/routes/stats_routes.py:58-61 | no rate iff no "Applied" mail; else the denominator is the "Applied" count and responses are all mails except the three excluded statuses |
| StatsRoutes.AppliedMailGivesRate | backend/routes/stats_routes.py:58-61 | one "Applied" mail gives a rate |
| FileRoutes.Headers | backend/routes/file_routes.py:56-70 | the mapping's display names, in order |
| FileRoutes.CsvRow | backend/routes/file_routes.py:73-82 | one cell per selected field, in the same order |
| FileRoutes.ProcessCsv | backend/routes/file_routes.py:40-82 | redirect to /logout (303) without a user; 400 "No data found to write" without mails; else the header then one row per mail |
| FileRoutes.CsvShape | backend/routes/file_routes.py:56-82 | one line per mail plus the header; "Message ID" is a header iff not publicly deployed; 6 or 7 columns |
| FileRoutes.CsvCells | backend/routes/file_routes.py:73-82 | each cell is the mail's field for that column |
| FileRoutes.FirstStatusesCount | backend/routes/file_routes.py:109-126 | one first status per distinct key; their number is that of the keys, at most the mail count |
| FileRoutes.CountApplications | backend/routes/file_routes.py:109-126 | the loop's set and dicts are the seen keys, the tally of all statuses and the tally of first statuses |
| FileRoutes.ProcessSankey | backend/routes/file_routes.py:98-138 | redirect without a user, 400 without mails, else the specification Sankey counts |
| FileRoutes.SankeyLinksWithinUnique | backend/routes/file_routes.py:109-138 | unique applications <= mails; each of the seven links is a first-status count; their sum <= unique applications |
| FileRoutes.SankeyKeysCollide | backend/routes/file_routes.py:115-117 | distinct (company, title) pairs such as ("a-b", c) and (a, "b-c") share a key |
| FileRoutes.CountStatuses | backend/routes/file_routes.py:206-210 | the loop's dict is the tally of stripped statuses |
| FileRoutes.ProcessPieChart | backend/routes/file_routes.py:197-210 | redirect without a user, 400 without mails, else the status tally |
| FileRoutes.PieSlicesFacts | backend/routes/file_routes.py:206-210 | distinct statuses, summing to the mail count, each a mail's status, counted by occurrences |
| FileRoutes.WeekStartIsMonday | backend/routes/file_routes.py:273-275 | the week key is a Monday |
| FileRoutes.SameWeekSameKey | backend/routes/file_routes.py:273-275 | times in the same Monday-to-Sunday week share a key |
| FileRoutes.CountWeeks | backend/routes/file_routes.py:269-276 | the loop's dict is the tally of week keys |
| FileRoutes.SortByKeyFacts | backend/routes/file_routes.py:279 | sorted ascending by key, a permutation of the buckets |
| FileRoutes.ProcessWeeklyGraph | backend/routes/file_routes.py:256-283 | redirect without a user, 400 without mails, else the weeks and counts of the specification graph |
| FileRoutes.WeeklyGraphFacts | backend/routes/file_routes.py:269-283 | weeks strictly ascending, each a Monday and some mail's week; counts sum to the mail count |
| LocalMailClassification.ExpectedLabels | backend/scripts/local_mail_classification.py:166 | the entry's list for a present key; [] when no key matches |
| LocalMailClassification.IsPredictionCorrect | backend/scripts/local_mail_classification.py:155-166 | true only when the actual label is in the list of a matching key; false for an unknown predicted label |
| LocalMailClassification.PredictionCorrectForMappedLabel | backend/scripts/local_mail_classification.py:38-53 | for each key, correct iff the actual label is in that key's list (also lines 166) |
| LocalMailClassification.CandidateLabelsNeverCorrect | backend/scripts/local_mail_classification.py:30-53 | no candidate label is a key, so no candidate prediction is correct (also lines 155-166) |
| LocalMailClassification.CutPoint | backend/scripts/local_mail_classification.py:97-101 | at most the text length, no later than any marker's match start, and either the length or some match start |
| LocalMailClassification.FooterTrim | backend/scripts/local_mail_classification.py:115-118 | a prefix of the head |
| LocalMailClassification.TrimBeforeNewlines | backend/scripts/local_mail_classification.py:121 | never longer than its input |
| LocalMailClassification.ExtractLatestEmail | backend/scripts/local_mail_classification.py:55-121 | the two marker loops and the tidy-up equal the specification LatestEmail |
| LocalMailClassification.LatestEmailFacts | backend/scripts/local_mail_classification.py:73-77 | None and "" come back unchanged; any other text gives a result no longer than it (also lines 106-121) |
| LocalMailClassification.NoMarkerKeepsAll | backend/scripts/local_mail_classification.py:97-121 | with no match anywhere, the whole normalised text is tidied and stripped |
| LocalMailClassification.PreprocessFacts | backend/scripts/local_mail_classification.py:237-261 | the sequence has no '-', no newline, no upper-case letter and no surrounding whitespace; was_trimmed iff extraction changed the body length |
| LocalMailClassification.ClassifiedText | backend/scripts/local_mail_classification.py:303-304 | at most 512 characters, a prefix of the sequence |
| LocalMailClassification.ClassifyItem | backend/scripts/local_mail_classification.py:294-359 | one iteration of the loop body equals the specification Step |
| LocalMailClassification.ProcessEmailClassification | backend/scripts/local_mail_classification.py:264-359 | the counters the loop ends with are the specification Run over the data |
| LocalMailClassification.SkippedItemChangesNothing | backend/scripts/local_mail_classification.py:294-298 | an item without a sequence or a label changes no counter |
| LocalMailClassification.RunKeepsInvariant | backend/scripts/local_mail_classification.py:273-359 | job_related_total = processed_all_items, job_related_correct <= job_related_total, correct <= processed <= processed_all <= number of items |
| LocalMailClassification.AccuracyAlwaysZero | backend/scripts/local_mail_classification.py:30-53 | when every category answer is a candidate label, correct_predictions stays 0 (also lines 139-166, 330-355) |

## Left out

- I/O is not modelled: Gmail, the language-model SDKs, the database session and the regular-expression engine are parameters of the model, and so are the clock and the environment variables.
- Celery is not modelled: progress reporting, redelivery and concurrency are left out. Each worker execution is one sequential call.
- `GeminiRetry.ParseRateLimitError`: the "retry after N seconds" hint is a whole number of seconds, where the source parses it with `float` (backend/utils/gemini_retry.py:25). A fractional hint such as 0.5 is truthy there and is waited on, while the model floors it to 0 and falls back to the default. A match such as "1.2.3" makes `float` raise ValueError there, which the model does not raise.
- Timestamps are whole seconds. The time to sleep is not modelled, and only the decision to wait is kept.
- `EmailTasks.ItemBody`: a message field is either missing or a string. A `text_content` key present with the value None is read as missing, so outside Gemini mode the model raises the KeyError where the source passes None on to `process_email` (line 226).
- `LlmOptimization.RateLimitManager.WaitTime` reads the clock once, as `now`. The source reads `time.time()` twice, once in `can_make_request` and again at line 81, so its wait can be slightly shorter.
- Each run reads the clock once, as `now`. Every commit of the run record stamps that value, since the task-run model's own stamping code is not part of this model.
- The Gemini flag is a single value. The check at import time and the one at run time agree in the model.
- Case folding, `strip` and the whitespace test are ASCII only. Python applies them to all of Unicode.
- `parse_email_date` and `fromisoformat` are oracle functions.
- `timestamp`, `strftime`, weekday and timezone handling are computed on day numbers. The week key is the Monday's day number, which sorts the same way as its "%Y-%m-%d" text.
- Floats are not modelled:
  - cache confidences are in hundredths;
  - `response_rate` is the (responses, applications) pair before division and rounding;
  - percentages and `avg_per_week` are left out;
  - `int(a / b)` is exact integer division.
- `StatsRoutes.TopCompaniesFacts`: stability among equal counts comes from the insertion sort. It is not stated as a lemma.
- `StatsRoutes.GetUserStats`: the 500 reply for a database failure is left out, because the query is not part of this model.
- `query_emails` lives in email_routes.py, which is not part of this model. The routes take the user's mails as a parameter, in the order the database returns them.
- The route side effects are left out:
  - plot drawing and file writing;
  - the 500 replies when an image fails;
  - `download_file` and its "File not found" check.
- `search_test_emails` reads SQL `ilike` wildcards (`%`, `_`) in the term as plain characters.
- A value that `setattr` cannot store makes the commit fail, and the table is unchanged. Database type coercion is not modelled.
- `TestEmailUtils.IsOtherAttribute` lists nine class members of the row (`metadata`, `model_dump`, `dict`, ...). Other members that `hasattr` finds, such as dunder names and the SQLAlchemy instance state, are treated as no attribute at all.
- `created_at` and `updated_at` take the clock value passed in.
- The "custom_" id comes from a UUID text passed in.
- The mock Gmail service's raw format, `getProfile` and base64 bodies are left out.
- `TestEmailUtils.TestEmailStore.AddCustomTestEmail`: a JSON `null` id or `is_demo_email` is read as a missing key. The route passes the request body on unchecked (backend/routes/test_email_routes.py:107-120). For `"id": null` the source generates no id, because the key is present (backend/db/utils/test_email_utils.py:96). For `"is_demo_email": null` it stores None in a non-null column. In both cases its commit fails and the answer is None with no row. The model instead generates a "custom_" id, or takes the flag as false, and inserts the row.
- `StatusPredictor.PredictInterviewStatus`: field values are strings. A subject or body that is `None` is written as the text "None" by the source's f-string (backend/status_predictor.py:7-11), and "none" is then part of the searched text; the model cannot hold such a field.
- `MockGmailService.GetExecute` reads the clock once, as `now`. The source calls `datetime.now(timezone.utc)` separately for `internalDate` and for the Date header (backend/utils/mock_gmail_service.py:191, 197), so the two stamps of a mail without `received_at` can differ.
- The fixture mail bodies are abbreviated: demo_1 keeps its first sentence and every other fixture its first line. The `sizeEstimate` of a converted fixture is therefore smaller than in the source.
- The `QUERY_APPLIED_EMAIL_FILTER` query text is not modelled. It depends on code and a date this model does not include.
- The debugger call in `email_is_similar` is ignored.
- The provider calls and their prompts are not modelled, nor the requests fallback in the fixed utility file. Only the reply handling is kept.
- The classification script's printing and file output are left out, along with `load_training_data` and the wrong-prediction logs.
- The zero-shot pipeline is an oracle pair: a job-related answer, and a category or an error.
- `LocalMailClassification.PreprocessFacts`: a JSON `null` body or subject is not modelled. An item holds `None` for a `null` just as for a missing key, and both read as "". In the script a `null` body makes `len` raise, and a `null` subject makes `item.get('subject', '') + " "` raise a TypeError (backend/scripts/local_mail_classification.py:249, 256). Either one ends the script, where the model counts the item instead.
- `LocalMailClassification.TrimBeforeNewlines`: only the length bound is stated. That whitespace no longer precedes a newline is not proved.
- `LocalMailClassification.FooterTrim`: the markers' match positions come from the oracle. Their regular-expression meaning is not modelled.
- The predictor's parametrised test (backend/tests/test_status_predictor.py:4-34) is stated for eight of its thirteen cases, which cover every status except "Applied": lines 10, 15, 18, 22, 23, 26, 27 and 30. The cases at lines 6, 7, 11, 14 and 19 are not stated. Each case needs its own proof that no earlier keyword of the table occurs in its text. The case at line 6 would need four-character runs, because every three-character run of "application received" occurs in its text.
