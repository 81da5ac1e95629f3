# squidtools: resilient batch runners, retry policies and name matching

This project models the core of squidtools, a small Python toolkit for research data work. Its centre is a resilient batch runner. A task is applied to every work item, named by a key. Each result is appended as one JSON line to a progress ledger. Keys already in the ledger are skipped on the next run. The asynchronous runner works in batches with a per-task timeout and retries the failed items once, with twice the timeout. Beside it sit three variants of `generate_chat_response`, which retry a chat-model API with exponential back-off. There is `json_prompt`, which asks again until the answer decodes and passes a schema score. The rest are the name-parsing and name-matching heuristics of `names.py`, `next_step_filename`, and the flattening of a survey export in `get_records`.

The modules:

- `Wrappers` holds Option and Result.
- `Json` holds JSON values with Python truthiness, hashability and dict-key equality.
- `Text` holds the Python `str` methods the code relies on: `lower`, `strip`, `split`, `join`, `replace` and `count`.
- `ProgressLedger` holds the `_pkey` ledger: a `Ledger` class whose `lines` field is the file, with `Load` and `Save`.
- `Runners` holds `robust_task` and `async_robust_task`.
- `Batching` holds the `gen_batches` the runners assume (see "## Left out").
- `LegacyRobustTask` holds the older filename-keyed ledger and runner.
- `Backoff` holds the shared ceiling, sleep schedule and API oracle.
- `GptUtils`, `GptUtilsAsync` and `LegacyGptUtils` hold the three retry policies, plus `json_prompt`.
- `Names`, `Workflow` and `Qualtrics` hold the remaining core files.

Calls to the outside world are oracles passed as parameters:

- the task a runner applies (`string -> Outcome`, or `(string, timeout) -> AsyncOutcome`);
- the chat API (`(model, attempt) -> Reply`);
- the prompting method of `json_prompt` (`attempt -> answer`);
- `json.loads` (`string -> Option<Value>`);
- the schema score.

A runner's result is related to its ledger by specification functions: `SyncSpec`, `AsyncSpec`, `Replay` and `Merge`. The methods that change the ledger are proved against those functions. The lemmas then prove the runners' promises about the functions:

- last write wins;
- skipped keys are never re-run;
- failures are contained;
- a reload returns the same dict;
- the retry pass covers exactly the failed items.

Where the intent and the code differ, the model follows the code:

- a falsy `_pkey` is dropped on load;
- the legacy runner lets a task's exception propagate;
- `json_prompt` returns its best-so-far only when that answer is truthy, and the last answer is never a candidate;
- `parseRawName` removes the first word equal to the suffix, not the last one.

The one place given both readings is `GptUtils.GenerateChatResponse`. It takes the order of its exception handlers as a parameter: `AsWritten` or `Intended`. As written, the `APIError` clause catches a bad request before the escalation clause can (see "## Findings"). `GptUtils.AsWrittenKeepsModel` and `GptUtils.ContextErrorExchange` state what the code as written does. The trace lemmas hold for either order. The rows that speak of the escalation describe the intended order, since as written it never happens.

## Model

| member | source | states |
|---|---|---|
| Text.LowerSpec | squidtools/names.py:13 | `lower` turns each ASCII capital into its small letter, 32 code points on, leaves no capital, and keeps every other character in place |
| Text.StripSpec | squidtools/names.py:13 | `strip` gives the slice left after cutting only whitespace from both ends, and that slice neither starts nor ends with whitespace |
| Text.StripTrimmed | squidtools/names.py:15 | stripping an already trimmed string changes nothing |
| Text.SplitCount | squidtools/names.py:28 | `split(c)` gives one more piece than the string has occurrences of `c` |
| Text.JoinSplit | build/lib/squidtools/workflow.py:6-8 | joining the pieces of a split with the separator gives the string back |
| Text.SplitJoin | build/lib/squidtools/workflow.py:6-8 | splitting a join of separator-free pieces gives the pieces back |
| Backoff.Schedule | squidtools/gpt_utils_async.py:77-80 | the sleeps for incremented attempts 1..5 are 4, 8, 16, 32 and 64 seconds |
| Backoff.SleepScales | squidtools/gpt_utils_async.py:77-80 | the back-off is exponential: `k` attempts later the sleep is 2^k times as long |
| ProgressLedger.StampKeeps | squidtools/robust_task.py:44-45 | `save_progress` sets `_pkey` to the name and keeps every other field of the result |
| ProgressLedger.Ledger.Load | squidtools/robust_task.py:30-40 | a missing file loads as the empty dict; otherwise the result is the lines replayed in file order, each filed under its `_pkey`, else `filename`, with `true` and `1` one key |
| ProgressLedger.Ledger.Save | squidtools/robust_task.py:44-47 | the file gains exactly one line, the result stamped with its name, and the stamped record is returned |
| ProgressLedger.ReplayStopsAtFailure | squidtools/robust_task.py:34-39 | once a line with a truthy unhashable key is read, the whole load fails with that error |
| ProgressLedger.ReplayConcat | squidtools/robust_task.py:34-39 | loading two runs of lines one after the other is loading their concatenation |
| ProgressLedger.ReplaySucceeds | squidtools/robust_task.py:37-39 | a load succeeds exactly when no line has a truthy unhashable key |
| ProgressLedger.ReplayLastWriteWins | squidtools/robust_task.py:25-39 | a key is loaded exactly when some line files a truthy record under it, and it maps to the last such line |
| ProgressLedger.LaterLineWins | squidtools/robust_task.py:28-29 | of two lines filed under the same key, the later one is what the load holds |
| ProgressLedger.TrueIsOne | squidtools/robust_task.py:37-39 | a line keyed `true` replaces an earlier line keyed `1`, as Python's dict equates them |
| ProgressLedger.SaveThenLoad | squidtools/robust_task.py:37-47 | after a save, a reload maps the name to the stamped record, unless the name is empty, which is falsy and so dropped |
| ProgressLedger.ReplayKeepsLast | squidtools/robust_task.py:34-39 | a line that no later line re-files under its truthy key is what the load holds under that key |
| ProgressLedger.ReplayFromUnfiled | squidtools/robust_task.py:34-39 | lines that file nothing under a key leave that key as it was, present or absent |
| ProgressLedger.KeepsLastThenUnfiled | squidtools/robust_task.py:34-39 | the last line filed under a key in a middle run, followed by lines that never file under it, is what the load of the whole holds |
| ProgressLedger.ReplayFiled | squidtools/robust_task.py:37-39 | replaying lines that all have usable keys is merging them in order |
| ProgressLedger.MergeKeys | squidtools/robust_task.py:90 | a key is in a merge exactly when it was there before or some merged record is filed under it |
| Batching.GenBatches | squidtools/robust_task.py:129 | the batches laid end to end are the items; every batch is non-empty and at most `size`, and all but the last are exactly `size` |
| Batching.FlattenConcat | squidtools/robust_task.py:129 | flattening distributes over concatenation of batch lists |
| Runners.IdentityEntries | squidtools/robust_task.py:67-68 | a list becomes a dict mapping each name to itself, with the same set of names |
| Runners.PendingMembers | squidtools/robust_task.py:71-77 | the items tried are exactly the items less those skipped because already loaded, and their names stay distinct |
| Runners.PendingNames | squidtools/robust_task.py:71-77 | the names tried are distinct, and a name of the dict is tried exactly when `skip_existing` does not exclude it |
| Runners.PendingOrder | squidtools/robust_task.py:71-75 | the items tried keep the dict's order: any two of them come in the order they have in the dict |
| Runners.StampsFrom | squidtools/robust_task.py:79-80 | every saved record is the stamped result of an item whose task returned a dict, and every such item's record is saved |
| Runners.StampNames | squidtools/robust_task.py:80 | each saved line is filed under the name of the item that produced it |
| Runners.FailuresMembers | squidtools/robust_task.py:153-159 | an item is in `errs` exactly when its task gave no dict, and failures keep distinct names |
| Runners.FailuresFrom | squidtools/robust_task.py:158-159 | each failure is an item without a record, and each item without a record is a failure |
| Runners.FailuresDistinct | squidtools/robust_task.py:159 | `errs` of distinct names holds distinct names |
| Runners.SavedNotFailed | squidtools/robust_task.py:155-159 | a name saved in a pass never also fails in it |
| Runners.StampsReplay | squidtools/robust_task.py:44-47 | the lines a pass saves replay without error |
| Runners.RobustTask | squidtools/robust_task.py:59-91 | the ledger ends as `SyncSpec` says: the loaded lines followed by the stamps of the pass, and the returned dict is their merge |
| Runners.SyncPass | squidtools/robust_task.py:75-90 | the loop tries the pending items in order; it appends exactly their stamps and merges them into the dict |
| Runners.SyncStep | squidtools/robust_task.py:75-90 | one turn of the loop extends the tried names, the saved records and the merge by that item's share |
| Runners.NotYetMerged | squidtools/robust_task.py:76-90 | the item about to be tried is in `progress` only if it was loaded |
| Runners.PendingAll | squidtools/robust_task.py:71-77 | the items a pass leaves alone are exactly those `skip_existing` excludes |
| Runners.SameKeySameItem | squidtools/robust_task.py:67-72 | in a dict, an entry is determined by its name |
| Runners.SyncInvocations | squidtools/robust_task.py:71-79 | with `skip_existing`, no loaded name is tried; every other name is tried exactly once, and the tried names come in dict order |
| Runners.SyncSuccessMerged | squidtools/robust_task.py:79-90 | each tried name whose task returned a dict maps, in the returned dict, to that dict stamped |
| Runners.SuccessSaved | squidtools/robust_task.py:80-90 | in a pass over distinct names, the merge holds the stamp of every returned item under its name |
| Runners.SyncFailureContained | squidtools/robust_task.py:78-86 | a raised or `None` task writes no line under its name, the run still succeeds, and the name is in the result only if it was loaded |
| Runners.SyncSpecParts | squidtools/robust_task.py:59-91 | past the loaded lines the run appends exactly the stamps of its pass and returns their merge |
| Runners.FailureUnsaved | squidtools/robust_task.py:81-86 | a failed item has no saved line, so the merge keeps its name only if it was loaded |
| Runners.LastStampWins | squidtools/robust_task.py:28-29 | in a pass over distinct names, each saved record is the last filed under its key |
| Runners.StampsOrdered | squidtools/robust_task.py:80 | stamps of distinct names carry distinct keys |
| Runners.MergeLast | squidtools/robust_task.py:90 | a record that no later record re-files is what the merge holds under its key |
| Runners.SyncReload | squidtools/robust_task.py:66-91 | reloading after `robust_task` gives back the dict it returned, when no successful name is empty |
| Runners.EmptyNameRetried | squidtools/robust_task.py:38 | an empty name is kept in the returned dict, but the reload drops it and a rerun calls the task on it again |
| Runners.SyncRerunTriesFailures | squidtools/robust_task.py:71-77 | a rerun with `skip_existing` tries exactly the items that failed the first time |
| Runners.AsyncRobustTask | squidtools/robust_task.py:105-186 | the ledger and the calls end as `AsyncSpec` says: one pass over the pending names, then at most one retry pass over `errs` |
| Runners.RunPass | squidtools/robust_task.py:129-167 | running the batches in turn saves, merges and fails exactly as one pass over all the names |
| Runners.RunBatch | squidtools/robust_task.py:132-161 | one batch calls every name under the timeout; a dict is stamped, appended and merged, anything else goes to `errs` |
| Runners.PassConcat | squidtools/robust_task.py:129 | a pass over `a + b` is a pass over `a` followed by a pass over `b` |
| Runners.OutcomesConcat | squidtools/robust_task.py:147-152 | outcomes and calls of a pass distribute over concatenation |
| Runners.StampsConcat | squidtools/robust_task.py:155-157 | saved records distribute over concatenation |
| Runners.FailuresConcat | squidtools/robust_task.py:158-159 | failures distribute over concatenation |
| Runners.MergeConcat | squidtools/robust_task.py:157 | merging two runs of records is merging them one after the other |
| Runners.AsyncStepAt | squidtools/robust_task.py:153-159 | each result of a batch extends the calls, the saved records or the failures by that call's share |
| Runners.PassSorts | squidtools/robust_task.py:153-159 | a dict is saved and merged under the item's name and is no failure; otherwise the item is a failure and its name stays as loaded |
| Runners.AsyncPassSorts | squidtools/robust_task.py:132-159 | in one async pass a settled dict is saved and merged, while a timeout, exception or `None` puts the item into `errs` and writes nothing |
| Runners.AsyncSinglePass | squidtools/robust_task.py:169-171 | without `retry_errs` there is one pass: one call per pending name, under the given timeout |
| Runners.FailedNotReloaded | squidtools/robust_task.py:184 | after a pass, a reload lacks the names of the failed items |
| Runners.AsyncRetryOnce | squidtools/robust_task.py:169-186 | with failures and `retry_errs`, exactly one more pass runs, over exactly the failed items in order, with twice the timeout; the ledger gains the first pass's stamps and then the retry's, and the result is the reload; without failures there is no second pass |
| Runners.RetryPass | squidtools/robust_task.py:173-184 | the retry pass tries every failed item, skips none, appends exactly the retry's stamps, and leaves a ledger that reloads |
| Runners.AsyncRetrySorts | squidtools/robust_task.py:169-184 | after a run with `retry_errs`, a pending item with a non-empty name maps, in the reloaded result, to its first call's dict stamped when that call settled to a dict; otherwise to its retry call's dict stamped when the retry settled to one; otherwise it is in the result exactly when it was loaded, with its loaded value |
| Runners.RetryKeepsFirst | squidtools/robust_task.py:153-184 | a first-pass success keeps its first-pass stamp through the retry and the reload |
| Runners.RetryOthers | squidtools/robust_task.py:173-183 | the retry pass files no line under the name of a first-pass success |
| Runners.RetryFilesSecond | squidtools/robust_task.py:173-184 | a failed item that the retry settles to a dict reloads as that dict, stamped |
| Runners.RetryLeavesLoaded | squidtools/robust_task.py:173-184 | a failed item that fails again gets no line from either pass and reloads exactly as it was loaded |
| Runners.StampOfLast | squidtools/robust_task.py:153-157 | a returned item's stamp is a saved line that no later saved line of the pass re-files under its name |
| LegacyRobustTask.FilenameLedger.Load | data_wrangler/robust_task.py:17-24 | a missing file loads as the empty dict; otherwise the lines replayed in order, each filed under its `filename` with `true` and `1` one key, or the error of the first line that is not an object with a hashable `filename` |
| LegacyRobustTask.FilenameLedger.Save | data_wrangler/robust_task.py:28-30 | the result is appended unchanged, with no key added |
| LegacyRobustTask.ReplayStopsAtFailure | data_wrangler/robust_task.py:21-23 | the first line that is not an object with a hashable `filename` fails the whole load |
| LegacyRobustTask.ReplayLastWriteWins | data_wrangler/robust_task.py:21-23 | a key is loaded exactly when some line carries it as its `filename`, falsy or not, and maps to the last such line |
| LegacyRobustTask.RobustTask | data_wrangler/robust_task.py:39-47 | the ledger and the returned dict, or the propagated exception, are those of `Run` over the files in order |
| LegacyRobustTask.RunAfterRaise | data_wrangler/robust_task.py:44 | once a task has raised, the remaining filenames change nothing |
| LegacyRobustTask.StepAppends | data_wrangler/robust_task.py:42-46 | one turn appends its call's result exactly when it called the task and the task returned |
| LegacyRobustTask.RunAppends | data_wrangler/robust_task.py:41-46 | the loaded lines stay a prefix and the appended lines are exactly the results of the new calls whose task returned, in call order |
| LegacyRobustTask.RunSkips | data_wrangler/robust_task.py:42-43 | with `skip_existing`, no filename already in the dict is passed to the task |
| LegacyRobustTask.RunResult | data_wrangler/robust_task.py:41-47 | a key is in the returned dict exactly when it was loaded or names a call whose task returned; such a call's key holds its result, and every other key keeps its loaded value |
| LegacyRobustTask.AddedBySnoc | data_wrangler/robust_task.py:46 | a call adds its own filename when its task returned, and nothing else |
| LegacyRobustTask.RunReload | data_wrangler/robust_task.py:23-46 | a reload gives back the returned dict when every result carries the filename it was called on |
| LegacyRobustTask.ReloadOnlyIf | data_wrangler/robust_task.py:23-46 | conversely, when a reload gives back the returned dict, every result of the run is an object filed under the filename it was called on |
| LegacyRobustTask.ReloadDiffers | data_wrangler/robust_task.py:23-46 | a result whose `filename` differs is returned under the called name but reloaded under its own |
| GptUtils.ClassifyCases | build/lib/squidtools/gpt_utils.py:30-59 | escalated exactly for context-length bad requests on gpt-3.5-turbo with smart context on; retried exactly for transient errors and other API errors reporting a bad gateway |
| GptUtils.ClassifyAsWritten | build/lib/squidtools/gpt_utils.py:30-51 | as the clauses are ordered, an error is retried exactly when transient or an API error reporting a bad gateway |
| GptUtils.AsWrittenNeverEscalates | build/lib/squidtools/gpt_utils.py:40-59 | as written, no error reaches the escalation branch |
| GptUtils.ContextErrorTooLong | build/lib/squidtools/gpt_utils.py:53 | a "maximum context length" message passes the context-length test |
| GptUtils.ContextErrorNoGateway | build/lib/squidtools/gpt_utils.py:41 | that message fails the bad-gateway test |
| GptUtils.AsWrittenKeepsModel | build/lib/squidtools/gpt_utils.py:24-51 | with the handlers as written, every call uses the caller's model, and there is at most one call per attempt left (one call when none is left) |
| GptUtils.ContextErrorExchange | build/lib/squidtools/gpt_utils.py:40-59 | with the handlers as written, a context-length bad request on gpt-3.5-turbo with smart context on ends the exchange after one call with that error; in the intended order the exchange goes on to gpt-3.5-turbo-16k at the same attempt |
| GptUtils.ContextErrorDiscrepancy | build/lib/squidtools/gpt_utils.py:40-59 | the context-length bad request on gpt-3.5-turbo is raised as written, but escalated as intended |
| GptUtils.NextCall | build/lib/squidtools/gpt_utils.py:30-59 | a retry goes to the same model at the next attempt, within the ceiling, after one sleep; an escalation goes from gpt-3.5-turbo to the 16k model at the same attempt without sleeping |
| GptUtils.GenerateChatResponse | build/lib/squidtools/gpt_utils.py:24-59 | in either handler order: at least one call, fewer sleeps than calls, at most one call beyond the single-model budget (the escalation, made only in the intended order), and the first call is made with the caller's arguments |
| GptUtils.ModelTrace | build/lib/squidtools/gpt_utils.py:49-57 | in either handler order, each call uses the caller's model or, only from gpt-3.5-turbo, the 16k model, and once escalated every later call stays escalated |
| GptUtils.AttemptTrace | build/lib/squidtools/gpt_utils.py:31-57 | in either handler order, an escalation keeps the attempt, while a retry increments it |
| GptUtils.EscalatesAtMostOnce | build/lib/squidtools/gpt_utils.py:52-57 | in either handler order, an exchange switches model at most once |
| GptUtils.DefaultsOnRetry | build/lib/squidtools/gpt_utils.py:39-57 | in either handler order, every call after the first uses temperature 0.5, because no retry passes the caller's temperature on |
| GptUtils.SleepTrace | build/lib/squidtools/gpt_utils.py:35-38 | in either handler order, the sleeps follow 2^(attempt+1) for each incremented attempt, and an escalation does not sleep |
| GptUtils.LastReply | build/lib/squidtools/gpt_utils.py:24-59 | in either handler order, the result is the reply to the last call |
| GptUtils.FailureCause | build/lib/squidtools/gpt_utils.py:32-59 | in either handler order, a failure ends on an error the handlers in that order raise, or on a retryable one with no attempts left |
| GptUtils.AtMostSevenCalls | build/lib/squidtools/gpt_utils.py:24-59 | in either handler order, from attempt 0, at most seven calls: six to one model and, in the intended order only, the escalation |
| GptUtils.SmartContextResetOnRetry | build/lib/squidtools/gpt_utils.py:39-57 | with the intended handler order and smart context off, a rate limit followed by a context-length error still escalates, because the retry runs with the default setting |
| GptUtilsAsync.GenerateChatResponse | squidtools/gpt_utils_async.py:70-95 | at least one call and one sleep fewer, and from an attempt within the ceiling at most `MAX_ATTEMPTS - attempt + 1` calls |
| GptUtilsAsync.ChatCalls | squidtools/gpt_utils_async.py:72-93 | the k-th call uses the same model at attempt `attempt + k`, temperature 0.5 |
| GptUtilsAsync.ChatSleeps | squidtools/gpt_utils_async.py:77-92 | the k-th sleep lasts 2^(attempt + k + 2) seconds |
| GptUtilsAsync.ChatOutcome | squidtools/gpt_utils_async.py:70-95 | every call but the last failed retryably; the result is the last reply, and a failure is not retryable or came past the ceiling |
| GptUtilsAsync.DefaultSchedule | squidtools/gpt_utils_async.py:70-95 | from attempt 0, at most six calls, with sleeps of 4, 8, 16, 32 and 64 seconds |
| GptUtilsAsync.NoRetry | squidtools/gpt_utils_async.py:70-95 | an answer, or an error that is not retried, ends the exchange with one call |
| GptUtilsAsync.AlwaysTransient | squidtools/gpt_utils_async.py:76-83 | an API that keeps failing transiently is called six times, and its last error is raised |
| GptUtilsAsync.FencedAnswer | squidtools/gpt_utils_async.py:34 | an answer in a json code fence is read as the fenced text, stripped |
| GptUtilsAsync.UnfencedAnswer | squidtools/gpt_utils_async.py:34 | an answer without backticks is only stripped |
| GptUtilsAsync.Judge | squidtools/gpt_utils_async.py:33-65 | it asks again only below the ceiling, and then the best-so-far moves only to an answer scored short of 1 and above it |
| GptUtilsAsync.JudgeOutcome | squidtools/gpt_utils_async.py:33-65 | `method`'s exception escapes; a decode error escapes exactly at the ceiling; a returned pair has full marks or no schema, with its cost; the best-so-far is returned only at the ceiling and only when truthy, else the schema error is raised |
| GptUtilsAsync.JsonPrompt | squidtools/gpt_utils_async.py:32-65 | at least one ask, the last at `attempt + asks - 1`, at most `MAX_ATTEMPTS - attempt + 1` asks, fewer retried answers than asks |
| GptUtilsAsync.FoldBestConcat | squidtools/gpt_utils_async.py:56-57 | updating the best-so-far over two runs of answers is updating it over their concatenation |
| GptUtilsAsync.PromptTrace | squidtools/gpt_utils_async.py:32-65 | every earlier attempt asked again, and the last was judged with the best-so-far accumulated over the retried answers |
| GptUtilsAsync.RetriedScored | squidtools/gpt_utils_async.py:51-58 | the retried answers are the ones the schema scored short of 1, with those scores |
| GptUtilsAsync.AtMostFiveAsks | squidtools/gpt_utils_async.py:32-58 | with the defaults, `json_prompt` asks at most five times |
| GptUtilsAsync.FoldBestIsFirstMax | squidtools/gpt_utils_async.py:56-57 | the best-so-far is the first answer with the top score, if that beats the start; ties keep the earlier answer |
| GptUtilsAsync.StoredScoresPositive | squidtools/gpt_utils_async.py:32-57 | from a start like `(0, None)`, a best-so-far that holds an answer has a score above zero |
| GptUtilsAsync.LastAnswerNotCandidate | squidtools/gpt_utils_async.py:54-62 | at the ceiling the last answer is not compared: the earlier best is returned however it scores |
| GptUtilsAsync.FalsyBestRaises | squidtools/gpt_utils_async.py:61-64 | whatever the stored best, when it is absent or falsy and the last answer falls short, the ceiling raises the schema error |
| LegacyGptUtils.ModelChoice | data_wrangler/gpt_utils.py:19-22 | the 16k model exactly when `big_context` is set, gpt-3.5-turbo exactly when it is not |
| LegacyGptUtils.GenerateChatResponse | data_wrangler/gpt_utils.py:18-51 | at least one call, one sleep fewer, and from an attempt within the ceiling at most `MAX_ATTEMPTS - attempt + 1` calls |
| LegacyGptUtils.ChatCalls | data_wrangler/gpt_utils.py:24-39 | the k-th call uses the `big_context` model at attempt `attempt + k` |
| LegacyGptUtils.ChatSleeps | data_wrangler/gpt_utils.py:31-38 | the k-th sleep lasts 2^(attempt + k + 2) seconds |
| LegacyGptUtils.RetriedTrace | data_wrangler/gpt_utils.py:30-49 | every call but the last failed with a retried error |
| LegacyGptUtils.ChatOutcome | data_wrangler/gpt_utils.py:18-51 | the result is the last reply, and a failure is not retryable or came past the ceiling |
| LegacyGptUtils.AtMostSixCalls | data_wrangler/gpt_utils.py:18-51 | from attempt 0, at most six calls |
| LegacyGptUtils.RaisedAtOnce | data_wrangler/gpt_utils.py:40-51 | an API error without "bad gateway", or an error of another class, is raised after one call |
| LegacyGptUtils.AlwaysUnavailable | data_wrangler/gpt_utils.py:30-39 | a service that stays unavailable is called six times, sleeping 4, 8, 16, 32 and 64 seconds, and the last error is raised |
| Names.RemovePunctSpec | squidtools/names.py:15 | the result holds no punctuation, only characters of the argument, and every character of it that is not punctuation |
| Names.RemovePunctChar | squidtools/names.py:15 | a single character is deleted exactly when it is punctuation |
| Names.RemovePunctConcat | squidtools/names.py:15 | deleting from a concatenation is deleting from each part, so the kept characters stay in order |
| Names.CleanSpec | squidtools/names.py:12-17 | a cleaned name has no capital and no surrounding whitespace; with `remove_punct` no punctuation, without it the punctuation is kept |
| Names.CleanIdempotent | squidtools/names.py:12-17 | cleaning a cleaned name changes nothing |
| Names.NormalizedOneComma | squidtools/names.py:26-30 | a name is normalized exactly when it holds one comma |
| Names.UnnormalizeNoComma | squidtools/names.py:32-37 | the result never holds a comma |
| Names.UnnormalizeIdempotent | squidtools/names.py:32-37 | unnormalizing twice is unnormalizing once |
| Names.SecondPartNonEmpty | squidtools/names.py:50 | with two given parts the second is never empty |
| Names.NormalizedParts | squidtools/names.py:48-50 | a normalized name is its last name, a comma and the given names |
| Names.NormalizedCases | squidtools/names.py:44-74 | more than two given names fail; otherwise first and last come from the parts, a suffix only when not an initial, and a middle initial exactly when there are two parts and the second is not a suffix that is not an initial |
| Names.NormalizedMiddleCut | squidtools/names.py:62-65 | a middle name that is neither an initial nor a suffix is cut to its first character |
| Names.FirstIndex | squidtools/names.py:86 | for an `x` in the list: a position holding `x` with no earlier `x` |
| Names.RemoveFirstSpec | squidtools/names.py:86 | `remove` takes out the first match and keeps the rest in order |
| Names.ParseRawName | squidtools/names.py:76-114 | the method computes `RawName`: a trailing suffix taken off, then "first last" or "first initial last" |
| Names.RawCases | squidtools/names.py:82-106 | a suffix is recorded exactly when the last word is one; the rest reads "first last" with a last name that is not an initial, or "first initial last"; anything else fails |
| Names.SuffixRemovesFirstMatch | squidtools/names.py:84-86 | "jr smith jr" keeps "smith jr", so "smith" is the first name and "jr" the last |
| Names.ParsedHasFirstAndLast | squidtools/names.py:116-120 | whichever parser runs, a parsed name has a first and a last name |
| Names.CompareScores | squidtools/names.py:123-138 | a comparison exists exactly when both names parse; first and last score 1 or 0, and the middle scores 0.2 exactly when a side lacks it |
| Names.CompareSymmetric | squidtools/names.py:123-138 | the comparison does not depend on the order of the names |
| Names.SameWordSets | squidtools/names.py:155-162 | the cardinality test holds exactly when both names have the same set of words |
| Names.ScoreBounds | squidtools/names.py:147-170 | the score lies in [0, 1] and is 1 exactly for identical strings |
| Names.TieredBounds | squidtools/names.py:151-170 | every tier but the exact match lies in [0, 1) |
| Names.ScoreSymmetric | squidtools/names.py:147-170 | the score does not depend on the order of the names |
| Names.ScoreTiers | squidtools/names.py:151-163 | different strings that clean alike score 0.99; otherwise names with the same set of words score 0.95 |
| Workflow.NextStepFilename | build/lib/squidtools/workflow.py:2-8 | the method computes `NextStep`: the step inserted before the last part, joined with '.' |
| Workflow.NextStepParts | build/lib/squidtools/workflow.py:6-8 | with a step free of '.', the new name's parts are the file's parts with the step before the last one |
| Workflow.ExtensionKept | build/lib/squidtools/workflow.py:7-8 | the new name ends with '.' and the file's extension |
| Workflow.NoExtension | build/lib/squidtools/workflow.py:6-8 | a name without '.' becomes step + "." + name |
| Workflow.OneMoreDot | build/lib/squidtools/workflow.py:6-8 | with a step free of '.', the new name has exactly one more '.' |
| Workflow.StepRemovable | build/lib/squidtools/workflow.py:6-8 | with a step free of '.', dropping the next-to-last part of the new name gives the file name back |
| Workflow.CommentExample | build/lib/squidtools/workflow.py:5 | "a.b.txt" with step "c" gives "a.b.c.txt" |
| Qualtrics.FlattenSpec | build/lib/squidtools/qualtrics.py:9-12 | a response flattens exactly when it is a dict with `responseId` and `values` that are a dict, an empty string or an empty list; a non-empty string raises ValueError; the record holds dict values plus `responseId`, which the values may override, or the id alone |
| Qualtrics.GetRecords | build/lib/squidtools/qualtrics.py:4-14 | a missing `responses` key fails the assertion; otherwise one record per response, in order, or the error of the first response that does not flatten |

## Left out

- File I/O, `sys.stderr` and `print` diagnostics, `time.sleep` and the progress percentages are not modelled. A sleep is recorded as its duration in seconds.
- asyncio scheduling is not modelled. A batch's calls are modelled in batch order, with their settled outcomes, because `asyncio.gather` returns results in submission order. The inter-batch `delay` is not modelled.
- A task result that is neither a dict nor `None` is not modelled. The sequential runner would catch the `TypeError` from stamping it. The async runner would let it escape.
- ProgressLedger.Ledger.Load: a line that is JSON but not an object, on which `p.get` raises `AttributeError`, cannot occur, because lines are typed as objects. A key that is `true` or `false` is filed as `1` or `0`, whereas Python keeps the spelling inserted first.
- LegacyRobustTask.FilenameLedger.Load: a `filename` of `true` or `false` is filed as `1` or `0`, whereas Python keeps the spelling inserted first.
- JSON parsing and serialization are oracles. A line that is not valid JSON, which makes `load_progress` raise, is not modelled. Floats are not among the JSON values.
- Scores and costs are exact reals, so floating-point rounding in `simpleMatchScore` and in the schema comparison is not modelled.
- `lower()` is modelled on ASCII letters only, and `strip()` on a fixed set of whitespace characters. There is no Unicode case mapping.
- `gen_batches` and `print_err` are imported from `squidtools.util` by `squidtools/robust_task.py:9` (and `print_err` by `squidtools/gpt_utils_async.py:4`), but `squidtools/util.py` defines only `write_csv`, so as written those imports fail. The model assumes a `gen_batches` that yields consecutive chunks of `batch_size` items, the last one possibly shorter, and assumes `batch_size > 0` (`Batching.GenBatches`, `Runners.RunPass` and `Runners.AsyncRobustTask` require it). `print_err` is a diagnostic and is not modelled.
- A runner's task is a function of the item's value, and of the timeout in the async runner. Two names with the same value therefore get the same outcome. A nondeterministic task, such as the flaky tasks the module docstring (`squidtools/robust_task.py:11`) has in mind, that answers one value differently within one pass cannot be expressed. No stated property relies on this.
- The in-place `_pkey` stamp is not modelled. `save_progress` writes `_pkey` into the very dict the task returned, and the runners then store that same object in `progress`. If a task returns one dict object for several names, each later save re-stamps the object, so every entry shows the last name. The model stamps a copy per call. Runners.SyncSuccessMerged, Runners.SyncReload, Runners.PassSorts, Runners.AsyncPassSorts and Runners.AsyncRetrySorts therefore hold for tasks that return a fresh dict on every call.
- `get_message_text`, `get_total_tokens`, `get_total_cost`, `basic_prompt`, `system_prompt` and `json_prompt_system` are not modelled. They format requests or price responses and take no part in the retry policies. `json_prompt`'s `method` is the `ask` oracle.
- `lev_dist` and `byline` are not modelled: they call the Levenshtein library and spaCy.
- `naive_dict_to_tsv` is not part of the core.
- Qualtrics.GetRecords: a non-empty list given as `values` is modelled as a `TypeError`. `dict.update` reads such a list as key-value pairs: two-element items are added, and an item of another length raises `ValueError`. Records with non-string keys are outside the model. `replaceWithText` is ignored, as the source ignores it.
- Qualtrics.Flatten: as for `GetRecords`, a non-empty list of `values` is a `TypeError` rather than a list of pairs.
- build/lib/squidtools/gpt_utils.py names `openai.` in its handlers without importing the module, which would turn any caught error into a `NameError`. The model assumes `import openai`.
- LegacyGptUtils: the model assumes openai < 1, where `ServiceUnavailableError` is not an `APIError`, so only a plain API error reaches the second handler.
- squidtools/gpt_utils.py and the other scraping modules are not part of this model.

## Findings

| source | as written | input that shows it | evidently intended | confidence | as-written member | corrected member |
|---|---|---|---|---|---|---|
| build/lib/squidtools/gpt_utils.py:40-59 | `except openai.APIError` comes before `except openai.BadRequestError`. In openai >= 1 a bad request is an API error, so the first clause catches it and the 16k escalation is unreachable | a `BadRequestError` saying "maximum context length" on gpt-3.5-turbo with smart context on is raised | such a request is retried once on gpt-3.5-turbo-16k at the same attempt | not executed | GptUtils.ContextErrorExchange | GptUtils.ClassifyCases |
