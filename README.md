# SimpleAI core, modelled in Dafny

This project models the core of SimpleAI, a small Python back end for machine-learning jobs.

- **Task manager** (`src/utils/task.py`). Work functions marked as long tasks are submitted to a worker pool. A monitor thread moves each task's `TaskState` along as its pool future runs and finishes. `result` hands a task to its caller and forgets the task once it is `SUCCESS` or `FAILURE`.
- **`TaskState` table** (`src/common/enum.py`). Each state maps to a (reporting code, ordinal) pair.
- **Early-stopping counter** (`src/utils/Stopper.py`).
- **Configuration loader and checkpoint filter** (`src/utils/Configurer.py`).
- **In-memory instance store** (`src/utils/Persistencer.py`). The store is a singleton through the `@singleton` decorator.
- **Text side of the texture analyser** (`src/data_process/TextureAnalysis.py`). This covers stop-word loading and filtering, the word-frequency table, tag selection and the `analysis` mode dispatch.

## Layout

- `wrappers.dfy`: `Option` and `Result`.
- `task_states.dfy`: module `TaskStates`, the enum and its value table.
- `task_registry.dfy`: module `TaskRegistry`, the manager's registry as a value.
  - Functions give the effect of each locked block: `Submitted`, `Swept` and `Consumed`.
  - Lemmas give a task's lifecycle and the registry's behaviour over any run of operations.
- `task.dfy`: module `Tasks`, the imperative classes `Callable`, `Task` and `TaskManager`.
  - Each `TaskManager` method is proved against the matching `TaskRegistry` function.
- `stopper.dfy`: module `EarlyStopping`, with the pure step `Next`, runs of it (`Feed`) and the class `Stopper`.
- `configurer.dfy`: module `Configuration`, with `Loaded` and `Surviving` and the in-place classes and methods that implement them.
- `persistencer.dfy`: module `Persistence`, with `RemoveAll` and the class `Persistencer`.
  - The class `Singleton` is the `@singleton` wrapper.
- `py_strings.dfy`: module `PyStrings`, Python's `in` on strings and `str.strip()`.
- `stable_sort.dfy`: module `StableSort`, a stable descending sort by count, as `sorted(..., key=count, reverse=True)` does.
- `texture_analysis.dfy`: module `Texts`, the analyser.

## Model

| member | source | states |
|---|---|---|
| TaskStates.Value | src/common/enum.py:73-87 | the (reporting code, ordinal) pair of each state; `Code`, `Ordinal` and the lemmas below state its properties |
| TaskStates.IsTerminal | src/utils/task.py:239 | SUCCESS or FAILURE, the states `result` consumes |
| TaskStates.Code | src/common/enum.py:73-87 | 202 exactly for PENDING/STARTED/SENT, 200 for PROGRESS/SUCCESS, 500 for FAILURE, 503 for RETRY, 403 for REVOKED |
| TaskStates.Ordinal | src/common/enum.py:73-87 | the ordinal is below 8 |
| TaskStates.OrdinalIsDeclarationIndex | src/common/enum.py:73-87 | each state's ordinal is its position in declaration order |
| TaskStates.FromValue | src/common/enum.py:73-87 | looking up a (code, ordinal) pair finds a state with that value, or none exists |
| TaskStates.ValueRoundTrip | src/common/enum.py:73-87 | looking up a state's own value gives the state back |
| TaskStates.ValuesDistinct | src/common/enum.py:73-87 | no two states share a value |
| TaskRegistry.Submitted | src/utils/task.py:191-196 | submit adds exactly the new id, PENDING with info None, leaving other entries alone; the size grows by one for a new id |
| TaskRegistry.Observe | src/utils/task.py:209-222 | a running future makes the task PROGRESS; a finished one makes it SUCCESS; a raised one makes it FAILURE with the traceback as info; a queued one changes nothing; a done future always leaves a terminal state |
| TaskRegistry.Swept | src/utils/task.py:209-222 | a monitor pass keeps the key set and observes every task's own future |
| TaskRegistry.Consumed | src/utils/task.py:238-240 | a terminal entry is removed by reading it; any other read leaves the registry unchanged; nothing is ever added or altered |
| TaskRegistry.Answer | src/utils/task.py:233-236 | result fails with "no such task" exactly when the id is absent; otherwise it returns that entry |
| TaskRegistry.Trace | src/utils/task.py:209-222 | one view per sweep |
| TaskRegistry.TraceStep | src/utils/task.py:209-222 | each sweep observes the view left by the previous one |
| TaskRegistry.ObserveIdempotent | src/utils/task.py:209-222 | observing the same future twice is the same as once |
| TaskRegistry.TraceFollowsFuture | src/utils/task.py:191-222 | for a submitted task whose future only moves forward, the state mirrors the future: PENDING while queued, PROGRESS while running, SUCCESS once finished, FAILURE once raised; info is None except after a raise, when it is the traceback |
| TaskRegistry.StatesNeverRegress | src/utils/task.py:209-222 | along such a history the state never moves back |
| TaskRegistry.TerminalIsFinal | src/utils/task.py:209-222 | once the future is done, every later sweep leaves the task in the same terminal view |
| TaskRegistry.Apply | src/utils/task.py:179-240 | one locked operation of the manager: an admitted or refused submit, a monitor pass, or a result call |
| TaskRegistry.Run | src/utils/task.py:179-240 | a sequence of such operations, in order; the two lemmas below hold for every such run |
| TaskRegistry.RunKeepsDrivenStates | src/utils/task.py:179-240 | no interleaving of submit, monitor and result ever produces STARTED, SENT, RETRY or REVOKED |
| TaskRegistry.AbsentStaysAbsent | src/utils/task.py:179-240 | an id that is never admitted by submit stays unknown, and result on it fails with "no such task" |
| TaskRegistry.ConsumeOnce | src/utils/task.py:233-240 | a terminal task is returned once; after that, without a re-submit of the same id, result fails with "no such task" |
| TaskRegistry.NonTerminalReadRepeats | src/utils/task.py:238-240 | reading a non-terminal task leaves it in place, so the read can be repeated |
| Tasks.Callable.constructor | src/utils/task.py:17-34 | a function object with or without the long-task attribute |
| Tasks.IsLongTask | src/utils/task.py:188 | the admission test `getattr(func, '_is_long_task', False)`; `Submit` and `LongTask` state its effect |
| Tasks.LongTask | src/utils/task.py:167-177 | tags the function itself (same object) as a long task |
| Tasks.Task.constructor | src/utils/task.py:37-50 | a task with the given id, state and info |
| Tasks.Task.View | src/utils/task.py:44-48 | the view is the task's state and info |
| Tasks.Task.Pending | src/utils/task.py:52-59 | sets only the state, to PENDING |
| Tasks.Task.Started | src/utils/task.py:61-68 | sets only the state, to STARTED |
| Tasks.Task.Sent | src/utils/task.py:70-77 | sets only the state, to SENT |
| Tasks.Task.Progress | src/utils/task.py:79-86 | sets only the state, to PROGRESS |
| Tasks.Task.Retry | src/utils/task.py:88-95 | sets only the state, to RETRY |
| Tasks.Task.Revoked | src/utils/task.py:97-104 | sets only the state, to REVOKED |
| Tasks.Task.Success | src/utils/task.py:106-113 | sets only the state, to SUCCESS |
| Tasks.Task.Failure | src/utils/task.py:115-122 | sets only the state, to FAILURE |
| Tasks.Task.Track | src/utils/task.py:213-222 | the monitor's branch for one task changes its view exactly as `Observe` says |
| Tasks.Task.SetInfo | src/utils/task.py:124-132 | sets only the info |
| Tasks.TaskManager.constructor | src/utils/task.py:140-151 | starts with an empty registry |
| Tasks.TaskManager.Submit | src/utils/task.py:179-196 | an untagged function is refused with a type error and nothing is stored; a tagged one gets a new PENDING task under its id, and the id is returned; the registry becomes `Submitted` |
| Tasks.TaskManager.Sweep | src/utils/task.py:209-222 | updates the task objects in place so that the registry becomes `Swept` of the old one |
| Tasks.TaskManager.Result | src/utils/task.py:224-242 | an unknown id fails; otherwise returns the task object, removing it when terminal; the registry becomes `Consumed` and the answer agrees with `Answer` |
| EarlyStopping.Next | src/utils/Stopper.py:17-38 | a better loss resets the best and scales the counter by 0.8, truncated; otherwise the counter grows while it stays below the limit; stops exactly when the loss does not improve and the counter is at the limit; a stop changes nothing; the best loss never rises |
| EarlyStopping.Feed | src/utils/Stopper.py:17-38 | one answer per loss; the best loss never rises; the counter stays non-negative |
| EarlyStopping.FeedKeepsBound | src/utils/Stopper.py:26-34 | the counter never exceeds trials - 1 |
| EarlyStopping.BestLossIsMinimum | src/utils/Stopper.py:26-29 | the best loss is at most every loss seen |
| EarlyStopping.NonImprovingRunStops | src/utils/Stopper.py:31-38 | a run of non-improving losses at least as long as the remaining budget ends in a stop |
| EarlyStopping.StopsAfterTrialsNonImproving | src/utils/Stopper.py:6-38 | `trials` non-improving losses in a row (one if trials < 1) always end in a stop |
| EarlyStopping.Initial | src/utils/Stopper.py:14-15 | the starting counter 0 and best loss 1e9 |
| EarlyStopping.Stopper.constructor | src/utils/Stopper.py:6-15 | counter 0, best loss 1e9 |
| EarlyStopping.Stopper.CanStop | src/utils/Stopper.py:17-38 | the answer and the new counter and best loss are `Next` of the old ones |
| Configuration.Loaded | src/utils/Configurer.py:69-85 | only existing attributes change; a None or missing setting keeps the attribute; a present setting replaces it |
| Configuration.LoadTwiceIsLoadOnce | src/utils/Configurer.py:69-85 | loading the same settings twice is the same as once |
| Configuration.Configurer.constructor | src/utils/Configurer.py:69-85 | an object with the given attributes |
| Configuration.Configurer.LoadConfiguration | src/utils/Configurer.py:69-85 | the attributes become `Loaded` of the old ones |
| Configuration.MatchesAny | src/utils/Configurer.py:117 | `any(excluded_layer in layer ...)`; `Surviving` and `EmptyExclusionDeletesAll` state its effect |
| Configuration.Surviving | src/utils/Configurer.py:115-118 | a layer survives exactly when no exclusion is a substring of its name, with its value unchanged |
| Configuration.NoExclusionKeepsAll | src/utils/Configurer.py:115-118 | with no exclusions every layer survives |
| Configuration.EmptyExclusionDeletesAll | src/utils/Configurer.py:115-118 | an empty exclusion string deletes every layer |
| Configuration.StateDict.constructor | src/utils/Configurer.py:104-121 | a state dict with the given entries |
| Configuration.CheckpointFilter | src/utils/Configurer.py:104-121 | the pretrained dict loses its excluded layers in place; the model dict is updated with the survivors and returned, also when both are the same object |
| Persistence.RemoveAll | src/utils/Persistencer.py:50-60 | deleting keys in turn only removes entries; without an error the result is the map minus all keys; an error names a key that is absent at that point |
| Persistence.DistinctPresentSucceeds | src/utils/Persistencer.py:58-60 | distinct stored keys are all deleted, and no KeyError is raised |
| Persistence.SuccessNeedsDistinctPresent | src/utils/Persistencer.py:58-60 | conversely, no KeyError only if the keys are distinct and all stored |
| Persistence.FailureKeepsEarlierDeletions | src/utils/Persistencer.py:58-60 | when key i is the first missing one, the earlier deletions stay done and key i is the error |
| Persistence.RepeatedKeyFails | src/utils/Persistencer.py:58-60 | naming a present key twice deletes it and then fails on it |
| Persistence.Persistencer.constructor | src/utils/Persistencer.py:13-19 | the store starts empty |
| Persistence.Persistencer.Update | src/utils/Persistencer.py:39-48 | the given pairs overwrite or add entries; other keys read as before |
| Persistence.Persistencer.Remove | src/utils/Persistencer.py:50-60 | the store and the error are `RemoveAll` of the old store; on success no named key exists |
| Persistence.Persistencer.Get | src/utils/Persistencer.py:62-70 | a value exactly for stored keys, and it is the stored one; otherwise None |
| Persistence.Persistencer.Exist | src/utils/Persistencer.py:72-80 | a key exists exactly when `Get` finds it |
| Persistence.Singleton.constructor | src/common/decorator/decotator.py:116-117 | no instance yet |
| Persistence.Singleton.Instance | src/common/decorator/decotator.py:119-133 | the first call creates an empty store; every later call returns that same object |
| Persistence.InstanceTwice | src/common/decorator/decotator.py:119-133 | two instantiations give the same object |
| PyStrings.Contains | src/data_process/TextureAnalysis.py:133 | Python's `in` on strings; `ContainsIffOccurs` states its meaning |
| PyStrings.ContainsIffOccurs | src/data_process/TextureAnalysis.py:133 | `sub in s` holds exactly when `sub` occurs at some index of `s` |
| PyStrings.ContainsTrivial | src/data_process/TextureAnalysis.py:133 | the empty string and `s` itself are in `s` |
| PyStrings.IsSpace | src/data_process/TextureAnalysis.py:111 | the characters `str.strip()` removes: Python's Unicode whitespace |
| PyStrings.TrimStart | src/data_process/TextureAnalysis.py:111 | drops exactly the leading whitespace |
| PyStrings.TrimEnd | src/data_process/TextureAnalysis.py:111 | drops exactly the trailing whitespace |
| PyStrings.Strip | src/data_process/TextureAnalysis.py:111 | the result is empty or begins and ends with a non-space |
| PyStrings.StripRemovesOnlyEdges | src/data_process/TextureAnalysis.py:111 | the result is a slice of the input with only whitespace before and after it |
| StableSort.Insert | src/data_process/TextureAnalysis.py:190 | inserting adds exactly one element |
| StableSort.InsertSorted | src/data_process/TextureAnalysis.py:190 | insertion keeps a list sorted by descending count |
| StableSort.InsertWithCount | src/data_process/TextureAnalysis.py:190 | insertion puts the new element before its equal-count peers |
| StableSort.SortByCountDesc | src/data_process/TextureAnalysis.py:190 | the sort is a permutation of its input |
| StableSort.SortIsStable | src/data_process/TextureAnalysis.py:190 | the output is sorted by descending count, and entries with equal counts keep their input order |
| Texts.Kept | src/data_process/TextureAnalysis.py:131-135 | the test a token must pass against every stop word |
| Texts.FilterKept | src/data_process/TextureAnalysis.py:127-139 | the list `clean_text` returns; the three lemmas below state what it holds |
| Texts.FilterKeptOnlyKept | src/data_process/TextureAnalysis.py:130-137 | every surviving token is kept by every stop word |
| Texts.FilterKeptCounts | src/data_process/TextureAnalysis.py:130-137 | a kept token survives with all its repetitions, and a dropped token is gone |
| Texts.FilterKeptInOrder | src/data_process/TextureAnalysis.py:130-137 | the survivors keep their input order |
| Texts.EmptyStopwordDropsAll | src/data_process/TextureAnalysis.py:133 | an empty line in the stop-word file removes every token |
| Texts.FirstOccurrences | src/data_process/TextureAnalysis.py:185-188 | the dict's keys are the distinct words whose length is not 1 |
| Texts.FirstIndex | src/data_process/TextureAnalysis.py:186-188 | the index of a word's first occurrence |
| Texts.FirstIndexUnique | src/data_process/TextureAnalysis.py:186-188 | only one index is a first occurrence |
| Texts.FirstOccurrencesInOrder | src/data_process/TextureAnalysis.py:186-188 | the dict's keys come in the order of their first occurrences |
| Texts.Tabulate | src/data_process/TextureAnalysis.py:185-188 | each key paired with its number of occurrences |
| Texts.FrequencyTable | src/data_process/TextureAnalysis.py:185-190 | sorted by descending count; each entry is a word of length other than 1 with its true count; every such word appears; ties keep first-occurrence order |
| Texts.TallyStep | src/data_process/TextureAnalysis.py:186-188 | one loop iteration keeps the dict equal to the counts of the words seen so far |
| Texts.CountedItems | src/data_process/TextureAnalysis.py:190 | the dict's items are the tabulation in first-occurrence order |
| Texts.FrequencyTableSortsItems | src/data_process/TextureAnalysis.py:190 | the table is the stable sort of those items |
| Texts.Eligible | src/data_process/TextureAnalysis.py:163 | the `words_filter` test: a weighted word, not numeric and without "http" |
| Texts.Candidates | src/data_process/TextureAnalysis.py:163-164 | exactly the table words that are weighted, non-numeric and free of "http", in table order |
| Texts.SliceTo | src/data_process/TextureAnalysis.py:166 | Python's `s[:n]`, a negative `n` counting from the end |
| Texts.TagCandidates | src/data_process/TextureAnalysis.py:163-164 | the list `tags` before slicing; `Candidates` states what it holds |
| Texts.GetTags | src/data_process/TextureAnalysis.py:160-166 | fails exactly when `get_words_weight` does; otherwise the tags are exactly the first `min(tag_number, len(tags))` candidates, the most frequent ones (a negative bound drops that many from the end); all are eligible and in frequency-table order |
| Texts.AllTagsWhenEnoughRoom | src/data_process/TextureAnalysis.py:157-166 | when `tag_number` is at least the number of candidates, every eligible word of length other than 1 is a tag |
| Texts.StrippedLines | src/data_process/TextureAnalysis.py:109-111 | the set of stripped lines `set_stopwords` adds |
| Texts.StrippedLinesAppend | src/data_process/TextureAnalysis.py:109-111 | reading one more line adds its stripped form |
| Texts.StrippedLinesPrefix | src/data_process/TextureAnalysis.py:110-111 | one more line of the file adds exactly its stripped form |
| Texts.TextureAnalysis.constructor | src/data_process/TextureAnalysis.py:49-61 | the stop words are the stripped lines of the file |
| Texts.TextureAnalysis.SetStopwords | src/data_process/TextureAnalysis.py:92-111 | the stripped lines are added to the stop words already held |
| Texts.TextureAnalysis.CleanText | src/data_process/TextureAnalysis.py:126-139 | the nested loop with its early exit computes `FilterKept` |
| Texts.TextureAnalysis.GetWordsFrequency | src/data_process/TextureAnalysis.py:168-190 | the method computes `FrequencyTable` |
| Texts.TextureAnalysis.CountWords | src/data_process/TextureAnalysis.py:185-188 | the counting loop leaves the dict tallied over all the words |
| Texts.TextureAnalysis.Analysis | src/data_process/TextureAnalysis.py:63-90 | a ValueError exactly for an unknown mode, or for an empty vocabulary in the "tag" and "weight" modes; otherwise "tag", "frequency" and "weight" give the tags, the frequency table or the weights of the cleaned tokens |

## Left out

- Threads, the pool and the lock: every locked block of `TaskManager`, `Persistencer` and `@singleton` is one atomic method.
  - The monitor's endless loop and its 0.1 s sleep are a sequence of calls to `Sweep`.
- `result` pops a terminal task after leaving the lock (`src/utils/task.py:239-240`). A race with another thread is not modelled: the read and the pop form one step.
- The uuid of `submit` is an `id` parameter. No freshness is assumed: a repeated id overwrites, as `dict.update` does.
- Running the work function is not modelled. Its pool future is seen only as the `FutureStatus` supplied to each sweep, and the `Task` object does not hold it.
  - The text of a traceback is the string that `Raised` carries.
- `__str__` of `TaskManager` and `Persistencer`: display only.
- Persistence.Persistencer.Get and Persistence.Persistencer.Exist: Python's `get` returns None both for a missing key and for a stored None. The model's `Option` keeps the two apart, so "exists exactly when `Get` finds a value" holds of the model only. In the code, a stored None is found by `exist` but not by `get`.
- TaskRegistry.FutureHistory: the traceback text of a raised future is fixed once the future is done. In the code, each pass re-raises the stored exception and formats it again (`src/utils/task.py:216-220`), and the text can grow with each re-raise. `TaskRegistry.TerminalIsFinal` and `TaskRegistry.ObserveIdempotent` keep a FAILURE task's info unchanged only under that assumption. The state stays FAILURE and the info stays set either way.
- Tasks.TaskManager.Sweep and TaskRegistry.Swept: the work function can raise an exception that is not an `Exception`, such as `SystemExit` or `KeyboardInterrupt`. Then `result()` at `src/utils/task.py:217` re-raises it past `except Exception`, and the monitor thread ends. The tasks after it in that pass, and every later pass, are never observed. `FutureStatus` has no such outcome, so the model's monitor never stops.
- `LongTask` as a typing Protocol: only the `_is_long_task` attribute is modelled.
- Losses are `real`, not floating point: NaN and rounding are not modelled.
  - `int(now_trials * 0.8)` is `(4 * now_trials) / 5`. These agree for the non-negative counters `Stopper` holds.
- `Configurer.configure` is abstract, and `path_revise` depends on the file system: both are left out.
  - `hasattr` is membership in the attribute map.
- Dict insertion order is not modelled for the configuration, the state dicts or the instance store. They are Dafny maps.
  - The frequency table keeps it: it is a sequence of entries.
- `jieba.lcut` tokenisation is an input: `CleanText` and `Analysis` take the token list.
- `get_words_weight` computes TF-IDF weights with scikit-learn's `TfidfVectorizer` (`src/data_process/TextureAnalysis.py:192-219`). It is the function parameter `tfidf` of `GetTags` and `Analysis`.
  - `tfidf` returns None for the ValueError that `fit_transform` raises on an empty vocabulary. The model does not decide when that happens: for example, it happens when no cleaned token has two or more word characters.
  - The weights are taken as the sorted table the method returns.
- Texts.GetTags: the tags come in frequency-table order, as `src/data_process/TextureAnalysis.py:164` computes them by iterating `words_frequency`. The docstring at `src/data_process/TextureAnalysis.py:156` says descending weight order. The model states no weight order, and the abstract `tfidf` does not decide whether the two orders agree.
- `str.isnumeric` is a predicate parameter, because Unicode digit categories are not modelled.
- The default `tag_number = 10` of `analysis` is not modelled: `Analysis` takes the bound explicitly.
- Reading the stop-word file is an input: the file's lines are given as a sequence of strings.
  - `PyStrings.IsSpace` covers the Unicode whitespace characters that Python's `str.strip()` removes.
- Stop words are a set, so `clean_text`'s loop order does not matter. The loop stops at the first matching stop word, and the result is the same in any order.
- The model-training, database, dataset and web-controller code outside these files is not part of this model.

### Behaviour of the code worth noting

- On success the monitor does not store the work function's return value: `info` stays None (`src/utils/task.py:221-222`).
- The monitor keeps re-observing terminal tasks on every pass. With the outcome of a done future held fixed, they do not change (`src/utils/task.py:209-222`, `TaskRegistry.TerminalIsFinal`).
- `PROGRESS` never carries info: only the failure branch calls `set_info` (`src/utils/task.py:213-220`).
