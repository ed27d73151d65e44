# examgenerator: task sampling, task groups and preprocessor naming, in Dafny

This project models and proves the core of examgenerator. examgenerator assembles exams from pools of tasks. The model covers:

- **`TaskSampler`.** It resolves each task's points, groups the task constraints by kind and validates them. Each `get_tasks(seed, source)` call draws in three stages:
  1. the per-pool score constraints;
  2. the flat score constraints;
  3. the score-agnostic quotas: the per-pool quota, then the `TasksConstraint`.

  All three stages draw from a per-call dictionary of task lists, keyed by points and pool. The result is optionally shuffled.
- **`ConstraintValidator`.** The five feasibility checks, and `validate`, which runs them in order.
- **The values.** The constraint variants and the `Task` record with its path properties.
- **The task-group tree.** Plain and ordered groups concatenate their children, permutation groups shuffle their direct children, and sampled groups delegate to a sampler built when the group is created.
- **`generate_ids`.** It names subtasks, description, solution, grade and header cells.
- **Three copy helpers:** `get_import_path`, `get_new_name` and `copyfile`.

Python's `random.Random` is modelled as a raw stream `bits(seed, n)` chosen freely. Every property holds for every stream. What the same seed reproduces is expressed by the outputs being functions of the stream and the seed. `shuffle` and `sample` follow CPython's algorithms over that stream:
- `shuffle` is a Fisher–Yates shuffle driven by `_randbelow`;
- `sample` is the pool-based selection.

Python exceptions are values: `AssertionError` (naming the check), `ValueError`, `KeyError(score)` and `FileNotFoundError` (module `Wrappers`). Python slicing is written out, in module `PySeq`:
- `PyTail(s, k)` is `s[-k:]`: the whole list for k = 0, and `s[|k|:]` for k < 0;
- `PyDropTail(s, k)` is what `del s[-k:]` leaves.

## Layout

| file | contents |
|---|---|
| wrappers.dfy | `Option`, `Result`, `Outcome`, the exception kinds |
| pyseq.dfy | Python slices, first-appearance `Distinct`, `list.remove`, concatenation |
| pyformat.dfy | `str(n)` for naturals, with its inverse |
| pyrandom.dfy | the generator state and CPython's `shuffle`, `_randbelow` and `sample` |
| constraints.dfy | the constraint variants and their grouping by class name |
| task.dfy | `Task`, `os.path.join`, `relpath`, `path`, `notebook_path` |
| validator.dfy | `ConstraintValidator` (module `Validator`) and the score checks (module `ValidatorScores`) |
| buckets.dfy | the `scores[points][pool]` dictionary as a map keyed by (points, pool): per-pool lists, rows and the filing invariant |
| sampling.dfy | the sampler's stages as functions, the reference the methods are proved against |
| sampling_lemmas.dfy | what the stages guarantee |
| sampler.dfy | the `TaskSampler` class and its random generator (`Rng`), whose methods follow the source's loops |
| taskgroups.dfy | the group tree, its listing, and the `SampledTaskGroup` object |
| taskids.dfy, taskids_lemmas.dfy | `generate_ids` over a notebook object, and what it assigns |
| copyfiles.dfy | `get_import_path`, `get_new_name` and `copyfile` over a map from paths to contents |

### How dictionary order is fixed

The sampler's stages depend on dict iteration order, which is insertion order. The model recomputes that order from the task list instead of storing it:
- the outer `scores` keys are the points in order of first appearance among the selected tasks (`ScoreOrder`);
- the inner pools of a score are its pools in order of first appearance, then the pools later stages add with a defaultdict lookup, in the order of `pools` (`DictPools`);
- `pool_dict` inherits the pool order of the first score (`PoolDictOrder`).

`list(set(...))` in `sample_pools` is taken in first-appearance order.

## Model

| member | source | states |
|---|---|---|
| PyRandom.Seeded | examgenerator/sampling/sampler.py:222 | `random.Random(seed)` starts at the first draw of that seed's stream |
| PyRandom.RandBelow | examgenerator/sampling/sampler.py:99 | one draw reduced below m, advancing the stream by one and keeping the seed |
| PyRandom.Shuffle | examgenerator/sampling/sampler.py:99 | `shuffle` returns a permutation of the list (same length and multiset) and keeps the generator's seed |
| PyRandom.Sample | examgenerator/sampling/sampler.py:163 | `sample(population, k)` is a ValueError exactly when k < 0 or k > len(population); otherwise k elements, a sub-multiset of the population |
| PySeq.PyTail | examgenerator/sampling/sampler.py:135 | `s[-k:]`: the whole list for k = 0, the last min(k, len) elements for k > 0, `s[-k:]` as a start index for k < 0 |
| PySeq.PyDropTail | examgenerator/sampling/sampler.py:136 | `del s[-k:]` leaves exactly the complement of `s[-k:]`, and nothing for k = 0 |
| PySeq.Distinct | examgenerator/sampling/sampler.py:113 | the distinct elements, each once, exactly those of the list |
| Sampler.Rng.Shuffle | examgenerator/sampling/sampler.py:99 | the generator object's `shuffle`: result and new state are those of `PyRandom.Shuffle` |
| Sampler.Rng.Sample | examgenerator/sampling/sampler.py:115 | the generator object's `sample`: a failed draw leaves the state unchanged, a successful one advances it |
| Sampler.Resolve | examgenerator/sampling/sampler.py:56-59 | a task with points >= 0 is kept; a negative one gets its notebook's points; a missing notebook fails the assertion; pool, name and root are unchanged |
| Sampler.ResolveAll | examgenerator/sampling/sampler.py:55-59 | resolving the list fails iff some task cannot be resolved, with the notebook assertion; otherwise same length |
| Sampler.ResolveAllEach | examgenerator/sampling/sampler.py:55-59 | a successful resolution resolves every task where it stands |
| Sampler.ResolvePoints | examgenerator/sampling/sampler.py:54-60 | the loop of `calculate_points`: on success the resolved tasks, filed by (points, pool); on failure the tasks before the failing one are resolved and the rest untouched |
| Sampler.TaskSampler.Init | examgenerator/sampling/sampler.py:27-36 | the fields `__init__` sets before `calculate_points` |
| Sampler.TaskSampler.CalculatePoints | examgenerator/sampling/sampler.py:49-60 | resolves the sampler's tasks in place and builds `score_per_pool`; no other field changes |
| Sampler.TaskSampler.Configure | examgenerator/sampling/sampler.py:38-47 | groups the constraints, builds the validator over the tasks, sets the quota to the first TasksPerPoolConstraint's `tasks` or 0 |
| Sampler.TaskSampler.Validate | examgenerator/sampling/sampler.py:44 | runs the validator, with the outcome `ValidatorScores.ValidationOf` gives |
| Sampler.TaskSampler.ParseTaskConstraints | examgenerator/sampling/sampler.py:62-78 | each constraint appended to its class's list; the result is `GroupOf(cs)` and each list holds its own kind only |
| Sampler.NewTaskSampler | examgenerator/sampling/sampler.py:27-47 | construction fails with the notebook assertion, or with the first failed validation check, and succeeds exactly when validation passes; the sampler then holds the resolved tasks, the grouped constraints and the quota |
| Constraints.Grouped.Add | examgenerator/sampling/sampler.py:77 | appending a constraint extends its own kind's list and no other |
| Constraints.OfKind | examgenerator/sampling/sampler.py:75-78 | the constraints of one class name are exactly those of the list with that kind |
| Constraints.GroupOfSnoc | examgenerator/sampling/sampler.py:76-77 | grouping a list extended by one constraint adds it to the grouping |
| Constraints.OfKindAppend | examgenerator/sampling/sampler.py:75-78 | declaration order is kept within a kind: grouping commutes with concatenation |
| Constraints.GroupsPartition | examgenerator/sampling/sampler.py:75-78 | the four groups together are a permutation of the constraint list: every constraint lands in exactly one |
| Constraints.GroupOfWellGrouped | examgenerator/sampling/constraints.py:18-45 | after grouping, each list holds only constraints of its own class |
| Sampling.DistinctPools | examgenerator/sampling/sampler.py:113 | the distinct pools of the tasks: no duplicates, exactly the pools that occur |
| SamplingLemmas.SamplePoolsSpec | examgenerator/sampling/sampler.py:102-116 | `sample_pools` gives distinct pools that occur in the tasks: all of them without a pool constraint; with one, exactly `pools` of them, or a ValueError iff `pools` is negative or exceeds the number of pools |
| Sampling.SamplePools | examgenerator/sampling/sampler.py:102-116 | the reference definition of `sample_pools`, the distinct pools, or `sample` of them under a PoolConstraint; its properties are `SamplePoolsSpec`'s |
| Sampler.TaskSampler.SamplePools | examgenerator/sampling/sampler.py:102-116 | the method computes `Sampling.SamplePools` and advances the generator as it does |
| Sampling.Selected | examgenerator/sampling/sampler.py:94-95 | the tasks of the selected pools, a sub-multiset of the task list |
| Sampling.Build | examgenerator/sampling/sampler.py:96 | each bucket (s, p) holds, in list order, exactly the tasks worth s in pool p |
| Sampling.ScoreOrder | examgenerator/sampling/sampler.py:97 | the outer key order: distinct, and every selected task's points occur in it |
| Sampling.PoolsWithScore | examgenerator/sampling/sampler.py:98 | the inner key order of a score: distinct, exactly the pools holding a task of that score |
| Sampling.DictPools | examgenerator/sampling/sampler.py:158-160 | the inner key order of `scores[s]` once the later stages have looked up every pool: the pools holding a task of that score, then the other selected pools |
| Sampling.PoolDictOrder | examgenerator/sampling/sampler.py:187-190 | the key order of `pool_dict`: the first score's inner key order, or the pools when nothing is selected |
| Sampling.ScoreDict | examgenerator/sampling/sampler.py:80-100 | the reference definition of `get_score_dict`: filing followed by the shuffle loop; its properties are `ScoreDictSpec`'s and `ScoreDictStart`'s |
| Sampler.FileTasks | examgenerator/sampling/sampler.py:93-96 | the filing loop builds exactly `Build(Selected(tasks, pools))` |
| SamplingLemmas.ShufflePoolsSpec | examgenerator/sampling/sampler.py:98-99 | shuffling one score's buckets permutes every bucket and keeps the seed |
| SamplingLemmas.ShuffleScoresSpec | examgenerator/sampling/sampler.py:97-99 | the whole shuffle loop permutes every bucket and keeps the seed |
| SamplingLemmas.ScoreDictSpec | examgenerator/sampling/sampler.py:80-100 | each bucket of `get_score_dict` is a permutation of the selected pool's tasks of that score; unselected pools have empty buckets |
| SamplingLemmas.ScoreDictStart | examgenerator/sampling/sampler.py:93-100 | the dictionary files every task under its own score and pool and holds every selected task exactly once |
| Sampler.TaskSampler.GetScoreDict | examgenerator/sampling/sampler.py:80-100 | the method's dictionary and generator state are those of `Sampling.ScoreDict` |
| Sampling.PerPoolPools | examgenerator/sampling/sampler.py:134-136 | one per-pool constraint: each pool's `bucket[-k:]` emitted and deleted, in pool order; its properties are `PerPoolPoolsSpec`'s |
| Sampling.PerPoolStage | examgenerator/sampling/sampler.py:132-137 | the reference definition of `sample_tasks_with_score_per_pool`; its properties are `PerPoolStageSpec`'s and `PerPoolStageScores`'s |
| Sampler.TakeFromPools | examgenerator/sampling/sampler.py:134-136 | the inner per-pool loop computes `PerPoolPools` |
| Sampler.TakePerPool | examgenerator/sampling/sampler.py:133-136 | the outer per-pool loop computes `PerPoolStage` |
| Sampler.TaskSampler.SampleTasksWithScorePerPool | examgenerator/sampling/sampler.py:118-137 | the sample and the dictionary after it are `PerPoolStage`'s |
| SamplingLemmas.PerPoolPoolsSpec | examgenerator/sampling/sampler.py:134-136 | one per-pool constraint takes its tasks out of the dictionary, none lost or duplicated, each worth its score, from a listed pool |
| SamplingLemmas.PerPoolStageSpec | examgenerator/sampling/sampler.py:132-137 | the per-pool stage's sample plus what remains is the dictionary before it, and the filing invariant holds after it |
| SamplingLemmas.PerPoolStageScores | examgenerator/sampling/sampler.py:133-135 | every task the per-pool stage draws belongs to a selected pool and is worth the score of one of its constraints |
| Sampling.PoolSizes | examgenerator/sampling/sampler.py:154-156 | `pool_size` has exactly the selected pools as keys, each mapped to the number of its tasks in the dictionary |
| Sampler.RemoveSample | examgenerator/sampling/sampler.py:166-168 | the removal loop computes `RemoveDrawn` |
| Sampling.RemoveDrawn | examgenerator/sampling/sampler.py:166-168 | the removal loop as a function: `remove` each drawn task from its bucket and decrement its pool's size; its properties are `RemoveDrawnSizes`'s and `RemoveDrawnBuckets`'s |
| SamplingLemmas.RemoveDrawnSizes | examgenerator/sampling/sampler.py:166-168 | after the removal loop each pool's count has dropped by the number of drawn tasks of that pool |
| SamplingLemmas.RemoveDrawnBuckets | examgenerator/sampling/sampler.py:166-167 | removing a draw from a score's row takes exactly the drawn tasks out of the dictionary |
| Sampling.Piece | examgenerator/sampling/sampler.py:161 | one pool's flat-score candidates: `PyTail(bucket, pool_size - tasks_per_pool)`, the slice as written, under `AsWritten`; the last max(0, pool_size - tasks_per_pool) tasks under `Corrected`; a suffix of the bucket either way |
| Sampling.Candidates | examgenerator/sampling/sampler.py:158-162 | the candidates list, each pool's piece of its bucket in `scores[s]` order, under the given slice; the main model passes `AsWritten`, the source's slice |
| SamplingLemmas.CandidatesInRow | examgenerator/sampling/sampler.py:158-162 | under either slice, so also as the source writes it, the candidates for a score are a sub-multiset of that score's buckets in the listed pools |
| SamplingLemmas.CandidatesCount | examgenerator/sampling/sampler.py:158-162 | corrected slice only: each pool offers at most max(0, pool_size[pool] - tasks_per_pool) candidates; as written, a pool with pool_size == tasks_per_pool offers its whole bucket (see Findings) |
| SamplingLemmas.FlatStep | examgenerator/sampling/sampler.py:157-168 | under either slice, so also as the source writes it: one flat-score constraint draws exactly `tasks` tasks worth its score, removes them from the dictionary, keeps `pool_size` accurate and the seed |
| SamplingLemmas.FlatStepReserve | examgenerator/sampling/sampler.py:157-168 | corrected slice only: one flat-score draw leaves every pool at least min(its size, tasks_per_pool) tasks (see Findings) |
| SamplingLemmas.FlatStageSpec | examgenerator/sampling/sampler.py:153-169 | under either slice, so also as the source writes it: the flat-score stage fails only with a ValueError; on success the sample grows by exactly what leaves the dictionary, `pool_size` stays accurate and the seed is kept |
| SamplingLemmas.FlatStageDraws | examgenerator/sampling/sampler.py:157-169 | under either slice, so also as the source writes it: the flat-score stage appends the sum of its constraints' `tasks` after the sample so far, each worth one of their scores |
| SamplingLemmas.FlatStageReserve | examgenerator/sampling/sampler.py:157-168 | corrected slice only: during the flat-score stage no pool drops below min(its size, tasks_per_pool); `FlatStageAsWrittenSpendsReserve` shows it fails as written (see Findings) |
| Sampler.TaskSampler.SampleTasksWithScore | examgenerator/sampling/sampler.py:139-169 | the method builds the candidates as the source writes them, `candidate[-(pool_size[pool] - tasks_per_pool):]`; its result, dictionary and generator are `FlatStage(AsWritten, ...)`'s, and a failed draw is its ValueError |
| Sampling.FlatDraw | examgenerator/sampling/sampler.py:158-163 | one flat-score constraint's `sample(candidates, tasks)` under the given slice; its properties are `FlatStep`'s |
| Sampling.FlatStage | examgenerator/sampling/sampler.py:153-169 | the reference definition of `sample_tasks_with_score` under the given slice; its properties are `FlatStageSpec`'s and `FlatStageDraws`'s, and under the corrected slice `FlatStageReserve`'s |
| Sampler.ExtendPools | examgenerator/sampling/sampler.py:189-190 | one score's lists appended to their pools' lists in `pool_dict`, no other key touched |
| Sampler.PoolDict | examgenerator/sampling/sampler.py:187-190 | `pool_dict` maps every pool to its lists in score order |
| Sampler.TakeReserve | examgenerator/sampling/sampler.py:193-196 | the reserve loop takes each pool's last `tasks_per_pool` tasks and leaves what `del` leaves |
| Sampler.ValuesFlatten | examgenerator/sampling/sampler.py:199 | the flattened `pool_dict` is the dictionary's tasks pool by pool |
| Sampler.ValuesRemaining | examgenerator/sampling/sampler.py:196-199 | after the reserve is deleted, the flattened `pool_dict` is what remains |
| Sampler.SplitPoolDict | examgenerator/sampling/sampler.py:186-199 | the sample before the draw is the reserve when the quota is positive and empty otherwise; the rest is what remains |
| Sampling.Reserved | examgenerator/sampling/sampler.py:192-196 | each pool's `tasks[-tasks_per_pool:]` in `pool_dict` order; its properties are `ReservedCount`'s |
| Sampling.Remaining | examgenerator/sampling/sampler.py:196-199 | what `del tasks[-tasks_per_pool:]` leaves of each pool, flattened; `ReservedRemaining` relates it to `Reserved` |
| SamplingLemmas.ReservedRemaining | examgenerator/sampling/sampler.py:192-199 | the reserve and the rest together are the dictionary's tasks |
| SamplingLemmas.ReservedCount | examgenerator/sampling/sampler.py:192-196 | with a positive quota the reserve holds min(tasks_per_pool, its size) tasks of every pool, and none of another |
| Sampling.AgnosticStage | examgenerator/sampling/sampler.py:171-207 | the reference definition of `sample_tasks_without_score`; its properties are `AgnosticSpec`'s and `AgnosticReserve`'s |
| SamplingLemmas.AgnosticSpec | examgenerator/sampling/sampler.py:171-207 | the score-agnostic stage fails, with a ValueError, exactly when the TasksConstraint asks for a negative count or for more tasks than remain after the reserve; otherwise it returns the reserve followed by exactly that many tasks, all from the dictionary |
| SamplingLemmas.AgnosticReserve | examgenerator/sampling/sampler.py:192-196 | a pool holding at least tasks_per_pool tasks gives at least tasks_per_pool tasks to the score-agnostic stage |
| Sampler.TaskSampler.SampleTasksWithoutScore | examgenerator/sampling/sampler.py:171-207 | the method's result and generator are `AgnosticStage`'s; the dictionary is unchanged |
| SamplingLemmas.StagesSpec | examgenerator/sampling/sampler.py:228-233 | under either slice, so also as the source writes it: the three stages draw without replacement from the selected pools' tasks; a failure is a ValueError; the pools and seed are kept |
| SamplingLemmas.StagesScores | examgenerator/sampling/sampler.py:231-232 | under either slice, so also as the source writes it: the per-pool part is worth the per-pool scores and comes from selected pools; the flat part holds exactly the tasks the flat constraints ask for, each worth one of their scores |
| SamplingLemmas.StagesReserve | examgenerator/sampling/sampler.py:157-196 | corrected slice only: with a positive quota, a pool that still holds tasks_per_pool tasks after the per-pool stage gives at least that many to the score-agnostic stage (see Findings) |
| SamplingLemmas.CandidatesAgree | examgenerator/sampling/sampler.py:161 | the two slices give the same candidates while every pool holds more than tasks_per_pool tasks |
| Sampling.Stages | examgenerator/sampling/sampler.py:228-233 | the three stages after `sample_pools`, with the flat-score stage under the given slice; `Draw` passes `AsWritten` |
| Sampler.TaskSampler.RunStages | examgenerator/sampling/sampler.py:228-233 | the score dictionary built and the three stages run in order, computing `Sampling.Stages` with the flat-score slice as written |
| SamplingLemmas.GetTasksSpec | examgenerator/sampling/sampler.py:209-237 | of `get_tasks` as written: source mode returns the task list itself; otherwise the drawn tasks in stage order, or a permutation of them under `permute`, never a task more often than the list holds it; failures are ValueErrors |
| Sampling.GetTasks | examgenerator/sampling/sampler.py:222-237 | the reference definition of `get_tasks` after seeding: the task list in source mode, otherwise the as-written stages, shuffled under `permute`; its properties are `GetTasksSpec`'s |
| Sampler.TaskSampler.GetTasks | examgenerator/sampling/sampler.py:209-237 | reseeds the generator and computes `Sampling.GetTasks`, which runs the flat-score slice as written; no other field changes |
| Validator.NewConstraintValidator | examgenerator/sampling/validator.py:9-21 | the constructor keeps its arguments and builds `pools` by appending each task to its pool's list in order |
| Validator.TasksOfPool | examgenerator/sampling/validator.py:19-21 | a pool's list holds exactly the tasks of that pool |
| Validator.PoolsOfSnoc | examgenerator/sampling/validator.py:20-21 | one loop step appends the task to its pool's list, creating the key if new |
| Validator.PoolKeys | examgenerator/sampling/validator.py:19-21 | the keys of `pools` are exactly the pools that occur, one per name, none with an empty list |
| Validator.TasksPerPool | examgenerator/sampling/validator.py:23-41 | the `tasks_per_pool` property: every TasksPerPoolConstraint's and TasksWithScorePerPoolConstraint's `tasks`, added up; `TasksPerPoolVersusSampler` compares it with the sampler's |
| Validator.TasksPerPoolVersusSampler | examgenerator/sampling/validator.py:23-41 | the validator's per-pool total is the TasksPerPoolConstraint's count plus every per-pool score count, so it differs from the sampler's `tasks_per_pool` whenever the per-pool score constraints' `tasks` sum to non-zero |
| Validator.ValidatePoolConstraint | examgenerator/sampling/validator.py:43-49 | passes iff there is no pool constraint or it asks for at most the number of pools |
| Validator.ValidateNumberOfTaskConstraints | examgenerator/sampling/validator.py:51-57 | passes iff there is at most one TasksPerPoolConstraint and at most one TasksConstraint; the per-pool assertion is checked first |
| Validator.SmallestOf | examgenerator/sampling/validator.py:60 | `min` over the pools' sizes: at most each and equal to one |
| Validator.ValidateTasksPerPool | examgenerator/sampling/validator.py:59-65 | a ValueError iff there are no tasks (`min([])`); passes iff the per-pool total fits into every pool |
| Validator.ValidateTotalTasks | examgenerator/sampling/validator.py:67-91 | passes iff the per-pool total times the pools in play, plus all flat counts, is at most the number of tasks |
| ValidatorScores.Increment | examgenerator/sampling/validator.py:97 | `score[points][pool] += 1` raises exactly that counter |
| ValidatorScores.CountPool | examgenerator/sampling/validator.py:96-97 | counting one pool's tasks extends the counters to that pool |
| ValidatorScores.CountScores | examgenerator/sampling/validator.py:94-97 | each counter is the number of that pool's tasks worth that score |
| ValidatorScores.PerPoolDecision | examgenerator/sampling/validator.py:102-108 | the two assertions on the counters decide the j-th per-pool check; `min` of no pools is a ValueError |
| ValidatorScores.PerPoolAdvance | examgenerator/sampling/validator.py:109-110 | after a passed check every pool's counter for the score drops by exactly 1 |
| ValidatorScores.CheckPerPoolScores | examgenerator/sampling/validator.py:99-110 | the per-pool loop computes the per-pool phase, stopping at the first failure |
| ValidatorScores.FlatAdvance | examgenerator/sampling/validator.py:112-117 | a score absent from `score_sum` is a KeyError; otherwise the check compares with the number of pools having the score and then subtracts `tasks` |
| ValidatorScores.CheckFlatScores | examgenerator/sampling/validator.py:112-117 | the flat loop computes the flat phase, stopping at the first failure |
| ValidatorScores.ValidateTotalTasksWithScore | examgenerator/sampling/validator.py:93-117 | the method computes the closed-form score check |
| ValidatorScores.ScoreCheckPasses | examgenerator/sampling/validator.py:93-117 | the score check passes iff every per-pool check and every flat check passes |
| ValidatorScores.PerPoolScoreCheckPasses | examgenerator/sampling/validator.py:99-110 | the j-th per-pool check passes iff there are pools and each holds a task of the score and, less one per earlier constraint on that score, at least `tasks` |
| ValidatorScores.Validate | examgenerator/sampling/validator.py:119-124 | `validate` computes the five checks in order, the first failure deciding |
| ValidatorScores.ValidationAllPass | examgenerator/sampling/validator.py:119-124 | validation passes iff each of the five checks passes |
| ValidatorScores.ValidatePasses | examgenerator/sampling/validator.py:43-124 | validation passes iff all the conditions of the five checks hold, spelled out |
| Tasks.NewTask | examgenerator/tasks/task.py:7-14 | a fresh task has no root and the unresolved points sentinel |
| Tasks.Join | examgenerator/tasks/task.py:16-22 | `os.path.join` of two parts: an absolute second part replaces the first, an empty first part is dropped, otherwise the parts joined by one '/' (none added after a trailing '/'); the result ends with the second part |
| Tasks.RelPath | examgenerator/tasks/task.py:16-18 | `relpath` = join(pool, name): ends with the name, and is the name when the pool is empty |
| Tasks.Path | examgenerator/tasks/task.py:20-22 | `path` = join(root, pool, name): equal to join(root, relpath) and ends with the name |
| Tasks.NotebookPath | examgenerator/tasks/task.py:24-26 | `notebook_path` = join(path, name.ipynb): ends with name.ipynb, and for a relative name extends `path` |
| Tasks.JoinAssoc | examgenerator/tasks/task.py:20-22 | `os.path.join` of three parts is associative, so joining root with relpath gives `path` |
| Tasks.PathWithoutRoot | examgenerator/tasks/task.py:16-22 | with an empty root, `path` equals `relpath` |
| Tasks.PathLayout | examgenerator/tasks/task.py:16-26 | for '/'-free non-empty components, `path` is root/pool/name, `relpath` is pool/name and the notebook is path/name.ipynb |
| TaskGroups.Expand | examgenerator/tasks/taskgroup.py:17-21 | `get_tasks` of any group: source mode never fails, and the only failure is the sampler's ValueError |
| TaskGroups.ListOf | examgenerator/tasks/taskgroup.py:8-15 | `list_tasks` of a child list never fails in source mode; failures are ValueErrors |
| TaskGroups.Part | examgenerator/tasks/taskgroup.py:11-14 | a task contributes exactly itself |
| TaskGroups.SamplerDraw | examgenerator/tasks/sampledtaskgroup.py:31-32 | the sampler's `get_tasks`: its task list in source mode, otherwise a sub-multiset of it or a ValueError |
| TaskGroups.ListOfAppend | examgenerator/tasks/taskgroup.py:10-14 | listing a concatenation lists the parts one after the other: child order kept, each nested output contiguous, lengths added |
| TaskGroups.ListTasks | examgenerator/tasks/taskgroup.py:8-15 | the accumulation loop computes `ListOf` |
| TaskGroups.GetTasks | examgenerator/tasks/taskgroup.py:17-21 | the method computes `Expand` for every kind of group |
| TaskGroups.SourceListing | examgenerator/tasks/permutationgroup.py:20-25 | in source mode every group lists exactly the stored tasks in declaration order |
| TaskGroups.FixedListing | examgenerator/tasks/orderedtaskgroup.py:8-9 | a tree of plain and ordered groups lists its stored tasks in declaration order, whatever the seed and mode |
| TaskGroups.OrderedSeedFree | examgenerator/tasks/orderedtaskgroup.py:8-9 | an ordered group adds no randomness: if its nested groups agree across two seeds, so does it |
| TaskGroups.PermutationOrder | examgenerator/tasks/permutationgroup.py:20-25 | outside source mode, a permutation group lists its children in the order `Random(seed)`'s shuffle gives, a permutation of them, each expanded with the parent's seed; in source mode it keeps the declared order |
| TaskGroups.StoredListPermutation | examgenerator/tasks/permutationgroup.py:11-18 | listing the children in a permuted order stores the same multiset of tasks |
| TaskGroups.WithinStored | examgenerator/tasks/permutationgroup.py:20-25 | whatever the seed and mode, a group never lists a task more often than the tree stores it |
| TaskGroups.SampledTaskGroup.Node | examgenerator/tasks/sampledtaskgroup.py:23-29 | the group as a tree node is a sampled node over the group's tasks |
| TaskGroups.SampledTaskGroup.GetTasks | examgenerator/tasks/sampledtaskgroup.py:31-32 | returns exactly the sampler's `get_tasks(seed, source)` |
| TaskGroups.NewSampledTaskGroup | examgenerator/tasks/sampledtaskgroup.py:14-29 | the sampler is built, and the constraints validated, when the group is created; its failures are the group's failures; the group's tasks are the sampler's resolved tasks |
| PyFormat.Str | examgenerator/preprocessors/copyfiles.py:51 | `str(n)`: digits only, no leading zero |
| PyFormat.ValueStr | examgenerator/preprocessors/copyfiles.py:51 | reading back `str(n)` gives n |
| TaskIds.SubtaskIds | examgenerator/preprocessors/generatetaskids.py:15-21 | `ids` holds the k-th subtask's id at position k |
| TaskIds.Label | examgenerator/preprocessors/generatetaskids.py:26-37 | the id a subtask's cell gets: `<id>_Description<h>`, `<id>` or `test_<id><t>` by kind; None exactly for cells of no kind |
| TaskIds.SubtaskWrites | examgenerator/preprocessors/generatetaskids.py:24-37 | the assignments of one subtask in cell order; each goes to a cell of the subtask that has a kind |
| TaskIds.HeaderId | examgenerator/preprocessors/generatetaskids.py:39-41 | the header's id: the joined subtask ids, ending in "_Header" |
| TaskIds.Writes | examgenerator/preprocessors/generatetaskids.py:18-41 | every assignment `generate_ids` makes, subtasks first and the header last; all go to cells in range |
| TaskIdsLemmas.SubtaskIdsDistinct | examgenerator/preprocessors/generatetaskids.py:16-21 | different subtasks get different ids |
| TaskIds.Apply | examgenerator/preprocessors/generatetaskids.py:27-41 | the assignments change the cells' grade ids and nothing else |
| TaskIds.LabelSubtask | examgenerator/preprocessors/generatetaskids.py:22-37 | the loop over one subtask's cells makes exactly that subtask's assignments |
| TaskIds.LabelSubtasks | examgenerator/preprocessors/generatetaskids.py:15-37 | the loop over the subtasks collects the ids in order and makes every subtask's assignments |
| TaskIds.GenerateIds | examgenerator/preprocessors/generatetaskids.py:12-43 | the notebook's cells become the cells with every assignment `generate_ids` makes applied in order |
| TaskIdsLemmas.ApplyAt | examgenerator/preprocessors/generatetaskids.py:27-41 | each cell ends with the id of the last assignment to it, or keeps its own |
| TaskIdsLemmas.AllWritesTargets | examgenerator/preprocessors/generatetaskids.py:24-37 | the subtasks assign only to their own cells that are descriptions, solutions or grades |
| TaskIdsLemmas.SubtaskLabel | examgenerator/preprocessors/generatetaskids.py:22-37 | in a subtask without repeated cells, each cell gets the label its kind and the descriptions and grades before it give |
| TaskIdsLemmas.AllLabel | examgenerator/preprocessors/generatetaskids.py:18-37 | across subtasks without shared cells, a subtask's cell gets that subtask's label |
| TaskIdsLemmas.GeneratedLabel | examgenerator/preprocessors/generatetaskids.py:18-37 | `generate_ids` labels a description `<id>_Description<h>`, a solution `<id>` and a grade `test_<id><t>`, with h and t counted from 0 in the subtask; other cells keep their id |
| TaskIdsLemmas.GeneratedHeaderAndUntouched | examgenerator/preprocessors/generatetaskids.py:39-41 | the header gets the joined subtask ids and "_Header"; cells that are not the header and are unlisted or of no kind are unchanged |
| TaskIdsLemmas.LabelsDistinct | examgenerator/preprocessors/generatetaskids.py:26-37 | two description cells, or two grade cells, of one subtask get different ids |
| CopyFiles.LastIndex | examgenerator/preprocessors/copyfiles.py:10 | the last position of a character, or -1 |
| CopyFiles.Split | examgenerator/preprocessors/copyfiles.py:10-11 | `os.path.split`: the tail is the '/'-free suffix after the last '/', the head a prefix without trailing slashes unless it is only slashes |
| CopyFiles.SplitExt | examgenerator/preprocessors/copyfiles.py:13 | `os.path.splitext`: the two parts rejoin to the path, and the extension is empty or a '.' followed by no '/' and no '.' |
| CopyFiles.ImportPath | examgenerator/preprocessors/copyfiles.py:8-14 | the import path contains no separator |
| CopyFiles.ImportPathPackage | examgenerator/preprocessors/copyfiles.py:10-11 | `d/__init__.py` imports as d with its separators turned into dots |
| CopyFiles.ImportPathModule | examgenerator/preprocessors/copyfiles.py:12-14 | any other file `q.e` imports as q with its separators turned into dots |
| CopyFiles.SuffixedDistinct | examgenerator/preprocessors/copyfiles.py:50-54 | different suffixes give different names, and no suffixed name is the file's own |
| CopyFiles.CandidatesDistinct | examgenerator/preprocessors/copyfiles.py:52-54 | the paths tried in dst for different suffixes differ |
| CopyFiles.FileSystem.GetNewName | examgenerator/preprocessors/copyfiles.py:48-55 | returns `name_k.ext` for the smallest k >= 1 whose path in dst does not exist, never the unsuffixed name; the loop terminates because the existing paths are finite |
| CopyFiles.Copy | examgenerator/preprocessors/copyfiles.py:57-73 | an existing dst is never overwritten; existing files keep their contents; at most dst is added |
| CopyFiles.CopyStatus | examgenerator/preprocessors/copyfiles.py:64-73 | True iff dst now holds src's contents; False iff both exist and differ, with nothing changed; an error changes nothing |
| CopyFiles.CopyTwice | examgenerator/preprocessors/copyfiles.py:68-73 | copying again after a successful copy changes nothing and reports equal contents |
| CopyFiles.FileSystem.CopyFile | examgenerator/preprocessors/copyfiles.py:57-73 | the filesystem object and the status are those of `Copy` |

## Left out

- Notebook reading and scoring: a `Scorer` function gives each task's notebook points, or None for a missing notebook. `nbformat.read`, `get_points` and the `notebook_exists` check are not modelled.
- TaskGroups.Expand: called with one int seed, it reseeds every permutation group and sampler of the tree with `Seeded(bits, seed)` from that seed. Under the source's default `seed=None` (taskgroup.py:17, permutationgroup.py:21) each `Random(None)` is seeded independently by the operating system, so the model correlates shuffles that the source keeps independent.
- The Mersenne Twister: the stream `bits(seed, n)` is arbitrary, so nothing depends on CPython's actual numbers. `random.Random()` without a seed (`__init__`, and `get_tasks(seed=None)`) is a generator state given as a parameter.
- PyRandom.Sample: CPython's set-based branch for large populations is not modelled; the pool-based branch is used for every size. Both give k distinct positions.
- The hash order of `list(set(...))` in `sample_pools`: first-appearance order is used instead.
- The `pools` argument of `sample_tasks_without_score` is not read by the source, because the loop variable shadows it; the model does not take it either.
- Sampler.TaskSampler.SampleTasksWithScore: requires the `pools` argument to be the pools the dictionary was built over, as `get_tasks` always passes.
- `list.remove` raising ValueError for a task not in its list: `PySeq.RemoveFirst` leaves the list unchanged then. `SamplingLemmas.FlatDrawn` proves every drawn task is in its list, so this cannot happen.
- The state after an exception: a failing method returns the error and may leave the dictionary half-updated. No property of that state is claimed beyond what each method's ensures says.
- `deepcopy` of tasks and groups, and aliasing: tasks and groups are values, so copies cannot alias the originals.
- TaskGroups.Expand: a sampled group holds its sampler as a value (`SamplerState`, the fields `get_tasks` reads) rather than an object. The generator the sampler replaces on each call is not part of that value. `TaskGroups.SampledTaskGroup` ties the object to that value.
- TaskGroups.SampledTaskGroup.GetTasks takes `source` as a bool. The source's default `None` behaves as False, because `if source:` is false for None.
- `notebook_exists`, `is_randomizable` and `data_files` of `Task`: filesystem queries.
- TaskIds.GenerateIds:
  - requires at most 0xD800 - 65 subtasks, the letters `chr` can form below the surrogate range;
  - requires every index `get_task_info` names to be in range: the `IndexError` of a bad index is not modelled;
  - takes `get_task_info`'s result and the `is_description`/`is_solution`/`is_grade` results as inputs;
  - does not model `preprocess`'s notebook read/write or `get_valid_name`.
- TaskIdsLemmas.GeneratedLabel: requires that no cell is listed twice and that the header is not a subtask cell. Otherwise a later assignment overrides an earlier one, which `ApplyAt` describes.
- **The filesystem of `copyfile`:**
  - it is a map from file paths to contents, with no directories;
  - `os.path.exists` is membership, so a directory at dst is not modelled;
  - `os.makedirs` fails only for an empty directory part; an existing file where a directory is needed is not modelled;
  - `filecmp.cmp`'s shallow comparison by size and modification time is modelled as content equality.
- Paths are '/'-separated POSIX paths without normalisation; Windows separators are not modelled.
- `rename`, `get_files`, `copyfiles` and `preprocess` of copyfiles.py: notebook rewriting and directory walking.
- generator.py, scrambletasks.py, makeexam.py, copytasks.py, removeexam.py, makesolution.py and removesolutionfiles.py are not part of this model.

## Findings

| source | as written | input that shows it | evidently intended | confidence | as-written member | corrected member |
|---|---|---|---|---|---|---|
| examgenerator/sampling/sampler.py:161 | the flat-score candidates of a pool are `candidate[-(pool_size[pool] - self.tasks_per_pool):]`; for `pool_size[pool] == tasks_per_pool` this is `candidate[-0:]`, the whole bucket | TasksPerPoolConstraint(1) and TasksWithScoreConstraint(1, score 3); pool A holds one task worth 3, pool B one task worth 3 and one worth 1. Validation passes. The candidates are A's task and B's; a draw of A's task leaves A with no task for its per-pool quota | a pool offers only the tasks above its reserve of `tasks_per_pool`, and none when it has no more than that | not executed | SamplingLemmas.FlatStageAsWrittenSpendsReserve | SamplingLemmas.StagesReserve |

The flat-score stage takes a `Sampling.Slice`: `AsWritten` is the source's slice, `Corrected` the evidently intended one.
- The main model runs the source as written: `Sampling.Draw`, `Sampling.GetTasks`, `Sampler.TaskSampler.SampleTasksWithScore`, `RunStages` and `GetTasks` all use `AsWritten`. `FlatStep`, `FlatStageSpec`, `FlatStageDraws`, `StagesSpec`, `StagesScores` and `GetTasksSpec` hold of it.
- `SamplingLemmas.FlatStageAsWrittenSpendsReserve` runs the flat-score stage on the input above. As written it draws A's task and leaves pool A with 0 tasks, below min(1, 1). Corrected, it draws B's task and pool A keeps its one.
- `SamplingLemmas.CandidatesAsWrittenExposeReserve` shows the candidates themselves: [a3, b3] as written, [b3] corrected.
- `SamplingLemmas.FlatStepReserve`, `FlatStageReserve` and `StagesReserve` prove the intended property of the corrected slice: the flat-score stage never eats into the per-pool quota.

Once a pool drops below the reserve, the slice start becomes negative. `candidate[-(negative):]` then offers every task but the first few, so the reserve keeps shrinking. `SamplingLemmas.CandidatesAgree` proves that the two slices agree while every pool holds more than `tasks_per_pool` tasks, so only a pool at or below its quota tells them apart.
