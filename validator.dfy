/** ConstraintValidator: integer feasibility checks run before any sampling. */
module Validator {
  import opened Wrappers
  import opened PySeq
  import opened Tasks
  import opened Constraints

  /** The validator's fields.  `pools` is the dictionary from pool name to its tasks,
      and `poolNames` the order in which its keys were inserted. */
  datatype ConstraintValidator = ConstraintValidator(
    tasks: seq<Task>,
    taskConstraints: Grouped,
    poolConstraint: Option<PoolConstraint>,
    poolNames: seq<string>,
    pools: map<string, seq<Task>>)

  // ---------------------------------------------------------------------------
  // Pools of a task list

  function PoolNamesOf(tasks: seq<Task>): (r: seq<string>)
    ensures |r| == |tasks| && forall i :: 0 <= i < |tasks| ==> r[i] == tasks[i].pool
  {
    if tasks == [] then [] else [tasks[0].pool] + PoolNamesOf(tasks[1..])
  }

  function PoolSet(tasks: seq<Task>): set<string>
  {
    set t | t in tasks :: t.pool
  }

  /** The tasks of pool p, in list order. */
  function TasksOfPool(tasks: seq<Task>, p: string): (r: seq<Task>)
    ensures forall t :: t in r <==> t in tasks && t.pool == p
    ensures |r| <= |tasks|
  {
    if tasks == [] then []
    else if tasks[0].pool == p then [tasks[0]] + TasksOfPool(tasks[1..], p)
    else TasksOfPool(tasks[1..], p)
  }

  /** The dictionary `pools` that the constructor builds. */
  function PoolsOf(tasks: seq<Task>): map<string, seq<Task>>
  {
    map p | p in PoolSet(tasks) :: TasksOfPool(tasks, p)
  }

  lemma {:induction false} TasksOfPoolSnoc(tasks: seq<Task>, t: Task, p: string)
    ensures TasksOfPool(tasks + [t], p) == TasksOfPool(tasks, p) + (if t.pool == p then [t] else [])
  {
    if tasks == [] {
      assert [] + [t] == [t];
      assert [t][1..] == [];
    } else {
      assert (tasks + [t])[0] == tasks[0];
      assert (tasks + [t])[1..] == tasks[1..] + [t];
      TasksOfPoolSnoc(tasks[1..], t, p);
    }
  }

  lemma PoolNamesSnoc(tasks: seq<Task>, t: Task)
    ensures PoolNamesOf(tasks + [t]) == PoolNamesOf(tasks) + [t.pool]
  {
    assert |PoolNamesOf(tasks + [t])| == |PoolNamesOf(tasks) + [t.pool]|;
  }

  /** The representation invariant the constructor establishes. */
  ghost predicate Wf(v: ConstraintValidator)
  {
    && v.pools == PoolsOf(v.tasks)
    && v.poolNames == Distinct(PoolNamesOf(v.tasks))
  }

  /** A pool name occurs in the name list iff some task has it. */
  lemma InPoolNames(xs: seq<Task>, p: string)
    ensures p in PoolNamesOf(xs) <==> p in PoolSet(xs)
  {
    var ps := PoolNamesOf(xs);
    if p in ps {
      var i :| 0 <= i < |ps| && ps[i] == p;
      assert xs[i] in xs;
    }
    if p in PoolSet(xs) {
      var u :| u in xs && u.pool == p;
      var i :| 0 <= i < |xs| && xs[i] == u;
      assert ps[i] == p;
    }
  }

  /** Appending a task appends it to its own pool's list, creating the key if new. */
  lemma PoolsOfSnoc(xs: seq<Task>, t: Task)
    ensures PoolsOf(xs + [t]) == PoolsOf(xs)[t.pool := TasksOfPool(xs, t.pool) + [t]]
  {
    var ys := xs + [t];
    assert PoolSet(ys) == PoolSet(xs) + {t.pool} by {
      forall u | u in ys ensures u in xs || u == t { }
    }
    var m1 := PoolsOf(ys);
    var m2 := PoolsOf(xs)[t.pool := TasksOfPool(xs, t.pool) + [t]];
    assert m1.Keys == m2.Keys;
    forall p | p in m1 ensures m1[p] == m2[p] {
      TasksOfPoolSnoc(xs, t, p);
    }
  }

  /** One iteration of the constructor's loop, on the dictionary and on its key order. */
  lemma ConstructorStep(xs: seq<Task>, t: Task)
    ensures t.pool in PoolsOf(xs) ==>
              && PoolsOf(xs + [t]) == PoolsOf(xs)[t.pool := PoolsOf(xs)[t.pool] + [t]]
              && Distinct(PoolNamesOf(xs + [t])) == Distinct(PoolNamesOf(xs))
    ensures t.pool !in PoolsOf(xs) ==>
              && PoolsOf(xs + [t]) == PoolsOf(xs)[t.pool := [t]]
              && Distinct(PoolNamesOf(xs + [t])) == Distinct(PoolNamesOf(xs)) + [t.pool]
  {
    var m := PoolsOf(xs);
    var old_list := TasksOfPool(xs, t.pool);
    PoolsOfSnoc(xs, t);
    assert PoolsOf(xs + [t]) == m[t.pool := old_list + [t]];
    NamesStep(xs, t);
    if t.pool in PoolSet(xs) {
      assert m[t.pool] == old_list;
    } else {
      NoTasksOfPool(xs, t.pool);
      assert old_list + [t] == [t];
    }
  }

  lemma NamesStep(xs: seq<Task>, t: Task)
    ensures Distinct(PoolNamesOf(xs + [t]))
         == Distinct(PoolNamesOf(xs)) + (if t.pool in PoolSet(xs) then [] else [t.pool])
  {
    InPoolNames(xs, t.pool);
    PoolNamesSnoc(xs, t);
    DistinctSnoc(PoolNamesOf(xs), t.pool);
  }

  lemma NoTasksOfPool(xs: seq<Task>, p: string)
    requires p !in PoolSet(xs)
    ensures TasksOfPool(xs, p) == []
  {
  }

  /** The validator `ConstraintValidator(tasks, task_constraints, pool_constraint)` builds. */
  ghost function ValidatorOf(tasks: seq<Task>, taskConstraints: Grouped, poolConstraint: Option<PoolConstraint>): (v: ConstraintValidator)
    ensures Wf(v)
  {
    ConstraintValidator(tasks, taskConstraints, poolConstraint, Distinct(PoolNamesOf(tasks)), PoolsOf(tasks))
  }

  /** `ConstraintValidator.__init__`: groups the tasks by pool, appending in list order. */
  method NewConstraintValidator(tasks: seq<Task>, taskConstraints: Grouped,
                                poolConstraint: Option<PoolConstraint>)
    returns (v: ConstraintValidator)
    ensures Wf(v)
    ensures v.tasks == tasks && v.taskConstraints == taskConstraints
    ensures v.poolConstraint == poolConstraint
    ensures v == ValidatorOf(tasks, taskConstraints, poolConstraint)
  {
    var pools: map<string, seq<Task>> := map[];
    var names: seq<string> := [];
    for i := 0 to |tasks|
      invariant pools == PoolsOf(tasks[..i])
      invariant names == Distinct(PoolNamesOf(tasks[..i]))
    {
      var t := tasks[i];
      assert tasks[..i + 1] == tasks[..i] + [t];
      ConstructorStep(tasks[..i], t);
      if t.pool in pools {
        pools := pools[t.pool := pools[t.pool] + [t]];
      } else {
        pools := pools[t.pool := [t]];
        names := names + [t.pool];
      }
    }
    assert tasks[..|tasks|] == tasks;
    v := ConstraintValidator(tasks, taskConstraints, poolConstraint, names, pools);
  }

  /** The pools are exactly the pool names that occur in the tasks. */
  lemma PoolKeys(v: ConstraintValidator)
    requires Wf(v)
    ensures v.pools.Keys == PoolSet(v.tasks)
    ensures |v.pools| == |v.poolNames|
    ensures forall p :: p in v.pools ==> |v.pools[p]| > 0
  {
    PoolKeySet(v);
    NoDupCard(v.poolNames);
    PoolsNonEmpty(v);
  }

  lemma PoolKeySet(v: ConstraintValidator)
    requires Wf(v)
    ensures v.pools.Keys == PoolSet(v.tasks) == set p | p in v.poolNames
  {
    forall p ensures p in v.poolNames <==> p in PoolSet(v.tasks) {
      InPoolNames(v.tasks, p);
    }
  }

  lemma PoolsNonEmpty(v: ConstraintValidator)
    requires Wf(v)
    ensures forall p :: p in v.pools ==> |v.pools[p]| > 0
  {
    forall p | p in v.pools ensures |v.pools[p]| > 0 {
      var t :| t in v.tasks && t.pool == p;
      assert t in v.pools[p];
    }
  }

  lemma {:induction false} NoDupCard<T>(xs: seq<T>)
    requires NoDup(xs)
    ensures |set x | x in xs| == |xs|
  {
    if xs != [] {
      var tail := xs[1..];
      assert NoDup(tail);
      NoDupCard(tail);
      assert (set x | x in xs) == (set x | x in tail) + {xs[0]};
      assert xs[0] !in tail;
    }
  }

  // ---------------------------------------------------------------------------
  // Sums over constraints

  function SumTasks(cs: seq<TaskConstraint>): int
  {
    if cs == [] then 0 else cs[0].tasks + SumTasks(cs[1..])
  }

  /** `tasks_per_pool`: every per-pool quota, score-agnostic or score-targeted, added up. */
  function TasksPerPool(v: ConstraintValidator): int
  {
    SumTasks(v.taskConstraints.perPool) + SumTasks(v.taskConstraints.withScorePerPool)
  }

  /** With at most one TasksPerPoolConstraint (what the count check lets through), the
      validator's per-pool total is the sampler's `tasks_per_pool` (its first
      TasksPerPoolConstraint, or 0) plus every per-pool score quota: the two disagree
      whenever the TasksWithScorePerPoolConstraints' `tasks` add up to anything but 0. */
  lemma TasksPerPoolVersusSampler(v: ConstraintValidator)
    requires |v.taskConstraints.perPool| <= 1
    ensures TasksPerPool(v)
         == (if v.taskConstraints.perPool == [] then 0 else v.taskConstraints.perPool[0].tasks)
          + SumTasks(v.taskConstraints.withScorePerPool)
  {
    var pp := v.taskConstraints.perPool;
    if pp != [] {
      assert pp[1..] == [];
      assert SumTasks(pp) == pp[0].tasks + SumTasks(pp[1..]);
    }
  }

  // ---------------------------------------------------------------------------
  // The four arithmetic checks

  /** `validate_pool_constraint`. */
  function ValidatePoolConstraint(v: ConstraintValidator): (r: Outcome)
    requires Wf(v)
    ensures r.Pass? <==> v.poolConstraint.None? || v.poolConstraint.value.pools <= |PoolSet(v.tasks)|
    ensures r.Fail? ==> r.error == AssertionError(PoolCount)
  {
    PoolKeys(v);
    if v.poolConstraint.None? || v.poolConstraint.value.pools <= |v.pools| then Pass
    else Fail(AssertionError(PoolCount))
  }

  /** `validate_number_of_task_constraints`; the per-pool limit is asserted first. */
  function ValidateNumberOfTaskConstraints(v: ConstraintValidator): (r: Outcome)
    ensures r.Pass? <==> |v.taskConstraints.perPool| <= 1 && |v.taskConstraints.tasks| <= 1
    ensures |v.taskConstraints.perPool| > 1 ==> r == Fail(AssertionError(OnePerPoolLimit))
    ensures |v.taskConstraints.perPool| <= 1 && |v.taskConstraints.tasks| > 1
            ==> r == Fail(AssertionError(OneTasksLimit))
  {
    if |v.taskConstraints.perPool| > 1 then Fail(AssertionError(OnePerPoolLimit))
    else if |v.taskConstraints.tasks| > 1 then Fail(AssertionError(OneTasksLimit))
    else Pass
  }

  /** `min(len(tasks) for tasks in self.pools.values())`, the pools listed by name. */
  function SmallestOf(v: ConstraintValidator, names: seq<string>): (r: int)
    requires names != [] && forall p :: p in names ==> p in v.pools
    ensures forall p :: p in names ==> r <= |v.pools[p]|
    ensures exists p :: p in names && r == |v.pools[p]|
  {
    var here := |v.pools[names[0]]|;
    if |names| == 1 then here
    else
      var m := SmallestOf(v, names[1..]);
      assert forall p :: p in names ==> p == names[0] || p in names[1..];
      if here <= m then here else m
  }

  /** Pool names and pool keys coincide. */
  lemma PoolNamesKeys(v: ConstraintValidator)
    requires Wf(v)
    ensures forall p :: p in v.poolNames <==> p in v.pools
  {
    PoolKeySet(v);
  }

  /** The name list is empty iff there are no tasks. */
  lemma PoolNamesEmpty(v: ConstraintValidator)
    requires Wf(v)
    ensures v.poolNames == [] <==> v.tasks == []
  {
    var ns := PoolNamesOf(v.tasks);
    if v.tasks != [] {
      assert ns[0] in ns;
    }
  }

  /** `validate_tasks_per_pool`: min() of no pools is a ValueError; otherwise the per-pool
      total must fit into the smallest pool. */
  function ValidateTasksPerPool(v: ConstraintValidator): (r: Outcome)
    requires Wf(v)
    ensures r == Fail(ValueError) <==> v.tasks == []
    ensures r.Pass? <==> v.tasks != [] && forall p :: p in v.pools ==> TasksPerPool(v) <= |v.pools[p]|
    ensures r.Fail? && v.tasks != [] ==> r.error == AssertionError(PerPoolCapacity)
  {
    PoolNamesEmpty(v);
    PoolNamesKeys(v);
    if v.poolNames == [] then Fail(ValueError)
    else if TasksPerPool(v) <= SmallestOf(v, v.poolNames) then Pass
    else Fail(AssertionError(PerPoolCapacity))
  }

  /** The total the total-capacity check compares with the number of tasks. */
  function TotalRequested(v: ConstraintValidator, poolCount: int): int
  {
    TasksPerPool(v) * (if v.poolConstraint.Some? then v.poolConstraint.value.pools else poolCount)
    + SumTasks(v.taskConstraints.tasks) + SumTasks(v.taskConstraints.withScore)
  }

  /** `validate_total_tasks`: per-pool total times the pools in play, plus every flat quota. */
  function ValidateTotalTasks(v: ConstraintValidator): (r: Outcome)
    requires Wf(v)
    ensures r.Pass? <==> TotalRequested(v, |PoolSet(v.tasks)|) <= |v.tasks|
    ensures r.Fail? ==> r.error == AssertionError(TotalCapacity)
  {
    PoolKeys(v);
    if TotalRequested(v, |v.pools|) <= |v.tasks| then Pass else Fail(AssertionError(TotalCapacity))
  }
}

module ValidatorScores {
  import opened Wrappers
  import opened PySeq
  import opened Tasks
  import opened Constraints
  import opened Validator

  // ---------------------------------------------------------------------------
  // Closed form of the cumulative score check

  /** How many tasks of xs are worth s points. */
  function CountScore(xs: seq<Task>, s: int): (r: nat)
    ensures r <= |xs|
  {
    if xs == [] then 0 else (if xs[0].points == s then 1 else 0) + CountScore(xs[1..], s)
  }

  lemma {:induction false} CountScoreSnoc(xs: seq<Task>, t: Task, s: int)
    ensures CountScore(xs + [t], s) == CountScore(xs, s) + (if t.points == s then 1 else 0)
  {
    if xs == [] {
      assert [] + [t] == [t];
      assert [t][1..] == [];
    } else {
      assert (xs + [t])[0] == xs[0];
      assert (xs + [t])[1..] == xs[1..] + [t];
      CountScoreSnoc(xs[1..], t, s);
    }
  }

  /** The pools holding at least one task worth s points. */
  ghost function HasScore(v: ConstraintValidator, s: int): set<string>
  {
    set p | p in v.pools && CountScore(v.pools[p], s) > 0
  }

  /** How many of the constraints cs target score s. */
  function CountWithScore(cs: seq<TaskConstraint>, s: int): nat
  {
    if cs == [] then 0 else (if Targets(cs[0], s) then 1 else 0) + CountWithScore(cs[1..], s)
  }

  /** The `tasks` of the constraints of cs that target score s, added up. */
  function SumWithScore(cs: seq<TaskConstraint>, s: int): int
  {
    if cs == [] then 0 else (if Targets(cs[0], s) then cs[0].tasks else 0) + SumWithScore(cs[1..], s)
  }

  lemma {:induction false} CountWithScoreSnoc(cs: seq<TaskConstraint>, c: TaskConstraint, s: int)
    ensures CountWithScore(cs + [c], s) == CountWithScore(cs, s) + (if Targets(c, s) then 1 else 0)
    ensures SumWithScore(cs + [c], s) == SumWithScore(cs, s) + (if Targets(c, s) then c.tasks else 0)
  {
    if cs == [] {
      assert [] + [c] == [c];
      assert [c][1..] == [];
    } else {
      assert (cs + [c])[0] == cs[0];
      assert (cs + [c])[1..] == cs[1..] + [c];
      CountWithScoreSnoc(cs[1..], c, s);
    }
  }

  /** The j-th TasksWithScorePerPoolConstraint: every pool must hold its score, and in every
      pool the tasks worth that score, less one for each earlier constraint on the same
      score (the source decrements by 1, not by `tasks`), must cover `tasks`. */
  ghost function PerPoolScoreCheck(v: ConstraintValidator, j: nat): Outcome
    requires OnlyKind(v.taskConstraints.withScorePerPool, WithScorePerPoolKind)
    requires j < |v.taskConstraints.withScorePerPool|
  {
    var cs := v.taskConstraints.withScorePerPool;
    var c := cs[j];
    var has := HasScore(v, c.score);
    if |has| != |v.pools| then Fail(AssertionError(PoolsWithScore))
    else if has == {} then Fail(ValueError)
    else if forall p :: p in has ==> CountScore(v.pools[p], c.score) - CountWithScore(cs[..j], c.score) >= c.tasks
    then Pass
    else Fail(AssertionError(PerPoolScore))
  }

  /** The j-th TasksWithScoreConstraint: a score no task has is a KeyError; otherwise the
      number of POOLS having the score, less the earlier flat quotas on that score, must
      cover `tasks`. */
  ghost function FlatScoreCheck(v: ConstraintValidator, j: nat): Outcome
    requires OnlyKind(v.taskConstraints.withScore, WithScoreKind)
    requires j < |v.taskConstraints.withScore|
  {
    var cs := v.taskConstraints.withScore;
    var c := cs[j];
    var has := HasScore(v, c.score);
    if has == {} then Fail(KeyError(c.score))
    else if c.tasks <= |has| - SumWithScore(cs[..j], c.score) then Pass
    else Fail(AssertionError(FlatScore))
  }

  ghost predicate ScoreGroups(v: ConstraintValidator)
  {
    && OnlyKind(v.taskConstraints.withScorePerPool, WithScorePerPoolKind)
    && OnlyKind(v.taskConstraints.withScore, WithScoreKind)
  }

  /** The checks from index j on, stopping at the first failure. */
  ghost function PerPoolPhase(v: ConstraintValidator, j: nat): Outcome
    requires ScoreGroups(v)
    requires j <= |v.taskConstraints.withScorePerPool|
    decreases |v.taskConstraints.withScorePerPool| - j
  {
    if j == |v.taskConstraints.withScorePerPool| then Pass
    else if PerPoolScoreCheck(v, j).Fail? then PerPoolScoreCheck(v, j)
    else PerPoolPhase(v, j + 1)
  }

  ghost function FlatPhase(v: ConstraintValidator, j: nat): Outcome
    requires ScoreGroups(v)
    requires j <= |v.taskConstraints.withScore|
    decreases |v.taskConstraints.withScore| - j
  {
    if j == |v.taskConstraints.withScore| then Pass
    else if FlatScoreCheck(v, j).Fail? then FlatScoreCheck(v, j)
    else FlatPhase(v, j + 1)
  }

  /** `validate_total_tasks_with_score`, in closed form. */
  ghost function ScoreCheck(v: ConstraintValidator): Outcome
    requires ScoreGroups(v)
  {
    if PerPoolPhase(v, 0).Fail? then PerPoolPhase(v, 0) else FlatPhase(v, 0)
  }

  /** The score check passes iff every per-pool check and every flat check passes. */
  lemma ScoreCheckPasses(v: ConstraintValidator)
    requires ScoreGroups(v)
    ensures ScoreCheck(v).Pass? <==>
      && (forall j :: 0 <= j < |v.taskConstraints.withScorePerPool| ==> PerPoolScoreCheck(v, j).Pass?)
      && (forall j :: 0 <= j < |v.taskConstraints.withScore| ==> FlatScoreCheck(v, j).Pass?)
  {
    PerPoolPhasePasses(v, 0);
    FlatPhasePasses(v, 0);
  }

  lemma {:induction false} PerPoolPhasePasses(v: ConstraintValidator, j: nat)
    requires ScoreGroups(v)
    requires j <= |v.taskConstraints.withScorePerPool|
    ensures PerPoolPhase(v, j).Pass? <==>
      forall i :: j <= i < |v.taskConstraints.withScorePerPool| ==> PerPoolScoreCheck(v, i).Pass?
    decreases |v.taskConstraints.withScorePerPool| - j
  {
    if j < |v.taskConstraints.withScorePerPool| {
      PerPoolPhasePasses(v, j + 1);
      assert PerPoolPhase(v, j).Pass? <==> PerPoolScoreCheck(v, j).Pass? && PerPoolPhase(v, j + 1).Pass?;
    }
  }

  lemma {:induction false} FlatPhasePasses(v: ConstraintValidator, j: nat)
    requires ScoreGroups(v)
    requires j <= |v.taskConstraints.withScore|
    ensures FlatPhase(v, j).Pass? <==>
      forall i :: j <= i < |v.taskConstraints.withScore| ==> FlatScoreCheck(v, i).Pass?
    decreases |v.taskConstraints.withScore| - j
  {
    if j < |v.taskConstraints.withScore| {
      FlatPhasePasses(v, j + 1);
      assert FlatPhase(v, j).Pass? <==> FlatScoreCheck(v, j).Pass? && FlatPhase(v, j + 1).Pass?;
    }
  }

  // ---------------------------------------------------------------------------
  // The check with the source's mutable counters

  /** `score[points][pool]`, the nested counter dictionary. */
  type Counts = map<int, map<string, int>>

  /** A counter, reading an absent key as 0 like the source's defaultdict(int). */
  function Cnt(score: Counts, s: int, p: string): int
  {
    if s in score && p in score[s] then score[s][p] else 0
  }

  /** Counting only ever creates keys with a positive count. */
  ghost predicate Positive(score: Counts)
  {
    && (forall s :: s in score ==> score[s] != map[])
    && (forall s, p :: s in score && p in score[s] ==> score[s][p] > 0)
  }

  /** `score[points][pool] += 1` */
  function Increment(score: Counts, s: int, p: string): (r: Counts)
    requires Positive(score)
    ensures Positive(r)
    ensures forall s', q :: Cnt(r, s', q) == Cnt(score, s', q) + (if s' == s && q == p then 1 else 0)
  {
    var inner := if s in score then score[s] else map[];
    score[s := inner[p := (if p in inner then inner[p] else 0) + 1]]
  }

  /** The counters built from the pools names[..i] hold exactly those pools' counts. */
  ghost predicate CountedUpTo(v: ConstraintValidator, score: Counts, i: nat)
    requires i <= |v.poolNames|
  {
    forall s, q :: Cnt(score, s, q) ==
      (if q in v.poolNames[..i] && q in v.pools then CountScore(v.pools[q], s) else 0)
  }

  /** ... and, while pool p is being counted, its first tasks `done`. */
  ghost predicate CountingPool(v: ConstraintValidator, score: Counts, i: nat, p: string, done: seq<Task>)
    requires i <= |v.poolNames|
  {
    forall s, q :: Cnt(score, s, q) ==
      (if q in v.poolNames[..i] && q in v.pools then CountScore(v.pools[q], s)
       else if q == p then CountScore(done, s) else 0)
  }

  lemma CountingStart(v: ConstraintValidator, score: Counts, i: nat)
    requires i < |v.poolNames| && v.poolNames[i] !in v.poolNames[..i]
    requires CountedUpTo(v, score, i)
    ensures CountingPool(v, score, i, v.poolNames[i], [])
  {
  }

  lemma CountingStep(v: ConstraintValidator, score: Counts, i: nat, p: string, done: seq<Task>, t: Task)
    requires i <= |v.poolNames| && p !in v.poolNames[..i]
    requires Positive(score) && CountingPool(v, score, i, p, done)
    ensures CountingPool(v, Increment(score, t.points, p), i, p, done + [t])
  {
    forall s ensures CountScore(done + [t], s) == CountScore(done, s) + (if t.points == s then 1 else 0) {
      CountScoreSnoc(done, t, s);
    }
  }

  lemma CountingEnd(v: ConstraintValidator, score: Counts, i: nat)
    requires i < |v.poolNames| && v.poolNames[i] in v.pools
    requires CountingPool(v, score, i, v.poolNames[i], v.pools[v.poolNames[i]])
    ensures CountedUpTo(v, score, i + 1)
  {
    assert v.poolNames[..i + 1] == v.poolNames[..i] + [v.poolNames[i]];
  }

  lemma CountedAll(v: ConstraintValidator, score: Counts)
    requires Wf(v)
    requires CountedUpTo(v, score, |v.poolNames|)
    ensures forall s, q :: Cnt(score, s, q) == (if q in v.pools then CountScore(v.pools[q], s) else 0)
  {
    PoolNamesKeys(v);
    FullSlice(v.poolNames);
  }

  lemma PoolNameAt(v: ConstraintValidator, i: nat)
    requires Wf(v) && i < |v.poolNames|
    ensures v.poolNames[i] in v.pools && v.poolNames[i] !in v.poolNames[..i]
  {
    PoolNamesKeys(v);
    var names := v.poolNames;
    assert NoDup(names);
    assert names[i] in names;
    forall j | 0 <= j < i ensures names[j] != names[i] { }
  }

  /** The inner counting loop, over the tasks of pool names[i]. */
  method CountPool(v: ConstraintValidator, score0: Counts, i: nat) returns (score: Counts)
    requires i < |v.poolNames| && v.poolNames[i] in v.pools && v.poolNames[i] !in v.poolNames[..i]
    requires Positive(score0) && CountedUpTo(v, score0, i)
    ensures Positive(score) && CountedUpTo(v, score, i + 1)
  {
    var p := v.poolNames[i];
    var ts := v.pools[p];
    score := score0;
    CountingStart(v, score, i);
    for k := 0 to |ts|
      invariant Positive(score)
      invariant CountingPool(v, score, i, p, ts[..k])
    {
      CountingStep(v, score, i, p, ts[..k], ts[k]);
      assert ts[..k + 1] == ts[..k] + [ts[k]];
      score := Increment(score, ts[k].points, p);
    }
    assert ts[..|ts|] == ts;
    CountingEnd(v, score, i);
  }

  /** The counting loops of `validate_total_tasks_with_score`. */
  method CountScores(v: ConstraintValidator) returns (score: Counts)
    requires Wf(v)
    ensures Positive(score)
    ensures forall s, q :: Cnt(score, s, q) == (if q in v.pools then CountScore(v.pools[q], s) else 0)
  {
    score := map[];
    for i := 0 to |v.poolNames|
      invariant Positive(score)
      invariant CountedUpTo(v, score, i)
    {
      PoolNameAt(v, i);
      score := CountPool(v, score, i);
    }
    CountedAll(v, score);
  }

  /** What the counters mean after the first j per-pool score constraints. */
  ghost predicate PerPoolState(v: ConstraintValidator, score: Counts, j: nat)
    requires j <= |v.taskConstraints.withScorePerPool|
  {
    var cs := v.taskConstraints.withScorePerPool;
    && (forall s :: s in score <==> HasScore(v, s) != {})
    && (forall s :: s in score ==> score[s].Keys == HasScore(v, s))
    && (forall s, p :: s in score && p in score[s] ==>
          p in v.pools && score[s][p] == CountScore(v.pools[p], s) - CountWithScore(cs[..j], s))
  }

  /** The counters after counting describe the pools that hold each score. */
  lemma CountsDescribePools(v: ConstraintValidator, score: Counts)
    requires Positive(score)
    requires forall s, q :: Cnt(score, s, q) == (if q in v.pools then CountScore(v.pools[q], s) else 0)
    ensures PerPoolState(v, score, 0)
  {
    forall s | s in score ensures score[s].Keys == HasScore(v, s) {
      forall p ensures p in score[s] <==> p in HasScore(v, s) {
        assert Cnt(score, s, p) == (if p in v.pools then CountScore(v.pools[p], s) else 0);
      }
    }
    forall s ensures s in score <==> HasScore(v, s) != {} {
      if s in score {
        var p :| p in score[s];
        assert Cnt(score, s, p) > 0;
        assert p in HasScore(v, s);
      }
      if HasScore(v, s) != {} {
        var p :| p in HasScore(v, s);
        assert Cnt(score, s, p) > 0;
      }
    }
    assert v.taskConstraints.withScorePerPool[..0] == [];
  }

  /** `score[c.score]` of the defaultdict: present, or a fresh empty dictionary. */
  function Inner(score: Counts, s: int): map<string, int>
  {
    if s in score then score[s] else map[]
  }

  /** The tests on the counters decide the j-th per-pool check. */
  lemma PerPoolDecision(v: ConstraintValidator, score: Counts, j: nat)
    requires ScoreGroups(v) && j < |v.taskConstraints.withScorePerPool|
    requires PerPoolState(v, score, j)
    ensures var c := v.taskConstraints.withScorePerPool[j];
      var inner := Inner(score, c.score);
      PerPoolScoreCheck(v, j) ==
        if |inner| != |v.pools| then Fail(AssertionError(PoolsWithScore))
        else if inner == map[] then Fail(ValueError)
        else if forall p | p in inner :: inner[p] >= c.tasks then Pass
        else Fail(AssertionError(PerPoolScore))
  {
    var c := v.taskConstraints.withScorePerPool[j];
    var inner := Inner(score, c.score);
    assert inner.Keys == HasScore(v, c.score);
    assert |inner| == |inner.Keys|;
  }

  /** Decrementing every pool's counter for the score after a passed check. */
  lemma PerPoolAdvance(v: ConstraintValidator, score: Counts, j: nat)
    requires ScoreGroups(v) && j < |v.taskConstraints.withScorePerPool|
    requires PerPoolState(v, score, j)
    requires PerPoolScoreCheck(v, j).Pass?
    ensures var s := v.taskConstraints.withScorePerPool[j].score;
      s in score && PerPoolState(v, score[s := map p | p in score[s] :: score[s][p] - 1], j + 1)
  {
    var cs := v.taskConstraints.withScorePerPool;
    var c := cs[j];
    assert KindOf(c) == WithScorePerPoolKind;
    assert cs[..j + 1] == cs[..j] + [c];
    forall s ensures CountWithScore(cs[..j + 1], s) == CountWithScore(cs[..j], s) + (if s == c.score then 1 else 0) {
      CountWithScoreSnoc(cs[..j], c, s);
    }
    assert c.score in score;
    PerPoolStateDecrement(v, score, j, c.score);
  }

  lemma PerPoolStateDecrement(v: ConstraintValidator, score: Counts, j: nat, s: int)
    requires j < |v.taskConstraints.withScorePerPool|
    requires PerPoolState(v, score, j) && s in score
    requires var cs := v.taskConstraints.withScorePerPool;
      forall s0 :: CountWithScore(cs[..j + 1], s0) == CountWithScore(cs[..j], s0) + (if s0 == s then 1 else 0)
    ensures PerPoolState(v, score[s := map p | p in score[s] :: score[s][p] - 1], j + 1)
  {
  }

  /** The per-pool phase on the counters. */
  method CheckPerPoolScores(v: ConstraintValidator, score0: Counts) returns (r: Outcome, score: Counts)
    requires ScoreGroups(v)
    requires PerPoolState(v, score0, 0)
    ensures r == PerPoolPhase(v, 0)
    ensures r.Pass? ==> PerPoolState(v, score, |v.taskConstraints.withScorePerPool|)
  {
    score := score0;
    var cs := v.taskConstraints.withScorePerPool;
    for j := 0 to |cs|
      invariant PerPoolState(v, score, j)
      invariant PerPoolPhase(v, 0) == PerPoolPhase(v, j)
    {
      var c := cs[j];
      PerPoolDecision(v, score, j);
      var inner := if c.score in score then score[c.score] else map[];
      if |inner| != |v.pools| {
        return Fail(AssertionError(PoolsWithScore)), score;
      }
      if inner == map[] {
        return Fail(ValueError), score;
      }
      if !(forall p | p in inner :: inner[p] >= c.tasks) {
        return Fail(AssertionError(PerPoolScore)), score;
      }
      PerPoolAdvance(v, score, j);
      score := score[c.score := map p | p in inner :: inner[p] - 1];
    }
    r := Pass;
  }

  /** What `score_sum` means after the first j flat score constraints. */
  ghost predicate FlatState(v: ConstraintValidator, sum: map<int, int>, j: nat)
    requires j <= |v.taskConstraints.withScore|
  {
    && (forall s :: s in sum <==> HasScore(v, s) != {})
    && (forall s :: s in sum ==> sum[s] == |HasScore(v, s)| - SumWithScore(v.taskConstraints.withScore[..j], s))
  }

  lemma FlatStart(v: ConstraintValidator, score: Counts, n: nat)
    requires n == |v.taskConstraints.withScorePerPool|
    requires PerPoolState(v, score, n)
    ensures FlatState(v, map s | s in score :: |score[s]|, 0)
  {
    forall s | s in score ensures |score[s]| == |HasScore(v, s)| {
      assert score[s].Keys == HasScore(v, s);
      assert |score[s]| == |score[s].Keys|;
    }
    assert v.taskConstraints.withScore[..0] == [];
  }

  lemma FlatAdvance(v: ConstraintValidator, sum: map<int, int>, j: nat)
    requires ScoreGroups(v) && j < |v.taskConstraints.withScore|
    requires FlatState(v, sum, j)
    ensures var c := v.taskConstraints.withScore[j];
      FlatScoreCheck(v, j) ==
        if c.score !in sum then Fail(KeyError(c.score))
        else if c.tasks <= sum[c.score] then Pass
        else Fail(AssertionError(FlatScore))
    ensures var c := v.taskConstraints.withScore[j];
      c.score in sum ==> FlatState(v, sum[c.score := sum[c.score] - c.tasks], j + 1)
  {
    var cs := v.taskConstraints.withScore;
    var c := cs[j];
    assert KindOf(c) == WithScoreKind;
    assert cs[..j + 1] == cs[..j] + [c];
    forall s ensures SumWithScore(cs[..j + 1], s) == SumWithScore(cs[..j], s) + (if s == c.score then c.tasks else 0) {
      CountWithScoreSnoc(cs[..j], c, s);
    }
  }

  /** The flat phase on `score_sum`. */
  method CheckFlatScores(v: ConstraintValidator, sum0: map<int, int>) returns (r: Outcome)
    requires ScoreGroups(v)
    requires FlatState(v, sum0, 0)
    ensures r == FlatPhase(v, 0)
  {
    var sum := sum0;
    var fs := v.taskConstraints.withScore;
    for j := 0 to |fs|
      invariant FlatState(v, sum, j)
      invariant FlatPhase(v, 0) == FlatPhase(v, j)
    {
      var c := fs[j];
      FlatAdvance(v, sum, j);
      if c.score !in sum {
        return Fail(KeyError(c.score));
      }
      if !(c.tasks <= sum[c.score]) {
        return Fail(AssertionError(FlatScore));
      }
      sum := sum[c.score := sum[c.score] - c.tasks];
    }
    return Pass;
  }

  /** `validate_total_tasks_with_score`: counts tasks per (score, pool), checks and
      decrements per-pool score constraints, then checks flat score constraints against
      the number of pools having each score. */
  method ValidateTotalTasksWithScore(v: ConstraintValidator) returns (r: Outcome)
    requires Wf(v) && ScoreGroups(v)
    ensures r == ScoreCheck(v)
  {
    var score := CountScores(v);
    CountsDescribePools(v, score);
    r, score := CheckPerPoolScores(v, score);
    if r.Fail? {
      return;
    }
    FlatStart(v, score, |v.taskConstraints.withScorePerPool|);
    r := CheckFlatScores(v, map s | s in score :: |score[s]|);
  }

  // ---------------------------------------------------------------------------
  // validate

  /** The five checks in the order `validate` runs them; the first failure propagates. */
  ghost function ValidationOf(v: ConstraintValidator): Outcome
    requires Wf(v) && WellGrouped(v.taskConstraints)
  {
    if ValidatePoolConstraint(v).Fail? then ValidatePoolConstraint(v)
    else if ValidateNumberOfTaskConstraints(v).Fail? then ValidateNumberOfTaskConstraints(v)
    else if ValidateTasksPerPool(v).Fail? then ValidateTasksPerPool(v)
    else if ValidateTotalTasks(v).Fail? then ValidateTotalTasks(v)
    else ScoreCheck(v)
  }

  /** `validate` */
  method Validate(v: ConstraintValidator) returns (r: Outcome)
    requires Wf(v) && WellGrouped(v.taskConstraints)
    ensures r == ValidationOf(v)
  {
    r := ValidatePoolConstraint(v);
    if r.Fail? { return; }
    r := ValidateNumberOfTaskConstraints(v);
    if r.Fail? { return; }
    r := ValidateTasksPerPool(v);
    if r.Fail? { return; }
    r := ValidateTotalTasks(v);
    if r.Fail? { return; }
    r := ValidateTotalTasksWithScore(v);
  }

  lemma SubsetSameSize<T>(a: set<T>, b: set<T>)
    requires a <= b
    ensures |a| == |b| <==> a == b
  {
    if |a| == |b| {
      assert |b - a| == |b| - |a|;
      assert b - a == {};
    }
  }

  /** The j-th per-pool score check passes iff every pool holds enough tasks worth the
      score, counting one task off for every earlier constraint on that score. */
  lemma PerPoolScoreCheckPasses(v: ConstraintValidator, j: nat)
    requires ScoreGroups(v) && j < |v.taskConstraints.withScorePerPool|
    ensures var cs := v.taskConstraints.withScorePerPool;
      PerPoolScoreCheck(v, j).Pass? <==>
        && v.pools != map[]
        && forall p :: p in v.pools ==>
             CountScore(v.pools[p], cs[j].score) > 0
             && CountScore(v.pools[p], cs[j].score) - CountWithScore(cs[..j], cs[j].score) >= cs[j].tasks
  {
    var c := v.taskConstraints.withScorePerPool[j];
    var has := HasScore(v, c.score);
    SubsetSameSize(has, v.pools.Keys);
    assert |v.pools| == |v.pools.Keys|;
    if v.pools != map[] {
      var p :| p in v.pools;
      assert p in v.pools.Keys;
    }
  }

  /** What passing `validate` guarantees, and conversely what makes it pass. */
  lemma ValidatePasses(v: ConstraintValidator)
    requires Wf(v) && WellGrouped(v.taskConstraints)
    ensures var g := v.taskConstraints;
      ValidationOf(v).Pass? <==>
        && (v.poolConstraint.None? || v.poolConstraint.value.pools <= |PoolSet(v.tasks)|)
        && |g.perPool| <= 1 && |g.tasks| <= 1
        && v.tasks != []
        && (forall p :: p in v.pools ==> TasksPerPool(v) <= |v.pools[p]|)
        && TotalRequested(v, |PoolSet(v.tasks)|) <= |v.tasks|
        && (forall j :: 0 <= j < |g.withScorePerPool| ==> PerPoolScoreCheck(v, j).Pass?)
        && (forall j :: 0 <= j < |g.withScore| ==> FlatScoreCheck(v, j).Pass?)
  {
    ValidationAllPass(v);
    ScoreCheckPasses(v);
  }

  lemma ValidationAllPass(v: ConstraintValidator)
    requires Wf(v) && WellGrouped(v.taskConstraints)
    ensures ValidationOf(v).Pass? <==>
      && ValidatePoolConstraint(v).Pass? && ValidateNumberOfTaskConstraints(v).Pass?
      && ValidateTasksPerPool(v).Pass? && ValidateTotalTasks(v).Pass? && ScoreCheck(v).Pass?
  {
  }
}
