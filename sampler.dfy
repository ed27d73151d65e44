/** The `TaskSampler` object.  Its methods follow the source's loops and are proved to
    compute the functions of the Sampling module, whose guarantees SamplingLemmas proves. */
module Sampler {
  import opened Wrappers
  import opened PySeq
  import opened PyRandom
  import opened Tasks
  import opened Constraints
  import opened Buckets
  import opened Sampling
  import SamplingLemmas
  import Validator
  import ValidatorScores

  // ---------------------------------------------------------------------------
  // The random generator

  /** A `random.Random` object: the generator state its methods advance. */
  class Rng {
    var state: Random

    constructor (g: Random)
      ensures state == g
    {
      state := g;
    }

    /** `shuffle(xs)`. */
    method Shuffle<T>(xs: seq<T>) returns (ys: seq<T>)
      modifies this
      ensures (ys, state) == PyRandom.Shuffle(old(state), xs)
    {
      ys, state := PyRandom.Shuffle(state, xs).0, PyRandom.Shuffle(state, xs).1;
    }

    /** `sample(population, k)`: a ValueError for a k outside 0..|population|. */
    method Sample<T>(population: seq<T>, k: int) returns (r: Result<seq<T>>)
      modifies this
      ensures var s := PyRandom.Sample(old(state), population, k);
        && (s.Err? ==> r == Err(s.error) && state == old(state))
        && (s.Ok? ==> r == Ok(s.value.0) && state == s.value.1)
    {
      var s := PyRandom.Sample(state, population, k);
      if s.Err? {
        r := Err(s.error);
      } else {
        r, state := Ok(s.value.0), s.value.1;
      }
    }
  }

  // ---------------------------------------------------------------------------
  // calculate_points

  /** What reading a task's notebook yields: the sum of its cells' points, or None when
      the notebook does not exist. */
  type Scorer = Task -> Option<int>

  /** A task whose points are still the -1 sentinel gets its notebook's points; reading a
      missing notebook fails the source's assertion. */
  function Resolve(t: Task, scorer: Scorer): (r: Result<Task>)
    ensures r.Err? <==> t.points < 0 && scorer(t).None?
    ensures r.Err? ==> r.error == AssertionError(NotebookMissing)
    ensures r.Ok? ==> r.value.pool == t.pool && r.value.name == t.name && r.value.root == t.root
    ensures r.Ok? ==> r.value.points == if t.points < 0 then scorer(t).value else t.points
  {
    if t.points >= 0 then Ok(t)
    else if scorer(t).None? then Err(AssertionError(NotebookMissing))
    else Ok(t.(points := scorer(t).value))
  }

  /** Every task resolved, in order; the first that cannot be fails the whole list. */
  function ResolveAll(ts: seq<Task>, scorer: Scorer): (r: Result<seq<Task>>)
    ensures r.Err? <==> exists i :: 0 <= i < |ts| && Resolve(ts[i], scorer).Err?
    ensures r.Err? ==> r.error == AssertionError(NotebookMissing)
    ensures r.Ok? ==> |r.value| == |ts|
  {
    if ts == [] then Ok([])
    else
      var init, t := ts[..|ts| - 1], ts[|ts| - 1];
      var ri := ResolveAll(init, scorer);
      var rt := Resolve(t, scorer);
      assert forall i :: 0 <= i < |init| ==> init[i] == ts[i];
      if ri.Err? then Err(ri.error)
      else if rt.Err? then Err(rt.error)
      else Ok(ri.value + [rt.value])
  }

  /** Resolving the list resolves each task where it stands. */
  lemma {:induction false} ResolveAllEach(ts: seq<Task>, scorer: Scorer)
    ensures ResolveAll(ts, scorer).Ok? ==>
      forall i :: 0 <= i < |ts| ==> ResolveAll(ts, scorer).value[i] == Resolve(ts[i], scorer).value
  {
    if ts != [] {
      var init := ts[..|ts| - 1];
      ResolveAllEach(init, scorer);
      assert forall i :: 0 <= i < |init| ==> init[i] == ts[i];
    }
  }

  lemma ResolveAllSnoc(ts: seq<Task>, t: Task, scorer: Scorer)
    ensures ResolveAll(ts, scorer).Ok? && Resolve(t, scorer).Ok? ==>
      ResolveAll(ts + [t], scorer) == Ok(ResolveAll(ts, scorer).value + [Resolve(t, scorer).value])
  {
    assert (ts + [t])[..|ts|] == ts;
  }

  /** The loop of `calculate_points` over the task list: each task resolved where it
      stands and appended to its (points, pool) list; the first missing notebook stops it,
      leaving the tasks before it resolved and the rest untouched. */
  method ResolvePoints(ts: seq<Task>, scorer: Scorer) returns (resolved: seq<Task>, perPool: Buckets, o: Outcome)
      ensures var all := ResolveAll(ts, scorer);
        && (all.Ok? ==> o == Pass && resolved == all.value && perPool == Build(resolved))
        && (all.Err? ==>
              && o == Fail(AssertionError(NotebookMissing)) && |resolved| == |ts|
              && (exists i :: 0 <= i < |resolved| && Resolve(ts[i], scorer).Err?
                    && resolved[i..] == ts[i..] && ResolveAll(ts[..i], scorer) == Ok(resolved[..i])))
    {
      resolved := ts;
      perPool := map[];
      ghost var done: seq<Task> := [];
      var i := 0;
      while i < |resolved|
        invariant 0 <= i <= |ts| && |resolved| == |ts| && |done| == i
        invariant resolved == done + ts[i..]
        invariant ResolveAll(ts[..i], scorer) == Ok(done)
        invariant perPool == Build(done)
      {
        var t := resolved[i];
        assert t == ts[i];
        var r := Resolve(t, scorer);
        if r.Err? {
          SplitAt(done, ts[i..]);
          assert ResolveAll(ts, scorer).Err?;
          return resolved, perPool, Fail(r.error);
        }
        ResolveAllSnoc(ts[..i], t, scorer);
        TakeSnoc(ts, i);
        BuildSnoc(done, r.value);
        perPool := perPool[(r.value.points, r.value.pool) := Get(perPool, r.value.points, r.value.pool) + [r.value]];
        UpdateSplit(done, ts[i..], r.value);
        resolved := resolved[i := r.value];
        done := done + [r.value];
        i := i + 1;
      }
      assert ts[..|ts|] == ts;
      o := Pass;
    }

  /** Overwriting the first element after a prefix. */
  lemma UpdateSplit<T>(d: seq<T>, rest: seq<T>, v: T)
    requires rest != []
    ensures (d + rest)[|d| := v] == (d + [v]) + rest[1..]
  {
  }

  lemma BuildSnoc(ts: seq<Task>, t: Task)
    ensures Build(ts + [t]) == Build(ts)[(t.points, t.pool) := Get(Build(ts), t.points, t.pool) + [t]]
  {
    assert (ts + [t])[..|ts|] == ts;
  }

  // ---------------------------------------------------------------------------
  // The task dictionary the stages share

  /** The `scores` dictionary of `get_tasks`: its lists, and what fixes its key order
      (the selected tasks and the selected pools; see the Sampling module). */
  class ScoreTable {
    var buckets: Buckets
    const sel: seq<Task>
    const pools: seq<string>

    constructor (b: Buckets, sel: seq<Task>, pools: seq<string>)
      ensures buckets == b && this.sel == sel && this.pools == pools
    {
      buckets := b;
      this.sel := sel;
      this.pools := pools;
    }

    /** The outer key order. */
    function Scores(): seq<int>
    {
      ScoreOrder(sel)
    }

    /** The key order `pool_dict` inherits. */
    function PoolKeys(): seq<string>
    {
      PoolDictOrder(sel, pools)
    }

    /** Every list sits under its own score and pool, and only selected pools hold tasks. */
    ghost predicate Valid()
      reads this
    {
      && NoDup(pools)
      && (forall t :: t in sel ==> t.pool in pools)
      && Inv(buckets, Scores(), PoolKeys())
    }
  }

  /** The first loop of `get_score_dict`: each task of a selected pool appended to its
      (points, pool) list; `sel` collects those tasks in order. */
  method FileTasks(pools: seq<string>, ts: seq<Task>) returns (b: Buckets, sel: seq<Task>)
    ensures sel == Selected(ts, pools) && b == Build(sel)
  {
    b, sel := map[], [];
    for i := 0 to |ts|
      invariant sel == Selected(ts[..i], pools)
      invariant b == Build(sel)
    {
      assert ts[..i + 1][..i] == ts[..i];
      var t := ts[i];
      if t.pool in pools {
        BuildSnoc(sel, t);
        b := b[(t.points, t.pool) := Get(b, t.points, t.pool) + [t]];
        sel := sel + [t];
      }
    }
    assert ts[..|ts|] == ts;
  }

  /** One step of `PerPoolPools`, without the tuple pattern. */
  lemma PerPoolPoolsStep(b: Buckets, s: int, k: int, ps: seq<string>)
    requires ps != []
    ensures var xs := Get(b, s, ps[0]);
      var rest := PerPoolPools(b[(s, ps[0]) := PyDropTail(xs, k)], s, k, ps[1..]);
      PerPoolPools(b, s, k, ps) == (PyTail(xs, k) + rest.0, rest.1)
  {
  }

  /** One step of `PerPoolStage`, without the tuple pattern. */
  lemma PerPoolStageStep(b: Buckets, cs: seq<TaskConstraint>, pools: seq<string>)
    requires cs != [] && OnlyKind(cs, WithScorePerPoolKind)
    ensures OnlyKind(cs[1..], WithScorePerPoolKind)
    ensures var first := PerPoolPools(b, cs[0].score, cs[0].tasks, pools);
      var rest := PerPoolStage(first.1, cs[1..], pools);
      PerPoolStage(b, cs, pools) == (first.0 + rest.0, rest.1)
  {
    assert forall i :: 0 <= i < |cs| - 1 ==> cs[1..][i] == cs[i + 1];
  }

  /** The inner loop of `sample_tasks_with_score_per_pool`: one constraint, every pool. */
  method TakeFromPools(b: Buckets, s: int, k: int, pools: seq<string>) returns (sample: seq<Task>, b': Buckets)
    ensures (sample, b') == PerPoolPools(b, s, k, pools)
  {
    ghost var R := PerPoolPools(b, s, k, pools);
    sample, b' := [], b;
    var todo := pools;
    while todo != []
      invariant sample + PerPoolPools(b', s, k, todo).0 == R.0
      invariant PerPoolPools(b', s, k, todo).1 == R.1
      decreases |todo|
    {
      var p := todo[0];
      PerPoolPoolsStep(b', s, k, todo);
      var xs := Get(b', s, p);
      ghost var rest := PerPoolPools(b'[(s, p) := PyDropTail(xs, k)], s, k, todo[1..]);
      ConcatAssoc(sample, PyTail(xs, k), rest.0);
      sample := sample + PyTail(xs, k);
      b' := b'[(s, p) := PyDropTail(xs, k)];
      todo := todo[1..];
    }
    assert sample + [] == sample;
  }

  /** The outer loop of `sample_tasks_with_score_per_pool`: every constraint in order. */
  method TakePerPool(b: Buckets, cs: seq<TaskConstraint>, pools: seq<string>) returns (sample: seq<Task>, b': Buckets)
    requires OnlyKind(cs, WithScorePerPoolKind)
    ensures (sample, b') == PerPoolStage(b, cs, pools)
  {
    ghost var R := PerPoolStage(b, cs, pools);
    sample, b' := [], b;
    var todo := cs;
    while todo != []
      invariant OnlyKind(todo, WithScorePerPoolKind)
      invariant sample + PerPoolStage(b', todo, pools).0 == R.0
      invariant PerPoolStage(b', todo, pools).1 == R.1
      decreases |todo|
    {
      var c := todo[0];
      PerPoolStageStep(b', todo, pools);
      var first, b1 := TakeFromPools(b', c.score, c.tasks, pools);
      ghost var rest := PerPoolStage(b1, todo[1..], pools);
      ConcatAssoc(sample, first, rest.0);
      sample, b' := sample + first, b1;
      todo := todo[1..];
    }
    assert sample + [] == sample;
  }

  /** One step of `FlatStage`: a failed draw ends it with that error, a successful one
      moves on to the next constraint from the state after the draw. */
  lemma FlatStageStep(st: FlatState, cs: seq<TaskConstraint>, sel: seq<Task>, pools: seq<string>, tpp: int)
    requires cs != [] && OnlyKind(cs, WithScoreKind)
    ensures OnlyKind(cs[1..], WithScoreKind) && cs[0].TasksWithScoreConstraint?
    ensures var d := FlatDraw(AsWritten, st, cs[0], sel, pools, tpp);
      && (d.Err? ==> FlatStage(AsWritten, st, cs, sel, pools, tpp) == Err(d.error))
      && (d.Ok? ==> FlatStage(AsWritten, st, cs, sel, pools, tpp)
                    == FlatStage(AsWritten, AfterDraw(st, d.value.0, d.value.1), cs[1..], sel, pools, tpp))
  {
    SamplingLemmas.FlatTail(cs);
  }

  lemma AfterDrawIs(st: FlatState, drawn: seq<Task>, g: Random, b: Buckets, size: map<string, int>)
    requires (b, size) == RemoveDrawn(st.buckets, st.size, drawn)
    ensures AfterDraw(st, drawn, g) == FlatState(st.sample + drawn, b, size, g)
  {
  }

  /** The removal loop of `sample_tasks_with_score`: each drawn task removed from its
      list (`list.remove`) and its pool's remaining count decreased. */
  method RemoveSample(b: Buckets, size: map<string, int>, drawn: seq<Task>) returns (b': Buckets, size': map<string, int>)
    ensures (b', size') == RemoveDrawn(b, size, drawn)
  {
    b', size' := b, size;
    var todo := drawn;
    while todo != []
      invariant RemoveDrawn(b', size', todo) == RemoveDrawn(b, size, drawn)
      decreases |todo|
    {
      var t := todo[0];
      b' := b'[(t.points, t.pool) := RemoveFirst(Get(b', t.points, t.pool), t)];
      size' := size'[t.pool := At(size', t.pool) - 1];
      todo := todo[1..];
    }
  }

  /** Every list of the dictionary under the keys ks, one after the other: the
      comprehension `[task for pool_tasks in pool_dict.values() for task in pool_tasks]`. */
  function Values(m: map<string, seq<Task>>, ks: seq<string>): seq<Task>
    requires forall p :: p in ks ==> p in m
  {
    if ks == [] then [] else m[ks[0]] + Values(m, ks[1..])
  }

  /** With each pool's whole list in the dictionary, its values are the flattened buckets. */
  lemma {:induction false} ValuesFlatten(m: map<string, seq<Task>>, b: Buckets, so: seq<int>, ks: seq<string>)
    requires forall p :: p in ks ==> p in m && m[p] == PoolList(b, so, p)
    ensures Values(m, ks) == Flatten(b, so, ks)
  {
    if ks != [] {
      ValuesFlatten(m, b, so, ks[1..]);
    }
  }

  /** With each pool's reserve deleted, its values are what the reserve leaves. */
  lemma {:induction false} ValuesRemaining(m: map<string, seq<Task>>, b: Buckets, so: seq<int>, ks: seq<string>, k: int)
    requires forall p :: p in ks ==> p in m && m[p] == PyDropTail(PoolList(b, so, p), k)
    ensures Values(m, ks) == Remaining(b, so, ks, k)
  {
    if ks != [] {
      ValuesRemaining(m, b, so, ks[1..], k);
    }
  }

  /** The inner loop that builds `pool_dict`: the lists of score s appended pool by pool. */
  method ExtendPools(m: map<string, seq<Task>>, b: Buckets, s: int, ps: seq<string>) returns (m': map<string, seq<Task>>)
    requires NoDup(ps) && forall p :: p in ps ==> p in m
    ensures m'.Keys == m.Keys
    ensures forall p :: p in m ==> m'[p] == if p in ps then m[p] + Get(b, s, p) else m[p]
  {
    m' := m;
    var todo := ps;
    while todo != []
      invariant NoDup(todo) && m'.Keys == m.Keys
      invariant forall p :: p in m ==>
        m'[p] == if p in ps && p !in todo then m[p] + Get(b, s, p) else m[p]
      invariant forall p :: p in todo ==> p in ps
      decreases |todo|
    {
      var p := todo[0];
      Uncons(todo);
      NoDupTail(todo);
      m' := m'[p := m'[p] + Get(b, s, p)];
      todo := todo[1..];
    }
  }

  /** One score's lists appended: what is left to append shrinks by that score. */
  lemma PoolDictStep(m0: map<string, seq<Task>>, m: map<string, seq<Task>>, b: Buckets, so: seq<int>,
                     todo: seq<int>, pd: seq<string>)
    requires todo != []
    requires forall p :: p in pd ==> p in m0 && m0[p] + PoolList(b, todo, p) == PoolList(b, so, p)
    requires forall p :: p in pd ==> p in m && m[p] == m0[p] + Get(b, todo[0], p)
    ensures forall p :: p in pd ==> p in m && m[p] + PoolList(b, todo[1..], p) == PoolList(b, so, p)
  {
    forall p | p in pd ensures m[p] + PoolList(b, todo[1..], p) == PoolList(b, so, p) {
      ConcatAssoc(m0[p], Get(b, todo[0], p), PoolList(b, todo[1..], p));
    }
  }

  /** The loops that build `pool_dict`: every score's lists, in score order, appended to
      their pool's list. */
  method PoolDict(b: Buckets, so: seq<int>, pd: seq<string>) returns (m: map<string, seq<Task>>)
    requires NoDup(pd)
    ensures forall p :: p in pd ==> p in m && m[p] == PoolList(b, so, p)
  {
    m := map p | p in pd :: [];
    var todo := so;
    while todo != []
      invariant forall p :: p in pd ==> p in m && m[p] + PoolList(b, todo, p) == PoolList(b, so, p)
      decreases |todo|
    {
      ghost var m0 := m;
      m := ExtendPools(m, b, todo[0], pd);
      PoolDictStep(m0, m, b, so, todo, pd);
      todo := todo[1..];
    }
  }

  /** The per-pool loop of `sample_tasks_without_score`: each pool's last k tasks taken
      into the sample and deleted from its list. */
  method TakeReserve(m: map<string, seq<Task>>, pd: seq<string>, k: int, ghost b: Buckets, ghost so: seq<int>)
    returns (sample: seq<Task>, m': map<string, seq<Task>>)
    requires NoDup(pd)
    requires forall p :: p in pd ==> p in m && m[p] == PoolList(b, so, p)
    ensures sample == Reserved(b, so, pd, k)
    ensures forall p :: p in pd ==> p in m' && m'[p] == PyDropTail(PoolList(b, so, p), k)
  {
    sample, m' := [], m;
    var todo := pd;
    while todo != []
      invariant NoDup(todo) && forall p :: p in todo ==> p in pd
      invariant sample + Reserved(b, so, todo, k) == Reserved(b, so, pd, k)
      invariant forall p :: p in pd ==>
        (p in m' && m'[p] == if p in todo then PoolList(b, so, p) else PyDropTail(PoolList(b, so, p), k))
      decreases |todo|
    {
      var p := todo[0];
      Uncons(todo);
      NoDupTail(todo);
      ConcatAssoc(sample, PyTail(m'[p], k), Reserved(b, so, todo[1..], k));
      ReserveMapStep(m', pd, todo, k, b, so);
      sample := sample + PyTail(m'[p], k);
      m' := m'[p := PyDropTail(m'[p], k)];
      todo := todo[1..];
    }
    assert sample + [] == sample;
  }

  lemma ReserveMapStep(m: map<string, seq<Task>>, pd: seq<string>, todo: seq<string>, k: int, b: Buckets, so: seq<int>)
    requires todo != [] && NoDup(todo) && forall p :: p in todo ==> p in pd
    requires forall p :: p in pd ==>
      (p in m && m[p] == if p in todo then PoolList(b, so, p) else PyDropTail(PoolList(b, so, p), k))
    ensures todo[0] in m && m[todo[0]] == PoolList(b, so, todo[0])
    ensures var m' := m[todo[0] := PyDropTail(m[todo[0]], k)];
      forall p :: p in pd ==>
        (p in m' && m'[p] == if p in todo[1..] then PoolList(b, so, p) else PyDropTail(PoolList(b, so, p), k))
  {
    NoDupTail(todo);
    Uncons(todo);
  }

  /** The part of `sample_tasks_without_score` before the draw: `pool_dict` built, the
      per-pool reserve taken when the quota is positive, and the rest flattened. */
  method SplitPoolDict(b: Buckets, so: seq<int>, pd: seq<string>, tpp: int) returns (sample: seq<Task>, rest: seq<Task>)
    requires NoDup(pd)
    ensures sample == if tpp > 0 then Reserved(b, so, pd, tpp) else []
    ensures rest == if tpp > 0 then Remaining(b, so, pd, tpp) else Flatten(b, so, pd)
  {
    var poolDict := PoolDict(b, so, pd);
    sample := [];
    if tpp > 0 {
      sample, poolDict := TakeReserve(poolDict, pd, tpp, b, so);
      ValuesRemaining(poolDict, b, so, pd, tpp);
    } else {
      ValuesFlatten(poolDict, b, so, pd);
    }
    rest := Values(poolDict, pd);
  }

  /** `get_tasks(seed, source=False)`: a failed pool sample or a failed stage decides the
      error; otherwise the three parts are joined and, under `permute`, shuffled. */
  lemma GetTasksSteps(g: Random, tasks: seq<Task>, groups: Grouped, pc: Option<PoolConstraint>, tpp: int, permute: bool)
    requires WellGrouped(groups)
    ensures var R := Sampling.GetTasks(g, tasks, groups, pc, tpp, permute, false);
      var sp := Sampling.SamplePools(g, tasks, pc);
      && (sp.Err? ==> R == Err(sp.error))
      && (sp.Ok? ==>
            var S := Stages(AsWritten, sp.value.1, tasks, groups, tpp, sp.value.0);
            && (S.Err? ==> R == Err(S.error))
            && (S.Ok? ==>
                  var sample := S.value.perPool + S.value.flat + S.value.agnostic;
                  R == if permute then Ok(PyRandom.Shuffle(S.value.rng, sample)) else Ok((sample, S.value.rng))))
  {
  }

  /** The three stages one after the other: the first that fails decides the error. */
  lemma StagesSteps(g: Random, tasks: seq<Task>, groups: Grouped, tpp: int, pools: seq<string>)
    requires WellGrouped(groups)
    ensures var S := Stages(AsWritten, g, tasks, groups, tpp, pools);
      var sel := Selected(tasks, pools);
      var sd := ScoreDict(g, tasks, pools);
      var pp := PerPoolStage(sd.0, groups.withScorePerPool, pools);
      var f := FlatStage(AsWritten, FlatState([], pp.1, PoolSizes(pp.1, ScoreOrder(sel), pools), sd.1),
                         groups.withScore, sel, pools, tpp);
      && (f.Err? ==> S == Err(f.error))
      && (f.Ok? ==>
            var a := AgnosticStage(f.value.rng, f.value.buckets, ScoreOrder(sel), PoolDictOrder(sel, pools),
                                   tpp, groups.tasks);
            && (a.Err? ==> S == Err(a.error))
            && (a.Ok? ==> S == Ok(Draws(pools, pp.0, f.value.sample, a.value.0, a.value.1))))
  {
  }

  /** The score-agnostic stage: the reserve, then what the TasksConstraint draws from the rest. */
  lemma AgnosticSteps(g: Random, b: Buckets, so: seq<int>, pd: seq<string>, tpp: int, tcs: seq<TaskConstraint>,
                      sample: seq<Task>, rest: seq<Task>)
    requires sample == if tpp > 0 then Reserved(b, so, pd, tpp) else []
    requires rest == if tpp > 0 then Remaining(b, so, pd, tpp) else Flatten(b, so, pd)
    ensures var R := AgnosticStage(g, b, so, pd, tpp, tcs);
      && (|tcs| == 0 ==> R == Ok((sample, g)))
      && (|tcs| > 0 ==>
            var s := PyRandom.Sample(g, rest, tcs[0].tasks);
            && (s.Err? ==> R == Err(s.error))
            && (s.Ok? ==> R == Ok((sample + s.value.0, s.value.1))))
  {
  }

  ghost function TasksPerPoolOf(g: Grouped): int
  {
    if g.perPool != [] then g.perPool[0].tasks else 0
  }

  class TaskSampler {
    var randomGen: Rng
    var permute: bool
    var tasks: seq<Task>
    /** `score_per_pool[pool][points]`, keyed here by the pair (points, pool). */
    var scorePerPool: Buckets
    var poolConstraint: Option<PoolConstraint>
    var taskConstraints: Grouped
    var validator: Validator.ConstraintValidator
    var tasksPerPool: int

    /** The fields `__init__` sets before `calculate_points`; `g` is the generator
        `random.Random()` seeds from the system. */
    constructor Init(g: Random, tasks: seq<Task>, permute: bool)
      ensures fresh(randomGen) && randomGen.state == g
      ensures this.tasks == tasks && this.permute == permute
      ensures scorePerPool == map[] && poolConstraint.None? && taskConstraints == EmptyGroups
      ensures tasksPerPool == 0
    {
      randomGen := new Rng(g);
      this.permute := permute;
      this.tasks := tasks;
      scorePerPool := map[];
      poolConstraint := None;
      taskConstraints := EmptyGroups;
      validator := Validator.ConstraintValidator([], EmptyGroups, None, [], map[]);
      tasksPerPool := 0;
    }

    /** What a constructed sampler holds: constraints grouped by kind, the validator built
        over its tasks, and the per-pool quota taken from the constraints. */
    ghost predicate Valid()
      reads this
    {
      && WellGrouped(taskConstraints)
      && validator == Validator.ValidatorOf(tasks, taskConstraints, poolConstraint)
      && tasksPerPool == TasksPerPoolOf(taskConstraints)
    }

    /** `calculate_points`: resolves the tasks' points in place and files them by pool
        and points; a missing notebook fails the assertion. */
    method CalculatePoints(scorer: Scorer) returns (o: Outcome)
      modifies this
      ensures randomGen == old(randomGen) && permute == old(permute) && poolConstraint == old(poolConstraint)
      ensures taskConstraints == old(taskConstraints) && validator == old(validator) && tasksPerPool == old(tasksPerPool)
      ensures var all := ResolveAll(old(tasks), scorer);
        && (all.Ok? ==> o == Pass && tasks == all.value && scorePerPool == Build(tasks))
        && (all.Err? ==>
              && o == Fail(AssertionError(NotebookMissing)) && |tasks| == |old(tasks)|
              && (exists i :: 0 <= i < |tasks| && Resolve(old(tasks)[i], scorer).Err?
                    && tasks[i..] == old(tasks)[i..] && ResolveAll(old(tasks)[..i], scorer) == Ok(tasks[..i])))
    {
      tasks, scorePerPool, o := ResolvePoints(tasks, scorer);
    }

    /** The rest of `__init__` once the points are known: the constraints grouped, the
        validator built over the tasks, and the per-pool quota read off. */
    method Configure(cs: seq<TaskConstraint>, pc: Option<PoolConstraint>)
      modifies this
      ensures randomGen == old(randomGen) && permute == old(permute)
      ensures tasks == old(tasks) && scorePerPool == old(scorePerPool)
      ensures poolConstraint == pc && taskConstraints == GroupOf(cs)
      ensures Valid()
    {
      var groups := ParseTaskConstraints(cs);
      var v := Validator.NewConstraintValidator(tasks, groups, pc);
      var tpp := if groups.perPool != [] then groups.perPool[0].tasks else 0;
      poolConstraint, taskConstraints, validator, tasksPerPool := pc, groups, v, tpp;
    }

    /** `self.validator.validate()`, the last step of `__init__`. */
    method Validate() returns (o: Outcome)
      requires Valid()
      ensures o == ValidatorScores.ValidationOf(validator)
    {
      o := ValidatorScores.Validate(validator);
    }

    /** `parse_task_constraints`: each constraint appended to its kind's list. */
    method ParseTaskConstraints(cs: seq<TaskConstraint>) returns (g: Grouped)
      ensures g == GroupOf(cs)
      ensures WellGrouped(g)
    {
      g := EmptyGroups;
      for i := 0 to |cs|
        invariant g == GroupOf(cs[..i])
      {
        TakeSnoc(cs, i);
        GroupOfSnoc(cs[..i], cs[i]);
        g := g.Add(cs[i]);
      }
      FullSlice(cs);
      GroupOfWellGrouped(cs);
    }

    /** `sample_pools`: every pool of the tasks, or a random sample of them under a pool
        constraint (a ValueError when it asks for more pools than there are). */
    method SamplePools(ts: seq<Task>) returns (r: Result<seq<string>>)
      modifies randomGen
      ensures var sp := Sampling.SamplePools(old(randomGen.state), ts, poolConstraint);
        && (sp.Err? ==> r == Err(sp.error) && randomGen.state == old(randomGen.state))
        && (sp.Ok? ==> r == Ok(sp.value.0) && randomGen.state == sp.value.1)
    {
      var pools := DistinctPools(ts);
      if poolConstraint.Some? {
        r := randomGen.Sample(pools, poolConstraint.value.pools);
      } else {
        r := Ok(pools);
      }
    }

    /** `get_score_dict(pools, tasks)`: the tasks of the selected pools filed by points and
        pool, then every list shuffled, score by score and pool by pool in key order. */
    method GetScoreDict(pools: seq<string>, ts: seq<Task>) returns (scores: ScoreTable)
      modifies randomGen
      ensures fresh(scores)
      ensures scores.sel == Selected(ts, pools) && scores.pools == pools
      ensures (scores.buckets, randomGen.state) == ScoreDict(old(randomGen.state), ts, pools)
    {
      var b, sel := FileTasks(pools, ts);
      var so := ScoreOrder(sel);
      ghost var g0, b0 := randomGen.state, b;
      assert g0 == old(randomGen.state) && ScoreDict(g0, ts, pools) == ShuffleScores(g0, b0, so, sel);
      for i := 0 to |so|
        invariant ShuffleScores(randomGen.state, b, so[i..], sel) == ShuffleScores(g0, b0, so, sel)
      {
        var s := so[i];
        var ps := Sampling.PoolsWithScore(sel, s);
        ghost var gi, bi := randomGen.state, b;
        for j := 0 to |ps|
          invariant ShufflePools(randomGen.state, b, s, ps[j..]) == ShufflePools(gi, bi, s, ps)
        {
          assert ps[j..][1..] == ps[j + 1..];
          var xs := randomGen.Shuffle(Get(b, s, ps[j]));
          b := b[(s, ps[j]) := xs];
        }
        assert so[i..][1..] == so[i + 1..];
      }
      assert so[|so|..] == [];
      assert (b, randomGen.state) == ShuffleScores(g0, b0, so, sel);
      scores := new ScoreTable(b, sel, pools);
    }

    /** `sample_tasks_with_score_per_pool(scores, pools)`: for each such constraint and
        each pool, the last `tasks` tasks of the bucket are taken into the sample and
        deleted from it. */
    method SampleTasksWithScorePerPool(scores: ScoreTable, pools: seq<string>) returns (sample: seq<Task>)
      requires Valid()
      modifies scores
      ensures (sample, scores.buckets) == PerPoolStage(old(scores.buckets), taskConstraints.withScorePerPool, pools)
    {
      sample, scores.buckets := TakePerPool(scores.buckets, taskConstraints.withScorePerPool, pools);
    }

    /** `sample_tasks_with_score(scores, pools)`: for each such constraint, a random
        sample of its candidates (from each pool's bucket of that score the slice
        `candidate[-(pool_size[pool] - tasks_per_pool):]`), removed from the dictionary
        at once; a draw of more tasks than there are candidates is a ValueError. */
    method SampleTasksWithScore(scores: ScoreTable, pools: seq<string>) returns (r: Result<seq<Task>>)
      requires Valid() && pools == scores.pools
      modifies scores, randomGen
      ensures var R := FlatStage(AsWritten, FlatState([], old(scores.buckets), PoolSizes(old(scores.buckets), scores.Scores(), pools),
                                           old(randomGen.state)),
                                 taskConstraints.withScore, scores.sel, pools, tasksPerPool);
        && (R.Err? ==> r == Err(R.error))
        && (R.Ok? ==> r == Ok(R.value.sample) && scores.buckets == R.value.buckets && randomGen.state == R.value.rng)
    {
      var sample: seq<Task> := [];
      var size := PoolSizes(scores.buckets, scores.Scores(), pools);
      ghost var R := FlatStage(AsWritten, FlatState(sample, scores.buckets, size, randomGen.state),
                               taskConstraints.withScore, scores.sel, pools, tasksPerPool);
      var todo := taskConstraints.withScore;
      while todo != []
        invariant OnlyKind(todo, WithScoreKind)
        invariant FlatStage(AsWritten, FlatState(sample, scores.buckets, size, randomGen.state), todo, scores.sel, pools, tasksPerPool) == R
        decreases |todo|
      {
        var c := todo[0];
        ghost var st := FlatState(sample, scores.buckets, size, randomGen.state);
        FlatStageStep(st, todo, scores.sel, pools, tasksPerPool);
        var candidates := Candidates(AsWritten, scores.buckets, size, c.score, DictPools(scores.sel, pools, c.score), tasksPerPool);
        var drawn := randomGen.Sample(candidates, c.tasks);
        if drawn.Err? {
          return Err(drawn.error);
        }
        var b, sz := RemoveSample(scores.buckets, size, drawn.value);
        AfterDrawIs(st, drawn.value, randomGen.state, b, sz);
        sample, size, scores.buckets := sample + drawn.value, sz, b;
        todo := todo[1..];
      }
      r := Ok(sample);
    }

    /** `sample_tasks_without_score(scores, pools)`: every pool's lists gathered into
        `pool_dict`; with a positive per-pool quota each pool's last tasks are taken; then
        the TasksConstraint, if any, draws from what is left.  The dictionary itself is
        not changed (`pool_dict` holds copies), and the `pools` argument is not read: the
        loop variable of the source shadows it. */
    method SampleTasksWithoutScore(scores: ScoreTable, pools: seq<string>) returns (r: Result<seq<Task>>)
      requires Valid() && scores.Valid()
      modifies randomGen
      ensures var R := AgnosticStage(old(randomGen.state), scores.buckets, scores.Scores(), scores.PoolKeys(),
                                     tasksPerPool, taskConstraints.tasks);
        && (R.Err? ==> r == Err(R.error))
        && (R.Ok? ==> r == Ok(R.value.0) && randomGen.state == R.value.1)
    {
      SamplingLemmas.PoolDictOrderFacts(scores.sel, scores.pools);
      var sample, rest := SplitPoolDict(scores.buckets, scores.Scores(), scores.PoolKeys(), tasksPerPool);
      AgnosticSteps(randomGen.state, scores.buckets, scores.Scores(), scores.PoolKeys(), tasksPerPool,
                    taskConstraints.tasks, sample, rest);
      if |taskConstraints.tasks| > 0 {
        var drawn := randomGen.Sample(rest, taskConstraints.tasks[0].tasks);
        if drawn.Err? {
          return Err(drawn.error);
        }
        sample := sample + drawn.value;
      }
      r := Ok(sample);
    }

    /** The body of `get_tasks` once the pools are sampled: the score dictionary built
        over them and the three stages run on it in order, their samples joined. */
    method RunStages(ts: seq<Task>, pools: seq<string>) returns (r: Result<seq<Task>>)
      requires Valid() && NoDup(pools)
      modifies randomGen
      ensures var S := Stages(AsWritten, old(randomGen.state), ts, taskConstraints, tasksPerPool, pools);
        && (S.Err? ==> r == Err(S.error))
        && (S.Ok? ==> r == Ok(S.value.perPool + S.value.flat + S.value.agnostic) && randomGen.state == S.value.rng)
    {
      StagesSteps(randomGen.state, ts, taskConstraints, tasksPerPool, pools);
      SamplingLemmas.FlatLeavesInv(AsWritten, randomGen.state, ts, taskConstraints, tasksPerPool, pools);
      var scores := GetScoreDict(pools, ts);
      var sample := SampleTasksWithScorePerPool(scores, pools);
      var flat := SampleTasksWithScore(scores, pools);
      if flat.Err? {
        return Err(flat.error);
      }
      var agnostic := SampleTasksWithoutScore(scores, pools);
      if agnostic.Err? {
        return Err(agnostic.error);
      }
      r := Ok(sample + flat.value + agnostic.value);
    }

    /** `get_tasks(seed, source)`: a generator seeded afresh, then (unless `source`,
        which returns the task list as it is) the pools sampled, the stages run and the
        sample shuffled under `permute`.  `bits` is the generator's raw stream. */
    method GetTasks(bits: Bits, seed: int, source: bool) returns (r: Result<seq<Task>>)
      requires Valid()
      modifies this
      ensures fresh(randomGen)
      ensures permute == old(permute) && tasks == old(tasks) && scorePerPool == old(scorePerPool)
      ensures poolConstraint == old(poolConstraint) && taskConstraints == old(taskConstraints)
      ensures validator == old(validator) && tasksPerPool == old(tasksPerPool)
      ensures var R := Sampling.GetTasks(Seeded(bits, seed), tasks, taskConstraints, poolConstraint, tasksPerPool,
                                         permute, source);
        && (R.Err? ==> r == Err(R.error))
        && (R.Ok? ==> r == Ok(R.value.0) && randomGen.state == R.value.1)
    {
      randomGen := new Rng(Seeded(bits, seed));
      var ts := tasks;
      if source {
        return Ok(ts);
      }
      GetTasksSteps(Seeded(bits, seed), ts, taskConstraints, poolConstraint, tasksPerPool, permute);
      SamplingLemmas.SamplePoolsSpec(Seeded(bits, seed), ts, poolConstraint);
      var pools := SamplePools(ts);
      if pools.Err? {
        return Err(pools.error);
      }
      var sample := RunStages(ts, pools.value);
      if sample.Err? {
        return Err(sample.error);
      }
      var result := sample.value;
      if permute {
        result := randomGen.Shuffle(result);
      }
      r := Ok(result);
    }
  }

  /** `TaskSampler(tasks, task_constraints, pool_constraint, permute)`: resolves the points,
      groups the constraints and validates them, failing with the first assertion that
      does not hold; on success the sampler is valid and its quota is the first
      TasksPerPoolConstraint's, or 0. */
  method NewTaskSampler(g: Random, tasks: seq<Task>, cs: seq<TaskConstraint>, pc: Option<PoolConstraint>,
                        permute: bool, scorer: Scorer) returns (r: Result<TaskSampler>)
    ensures ResolveAll(tasks, scorer).Err? ==> r == Err(AssertionError(NotebookMissing))
    ensures ResolveAll(tasks, scorer).Ok? ==>
      var v := Validator.ValidatorOf(ResolveAll(tasks, scorer).value, GroupOf(cs), pc);
      && (ValidatorScores.ValidationOf(v).Fail? ==> r == Err(ValidatorScores.ValidationOf(v).error))
      && (r.Ok? <==> ValidatorScores.ValidationOf(v) == Pass)
    ensures r.Ok? ==>
      && fresh(r.value) && fresh(r.value.randomGen) && r.value.Valid()
      && r.value.randomGen.state == g && r.value.permute == permute
      && r.value.tasks == ResolveAll(tasks, scorer).value && r.value.poolConstraint == pc
      && r.value.taskConstraints == GroupOf(cs) && r.value.scorePerPool == Build(r.value.tasks)
  {
    var s := new TaskSampler.Init(g, tasks, permute);
    var o := s.CalculatePoints(scorer);
    if o.Fail? {
      return Err(o.error);
    }
    s.Configure(cs, pc);
    o := s.Validate();
    if o.Fail? {
      return Err(o.error);
    }
    r := Ok(s);
  }
}
