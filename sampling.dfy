/** What `TaskSampler.get_tasks` computes, stage by stage, as functions of the random
    generator and the task list.  The methods of the Sampler module are proved to compute
    exactly these functions; the Sampling lemmas module proves what they guarantee.

    Dictionary iteration orders.  A Python dict iterates in key insertion order, and the
    source's defaultdicts insert a key on every lookup.  Worked out from the code, with
    `sel` the tasks of the selected pools:
    - the outer keys of `scores` begin with the distinct points of `sel` in first-appearance
      order (ScoreOrder); later insertions (scores asked for by constraints) hold only
      empty lists;
    - the pools under score s begin with the pools of `sel` having tasks worth s
      (PoolsWithScore); the per-pool stage and the `pool_size` comprehension then add every
      other selected pool, in the order of `pools` (DictPools);
    - `pool_dict` therefore takes its key order from the first score (PoolDictOrder).
    Keys added later only ever map to empty lists, so they contribute nothing to any list
    the stages concatenate. */
module Sampling {
  import opened Wrappers
  import opened PySeq
  import opened PyRandom
  import opened Tasks
  import opened Constraints
  import opened Buckets
  import Validator

  // ---------------------------------------------------------------------------
  // Pools

  /** The distinct pools of the tasks; `list(set(...))`, whose hash order is not
      modelled, is taken in first-appearance order. */
  function DistinctPools(tasks: seq<Task>): (r: seq<string>)
    ensures NoDup(r)
    ensures forall p :: p in r <==> exists t :: t in tasks && t.pool == p
  {
    var names := Validator.PoolNamesOf(tasks);
    forall p | p in names ensures exists t :: t in tasks && t.pool == p {
      var i :| 0 <= i < |names| && names[i] == p;
      assert tasks[i] in tasks;
    }
    forall t | t in tasks ensures t.pool in names {
      var i :| 0 <= i < |tasks| && tasks[i] == t;
      assert names[i] == t.pool;
    }
    Distinct(names)
  }

  /** `sample_pools`: every pool, or `pools` of them drawn at random. */
  function SamplePools(g: Random, tasks: seq<Task>, pc: Option<PoolConstraint>): Result<(seq<string>, Random)>
  {
    var pools := DistinctPools(tasks);
    if pc.None? then Ok((pools, g)) else Sample(g, pools, pc.value.pools)
  }

  // ---------------------------------------------------------------------------
  // get_score_dict

  /** The tasks of the selected pools, in list order. */
  function Selected(tasks: seq<Task>, pools: seq<string>): (r: seq<Task>)
    ensures forall t :: t in r <==> t in tasks && t.pool in pools
    ensures multiset(r) <= multiset(tasks)
  {
    if tasks == [] then []
    else
      var init, t := tasks[..|tasks| - 1], tasks[|tasks| - 1];
      assert tasks == init + [t];
      Selected(init, pools) + (if t.pool in pools then [t] else [])
  }

  /** The tasks of xs worth s points in pool p, in list order: what bucket (s, p) receives. */
  function BucketOf(xs: seq<Task>, s: int, p: string): (r: seq<Task>)
    ensures forall t :: t in r <==> t in xs && t.points == s && t.pool == p
  {
    if xs == [] then []
    else
      var init, t := xs[..|xs| - 1], xs[|xs| - 1];
      assert xs == init + [t];
      BucketOf(init, s, p) + (if t.points == s && t.pool == p then [t] else [])
  }

  /** The buckets after `scores[task.points][task.pool].append(task)` for each task of xs. */
  function Build(xs: seq<Task>): (b: Buckets)
    ensures forall s, p :: Get(b, s, p) == BucketOf(xs, s, p)
  {
    if xs == [] then map[]
    else
      var init, t := xs[..|xs| - 1], xs[|xs| - 1];
      var b := Build(init);
      b[(t.points, t.pool) := Get(b, t.points, t.pool) + [t]]
  }

  function PointsOf(xs: seq<Task>): (r: seq<int>)
    ensures |r| == |xs| && forall i :: 0 <= i < |xs| ==> r[i] == xs[i].points
  {
    if xs == [] then [] else [xs[0].points] + PointsOf(xs[1..])
  }

  /** The outer key order of `scores`: distinct points in first-appearance order. */
  function ScoreOrder(sel: seq<Task>): (r: seq<int>)
    ensures NoDup(r)
    ensures forall t :: t in sel ==> t.points in r
  {
    var pts := PointsOf(sel);
    forall t | t in sel ensures t.points in pts {
      var i :| 0 <= i < |sel| && sel[i] == t;
      assert pts[i] == t.points;
    }
    Distinct(pts)
  }

  /** The pools of the tasks of xs worth s points, with repetitions, in list order. */
  function PoolsAt(xs: seq<Task>, s: int): (r: seq<string>)
    ensures forall t :: t in xs && t.points == s ==> t.pool in r
    ensures forall p :: p in r ==> exists t :: t in xs && t.points == s && t.pool == p
  {
    if xs == [] then []
    else (if xs[0].points == s then [xs[0].pool] else []) + PoolsAt(xs[1..], s)
  }

  /** The inner key order of `scores[s]` as built: pools in first-appearance order. */
  function PoolsWithScore(sel: seq<Task>, s: int): (r: seq<string>)
    ensures NoDup(r)
    ensures forall t :: t in sel && t.points == s ==> t.pool in r
    ensures forall p :: p in r ==> exists t :: t in sel && t.points == s && t.pool == p
  {
    Distinct(PoolsAt(sel, s))
  }

  /** The elements of xs that are not in ys, in order. */
  function Missing(xs: seq<string>, ys: seq<string>): (r: seq<string>)
    ensures forall x :: x in r <==> x in xs && x !in ys
    ensures NoDup(xs) ==> NoDup(r)
  {
    if xs == [] then []
    else
      var rest := Missing(xs[1..], ys);
      if xs[0] in ys then rest
      else
        assert NoDup(xs) ==> xs[0] !in xs[1..] by {
          if NoDup(xs) { NoDupTail(xs); }
        }
        assert NoDup(xs) ==> NoDup(xs[1..]) by {
          if NoDup(xs) { NoDupTail(xs); }
        }
        [xs[0]] + rest
  }

  /** The inner key order of `scores[s]` once the later stages have looked up every pool. */
  function DictPools(sel: seq<Task>, pools: seq<string>, s: int): seq<string>
  {
    PoolsWithScore(sel, s) + Missing(pools, PoolsWithScore(sel, s))
  }

  /** The key order of `pool_dict`, taken from the first score's pools. */
  function PoolDictOrder(sel: seq<Task>, pools: seq<string>): seq<string>
  {
    if sel == [] then pools else DictPools(sel, pools, sel[0].points)
  }

  /** `shuffle` on the buckets (s, p) for p in ps, in that order. */
  function ShufflePools(g: Random, b: Buckets, s: int, ps: seq<string>): (Buckets, Random)
    decreases |ps|
  {
    if ps == [] then (b, g)
    else
      var (xs, g1) := Shuffle(g, Get(b, s, ps[0]));
      ShufflePools(g1, b[(s, ps[0]) := xs], s, ps[1..])
  }

  /** The shuffle loop of `get_score_dict`: for each score, for each of its pools. */
  function ShuffleScores(g: Random, b: Buckets, so: seq<int>, sel: seq<Task>): (Buckets, Random)
    decreases |so|
  {
    if so == [] then (b, g)
    else
      var (b1, g1) := ShufflePools(g, b, so[0], PoolsWithScore(sel, so[0]));
      ShuffleScores(g1, b1, so[1..], sel)
  }

  /** `get_score_dict(pools, tasks)`. */
  function ScoreDict(g: Random, tasks: seq<Task>, pools: seq<string>): (Buckets, Random)
  {
    var sel := Selected(tasks, pools);
    ShuffleScores(g, Build(sel), ScoreOrder(sel), sel)
  }

  // ---------------------------------------------------------------------------
  // sample_tasks_with_score_per_pool

  /** One constraint (score s, count k) over the pools ps: for each pool emit
      `bucket[-k:]` and `del bucket[-k:]`. */
  function PerPoolPools(b: Buckets, s: int, k: int, ps: seq<string>): (r: (seq<Task>, Buckets))
    decreases |ps|
  {
    if ps == [] then ([], b)
    else
      var xs := Get(b, s, ps[0]);
      var (rest, b') := PerPoolPools(b[(s, ps[0]) := PyDropTail(xs, k)], s, k, ps[1..]);
      (PyTail(xs, k) + rest, b')
  }

  /** `sample_tasks_with_score_per_pool`: every constraint, in declaration order. */
  function PerPoolStage(b: Buckets, cs: seq<TaskConstraint>, pools: seq<string>): (r: (seq<Task>, Buckets))
    requires OnlyKind(cs, WithScorePerPoolKind)
    decreases |cs|
  {
    if cs == [] then ([], b)
    else
      var (first, b1) := PerPoolPools(b, cs[0].score, cs[0].tasks, pools);
      var (rest, b2) := PerPoolStage(b1, cs[1..], pools);
      (first + rest, b2)
  }

  // ---------------------------------------------------------------------------
  // sample_tasks_with_score

  /** A lookup in `pool_size`; every pool the stage looks up is a key (FlatKeys), so the
      default is never read. */
  function At(size: map<string, int>, p: string): int
  {
    if p in size then size[p] else 0
  }

  /** The `pool_size` comprehension: the remaining tasks of each selected pool. */
  function PoolSizes(b: Buckets, so: seq<int>, pools: seq<string>): (r: map<string, int>)
    ensures r.Keys == set p | p in pools
    ensures forall p :: p in r ==> r[p] == |PoolList(b, so, p)|
  {
    map p | p in pools :: |PoolList(b, so, p)|
  }

  /** Which tail of a bucket the flat-score stage offers.  `AsWritten` is the source's
      `candidate[-(pool_size[pool] - tpp):]`, which for `pool_size[pool] == tpp` is
      `candidate[-0:]`, the whole bucket, and for `pool_size[pool] < tpp` drops the
      bucket's first `tpp - pool_size[pool]` tasks.  `Corrected` keeps each pool's last
      `tpp` tasks in reserve: the last `pool_size[pool] - tpp` tasks, and none when that is
      not positive. */
  datatype Slice = AsWritten | Corrected

  /** One pool's candidates under the given slice. */
  function Piece(slice: Slice, xs: seq<Task>, k: int): (r: seq<Task>)
    ensures slice == AsWritten ==> r == PyTail(xs, k)
    ensures slice == Corrected ==> r == LastN(xs, k)
    ensures |r| <= |xs| && r == xs[|xs| - |r|..]
  {
    if slice == Corrected then LastN(xs, k) else PyTail(xs, k)
  }

  /** The candidates for score s: each pool's piece of its bucket, in `scores[s]` order. */
  function Candidates(slice: Slice, b: Buckets, size: map<string, int>, s: int, order: seq<string>, tpp: int): seq<Task>
  {
    if order == [] then []
    else Piece(slice, Get(b, s, order[0]), At(size, order[0]) - tpp) + Candidates(slice, b, size, s, order[1..], tpp)
  }

  /** The removal loop: `scores[task.points][task.pool].remove(task)` and
      `pool_size[task.pool] -= 1` for each drawn task. */
  function RemoveDrawn(b: Buckets, size: map<string, int>, drawn: seq<Task>): (r: (Buckets, map<string, int>))
    decreases |drawn|
  {
    if drawn == [] then (b, size)
    else RemoveDrawn(RemoveTask(b, drawn[0]), Decrement(size, drawn[0].pool), drawn[1..])
  }

  /** `scores[t.points][t.pool].remove(t)`. */
  function RemoveTask(b: Buckets, t: Task): Buckets
  {
    b[(t.points, t.pool) := RemoveFirst(Get(b, t.points, t.pool), t)]
  }

  /** `pool_size[p] -= 1`. */
  function Decrement(size: map<string, int>, p: string): map<string, int>
  {
    size[p := At(size, p) - 1]
  }

  /** The state the flat-score stage threads through its constraints. */
  datatype FlatState = FlatState(sample: seq<Task>, buckets: Buckets, size: map<string, int>, rng: Random)

  /** `sample_tasks_with_score` from the constraints cs on; a failed draw is a ValueError. */
  function FlatStage(slice: Slice, st: FlatState, cs: seq<TaskConstraint>, sel: seq<Task>, pools: seq<string>, tpp: int): Result<FlatState>
    requires OnlyKind(cs, WithScoreKind)
    decreases |cs|
  {
    if cs == [] then Ok(st)
    else
      match FlatDraw(slice, st, cs[0], sel, pools, tpp)
      case Err(e) => Err(e)
      case Ok((drawn, g)) => FlatStage(slice, AfterDraw(st, drawn, g), cs[1..], sel, pools, tpp)
  }

  /** `random_gen.sample(candidates, constraint.tasks)` for one flat-score constraint. */
  function FlatDraw(slice: Slice, st: FlatState, c: TaskConstraint, sel: seq<Task>, pools: seq<string>, tpp: int): Result<(seq<Task>, Random)>
    requires c.TasksWithScoreConstraint?
  {
    Sample(st.rng, Candidates(slice, st.buckets, st.size, c.score, DictPools(sel, pools, c.score), tpp), c.tasks)
  }

  /** The state after a successful draw: the drawn tasks appended and removed. */
  function AfterDraw(st: FlatState, drawn: seq<Task>, g: Random): FlatState
  {
    var (b, size) := RemoveDrawn(st.buckets, st.size, drawn);
    FlatState(st.sample + drawn, b, size, g)
  }

  // ---------------------------------------------------------------------------
  // sample_tasks_without_score

  /** For each pool of pd, the last tpp tasks of its list (`tasks[-tpp:]`). */
  function Reserved(b: Buckets, so: seq<int>, pd: seq<string>, tpp: int): seq<Task>
  {
    if pd == [] then [] else PyTail(PoolList(b, so, pd[0]), tpp) + Reserved(b, so, pd[1..], tpp)
  }

  /** For each pool of pd, what `del tasks[-tpp:]` leaves. */
  function Remaining(b: Buckets, so: seq<int>, pd: seq<string>, tpp: int): seq<Task>
  {
    if pd == [] then [] else PyDropTail(PoolList(b, so, pd[0]), tpp) + Remaining(b, so, pd[1..], tpp)
  }

  /** `sample_tasks_without_score`: the per-pool quota when positive, then the
      TasksConstraint's draw from the rest. */
  function AgnosticStage(g: Random, b: Buckets, so: seq<int>, pd: seq<string>, tpp: int,
                         tcs: seq<TaskConstraint>): Result<(seq<Task>, Random)>
  {
    var reserved := if tpp > 0 then Reserved(b, so, pd, tpp) else [];
    var rest := if tpp > 0 then Remaining(b, so, pd, tpp) else Flatten(b, so, pd);
    if |tcs| > 0 then
      match Sample(g, rest, tcs[0].tasks)
      case Err(e) => Err(e)
      case Ok((drawn, g1)) => Ok((reserved + drawn, g1))
    else Ok((reserved, g))
  }

  // ---------------------------------------------------------------------------
  // get_tasks

  /** The sampled list before the optional final shuffle, with the pools it drew from. */
  datatype Draws = Draws(pools: seq<string>, perPool: seq<Task>, flat: seq<Task>, agnostic: seq<Task>, rng: Random)

  /** The three stages after `sample_pools` and `get_score_dict`, with the flat-score
      stage taking the given slice. */
  function Stages(slice: Slice, g: Random, tasks: seq<Task>, groups: Grouped, tpp: int, pools: seq<string>): Result<Draws>
    requires WellGrouped(groups)
  {
    var sel := Selected(tasks, pools);
    var so := ScoreOrder(sel);
    var (b, g1) := ScoreDict(g, tasks, pools);
    var (perPool, b1) := PerPoolStage(b, groups.withScorePerPool, pools);
    match FlatStage(slice, FlatState([], b1, PoolSizes(b1, so, pools), g1), groups.withScore, sel, pools, tpp)
    case Err(e) => Err(e)
    case Ok(st) =>
      match AgnosticStage(st.rng, st.buckets, so, PoolDictOrder(sel, pools), tpp, groups.tasks)
      case Err(e) => Err(e)
      case Ok((agnostic, g2)) => Ok(Draws(pools, perPool, st.sample, agnostic, g2))
  }

  /** Everything `get_tasks(seed, source=False)` does after seeding the generator, with
      the flat-score slice as the source writes it. */
  function Draw(g: Random, tasks: seq<Task>, groups: Grouped, pc: Option<PoolConstraint>, tpp: int): Result<Draws>
    requires WellGrouped(groups)
  {
    match SamplePools(g, tasks, pc)
    case Err(e) => Err(e)
    case Ok((pools, g1)) => Stages(AsWritten, g1, tasks, groups, tpp, pools)
  }

  /** The result of `get_tasks` and the generator it leaves behind. */
  function GetTasks(g: Random, tasks: seq<Task>, groups: Grouped, pc: Option<PoolConstraint>, tpp: int,
                    permute: bool, source: bool): Result<(seq<Task>, Random)>
    requires WellGrouped(groups)
  {
    if source then Ok((tasks, g))
    else
      match Draw(g, tasks, groups, pc, tpp)
      case Err(e) => Err(e)
      case Ok(d) =>
        var sample := d.perPool + d.flat + d.agnostic;
        if permute then Ok(Shuffle(d.rng, sample)) else Ok((sample, d.rng))
  }
}
