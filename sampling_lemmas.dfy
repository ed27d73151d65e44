/** What the sampler's stages guarantee, for every outcome of the random generator. */
module SamplingLemmas {
  import opened Wrappers
  import opened PySeq
  import opened PyRandom
  import opened Tasks
  import opened Constraints
  import opened Buckets
  import opened Sampling
  import Validator

  // ---------------------------------------------------------------------------
  // sample_pools

  /** `sample_pools` returns distinct pools that occur in the tasks: all of them without
      a pool constraint, and exactly `pools` of them with one; a count below 0 or above
      the number of pools is a ValueError. */
  lemma SamplePoolsSpec(g: Random, tasks: seq<Task>, pc: Option<PoolConstraint>)
    ensures var r := SamplePools(g, tasks, pc);
      && (r.Ok? ==> NoDup(r.value.0))
      && (r.Ok? ==> forall p :: p in r.value.0 ==> exists t :: t in tasks && t.pool == p)
      && (pc.None? ==> r.Ok? && forall t :: t in tasks ==> t.pool in r.value.0)
      && (pc.Some? ==> (r.Err? <==> pc.value.pools < 0 || pc.value.pools > |DistinctPools(tasks)|))
      && (pc.Some? && r.Ok? ==> |r.value.0| == pc.value.pools)
      && (r.Err? ==> r.error == ValueError)
  {
    var all := DistinctPools(tasks);
    var r := SamplePools(g, tasks, pc);
    if pc.Some? && r.Ok? {
      var picked := r.value.0;
      assert multiset(picked) <= multiset(all);
      SubNoDup(picked, all);
      forall p | p in picked ensures p in all {
        assert p in multiset(picked);
      }
    }
  }

  // ---------------------------------------------------------------------------
  // get_score_dict

  lemma BucketOfSnoc(xs: seq<Task>, t: Task, s: int, p: string)
    ensures BucketOf(xs + [t], s, p) == BucketOf(xs, s, p) + (if t.points == s && t.pool == p then [t] else [])
  {
    SplitAt(xs, [t]);
  }

  lemma {:induction false} BucketOfSelected(tasks: seq<Task>, pools: seq<string>, s: int, p: string)
    ensures BucketOf(Selected(tasks, pools), s, p) == if p in pools then BucketOf(tasks, s, p) else []
  {
    if tasks != [] {
      var init, t := tasks[..|tasks| - 1], tasks[|tasks| - 1];
      var si := Selected(init, pools);
      BucketOfSelected(init, pools, s, p);
      if t.pool in pools {
        BucketOfSnoc(si, t, s, p);
      } else {
        assert si + [] == si;
      }
    }
  }

  /** Shuffling the buckets of one score permutes each bucket and keeps the seed. */
  lemma {:induction false} ShufflePoolsSpec(g: Random, b: Buckets, s: int, ps: seq<string>)
    ensures var (b', g') := ShufflePools(g, b, s, ps);
      && g'.seed == g.seed
      && forall s', p :: multiset(Get(b', s', p)) == multiset(Get(b, s', p))
    decreases |ps|
  {
    if ps != [] {
      var (xs, g1) := Shuffle(g, Get(b, s, ps[0]));
      ShufflePoolsSpec(g1, b[(s, ps[0]) := xs], s, ps[1..]);
    }
  }

  /** The shuffle loop of `get_score_dict` permutes each bucket and keeps the seed. */
  lemma {:induction false} ShuffleScoresSpec(g: Random, b: Buckets, so: seq<int>, sel: seq<Task>)
    ensures var (b', g') := ShuffleScores(g, b, so, sel);
      && g'.seed == g.seed
      && forall s, p :: multiset(Get(b', s, p)) == multiset(Get(b, s, p))
    decreases |so|
  {
    if so != [] {
      ShufflePoolsSpec(g, b, so[0], Sampling.PoolsWithScore(sel, so[0]));
      var (b1, g1) := ShufflePools(g, b, so[0], Sampling.PoolsWithScore(sel, so[0]));
      ShuffleScoresSpec(g1, b1, so[1..], sel);
    }
  }

  /** Each bucket of `get_score_dict` is a permutation of the tasks of a selected pool
      worth its score, in list order; pools that were not selected have no tasks in it. */
  lemma ScoreDictSpec(g: Random, tasks: seq<Task>, pools: seq<string>)
    ensures var (b, g') := ScoreDict(g, tasks, pools);
      && g'.seed == g.seed
      && forall s, p :: multiset(Get(b, s, p)) ==
           if p in pools then multiset(BucketOf(tasks, s, p)) else multiset{}
  {
    forall s, p ensures BucketOf(Selected(tasks, pools), s, p) ==
                        if p in pools then BucketOf(tasks, s, p) else [] {
      BucketOfSelected(tasks, pools, s, p);
    }
    var sel := Selected(tasks, pools);
    ShuffleScoresSpec(g, Build(sel), ScoreOrder(sel), sel);
  }

  /** The pools under a score once every pool has been looked up: the selected pools,
      each once. */
  lemma DictPoolsFacts(sel: seq<Task>, pools: seq<string>, s: int)
    requires NoDup(pools)
    requires forall t :: t in sel ==> t.pool in pools
    ensures NoDup(DictPools(sel, pools, s))
    ensures forall p :: p in DictPools(sel, pools, s) <==> p in pools
  {
    var a := Sampling.PoolsWithScore(sel, s);
    NoDupConcat(a, Missing(pools, a));
  }

  lemma PoolDictOrderFacts(sel: seq<Task>, pools: seq<string>)
    requires NoDup(pools)
    requires forall t :: t in sel ==> t.pool in pools
    ensures NoDup(PoolDictOrder(sel, pools))
    ensures forall p :: p in PoolDictOrder(sel, pools) <==> p in pools
  {
    if sel != [] {
      DictPoolsFacts(sel, pools, sel[0].points);
    }
  }

  /** Building the buckets puts every task into its own bucket and nothing else. */
  lemma BuildFlatten(xs: seq<Task>, so: seq<int>, ps: seq<string>)
    requires NoDup(so) && NoDup(ps)
    requires forall t :: t in xs ==> t.points in so && t.pool in ps
    ensures Inv(Build(xs), so, ps)
    ensures multiset(Flatten(Build(xs), so, ps)) == multiset(xs)
  {
    BuildInv(xs, so, ps);
    BuildFlattenCount(xs, so, ps);
  }

  lemma BuildInv(xs: seq<Task>, so: seq<int>, ps: seq<string>)
    requires forall t :: t in xs ==> t.points in so && t.pool in ps
    ensures Inv(Build(xs), so, ps)
  {
    var b := Build(xs);
    forall s, p, t | t in Get(b, s, p) ensures t.points == s && t.pool == p && s in so && p in ps {
      assert t in BucketOf(xs, s, p);
    }
  }

  lemma {:induction false} BuildFlattenCount(xs: seq<Task>, so: seq<int>, ps: seq<string>)
    requires NoDup(so) && NoDup(ps)
    requires forall t :: t in xs ==> t.points in so && t.pool in ps
    ensures multiset(Flatten(Build(xs), so, ps)) == multiset(xs)
  {
    if xs == [] {
      EmptyFlatten(so, ps);
    } else {
      var init, t := xs[..|xs| - 1], xs[|xs| - 1];
      Unsnoc(xs);
      BuildFlattenCount(init, so, ps);
      BuildFlattenStep(Build(init), t, so, ps);
    }
  }

  /** Appending one task to its bucket adds exactly it to the flattened contents. */
  lemma BuildFlattenStep(b: Buckets, t: Task, so: seq<int>, ps: seq<string>)
    requires NoDup(so) && NoDup(ps) && t.points in so && t.pool in ps
    ensures multiset(Flatten(b[(t.points, t.pool) := Get(b, t.points, t.pool) + [t]], so, ps))
         == multiset(Flatten(b, so, ps)) + multiset{t}
  {
    var g := Get(b, t.points, t.pool);
    PutFlatten(b, so, ps, t.points, t.pool, g + [t]);
    MultisetCancel(multiset(Flatten(b[(t.points, t.pool) := g + [t]], so, ps)), multiset(Flatten(b, so, ps)) + multiset{t},
                   multiset(g), multiset(g), multiset{});
  }

  lemma {:induction false} EmptyFlatten(so: seq<int>, ps: seq<string>)
    ensures Flatten(map[], so, ps) == []
  {
    if ps != [] {
      EmptyPoolList(so, ps[0]);
      EmptyFlatten(so, ps[1..]);
    }
  }

  lemma {:induction false} EmptyPoolList(so: seq<int>, p: string)
    ensures PoolList(map[], so, p) == []
  {
    if so != [] {
      EmptyPoolList(so[1..], p);
    }
  }

  /** Permuting every bucket in place changes neither the invariant nor the contents. */
  lemma SameBuckets(b: Buckets, b': Buckets, so: seq<int>, ps: seq<string>)
    requires forall s, p :: multiset(Get(b', s, p)) == multiset(Get(b, s, p))
    ensures Inv(b, so, ps) ==> Inv(b', so, ps)
    ensures multiset(Flatten(b', so, ps)) == multiset(Flatten(b, so, ps))
  {
    if Inv(b, so, ps) {
      forall s, p, t | t in Get(b', s, p)
        ensures t.points == s && t.pool == p && s in so && p in ps
      {
        assert t in multiset(Get(b', s, p));
        InvAt(b, so, ps, s, p, t);
      }
      assert Inv(b', so, ps);
    }
    SameFlatten(b, b', so, ps);
  }

  lemma {:induction false} SameFlatten(b: Buckets, b': Buckets, so: seq<int>, ps: seq<string>)
    requires forall s, p :: multiset(Get(b', s, p)) == multiset(Get(b, s, p))
    ensures multiset(Flatten(b', so, ps)) == multiset(Flatten(b, so, ps))
  {
    if ps != [] {
      SameFlatten(b, b', so, ps[1..]);
      SamePoolList(b, b', so, ps[0]);
    }
  }

  lemma {:induction false} SamePoolList(b: Buckets, b': Buckets, so: seq<int>, p: string)
    requires forall s, p :: multiset(Get(b', s, p)) == multiset(Get(b, s, p))
    ensures multiset(PoolList(b', so, p)) == multiset(PoolList(b, so, p))
  {
    if so != [] {
      SamePoolList(b, b', so[1..], p);
    }
  }

  /** The dictionary the draws start from: every selected task exactly once, each in
      its own bucket. */
  lemma ScoreDictStart(g: Random, tasks: seq<Task>, pools: seq<string>)
    requires NoDup(pools)
    ensures var sel := Selected(tasks, pools);
      var b := ScoreDict(g, tasks, pools).0;
      && Inv(b, ScoreOrder(sel), PoolDictOrder(sel, pools))
      && multiset(Flatten(b, ScoreOrder(sel), PoolDictOrder(sel, pools))) == multiset(sel)
  {
    var sel := Selected(tasks, pools);
    var so, pd := ScoreOrder(sel), PoolDictOrder(sel, pools);
    PoolDictOrderFacts(sel, pools);
    BuildFlatten(sel, so, pd);
    ShuffleScoresSpec(g, Build(sel), so, sel);
    SameBuckets(Build(sel), ScoreDict(g, tasks, pools).0, so, pd);
  }

  // ---------------------------------------------------------------------------
  // sample_tasks_with_score_per_pool

  /** One per-pool constraint takes its tasks out of the dictionary (nothing is lost or
      duplicated), and every task it takes is worth its score and comes from a listed pool. */
  lemma {:induction false} PerPoolPoolsSpec(b: Buckets, so: seq<int>, u: seq<string>, s: int, k: int, ps: seq<string>)
    requires NoDup(so) && NoDup(u) && Inv(b, so, u)
    ensures var (out, b') := PerPoolPools(b, s, k, ps);
      && Inv(b', so, u)
      && multiset(out) + multiset(Flatten(b', so, u)) == multiset(Flatten(b, so, u))
      && forall t :: t in out ==> t.points == s && t.pool in ps
    decreases |ps|
  {
    if ps != [] {
      var xs := Get(b, s, ps[0]);
      var kept, taken := PyDropTail(xs, k), PyTail(xs, k);
      assert kept + taken == xs;
      TakeFrom(b, so, u, s, ps[0], kept, taken);
      var b1 := b[(s, ps[0]) := kept];
      PerPoolPoolsSpec(b1, so, u, s, k, ps[1..]);
      var (rest, b') := PerPoolPools(b1, s, k, ps[1..]);
      assert PerPoolPools(b, s, k, ps) == (taken + rest, b');
      MultisetChain(multiset(taken), multiset(rest), multiset(Flatten(b, so, u)),
                    multiset(Flatten(b1, so, u)), multiset(Flatten(b', so, u)));
      forall t | t in taken ensures t.points == s && t.pool in ps {
        assert t in xs;
        InvAt(b, so, u, s, ps[0], t);
      }
    }
  }

  /** The per-pool stage takes its tasks out of the dictionary: nothing is lost or
      duplicated. */
  lemma {:induction false} PerPoolStageSpec(b: Buckets, so: seq<int>, u: seq<string>, cs: seq<TaskConstraint>, pools: seq<string>)
    requires OnlyKind(cs, WithScorePerPoolKind)
    requires NoDup(so) && NoDup(u) && Inv(b, so, u)
    ensures var (out, b') := PerPoolStage(b, cs, pools);
      && Inv(b', so, u)
      && multiset(out) + multiset(Flatten(b', so, u)) == multiset(Flatten(b, so, u))
    decreases |cs|
  {
    if cs != [] {
      PerPoolPoolsSpec(b, so, u, cs[0].score, cs[0].tasks, pools);
      var (first, b1) := PerPoolPools(b, cs[0].score, cs[0].tasks, pools);
      PerPoolStageSpec(b1, so, u, cs[1..], pools);
      var (rest, b2) := PerPoolStage(b1, cs[1..], pools);
      assert PerPoolStage(b, cs, pools) == (first + rest, b2);
      MultisetChain(multiset(first), multiset(rest), multiset(Flatten(b, so, u)),
                    multiset(Flatten(b1, so, u)), multiset(Flatten(b2, so, u)));
    }
  }

  /** Every task the per-pool stage draws is worth the score of one of its constraints
      and belongs to a selected pool. */
  lemma {:induction false} PerPoolStageScores(b: Buckets, so: seq<int>, u: seq<string>, cs: seq<TaskConstraint>, pools: seq<string>)
    requires OnlyKind(cs, WithScorePerPoolKind)
    requires NoDup(so) && NoDup(u) && Inv(b, so, u)
    ensures forall t :: t in PerPoolStage(b, cs, pools).0 ==> t.pool in pools && AsksScore(cs, t.points)
    decreases |cs|
  {
    if cs != [] {
      var c := cs[0];
      PerPoolPoolsSpec(b, so, u, c.score, c.tasks, pools);
      var r1 := PerPoolPools(b, c.score, c.tasks, pools);
      assert OnlyKind(cs[1..], WithScorePerPoolKind) by {
        assert forall i :: 0 <= i < |cs| - 1 ==> cs[1..][i] == cs[i + 1];
      }
      PerPoolStageScores(r1.1, so, u, cs[1..], pools);
      var rest := PerPoolStage(r1.1, cs[1..], pools).0;
      assert PerPoolStage(b, cs, pools).0 == r1.0 + rest;
      assert c in cs && Scored(c) by {
        assert KindOf(cs[0]) == WithScorePerPoolKind;
      }
      forall t | t in r1.0 + rest ensures t.pool in pools && AsksScore(cs, t.points) {
        if t !in r1.0 {
          var c' :| c' in cs[1..] && Scored(c') && c'.score == t.points;
          assert c' in cs;
        }
      }
    }
  }

  // ---------------------------------------------------------------------------
  // sample_tasks_with_score

  /** How many tasks of xs belong to pool q. */
  function CountPool(xs: seq<Task>, q: string): nat
  {
    if xs == [] then 0 else (if xs[0].pool == q then 1 else 0) + CountPool(xs[1..], q)
  }

  lemma {:induction false} CountPoolAppend(a: seq<Task>, b: seq<Task>, q: string)
    ensures CountPool(a + b, q) == CountPool(a, q) + CountPool(b, q)
  {
    if a == [] {
      assert a + b == b;
    } else {
      assert (a + b)[0] == a[0];
      assert (a + b)[1..] == a[1..] + b;
      CountPoolAppend(a[1..], b, q);
    }
  }

  /** A list drawn from a single pool counts only there. */
  lemma {:induction false} CountPoolUniform(xs: seq<Task>, p: string, q: string)
    requires forall t :: t in xs ==> t.pool == p
    ensures CountPool(xs, q) == if p == q then |xs| else 0
  {
    if xs != [] {
      assert xs[0] in xs;
      CountPoolUniform(xs[1..], p, q);
    }
  }

  lemma {:induction false} CountPoolRemove(ys: seq<Task>, x: Task, q: string)
    requires x in ys
    ensures CountPool(ys, q) == CountPool(RemoveFirst(ys, x), q) + (if x.pool == q then 1 else 0)
  {
    if ys[0] != x {
      CountPoolRemove(ys[1..], x, q);
      assert RemoveFirst(ys, x)[1..] == RemoveFirst(ys[1..], x);
    }
  }

  /** Drawing fewer tasks draws no more of any pool. */
  lemma {:induction false} CountPoolMono(xs: seq<Task>, ys: seq<Task>, q: string)
    requires multiset(xs) <= multiset(ys)
    ensures CountPool(xs, q) <= CountPool(ys, q)
    decreases |xs|
  {
    if xs != [] {
      var x := xs[0];
      assert x in multiset(ys);
      var ys' := RemoveFirst(ys, x);
      Uncons(xs);
      MultisetUncons(multiset(xs[1..]), multiset(ys'), x);
      CountPoolMono(xs[1..], ys', q);
      CountPoolRemove(ys, x, q);
    }
  }

  lemma MultisetAddMono<T>(a: multiset<T>, b: multiset<T>, c: multiset<T>, d: multiset<T>)
    requires a <= c && b <= d
    ensures a + b <= c + d
  {
    forall x ensures (a + b)[x] <= (c + d)[x] {
      assert a[x] <= c[x] && b[x] <= d[x];
    }
  }

  /** Under either slice, the candidates for a score are tasks of that score's row. */
  lemma {:induction false} CandidatesInRow(slice: Slice, b: Buckets, size: map<string, int>, s: int, order: seq<string>, tpp: int)
    ensures multiset(Candidates(slice, b, size, s, order, tpp)) <= multiset(Row(b, s, order))
  {
    if order != [] {
      var xs := Get(b, s, order[0]);
      var piece := Piece(slice, xs, At(size, order[0]) - tpp);
      PieceSub(slice, xs, At(size, order[0]) - tpp);
      CandidatesInRow(slice, b, size, s, order[1..], tpp);
      MultisetAddMono(multiset(piece), multiset(Candidates(slice, b, size, s, order[1..], tpp)),
                      multiset(xs), multiset(Row(b, s, order[1..])));
    }
  }

  lemma PieceSub(slice: Slice, xs: seq<Task>, k: int)
    ensures multiset(Piece(slice, xs, k)) <= multiset(xs)
  {
    var piece := Piece(slice, xs, k);
    assert xs == xs[..|xs| - |piece|] + piece;
  }

  function Max0(n: int): nat
  {
    if n > 0 then n else 0
  }

  /** Under the corrected slice every pool offers at most `pool_size[pool] - tpp`
      candidates, and a pool outside the order none. */
  lemma {:induction false} CandidatesCount(b: Buckets, so: seq<int>, u: seq<string>, size: map<string, int>,
                                           s: int, order: seq<string>, tpp: int, q: string)
    requires Inv(b, so, u) && NoDup(order)
    ensures CountPool(Candidates(Corrected, b, size, s, order, tpp), q) <= if q in order then Max0(At(size, q) - tpp) else 0
  {
    if order != [] {
      var p := order[0];
      var piece := LastN(Get(b, s, p), At(size, p) - tpp);
      var rest := Candidates(Corrected, b, size, s, order[1..], tpp);
      PieceCount(b, so, u, size, s, p, tpp, q);
      CountPoolAppend(piece, rest, q);
      NoDupTail(order);
      Uncons(order);
      CandidatesCount(b, so, u, size, s, order[1..], tpp, q);
    }
  }

  /** One pool's piece of the candidates counts only for that pool, at most its share. */
  lemma PieceCount(b: Buckets, so: seq<int>, u: seq<string>, size: map<string, int>,
                   s: int, p: string, tpp: int, q: string)
    requires Inv(b, so, u)
    ensures CountPool(LastN(Get(b, s, p), At(size, p) - tpp), q) <= if p == q then Max0(At(size, p) - tpp) else 0
  {
    var xs := Get(b, s, p);
    var piece := LastN(xs, At(size, p) - tpp);
    forall t | t in piece ensures t.pool == p {
      assert t in xs;
      InvAt(b, so, u, s, p, t);
    }
    CountPoolUniform(piece, p, q);
  }

  /** The pool sizes after the removal loop: each pool loses one per drawn task of it. */
  lemma {:induction false} RemoveDrawnSizes(b: Buckets, size: map<string, int>, drawn: seq<Task>)
    ensures var size' := RemoveDrawn(b, size, drawn).1;
      && size'.Keys == size.Keys + (set t | t in drawn :: t.pool)
      && forall q :: At(size', q) == At(size, q) - CountPool(drawn, q)
    decreases |drawn|
  {
    if drawn != [] {
      var t := drawn[0];
      var b1 := RemoveTask(b, t);
      var size1 := Decrement(size, t.pool);
      RemoveDrawnSizes(b1, size1, drawn[1..]);
      PoolsUncons(drawn);
    }
  }

  lemma PoolsUncons(drawn: seq<Task>)
    requires drawn != []
    ensures (set t | t in drawn :: t.pool) == {drawn[0].pool} + (set t | t in drawn[1..] :: t.pool)
  {
    Uncons(drawn);
  }

  lemma MultisetUncons<T>(a: multiset<T>, c: multiset<T>, x: T)
    requires multiset{x} + a <= c + multiset{x}
    ensures a <= c
  {
    forall y ensures a[y] <= c[y] {
      assert (multiset{x} + a)[y] <= (c + multiset{x})[y];
    }
  }

  /** Removing one task of score s's row (the first step of the removal loop). */
  lemma RemoveOne(b: Buckets, so: seq<int>, u: seq<string>, s: int, order: seq<string>, t: Task, more: seq<Task>)
    requires NoDup(so) && NoDup(u) && NoDup(order) && Inv(b, so, u)
    requires multiset{t} + multiset(more) <= multiset(Row(b, s, order))
    ensures t.points == s && s in so
    ensures var b1 := RemoveTask(b, t);
      && Inv(b1, so, u)
      && multiset(Flatten(b1, so, u)) + multiset{t} == multiset(Flatten(b, so, u))
      && multiset(more) <= multiset(Row(b1, s, order))
      && forall q :: |PoolList(b1, so, q)| == |PoolList(b, so, q)| - (if t.pool == q then 1 else 0)
  {
    assert t in multiset(Row(b, s, order));
    InRow(b, so, u, s, order, t);
    InvAt(b, so, u, s, t.pool, t);
    var g := Get(b, s, t.pool);
    var kept := RemoveFirst(g, t);
    var b1 := b[(s, t.pool) := kept];
    TakeFrom(b, so, u, s, t.pool, kept, [t]);
    assert multiset([t]) == multiset{t};
    PutRow(b, s, order, t.pool, kept);
    MultisetCancel(multiset(Row(b1, s, order)), multiset(Row(b, s, order)), multiset(g), multiset(kept), multiset{t});
    MultisetUncons(multiset(more), multiset(Row(b1, s, order)), t);
    PutPoolList(b, so, s, t.pool, kept);
    forall q ensures |PoolList(b1, so, q)| == |PoolList(b, so, q)| - (if t.pool == q then 1 else 0) {
      if q != t.pool {
        PutPoolListOther(b, so, s, t.pool, q, kept);
      } else {
        assert |multiset(PoolList(b1, so, q)) + multiset(g)| == |multiset(PoolList(b, so, q)) + multiset(kept)|;
        assert |multiset(kept) + multiset{t}| == |multiset(g)|;
      }
    }
  }

  /** Removing tasks drawn from score s's row takes exactly them out of the dictionary. */
  lemma {:induction false} RemoveDrawnBuckets(b: Buckets, so: seq<int>, u: seq<string>, size: map<string, int>,
                                              drawn: seq<Task>, s: int, order: seq<string>)
    requires NoDup(so) && NoDup(u) && NoDup(order) && Inv(b, so, u)
    requires multiset(drawn) <= multiset(Row(b, s, order))
    ensures Inv(RemoveDrawn(b, size, drawn).0, so, u)
    ensures multiset(drawn) + multiset(Flatten(RemoveDrawn(b, size, drawn).0, so, u)) == multiset(Flatten(b, so, u))
    decreases |drawn|
  {
    if drawn != [] {
      var t, more := drawn[0], drawn[1..];
      Uncons(drawn);
      RemoveOne(b, so, u, s, order, t, more);
      var b1 := RemoveTask(b, t);
      var size1 := Decrement(size, t.pool);
      RemoveDrawnBuckets(b1, so, u, size1, more, s, order);
      var b' := RemoveDrawn(b1, size1, more).0;
      MultisetChain(multiset{t}, multiset(more), multiset(Flatten(b, so, u)),
                    multiset(Flatten(b1, so, u)), multiset(Flatten(b', so, u)));
    }
  }

  /** ... and each pool's list loses one task per drawn task of that pool. */
  lemma {:induction false} RemoveDrawnPoolLists(b: Buckets, so: seq<int>, u: seq<string>, size: map<string, int>,
                                                drawn: seq<Task>, s: int, order: seq<string>, q: string)
    requires NoDup(so) && NoDup(u) && NoDup(order) && Inv(b, so, u)
    requires multiset(drawn) <= multiset(Row(b, s, order))
    ensures |PoolList(RemoveDrawn(b, size, drawn).0, so, q)| == |PoolList(b, so, q)| - CountPool(drawn, q)
    decreases |drawn|
  {
    if drawn != [] {
      var t, more := drawn[0], drawn[1..];
      Uncons(drawn);
      RemoveOne(b, so, u, s, order, t, more);
      var b1 := RemoveTask(b, t);
      var size1 := Decrement(size, t.pool);
      RemoveDrawnPoolLists(b1, so, u, size1, more, s, order, q);
    }
  }

  function Min(a: int, b: int): int
  {
    if a <= b then a else b
  }

  /** What the flat-score stage keeps true: the dictionary invariant, and `pool_size`
      holding for every selected pool exactly the number of its tasks still in the
      dictionary. */
  ghost predicate FlatInv(st: FlatState, so: seq<int>, u: seq<string>, pools: seq<string>)
  {
    && Inv(st.buckets, so, u)
    && st.size.Keys == (set p | p in pools)
    && forall p :: p in pools ==> st.size[p] == |PoolList(st.buckets, so, p)|
  }

  /** The pools the flat stage's constraints may touch. */
  ghost predicate FlatSetting(sel: seq<Task>, pools: seq<string>, so: seq<int>, u: seq<string>)
  {
    NoDup(so) && NoDup(u) && NoDup(pools) && forall t :: t in sel ==> t.pool in pools
  }

  /** A flat-score draw is a sub-multiset of its score's row, over pools of the order. */
  lemma FlatDrawn(slice: Slice, st: FlatState, c: TaskConstraint, sel: seq<Task>, pools: seq<string>, tpp: int,
                  so: seq<int>, u: seq<string>)
    requires c.TasksWithScoreConstraint? && FlatSetting(sel, pools, so, u) && FlatInv(st, so, u, pools)
    ensures NoDup(DictPools(sel, pools, c.score))
    ensures var d := FlatDraw(slice, st, c, sel, pools, tpp);
      d.Ok? ==>
        && multiset(d.value.0) <= multiset(Row(st.buckets, c.score, DictPools(sel, pools, c.score)))
        && multiset(d.value.0) <= multiset(Candidates(slice, st.buckets, st.size, c.score, DictPools(sel, pools, c.score), tpp))
        && forall t :: t in d.value.0 ==> t.points == c.score && t.pool in pools
  {
    var order := DictPools(sel, pools, c.score);
    DictPoolsFacts(sel, pools, c.score);
    CandidatesInRow(slice, st.buckets, st.size, c.score, order, tpp);
    var d := FlatDraw(slice, st, c, sel, pools, tpp);
    if d.Ok? {
      forall t | t in d.value.0 ensures t.points == c.score && t.pool in pools {
        assert t in multiset(d.value.0);
        InRow(st.buckets, so, u, c.score, order, t);
      }
    }
  }

  /** ... so the draw leaves the dictionary and nothing else does. */
  lemma FlatStepBuckets(slice: Slice, st: FlatState, c: TaskConstraint, sel: seq<Task>, pools: seq<string>, tpp: int,
                        so: seq<int>, u: seq<string>)
    requires c.TasksWithScoreConstraint? && FlatSetting(sel, pools, so, u) && FlatInv(st, so, u, pools)
    ensures var d := FlatDraw(slice, st, c, sel, pools, tpp);
      d.Ok? ==>
        var b' := AfterDraw(st, d.value.0, d.value.1).buckets;
        && Inv(b', so, u)
        && multiset(d.value.0) + multiset(Flatten(b', so, u)) == multiset(Flatten(st.buckets, so, u))
  {
    FlatDrawn(slice, st, c, sel, pools, tpp, so, u);
    var d := FlatDraw(slice, st, c, sel, pools, tpp);
    if d.Ok? {
      RemoveDrawnBuckets(st.buckets, so, u, st.size, d.value.0, c.score, DictPools(sel, pools, c.score));
    }
  }

  /** ... and `pool_size` stays accurate for every selected pool. */
  lemma FlatStepSizes(slice: Slice, st: FlatState, c: TaskConstraint, sel: seq<Task>, pools: seq<string>, tpp: int,
                      so: seq<int>, u: seq<string>)
    requires c.TasksWithScoreConstraint? && FlatSetting(sel, pools, so, u) && FlatInv(st, so, u, pools)
    ensures var d := FlatDraw(slice, st, c, sel, pools, tpp);
      d.Ok? ==>
        var st1 := AfterDraw(st, d.value.0, d.value.1);
        && st1.size.Keys == (set p | p in pools)
        && forall p :: p in pools ==> st1.size[p] == |PoolList(st1.buckets, so, p)|
  {
    FlatDrawn(slice, st, c, sel, pools, tpp, so, u);
    var d := FlatDraw(slice, st, c, sel, pools, tpp);
    if d.Ok? {
      RemoveSizes(st.buckets, so, u, st.size, c.score, DictPools(sel, pools, c.score), d.value.0, pools);
    }
  }

  /** Removing a draw from a score's row keeps `pool_size` accurate. */
  lemma RemoveSizes(b: Buckets, so: seq<int>, u: seq<string>, size: map<string, int>, s: int,
                    order: seq<string>, drawn: seq<Task>, pools: seq<string>)
    requires NoDup(so) && NoDup(u) && NoDup(order) && Inv(b, so, u)
    requires size.Keys == (set p | p in pools)
    requires forall p :: p in pools ==> size[p] == |PoolList(b, so, p)|
    requires multiset(drawn) <= multiset(Row(b, s, order))
    requires forall t :: t in drawn ==> t.pool in pools
    ensures var r := RemoveDrawn(b, size, drawn);
      && r.1.Keys == (set p | p in pools)
      && forall p :: p in pools ==> r.1[p] == |PoolList(r.0, so, p)|
  {
    RemoveDrawnSizes(b, size, drawn);
    var r := RemoveDrawn(b, size, drawn);
    assert r.1.Keys == size.Keys by {
      assert (set t | t in drawn :: t.pool) <= size.Keys;
    }
    forall p | p in pools ensures r.1[p] == |PoolList(r.0, so, p)| {
      RemoveDrawnPoolLists(b, so, u, size, drawn, s, order, p);
    }
  }

  /** Removing a draw from the corrected candidates leaves each pool at least
      min(its size, tpp). */
  lemma RemoveReserve(b: Buckets, so: seq<int>, u: seq<string>, size: map<string, int>, s: int,
                      order: seq<string>, tpp: int, drawn: seq<Task>, pools: seq<string>)
    requires NoDup(order) && Inv(b, so, u)
    requires multiset(drawn) <= multiset(Candidates(Corrected, b, size, s, order, tpp))
    ensures forall p :: p in pools ==> At(RemoveDrawn(b, size, drawn).1, p) >= Min(At(size, p), tpp)
  {
    RemoveDrawnSizes(b, size, drawn);
    forall p | p in pools ensures At(RemoveDrawn(b, size, drawn).1, p) >= Min(At(size, p), tpp) {
      CountPoolMono(drawn, Candidates(Corrected, b, size, s, order, tpp), p);
      CandidatesCount(b, so, u, size, s, order, tpp, p);
    }
  }

  /** One flat-score constraint, under either slice: its draw comes out of the dictionary,
      is worth its score, and keeps `pool_size` accurate. */
  lemma FlatStep(slice: Slice, st: FlatState, c: TaskConstraint, sel: seq<Task>, pools: seq<string>, tpp: int,
                 so: seq<int>, u: seq<string>)
    requires c.TasksWithScoreConstraint? && FlatSetting(sel, pools, so, u) && FlatInv(st, so, u, pools)
    ensures var d := FlatDraw(slice, st, c, sel, pools, tpp);
      d.Ok? ==>
        var st1 := AfterDraw(st, d.value.0, d.value.1);
        && FlatInv(st1, so, u, pools)
        && st1.rng.seed == st.rng.seed
        && |d.value.0| == c.tasks
        && st1.sample == st.sample + d.value.0
        && multiset(d.value.0) + multiset(Flatten(st1.buckets, so, u)) == multiset(Flatten(st.buckets, so, u))
        && forall t :: t in d.value.0 ==> t.points == c.score
  {
    FlatDrawn(slice, st, c, sel, pools, tpp, so, u);
    FlatStepBuckets(slice, st, c, sel, pools, tpp, so, u);
    FlatStepSizes(slice, st, c, sel, pools, tpp, so, u);
  }

  /** One flat-score constraint under the corrected slice leaves each pool at least
      min(its size, tpp) tasks. */
  lemma FlatStepReserve(st: FlatState, c: TaskConstraint, sel: seq<Task>, pools: seq<string>, tpp: int,
                        so: seq<int>, u: seq<string>)
    requires c.TasksWithScoreConstraint? && FlatSetting(sel, pools, so, u) && FlatInv(st, so, u, pools)
    ensures var d := FlatDraw(Corrected, st, c, sel, pools, tpp);
      d.Ok? ==> forall p :: p in pools ==> At(AfterDraw(st, d.value.0, d.value.1).size, p) >= Min(At(st.size, p), tpp)
  {
    FlatDrawn(Corrected, st, c, sel, pools, tpp, so, u);
    var d := FlatDraw(Corrected, st, c, sel, pools, tpp);
    if d.Ok? {
      RemoveReserve(st.buckets, so, u, st.size, c.score, DictPools(sel, pools, c.score), tpp, d.value.0, pools);
    }
  }

  lemma FlatTail(cs: seq<TaskConstraint>)
    requires cs != [] && OnlyKind(cs, WithScoreKind)
    ensures OnlyKind(cs[1..], WithScoreKind) && cs[0].TasksWithScoreConstraint? && cs[0] in cs
  {
    assert KindOf(cs[0]) == WithScoreKind;
    assert forall i :: 0 <= i < |cs| - 1 ==> cs[1..][i] == cs[i + 1];
  }

  /** The flat-score stage, under either slice: a failed draw is a ValueError; otherwise
      the sample grows by exactly what leaves the dictionary and `pool_size` stays
      accurate. */
  lemma {:induction false} FlatStageSpec(slice: Slice, st: FlatState, cs: seq<TaskConstraint>, sel: seq<Task>,
                                         pools: seq<string>, tpp: int, so: seq<int>, u: seq<string>)
    requires OnlyKind(cs, WithScoreKind) && FlatSetting(sel, pools, so, u) && FlatInv(st, so, u, pools)
    ensures var r := FlatStage(slice, st, cs, sel, pools, tpp);
      && (r.Err? ==> r.error == ValueError)
      && (r.Ok? ==> FlatInv(r.value, so, u, pools) && r.value.rng.seed == st.rng.seed)
      && (r.Ok? ==> multiset(r.value.sample) + multiset(Flatten(r.value.buckets, so, u))
                    == multiset(st.sample) + multiset(Flatten(st.buckets, so, u)))
    decreases |cs|
  {
    if cs != [] {
      FlatTail(cs);
      FlatStep(slice, st, cs[0], sel, pools, tpp, so, u);
      var d := FlatDraw(slice, st, cs[0], sel, pools, tpp);
      if d.Ok? {
        var st1 := AfterDraw(st, d.value.0, d.value.1);
        FlatStageSpec(slice, st1, cs[1..], sel, pools, tpp, so, u);
        var r := FlatStage(slice, st1, cs[1..], sel, pools, tpp);
        if r.Ok? {
          assert multiset(st1.sample) == multiset(st.sample) + multiset(d.value.0);
        }
      }
    }
  }

  /** Under the corrected slice no pool drops below min(its size, tpp) during the
      flat-score stage: the per-pool quota stays available. */
  lemma {:induction false} FlatStageReserve(st: FlatState, cs: seq<TaskConstraint>, sel: seq<Task>, pools: seq<string>,
                                            tpp: int, so: seq<int>, u: seq<string>)
    requires OnlyKind(cs, WithScoreKind) && FlatSetting(sel, pools, so, u) && FlatInv(st, so, u, pools)
    ensures var r := FlatStage(Corrected, st, cs, sel, pools, tpp);
      r.Ok? ==> forall p :: p in pools ==> At(r.value.size, p) >= Min(At(st.size, p), tpp)
    decreases |cs|
  {
    if cs != [] {
      FlatTail(cs);
      FlatStep(Corrected, st, cs[0], sel, pools, tpp, so, u);
      FlatStepReserve(st, cs[0], sel, pools, tpp, so, u);
      var d := FlatDraw(Corrected, st, cs[0], sel, pools, tpp);
      if d.Ok? {
        var st1 := AfterDraw(st, d.value.0, d.value.1);
        FlatStageReserve(st1, cs[1..], sel, pools, tpp, so, u);
        var r := FlatStage(Corrected, st1, cs[1..], sel, pools, tpp);
        if r.Ok? {
          ReserveChain(st.size, st1.size, r.value.size, pools, tpp);
        }
      }
    }
  }

  lemma ReserveChain(s0: map<string, int>, s1: map<string, int>, s2: map<string, int>, pools: seq<string>, tpp: int)
    requires forall p :: p in pools ==> At(s1, p) >= Min(At(s0, p), tpp)
    requires forall p :: p in pools ==> At(s2, p) >= Min(At(s1, p), tpp)
    ensures forall p :: p in pools ==> At(s2, p) >= Min(At(s0, p), tpp)
  {
  }

  /** The flat-score stage, under either slice, appends exactly the requested number of
      tasks, each worth the score of one of its constraints. */
  lemma {:induction false} FlatStageDraws(slice: Slice, st: FlatState, cs: seq<TaskConstraint>, sel: seq<Task>,
                                          pools: seq<string>, tpp: int, so: seq<int>, u: seq<string>)
    requires OnlyKind(cs, WithScoreKind) && FlatSetting(sel, pools, so, u) && FlatInv(st, so, u, pools)
    ensures var r := FlatStage(slice, st, cs, sel, pools, tpp);
      r.Ok? ==>
        && |st.sample| <= |r.value.sample|
        && |r.value.sample| == |st.sample| + Validator.SumTasks(cs)
        && r.value.sample[..|st.sample|] == st.sample
        && forall i :: |st.sample| <= i < |r.value.sample| ==> AsksScore(cs, r.value.sample[i].points)
    decreases |cs|
  {
    if cs != [] {
      FlatTail(cs);
      FlatStep(slice, st, cs[0], sel, pools, tpp, so, u);
      var d := FlatDraw(slice, st, cs[0], sel, pools, tpp);
      if d.Ok? {
        var drawn := d.value.0;
        var st1 := AfterDraw(st, drawn, d.value.1);
        FlatStageDraws(slice, st1, cs[1..], sel, pools, tpp, so, u);
        var r := FlatStage(slice, st1, cs[1..], sel, pools, tpp);
        if r.Ok? {
          DrawsJoin(cs, st.sample, drawn, r.value.sample);
        }
      }
    }
  }

  /** One constraint's draw followed by the later constraints' draws. */
  lemma DrawsJoin(cs: seq<TaskConstraint>, prev: seq<Task>, drawn: seq<Task>, out: seq<Task>)
    requires cs != [] && Scored(cs[0]) && forall t :: t in drawn ==> t.points == cs[0].score
    requires |prev + drawn| <= |out| && out[..|prev + drawn|] == prev + drawn
    requires forall i :: |prev + drawn| <= i < |out| ==> AsksScore(cs[1..], out[i].points)
    ensures |prev| <= |out| && out[..|prev|] == prev
    ensures forall i :: |prev| <= i < |out| ==> AsksScore(cs, out[i].points)
  {
    assert out[..|prev|] == (prev + drawn)[..|prev|];
    forall i | |prev| <= i < |out| ensures AsksScore(cs, out[i].points) {
      if i < |prev + drawn| {
        assert out[i] == (prev + drawn)[i] == drawn[i - |prev|];
        assert out[i] in drawn;
        assert cs[0] in cs;
      } else {
        assert AsksScore(cs[1..], out[i].points);
        var c' :| c' in cs[1..] && Scored(c') && c'.score == out[i].points;
        assert c' in cs;
      }
    }
  }

  // ---------------------------------------------------------------------------
  // sample_tasks_without_score

  /** The reserve and what is left of it partition the dictionary's tasks. */
  lemma {:induction false} ReservedRemaining(b: Buckets, so: seq<int>, pd: seq<string>, tpp: int)
    ensures multiset(Reserved(b, so, pd, tpp)) + multiset(Remaining(b, so, pd, tpp)) == multiset(Flatten(b, so, pd))
  {
    if pd != [] {
      var xs := PoolList(b, so, pd[0]);
      ReservedRemaining(b, so, pd[1..], tpp);
      SplitJoin(PyTail(xs, tpp), PyDropTail(xs, tpp), Reserved(b, so, pd[1..], tpp),
                Remaining(b, so, pd[1..], tpp), Flatten(b, so, pd[1..]));
    }
  }

  /** Splitting a list in two and a second list in two, and gathering the pieces pairwise. */
  lemma SplitJoin<T>(t1: seq<T>, d1: seq<T>, t2: seq<T>, d2: seq<T>, f: seq<T>)
    requires multiset(t2) + multiset(d2) == multiset(f)
    ensures multiset(t1 + t2) + multiset(d1 + d2) == multiset(d1 + t1) + multiset(f)
  {
  }

  /** Every task of pool p's list belongs to p, whatever the scores listed. */
  lemma {:induction false} PoolListPool(b: Buckets, so: seq<int>, u: seq<string>, xs: seq<int>, p: string)
    requires Inv(b, so, u)
    ensures forall t :: t in PoolList(b, xs, p) ==> t.pool == p
  {
    if xs != [] {
      PoolListPool(b, so, u, xs[1..], p);
    }
  }

  /** With a positive quota, the reserve holds min(tpp, its size) tasks of every pool of pd. */
  lemma {:induction false} ReservedCount(b: Buckets, so: seq<int>, u: seq<string>, pd: seq<string>, tpp: int, q: string)
    requires Inv(b, so, u) && NoDup(pd) && tpp > 0
    ensures CountPool(Reserved(b, so, pd, tpp), q) == if q in pd then Min(tpp, |PoolList(b, so, q)|) else 0
  {
    if pd != [] {
      var p := pd[0];
      var piece := PyTail(PoolList(b, so, p), tpp);
      PoolListPool(b, so, u, so, p);
      forall t | t in piece ensures t.pool == p {
        assert t in PoolList(b, so, p);
      }
      CountPoolUniform(piece, p, q);
      CountPoolAppend(piece, Reserved(b, so, pd[1..], tpp), q);
      NoDupTail(pd);
      ReservedCount(b, so, u, pd[1..], tpp, q);
    }
  }

  /** `sample_tasks_without_score`: the draw comes from the dictionary; it fails, with a
      ValueError, exactly when the TasksConstraint asks for a negative number of tasks or
      for more than remain once the per-pool reserve is set aside. */
  lemma AgnosticSpec(g: Random, b: Buckets, so: seq<int>, pd: seq<string>, tpp: int, tcs: seq<TaskConstraint>)
    ensures var r := AgnosticStage(g, b, so, pd, tpp, tcs);
      var reserved := if tpp > 0 then Reserved(b, so, pd, tpp) else [];
      && (r.Err? <==> |tcs| > 0 && (tcs[0].tasks < 0 || tcs[0].tasks > |Flatten(b, so, pd)| - |reserved|))
      && (r.Err? ==> r.error == ValueError)
      && (r.Ok? ==> multiset(r.value.0) <= multiset(Flatten(b, so, pd)) && r.value.1.seed == g.seed)
      && (r.Ok? ==> r.value.0[..|reserved|] == reserved
                    && |r.value.0| == |reserved| + (if |tcs| > 0 then tcs[0].tasks else 0))
  {
    var reserved := if tpp > 0 then Reserved(b, so, pd, tpp) else [];
    var rest := if tpp > 0 then Remaining(b, so, pd, tpp) else Flatten(b, so, pd);
    ReservedRemaining(b, so, pd, tpp);
    assert multiset(reserved) + multiset(rest) == multiset(Flatten(b, so, pd));
    assert |rest| == |Flatten(b, so, pd)| - |reserved| by {
      assert |multiset(reserved) + multiset(rest)| == |multiset(Flatten(b, so, pd))|;
    }
    var r := AgnosticStage(g, b, so, pd, tpp, tcs);
    if r.Ok? && |tcs| > 0 {
      var drawn := Sample(g, rest, tcs[0].tasks).value.0;
      assert r.value.0 == reserved + drawn;
      MultisetAddMono(multiset(reserved), multiset(drawn), multiset(reserved), multiset(rest));
    }
  }

  // ---------------------------------------------------------------------------
  // get_tasks

  /** The state the flat-score stage starts from is well formed. */
  lemma StagesStart(g: Random, tasks: seq<Task>, groups: Grouped, pools: seq<string>)
    requires WellGrouped(groups) && NoDup(pools)
    ensures var sel := Selected(tasks, pools);
      var so, pd := ScoreOrder(sel), PoolDictOrder(sel, pools);
      var (b, g1) := ScoreDict(g, tasks, pools);
      var (perPool, b1) := PerPoolStage(b, groups.withScorePerPool, pools);
      && FlatSetting(sel, pools, so, pd)
      && FlatInv(FlatState([], b1, PoolSizes(b1, so, pools), g1), so, pd, pools)
      && g1.seed == g.seed
      && multiset(perPool) + multiset(Flatten(b1, so, pd)) == multiset(sel)
      && forall t :: t in perPool ==> t.pool in pools && AsksScore(groups.withScorePerPool, t.points)
  {
    var sel := Selected(tasks, pools);
    var so, pd := ScoreOrder(sel), PoolDictOrder(sel, pools);
    PoolDictOrderFacts(sel, pools);
    ScoreDictStart(g, tasks, pools);
    ScoreDictSpec(g, tasks, pools);
    var b := ScoreDict(g, tasks, pools).0;
    PerPoolStageSpec(b, so, pd, groups.withScorePerPool, pools);
    PerPoolStageScores(b, so, pd, groups.withScorePerPool, pools);
  }

  /** The dictionary the score-agnostic stage reads still files every task under its own
      score and pool. */
  lemma FlatLeavesInv(slice: Slice, g: Random, tasks: seq<Task>, groups: Grouped, tpp: int, pools: seq<string>)
    requires WellGrouped(groups) && NoDup(pools)
    ensures var sel := Selected(tasks, pools);
      var so := ScoreOrder(sel);
      var sd := ScoreDict(g, tasks, pools);
      var pp := PerPoolStage(sd.0, groups.withScorePerPool, pools);
      var f := FlatStage(slice, FlatState([], pp.1, PoolSizes(pp.1, so, pools), sd.1), groups.withScore, sel, pools, tpp);
      f.Ok? ==> Inv(f.value.buckets, so, PoolDictOrder(sel, pools))
  {
    var sel := Selected(tasks, pools);
    var so, pd := ScoreOrder(sel), PoolDictOrder(sel, pools);
    StagesStart(g, tasks, groups, pools);
    var sd := ScoreDict(g, tasks, pools);
    var pp := PerPoolStage(sd.0, groups.withScorePerPool, pools);
    FlatStageSpec(slice, FlatState([], pp.1, PoolSizes(pp.1, so, pools), sd.1), groups.withScore, sel, pools, tpp, so, pd);
  }

  /** The stages' result in terms of the flat-score stage's and score-agnostic stage's. */
  lemma StagesUnfold(slice: Slice, g: Random, tasks: seq<Task>, groups: Grouped, tpp: int, pools: seq<string>)
    requires WellGrouped(groups)
    ensures var sel := Selected(tasks, pools);
      var so, pd := ScoreOrder(sel), PoolDictOrder(sel, pools);
      var (b, g1) := ScoreDict(g, tasks, pools);
      var (perPool, b1) := PerPoolStage(b, groups.withScorePerPool, pools);
      var f := FlatStage(slice, FlatState([], b1, PoolSizes(b1, so, pools), g1), groups.withScore, sel, pools, tpp);
      var r := Stages(slice, g, tasks, groups, tpp, pools);
      && (r.Ok? ==>
            && f.Ok?
            && var a := AgnosticStage(f.value.rng, f.value.buckets, so, pd, tpp, groups.tasks);
            && a.Ok?
            && r.value == Draws(pools, perPool, f.value.sample, a.value.0, a.value.1))
      && (r.Err? ==>
            || (f.Err? && r.error == f.error)
            || (f.Ok? && var a := AgnosticStage(f.value.rng, f.value.buckets, so, pd, tpp, groups.tasks);
                a.Err? && r.error == a.error))
  {
  }

  /** The three stages draw without replacement from the selected pools' tasks: every task
      drawn is one of them, and none is drawn more often than it occurs.  A failure is a
      ValueError.  This holds under either slice. */
  lemma StagesSpec(slice: Slice, g: Random, tasks: seq<Task>, groups: Grouped, tpp: int, pools: seq<string>)
    requires WellGrouped(groups) && NoDup(pools)
    ensures var r := Stages(slice, g, tasks, groups, tpp, pools);
      && (r.Err? ==> r.error == ValueError)
      && (r.Ok? ==> multiset(r.value.perPool + r.value.flat + r.value.agnostic) <= multiset(Selected(tasks, pools)))
      && (r.Ok? ==> r.value.pools == pools && r.value.rng.seed == g.seed)
  {
    var sel := Selected(tasks, pools);
    var so, pd := ScoreOrder(sel), PoolDictOrder(sel, pools);
    StagesStart(g, tasks, groups, pools);
    StagesUnfold(slice, g, tasks, groups, tpp, pools);
    var (b, g1) := ScoreDict(g, tasks, pools);
    var (perPool, b1) := PerPoolStage(b, groups.withScorePerPool, pools);
    var st0 := FlatState([], b1, PoolSizes(b1, so, pools), g1);
    FlatStageSpec(slice, st0, groups.withScore, sel, pools, tpp, so, pd);
    var f := FlatStage(slice, st0, groups.withScore, sel, pools, tpp);
    if f.Ok? {
      var st := f.value;
      AgnosticSpec(st.rng, st.buckets, so, pd, tpp, groups.tasks);
      var a := AgnosticStage(st.rng, st.buckets, so, pd, tpp, groups.tasks);
      if a.Ok? {
        var agnostic := a.value.0;
        assert multiset(st.sample) + multiset(Flatten(st.buckets, so, pd)) == multiset(Flatten(b1, so, pd));
        MultisetAddMono(multiset(perPool) + multiset(st.sample), multiset(agnostic),
                        multiset(perPool) + multiset(st.sample), multiset(Flatten(st.buckets, so, pd)));
      }
    }
  }

  /** Every task of the per-pool part is worth the score of a per-pool constraint and
      comes from a selected pool; the flat part holds exactly the tasks the flat-score
      constraints ask for, each worth one of their scores.  This holds under either slice. */
  lemma StagesScores(slice: Slice, g: Random, tasks: seq<Task>, groups: Grouped, tpp: int, pools: seq<string>)
    requires WellGrouped(groups) && NoDup(pools)
    ensures var r := Stages(slice, g, tasks, groups, tpp, pools);
      && (r.Ok? ==> forall t :: t in r.value.perPool ==> t.pool in pools && AsksScore(groups.withScorePerPool, t.points))
      && (r.Ok? ==> |r.value.flat| == Validator.SumTasks(groups.withScore)
                    && forall t :: t in r.value.flat ==> AsksScore(groups.withScore, t.points))
  {
    var sel := Selected(tasks, pools);
    var so, pd := ScoreOrder(sel), PoolDictOrder(sel, pools);
    StagesStart(g, tasks, groups, pools);
    StagesUnfold(slice, g, tasks, groups, tpp, pools);
    var (b, g1) := ScoreDict(g, tasks, pools);
    var (perPool, b1) := PerPoolStage(b, groups.withScorePerPool, pools);
    FlatFromEmpty(slice, FlatState([], b1, PoolSizes(b1, so, pools), g1), groups.withScore, sel, pools, tpp, so, pd);
  }

  /** The flat-score stage from an empty sample draws exactly its quotas, each task worth
      one of its scores. */
  lemma FlatFromEmpty(slice: Slice, st0: FlatState, cs: seq<TaskConstraint>, sel: seq<Task>, pools: seq<string>,
                      tpp: int, so: seq<int>, u: seq<string>)
    requires OnlyKind(cs, WithScoreKind) && FlatSetting(sel, pools, so, u) && FlatInv(st0, so, u, pools)
    requires st0.sample == []
    ensures var f := FlatStage(slice, st0, cs, sel, pools, tpp);
      f.Ok? ==> |f.value.sample| == Validator.SumTasks(cs) && forall t :: t in f.value.sample ==> AsksScore(cs, t.points)
  {
    FlatStageDraws(slice, st0, cs, sel, pools, tpp, so, u);
    var f := FlatStage(slice, st0, cs, sel, pools, tpp);
    if f.Ok? {
      forall t | t in f.value.sample ensures AsksScore(cs, t.points) {
        var i :| 0 <= i < |f.value.sample| && f.value.sample[i] == t;
      }
    }
  }

  /** With a positive per-pool quota, the score-agnostic stage gives every pool of pd
      holding at least tpp tasks at least tpp places in the sample. */
  lemma AgnosticReserve(g: Random, b: Buckets, so: seq<int>, pd: seq<string>, tpp: int, tcs: seq<TaskConstraint>, q: string)
    requires Inv(b, so, pd) && NoDup(pd) && tpp > 0 && q in pd && |PoolList(b, so, q)| >= tpp
    ensures var a := AgnosticStage(g, b, so, pd, tpp, tcs);
      a.Ok? ==> CountPool(a.value.0, q) >= tpp
  {
    var a := AgnosticStage(g, b, so, pd, tpp, tcs);
    if a.Ok? {
      var reserved := Reserved(b, so, pd, tpp);
      ReservedCount(b, so, pd, pd, tpp, q);
      AgnosticSpec(g, b, so, pd, tpp, tcs);
      CountPoolPrefix(a.value.0, reserved, q);
    }
  }

  lemma CountPoolPrefix(xs: seq<Task>, p: seq<Task>, q: string)
    requires |p| <= |xs| && xs[..|p|] == p
    ensures CountPool(xs, q) >= CountPool(p, q)
  {
    assert xs == p + xs[|p|..];
    CountPoolAppend(p, xs[|p|..], q);
  }

  /** The corrected flat-score stage followed by the score-agnostic stage, from any
      well-formed state in which pool q holds at least tpp tasks. */
  lemma FlatThenAgnostic(st0: FlatState, cs: seq<TaskConstraint>, sel: seq<Task>, pools: seq<string>, tpp: int,
                         so: seq<int>, pd: seq<string>, tcs: seq<TaskConstraint>, q: string)
    requires OnlyKind(cs, WithScoreKind) && FlatSetting(sel, pools, so, pd) && FlatInv(st0, so, pd, pools)
    requires tpp > 0 && q in pools && q in pd && At(st0.size, q) >= tpp
    ensures var f := FlatStage(Corrected, st0, cs, sel, pools, tpp);
      f.Ok? ==>
        var a := AgnosticStage(f.value.rng, f.value.buckets, so, pd, tpp, tcs);
        a.Ok? ==> CountPool(a.value.0, q) >= tpp
  {
    FlatStageSpec(Corrected, st0, cs, sel, pools, tpp, so, pd);
    FlatStageReserve(st0, cs, sel, pools, tpp, so, pd);
    var f := FlatStage(Corrected, st0, cs, sel, pools, tpp);
    if f.Ok? {
      var st := f.value;
      assert |PoolList(st.buckets, so, q)| >= tpp by {
        assert At(st.size, q) == |PoolList(st.buckets, so, q)|;
      }
      AgnosticReserve(st.rng, st.buckets, so, pd, tpp, tcs, q);
    }
  }

  /** Under the corrected slice, with a positive per-pool quota, a pool that still holds
      at least tpp tasks after the per-pool stage gives at least tpp tasks to the
      score-agnostic stage: the flat-score stage never eats into the quota. */
  lemma StagesReserve(g: Random, tasks: seq<Task>, groups: Grouped, tpp: int, pools: seq<string>, q: string)
    requires WellGrouped(groups) && NoDup(pools) && tpp > 0 && q in pools
    ensures var b1 := PerPoolStage(ScoreDict(g, tasks, pools).0, groups.withScorePerPool, pools).1;
      var r := Stages(Corrected, g, tasks, groups, tpp, pools);
      r.Ok? && |PoolList(b1, ScoreOrder(Selected(tasks, pools)), q)| >= tpp ==> CountPool(r.value.agnostic, q) >= tpp
  {
    var sel := Selected(tasks, pools);
    var so, pd := ScoreOrder(sel), PoolDictOrder(sel, pools);
    StagesStart(g, tasks, groups, pools);
    StagesUnfold(Corrected, g, tasks, groups, tpp, pools);
    PoolDictOrderFacts(sel, pools);
    var (b, g1) := ScoreDict(g, tasks, pools);
    var b1 := PerPoolStage(b, groups.withScorePerPool, pools).1;
    var st0 := FlatState([], b1, PoolSizes(b1, so, pools), g1);
    if |PoolList(b1, so, q)| >= tpp {
      FlatThenAgnostic(st0, groups.withScore, sel, pools, tpp, so, pd, groups.tasks, q);
    }
  }

  /** `get_tasks` returns the task list itself in source mode; otherwise the drawn tasks,
      shuffled when `permute` is set and in stage order when not, never drawing a task more
      often than the task list holds it. */
  lemma GetTasksSpec(g: Random, tasks: seq<Task>, groups: Grouped, pc: Option<PoolConstraint>, tpp: int,
                     permute: bool, source: bool)
    requires WellGrouped(groups)
    ensures var r := GetTasks(g, tasks, groups, pc, tpp, permute, source);
      && (source ==> r == Ok((tasks, g)))
      && (r.Err? ==> r.error == ValueError)
      && (!source ==> (r.Ok? <==> Draw(g, tasks, groups, pc, tpp).Ok?))
      && (!source && r.Ok? ==>
            var d := Draw(g, tasks, groups, pc, tpp).value;
            && multiset(r.value.0) == multiset(d.perPool + d.flat + d.agnostic)
            && (!permute ==> r.value.0 == d.perPool + d.flat + d.agnostic)
            && multiset(r.value.0) <= multiset(Selected(tasks, d.pools))
            && multiset(r.value.0) <= multiset(tasks)
            && NoDup(d.pools)
            && r.value.1.seed == g.seed)
  {
    SamplePoolsSpec(g, tasks, pc);
    var sp := SamplePools(g, tasks, pc);
    if sp.Ok? {
      var (pools, g1) := sp.value;
      if pc.Some? {
        assert g1.seed == g.seed;
      }
      StagesSpec(AsWritten, g1, tasks, groups, tpp, pools);
    }
  }

  // ---------------------------------------------------------------------------
  // The candidate slice as written

  /** While every pool of the order holds more than tpp tasks, the slice as written and
      the corrected one agree. */
  lemma {:induction false} CandidatesAgree(b: Buckets, size: map<string, int>, s: int, order: seq<string>, tpp: int)
    requires forall p :: p in order ==> At(size, p) > tpp
    ensures Candidates(AsWritten, b, size, s, order, tpp) == Candidates(Corrected, b, size, s, order, tpp)
  {
    if order != [] {
      CandidatesAgree(b, size, s, order[1..], tpp);
    }
  }

  // Two pools under score 3: pool A holds exactly tpp = 1 task, pool B two (one worth 1).
  const exA1 := Task("A", "a1", "r", 3)
  const exB1 := Task("B", "b1", "r", 3)
  const exB2 := Task("B", "b2", "r", 1)
  const exBuckets: Buckets := map[(3, "A") := [exA1], (3, "B") := [exB1], (1, "B") := [exB2]]
  const exSizes := map["A" := 1, "B" := 2]
  const exOrder := ["A", "B"]

  lemma ExampleLookups()
    ensures Get(exBuckets, 3, "A") == [exA1] && Get(exBuckets, 3, "B") == [exB1]
    ensures At(exSizes, "A") == 1 && At(exSizes, "B") == 2
  {
  }

  /** Pool B alone offers its one task under both slices. */
  lemma ExamplePoolB(slice: Slice)
    ensures Candidates(slice, exBuckets, exSizes, 3, ["B"], 1) == [exB1]
  {
    ExampleLookups();
    assert ["B"][0] == "B" && ["B"][1..] == [];
    assert Piece(slice, [exB1], 1) == [exB1];
    assert [exB1] + [] == [exB1];
  }

  /** Pool A, holding exactly tpp tasks: `candidate[-0:]` offers its whole bucket, where
      the corrected slice offers nothing from it. */
  lemma ExamplePoolA(slice: Slice)
    ensures Candidates(slice, exBuckets, exSizes, 3, exOrder, 1)
            == Piece(slice, [exA1], 0) + Candidates(slice, exBuckets, exSizes, 3, ["B"], 1)
    ensures Piece(AsWritten, [exA1], 0) == [exA1] && Piece(Corrected, [exA1], 0) == []
  {
    ExampleLookups();
    assert exOrder[0] == "A" && exOrder[1..] == ["B"];
  }

  /** The two slices on the example: as written, pool A's reserved task is a candidate. */
  lemma CandidatesAsWrittenExposeReserve()
    ensures At(exSizes, "A") == 1
    ensures exA1 in Candidates(AsWritten, exBuckets, exSizes, 3, exOrder, 1)
    ensures Candidates(AsWritten, exBuckets, exSizes, 3, exOrder, 1) == [exA1, exB1]
    ensures Candidates(Corrected, exBuckets, exSizes, 3, exOrder, 1) == [exB1]
  {
    ExampleLookups();
    ExamplePoolA(AsWritten);
    ExampleSlice(AsWritten, [exA1]);
    assert [exA1] + [exB1] == [exA1, exB1];
    ExamplePoolA(Corrected);
    ExampleSlice(Corrected, []);
    assert [] + [exB1] == [exB1];
    assert [exA1, exB1][0] == exA1;
  }

  lemma ExampleSlice(slice: Slice, head: seq<Task>)
    requires head == Piece(slice, [exA1], 0)
    ensures Candidates(slice, exBuckets, exSizes, 3, exOrder, 1) == head + [exB1]
  {
    ExamplePoolA(slice);
    ExamplePoolB(slice);
  }

  /** A generator whose every draw is 0 draws a1 from the two candidates. */
  lemma ExampleDraw()
    ensures SamplePool(exRng, [exA1, exB1], 1).0 == [exA1]
  {
    var g := exRng;
    var pool := [exA1, exB1];
    assert RandBelow(g, 2).0 == 0;
    assert pool[0 := pool[1]][..1] == [exB1];
  }

  /** Removing pool A's task leaves pool A's size at 0. */
  lemma ExampleRemove()
    ensures At(RemoveDrawn(exBuckets, exSizes, [exA1]).1, "A") == 0
  {
    assert [exA1][1..] == [];
    assert At(exSizes, "A") == 1;
  }

  // The example at the level of the flat-score stage: the selected tasks in list order,
  // one TasksWithScoreConstraint(1, 3), tpp = 1, and a generator whose every draw is 0.
  const exSel := [exA1, exB1, exB2]
  const exPools := ["A", "B"]
  const exRng := Random((seed: int, n: nat) => 0, 0, 0)

  /** `scores[3]` lists pool A before pool B. */
  lemma ExampleDictPools()
    ensures DictPools(exSel, exPools, 3) == exOrder
  {
    ExamplePoolsAt();
    assert ["A", "B"][0] == "A" && ["A", "B"][1..] == ["B"] && ["B"][1..] == [];
    assert DistinctAfter(["B"], ["A"]) == ["B"];
    assert Sampling.PoolsWithScore(exSel, 3) == ["A", "B"];
    assert Missing(exPools, ["A", "B"]) == [];
  }

  lemma ExamplePoolsAt()
    ensures PoolsAt(exSel, 3) == ["A", "B"]
  {
    assert PoolsAt([exB2], 3) == [] by {
      assert [exB2][0] == exB2 && [exB2][1..] == [];
    }
    assert PoolsAt([exB1, exB2], 3) == ["B"] by {
      assert [exB1, exB2][0] == exB1 && [exB1, exB2][1..] == [exB2];
      assert ["B"] + [] == ["B"];
    }
    assert exSel[0] == exA1 && exSel[1..] == [exB1, exB2];
    assert ["A"] + ["B"] == ["A", "B"];
  }

  /** A generator whose every draw is 0 draws b1 from pool B's one candidate. */
  lemma ExampleDrawB()
    ensures SamplePool(exRng, [exB1], 1).0 == [exB1]
  {
    assert RandBelow(exRng, 1).0 == 0;
    assert [exB1][0 := exB1][..0] == [];
  }

  /** Removing b1 leaves pool A's size at 1. */
  lemma ExampleRemoveB()
    ensures At(RemoveDrawn(exBuckets, exSizes, [exB1]).1, "A") == 1
  {
    assert [exB1][1..] == [];
  }

  /** A flat-score stage of one constraint is its single draw. */
  lemma FlatStageSingle(slice: Slice, st: FlatState, c: TaskConstraint, sel: seq<Task>, pools: seq<string>, tpp: int)
    requires c.TasksWithScoreConstraint?
    ensures OnlyKind([c], WithScoreKind)
    ensures var d := FlatDraw(slice, st, c, sel, pools, tpp);
      d.Ok? ==> FlatStage(slice, st, [c], sel, pools, tpp) == Ok(AfterDraw(st, d.value.0, d.value.1))
  {
    assert [c][0] == c && [c][1..] == [];
  }

  /** The example's one draw, under the given slice, takes the given task. */
  lemma ExampleFlatDraw(slice: Slice, cands: seq<Task>, t: Task)
    requires cands == Candidates(slice, exBuckets, exSizes, 3, exOrder, 1)
    requires |cands| >= 1 && SamplePool(exRng, cands, 1).0 == [t]
    ensures var d := FlatDraw(slice, FlatState([], exBuckets, exSizes, exRng), TasksWithScoreConstraint(1, 3),
                              exSel, exPools, 1);
      d.Ok? && d.value.0 == [t]
  {
    ExampleDictPools();
  }

  /** A one-constraint stage from an empty sample that draws exactly [t]. */
  lemma StageOfOneDraw(slice: Slice, st: FlatState, c: TaskConstraint, sel: seq<Task>, pools: seq<string>, tpp: int,
                       t: Task)
    requires c.TasksWithScoreConstraint? && st.sample == []
    requires var d := FlatDraw(slice, st, c, sel, pools, tpp); d.Ok? && d.value.0 == [t]
    ensures OnlyKind([c], WithScoreKind)
    ensures var r := FlatStage(slice, st, [c], sel, pools, tpp);
      r.Ok? && r.value.sample == [t] && r.value.size == RemoveDrawn(st.buckets, st.size, [t]).1
  {
    var d := FlatDraw(slice, st, c, sel, pools, tpp);
    FlatStageSingle(slice, st, c, sel, pools, tpp);
    AfterOneDraw(st, t, d.value.1);
  }

  /** The state after drawing [t] from an empty sample. */
  lemma AfterOneDraw(st: FlatState, t: Task, g: Random)
    requires st.sample == []
    ensures AfterDraw(st, [t], g).sample == [t]
    ensures AfterDraw(st, [t], g).size == RemoveDrawn(st.buckets, st.size, [t]).1
  {
    assert [] + [t] == [t];
  }

  /** The flat-score stage on the example, a state FlatStageReserve speaks of.  As
      written it draws pool A's only task, so pool A goes from 1 task to 0, below
      min(1, tpp), and its quota of 1 can no longer be met; the corrected stage draws b1
      and leaves pool A its task, as FlatStageReserve promises. */
  lemma FlatStageAsWrittenSpendsReserve()
    ensures FlatSetting(exSel, exPools, [3, 1], exPools)
    ensures FlatInv(FlatState([], exBuckets, exSizes, exRng), [3, 1], exPools, exPools)
    ensures OnlyKind([TasksWithScoreConstraint(1, 3)], WithScoreKind) && "A" in exPools
    ensures var st := FlatState([], exBuckets, exSizes, exRng);
      var r := FlatStage(AsWritten, st, [TasksWithScoreConstraint(1, 3)], exSel, exPools, 1);
      && r.Ok? && r.value.sample == [exA1]
      && At(st.size, "A") == 1 && At(r.value.size, "A") == 0
      && !(At(r.value.size, "A") >= Min(At(st.size, "A"), 1))
    ensures var st := FlatState([], exBuckets, exSizes, exRng);
      var r := FlatStage(Corrected, st, [TasksWithScoreConstraint(1, 3)], exSel, exPools, 1);
      && r.Ok? && r.value.sample == [exB1]
      && At(r.value.size, "A") == 1
  {
    ExampleInScope();
    CandidatesAsWrittenExposeReserve();
    ExampleDraw();
    ExampleDrawB();
    ExampleFlatDraw(AsWritten, [exA1, exB1], exA1);
    ExampleFlatDraw(Corrected, [exB1], exB1);
    ExampleRemove();
    ExampleRemoveB();
    var st := FlatState([], exBuckets, exSizes, exRng);
    StageOfOneDraw(AsWritten, st, TasksWithScoreConstraint(1, 3), exSel, exPools, 1, exA1);
    StageOfOneDraw(Corrected, st, TasksWithScoreConstraint(1, 3), exSel, exPools, 1, exB1);
  }

  /** The example state is one FlatStageReserve speaks of: it files every task under its
      score and pool, and `pool_size` holds each pool's task count. */
  lemma ExampleInScope()
    ensures FlatSetting(exSel, exPools, [3, 1], exPools)
    ensures FlatInv(FlatState([], exBuckets, exSizes, exRng), [3, 1], exPools, exPools)
  {
    ExampleInv();
    ExamplePoolLists();
    assert forall p :: p in exPools ==> p == "A" || p == "B";
    assert exSizes.Keys == {"A", "B"};
    assert forall t :: t in exSel ==> t == exA1 || t == exB1 || t == exB2;
  }

  lemma ExampleInv()
    ensures Inv(exBuckets, [3, 1], exPools)
  {
    forall s, p, t | t in Get(exBuckets, s, p)
      ensures t.points == s && t.pool == p && s in [3, 1] && p in exPools
    {
      ExampleBucket(s, p, t);
    }
  }

  lemma ExampleBucket(s: int, p: string, t: Task)
    requires t in Get(exBuckets, s, p)
    ensures t.points == s && t.pool == p && s in [3, 1] && p in exPools
  {
    assert (s, p) == (3, "A") || (s, p) == (3, "B") || (s, p) == (1, "B");
  }

  lemma ExamplePoolLists()
    ensures |PoolList(exBuckets, [3, 1], "A")| == 1 && |PoolList(exBuckets, [3, 1], "B")| == 2
  {
    assert [3, 1][0] == 3 && [3, 1][1..] == [1] && [1][0] == 1 && [1][1..] == [];
    assert Get(exBuckets, 1, "A") == [] && Get(exBuckets, 3, "A") == [exA1];
    assert Get(exBuckets, 1, "B") == [exB2] && Get(exBuckets, 3, "B") == [exB1];
    assert PoolList(exBuckets, [], "A") == [] && PoolList(exBuckets, [], "B") == [];
    assert PoolList(exBuckets, [1], "A") == Get(exBuckets, 1, "A") + PoolList(exBuckets, [], "A");
    assert PoolList(exBuckets, [1], "B") == Get(exBuckets, 1, "B") + PoolList(exBuckets, [], "B");
    assert PoolList(exBuckets, [3, 1], "A") == Get(exBuckets, 3, "A") + PoolList(exBuckets, [1], "A");
    assert PoolList(exBuckets, [3, 1], "B") == Get(exBuckets, 3, "B") + PoolList(exBuckets, [1], "B");
  }
}
