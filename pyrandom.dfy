/** Python's `random.Random(seed)` as an oracle.  The generator is a stream of raw
    draws chosen by an arbitrary function `bits` of the seed and the draw's position;
    `shuffle` and `sample` consume the stream the way CPython's algorithms do, so every
    property proved below holds for every oracle, and equal oracles and seeds give equal
    results. */
module PyRandom {
  import opened Wrappers

  /** The raw stream: the n-th draw of a generator seeded with `seed` is `bits(seed, n)`. */
  type Bits = (int, nat) -> nat

  datatype Random = Random(bits: Bits, seed: int, drawn: nat)

  /** `random.Random(seed)`: a fresh generator positioned at its first draw. */
  function Seeded(bits: Bits, seed: int): (g: Random)
    ensures g.seed == seed && g.drawn == 0
  {
    Random(bits, seed, 0)
  }

  /** `_randbelow(m)`: one draw reduced into [0, m). */
  function RandBelow(g: Random, m: nat): (r: (nat, Random))
    requires m > 0
    ensures r.0 < m
    ensures r.1.seed == g.seed && r.1.drawn == g.drawn + 1
  {
    (g.bits(g.seed, g.drawn) % m, Random(g.bits, g.seed, g.drawn + 1))
  }

  function Swap<T>(xs: seq<T>, i: nat, j: nat): (r: seq<T>)
    requires i < |xs| && j < |xs|
    ensures |r| == |xs| && multiset(r) == multiset(xs)
  {
    var r := xs[i := xs[j]][j := xs[i]];
    assert forall k :: 0 <= k < |xs| && k != i && k != j ==> r[k] == xs[k];
    SwapMultiset(xs, i, j);
    r
  }

  lemma SwapMultiset<T>(xs: seq<T>, i: nat, j: nat)
    requires i < |xs| && j < |xs|
    ensures multiset(xs[i := xs[j]][j := xs[i]]) == multiset(xs)
  {
    var a := xs[i := xs[j]];
    assert multiset(a) == multiset(xs) - multiset{xs[i]} + multiset{xs[j]};
    assert multiset(a[j := xs[i]]) == multiset(a) - multiset{a[j]} + multiset{xs[i]};
  }

  /** `shuffle(x)`: for i from len(x)-1 down to 1, swap x[i] with x[randbelow(i+1)]. */
  function Shuffle<T>(g: Random, xs: seq<T>): (r: (seq<T>, Random))
    ensures |r.0| == |xs| && multiset(r.0) == multiset(xs)
    ensures r.1.seed == g.seed
  {
    if xs == [] then (xs, g) else ShuffleDown(g, xs, |xs| - 1)
  }

  function ShuffleDown<T>(g: Random, xs: seq<T>, i: nat): (r: (seq<T>, Random))
    requires i < |xs|
    ensures |r.0| == |xs| && multiset(r.0) == multiset(xs)
    ensures r.1.seed == g.seed
    decreases i
  {
    if i == 0 then (xs, g)
    else
      var (j, g1) := RandBelow(g, i + 1);
      ShuffleDown(g1, Swap(xs, i, j), i - 1)
  }

  /** `sample(population, k)`: a ValueError unless 0 <= k <= len(population); otherwise
      k elements at distinct positions, by CPython's pool-based selection. */
  function Sample<T>(g: Random, population: seq<T>, k: int): (r: Result<(seq<T>, Random)>)
    ensures r.Err? <==> k < 0 || k > |population|
    ensures r.Err? ==> r.error == ValueError
    ensures r.Ok? ==> |r.value.0| == k && multiset(r.value.0) <= multiset(population)
    ensures r.Ok? ==> r.value.1.seed == g.seed
  {
    if k < 0 || k > |population| then Err(ValueError) else Ok(SamplePool(g, population, k))
  }

  /** One step picks pool[j] and moves the last active element into its place. */
  function SamplePool<T>(g: Random, pool: seq<T>, k: nat): (r: (seq<T>, Random))
    requires k <= |pool|
    ensures |r.0| == k && multiset(r.0) <= multiset(pool)
    ensures r.1.seed == g.seed
    decreases k
  {
    if k == 0 then ([], g)
    else
      var (j, g1) := RandBelow(g, |pool|);
      var n := |pool|;
      var rest := pool[j := pool[n - 1]][..n - 1];
      PoolStep(pool, j);
      var (picked, g2) := SamplePool(g1, rest, k - 1);
      ([pool[j]] + picked, g2)
  }

  lemma PoolStep<T>(pool: seq<T>, j: nat)
    requires j < |pool|
    ensures multiset(pool[j := pool[|pool| - 1]][..|pool| - 1]) + multiset{pool[j]} == multiset(pool)
  {
    var n := |pool|;
    var moved := pool[j := pool[n - 1]];
    assert pool == pool[..n - 1] + [pool[n - 1]];
    assert moved == moved[..n - 1] + [moved[n - 1]];
    if j == n - 1 {
      assert moved[..n - 1] == pool[..n - 1];
    } else {
      assert moved[n - 1] == pool[n - 1];
      assert multiset(moved) == multiset(pool) - multiset{pool[j]} + multiset{pool[n - 1]};
    }
  }
}
