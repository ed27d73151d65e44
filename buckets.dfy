/** The sampler's nested dictionary `scores[points][pool]` of task lists, as one map
    keyed by (points, pool).  A missing key reads as the empty list, as the source's
    `defaultdict(lambda: defaultdict(list))` does on every lookup. */
module Buckets {
  import opened PySeq
  import opened Tasks

  type Buckets = map<(int, string), seq<Task>>

  function Get(b: Buckets, s: int, p: string): seq<Task>
  {
    if (s, p) in b then b[(s, p)] else []
  }

  /** Every task of bucket (s, p) is worth s points and belongs to pool p, and every
      non-empty bucket lies inside the scores `so` and the pools `ps`. */
  ghost predicate Inv(b: Buckets, so: seq<int>, ps: seq<string>)
  {
    forall s, p, t :: t in Get(b, s, p) ==> t.points == s && t.pool == p && s in so && p in ps
  }

  /** Pool p's tasks, score by score in the order so. */
  function PoolList(b: Buckets, so: seq<int>, p: string): seq<Task>
  {
    if so == [] then [] else Get(b, so[0], p) + PoolList(b, so[1..], p)
  }

  /** All pools' lists, pool by pool in the order ps. */
  function Flatten(b: Buckets, so: seq<int>, ps: seq<string>): seq<Task>
  {
    if ps == [] then [] else PoolList(b, so, ps[0]) + Flatten(b, so, ps[1..])
  }

  /** Score s's tasks, pool by pool in the order ps. */
  function Row(b: Buckets, s: int, ps: seq<string>): seq<Task>
  {
    if ps == [] then [] else Get(b, s, ps[0]) + Row(b, s, ps[1..])
  }

  /** Replacing one bucket leaves every other pool's list, and every list over scores
      without s, as it was. */
  lemma {:induction false} PutPoolListOther(b: Buckets, so: seq<int>, s: int, p: string, q: string, xs: seq<Task>)
    requires q != p || s !in so
    ensures PoolList(b[(s, p) := xs], so, q) == PoolList(b, so, q)
  {
    if so != [] {
      PutPoolListOther(b, so[1..], s, p, q, xs);
    }
  }

  /** ... and changes pool p's list by exactly that bucket's difference. */
  lemma {:induction false} PutPoolList(b: Buckets, so: seq<int>, s: int, p: string, xs: seq<Task>)
    requires NoDup(so) && s in so
    ensures multiset(PoolList(b[(s, p) := xs], so, p)) + multiset(Get(b, s, p))
         == multiset(PoolList(b, so, p)) + multiset(xs)
  {
    var b' := b[(s, p) := xs];
    NoDupTail(so);
    var head, head' := Get(b, so[0], p), Get(b', so[0], p);
    var tail, tail' := PoolList(b, so[1..], p), PoolList(b', so[1..], p);
    assert PoolList(b, so, p) == head + tail;
    assert PoolList(b', so, p) == head' + tail';
    if s == so[0] {
      PutPoolListOther(b, so[1..], s, p, p, xs);
      assert head' == xs && head == Get(b, s, p);
    } else {
      Uncons(so);
      PutPoolList(b, so[1..], s, p, xs);
      MultisetFrame(multiset(tail), multiset(tail'), multiset(head), multiset(Get(b, s, p)), multiset(xs));
    }
  }

  lemma {:induction false} PutFlattenOther(b: Buckets, so: seq<int>, ps: seq<string>, s: int, p: string, xs: seq<Task>)
    requires p !in ps || s !in so
    ensures Flatten(b[(s, p) := xs], so, ps) == Flatten(b, so, ps)
  {
    if ps != [] {
      PutFlattenOther(b, so, ps[1..], s, p, xs);
      PutPoolListOther(b, so, s, p, ps[0], xs);
    }
  }

  lemma {:induction false} PutFlatten(b: Buckets, so: seq<int>, ps: seq<string>, s: int, p: string, xs: seq<Task>)
    requires NoDup(so) && NoDup(ps) && s in so && p in ps
    ensures multiset(Flatten(b[(s, p) := xs], so, ps)) + multiset(Get(b, s, p))
         == multiset(Flatten(b, so, ps)) + multiset(xs)
  {
    var b' := b[(s, p) := xs];
    NoDupTail(ps);
    var head, head' := PoolList(b, so, ps[0]), PoolList(b', so, ps[0]);
    var tail, tail' := Flatten(b, so, ps[1..]), Flatten(b', so, ps[1..]);
    assert Flatten(b, so, ps) == head + tail;
    assert Flatten(b', so, ps) == head' + tail';
    if p == ps[0] {
      PutFlattenOther(b, so, ps[1..], s, p, xs);
      PutPoolList(b, so, s, p, xs);
      MultisetFrame(multiset(head), multiset(head'), multiset(tail), multiset(Get(b, s, p)), multiset(xs));
    } else {
      Uncons(ps);
      PutFlatten(b, so, ps[1..], s, p, xs);
      PutPoolListOther(b, so, s, p, ps[0], xs);
      MultisetFrame(multiset(tail), multiset(tail'), multiset(head), multiset(Get(b, s, p)), multiset(xs));
    }
  }

  lemma {:induction false} PutRowOther(b: Buckets, s: int, ps: seq<string>, s': int, p: string, xs: seq<Task>)
    requires s' != s || p !in ps
    ensures Row(b[(s', p) := xs], s, ps) == Row(b, s, ps)
  {
    if ps != [] {
      PutRowOther(b, s, ps[1..], s', p, xs);
    }
  }

  lemma {:induction false} PutRow(b: Buckets, s: int, ps: seq<string>, p: string, xs: seq<Task>)
    requires NoDup(ps) && p in ps
    ensures multiset(Row(b[(s, p) := xs], s, ps)) + multiset(Get(b, s, p))
         == multiset(Row(b, s, ps)) + multiset(xs)
  {
    var b' := b[(s, p) := xs];
    NoDupTail(ps);
    var head, head' := Get(b, s, ps[0]), Get(b', s, ps[0]);
    var tail, tail' := Row(b, s, ps[1..]), Row(b', s, ps[1..]);
    assert Row(b, s, ps) == head + tail;
    assert Row(b', s, ps) == head' + tail';
    if p == ps[0] {
      PutRowOther(b, s, ps[1..], s, p, xs);
      assert head' == xs;
      MultisetFrame(multiset(head), multiset(head'), multiset(tail), multiset(Get(b, s, p)), multiset(xs));
    } else {
      Uncons(ps);
      PutRow(b, s, ps[1..], p, xs);
      MultisetFrame(multiset(tail), multiset(tail'), multiset(head), multiset(Get(b, s, p)), multiset(xs));
    }
  }

  /** Keeping a sub-multiset of a bucket keeps the invariant. */
  lemma KeepInv(b: Buckets, so: seq<int>, ps: seq<string>, s: int, p: string, kept: seq<Task>)
    requires Inv(b, so, ps)
    requires multiset(kept) <= multiset(Get(b, s, p))
    ensures Inv(b[(s, p) := kept], so, ps)
  {
    var b' := b[(s, p) := kept];
    forall s', p', t | t in Get(b', s', p')
      ensures t.points == s' && t.pool == p' && s' in so && p' in ps
    {
      if (s', p') == (s, p) {
        assert t in multiset(kept);
        assert t in Get(b, s, p);
      } else {
        assert Get(b', s', p') == Get(b, s', p');
      }
    }
    assert Inv(b', so, ps);
  }

  lemma InvAt(b: Buckets, so: seq<int>, ps: seq<string>, s: int, p: string, t: Task)
    requires Inv(b, so, ps) && t in Get(b, s, p)
    ensures t.points == s && t.pool == p && s in so && p in ps
  {
  }

  /** Only buckets inside the scores and pools of the invariant can be non-empty. */
  lemma Occupied(b: Buckets, so: seq<int>, ps: seq<string>, s: int, p: string)
    requires Inv(b, so, ps)
    ensures Get(b, s, p) != [] ==> s in so && p in ps
  {
    if Get(b, s, p) != [] {
      InvAt(b, so, ps, s, p, Get(b, s, p)[0]);
    }
  }

  /** Taking `taken` out of bucket (s, p) and keeping `kept` keeps the invariant and
      removes exactly `taken` from the whole dictionary. */
  lemma TakeFrom(b: Buckets, so: seq<int>, ps: seq<string>, s: int, p: string, kept: seq<Task>, taken: seq<Task>)
    requires NoDup(so) && NoDup(ps) && Inv(b, so, ps)
    requires multiset(Get(b, s, p)) == multiset(kept) + multiset(taken)
    ensures Inv(b[(s, p) := kept], so, ps)
    ensures multiset(Flatten(b[(s, p) := kept], so, ps)) + multiset(taken) == multiset(Flatten(b, so, ps))
  {
    KeepInv(b, so, ps, s, p, kept);
    if s in so && p in ps {
      PutFlatten(b, so, ps, s, p, kept);
      MultisetCancel(multiset(Flatten(b[(s, p) := kept], so, ps)), multiset(Flatten(b, so, ps)),
                     multiset(Get(b, s, p)), multiset(kept), multiset(taken));
    } else {
      PutFlattenOther(b, so, ps, s, p, kept);
      Occupied(b, so, ps, s, p);
      assert Get(b, s, p) == [];
      assert |multiset(kept) + multiset(taken)| == 0;
      assert |taken| == |multiset(taken)| == 0;
      assert taken == [];
    }
  }

  /** A task of score s's row lies in its own pool's bucket. */
  lemma InRow(b: Buckets, so: seq<int>, ups: seq<string>, s: int, ps: seq<string>, t: Task)
    requires Inv(b, so, ups)
    requires t in Row(b, s, ps)
    ensures t.points == s && t in Get(b, s, t.pool) && t.pool in ps
  {
    if t in Get(b, s, ps[0]) {
    } else {
      InRow(b, so, ups, s, ps[1..], t);
    }
  }

  lemma {:induction false} PoolListSnoc(b: Buckets, so: seq<int>, s: int, p: string)
    ensures PoolList(b, so + [s], p) == PoolList(b, so, p) + Get(b, s, p)
  {
    if so == [] {
      assert [] + [s] == [s];
      assert [s][1..] == [];
    } else {
      assert (so + [s])[1..] == so[1..] + [s];
      PoolListSnoc(b, so[1..], s, p);
    }
  }
}
