/** The declarative constraint variants (plain dataclasses in the source). */
module Constraints {
  import opened PySeq

  /** Sample this many distinct pools. */
  datatype PoolConstraint = PoolConstraint(pools: int)

  /** Every variant carries the `tasks` count of the common base class; the two score
      variants add a `score`, the other two add nothing. */
  datatype TaskConstraint =
    | TasksPerPoolConstraint(tasks: int)
    | TasksConstraint(tasks: int)
    | TasksWithScoreConstraint(tasks: int, score: int)
    | TasksWithScorePerPoolConstraint(tasks: int, score: int)

  /** The class name a constraint is grouped under. */
  datatype Kind = PerPoolKind | TasksKind | WithScoreKind | WithScorePerPoolKind

  function KindOf(c: TaskConstraint): Kind
  {
    match c
    case TasksPerPoolConstraint(_) => PerPoolKind
    case TasksConstraint(_) => TasksKind
    case TasksWithScoreConstraint(_, _) => WithScoreKind
    case TasksWithScorePerPoolConstraint(_, _) => WithScorePerPoolKind
  }

  /** The dictionary from class name to constraints of that class; an absent key and
      an empty list are the same (every lookup in the source yields [] for it). */
  datatype Grouped = Grouped(
    perPool: seq<TaskConstraint>,
    tasks: seq<TaskConstraint>,
    withScore: seq<TaskConstraint>,
    withScorePerPool: seq<TaskConstraint>)
  {
    function Get(k: Kind): seq<TaskConstraint>
    {
      match k
      case PerPoolKind => perPool
      case TasksKind => tasks
      case WithScoreKind => withScore
      case WithScorePerPoolKind => withScorePerPool
    }

    function Add(c: TaskConstraint): (r: Grouped)
      ensures r.Get(KindOf(c)) == Get(KindOf(c)) + [c]
      ensures forall k :: k != KindOf(c) ==> r.Get(k) == Get(k)
    {
      match KindOf(c)
      case PerPoolKind => this.(perPool := perPool + [c])
      case TasksKind => this.(tasks := tasks + [c])
      case WithScoreKind => this.(withScore := withScore + [c])
      case WithScorePerPoolKind => this.(withScorePerPool := withScorePerPool + [c])
    }
  }

  const EmptyGroups := Grouped([], [], [], [])

  predicate OnlyKind(cs: seq<TaskConstraint>, k: Kind)
  {
    forall i :: 0 <= i < |cs| ==> KindOf(cs[i]) == k
  }

  /** Each list holds constraints of its own kind only. */
  predicate WellGrouped(g: Grouped)
  {
    && OnlyKind(g.perPool, PerPoolKind) && OnlyKind(g.tasks, TasksKind)
    && OnlyKind(g.withScore, WithScoreKind) && OnlyKind(g.withScorePerPool, WithScorePerPoolKind)
  }

  /** c is a score-targeted constraint aimed at score s. */
  predicate Targets(c: TaskConstraint, s: int)
  {
    (c.TasksWithScoreConstraint? || c.TasksWithScorePerPoolConstraint?) && c.score == s
  }

  /** The two score-targeted variants, the ones carrying a `score`. */
  predicate Scored(c: TaskConstraint)
  {
    c.TasksWithScoreConstraint? || c.TasksWithScorePerPoolConstraint?
  }

  /** Some constraint of cs targets score s. */
  predicate AsksScore(cs: seq<TaskConstraint>, s: int)
  {
    exists c :: c in cs && Scored(c) && c.score == s
  }

  /** The constraints of kind k, in declaration order. */
  function OfKind(cs: seq<TaskConstraint>, k: Kind): (r: seq<TaskConstraint>)
    ensures forall c :: c in r ==> c in cs && KindOf(c) == k
    ensures forall c :: c in cs && KindOf(c) == k ==> c in r
  {
    if cs == [] then []
    else if KindOf(cs[0]) == k then [cs[0]] + OfKind(cs[1..], k)
    else OfKind(cs[1..], k)
  }

  /** The grouping the sampler computes from a constraint list. */
  function GroupOf(cs: seq<TaskConstraint>): (r: Grouped)
  {
    Grouped(OfKind(cs, PerPoolKind), OfKind(cs, TasksKind),
            OfKind(cs, WithScoreKind), OfKind(cs, WithScorePerPoolKind))
  }

  lemma GroupOfWellGrouped(cs: seq<TaskConstraint>)
    ensures WellGrouped(GroupOf(cs))
  {
    forall k ensures OnlyKind(OfKind(cs, k), k) {
      var r := OfKind(cs, k);
      assert forall i :: 0 <= i < |r| ==> r[i] in r;
    }
  }

  /** Grouping a list extended by one constraint appends it to its own kind only. */
  lemma {:induction false} OfKindSnoc(cs: seq<TaskConstraint>, c: TaskConstraint, k: Kind)
    ensures OfKind(cs + [c], k) == OfKind(cs, k) + (if KindOf(c) == k then [c] else [])
  {
    if cs == [] {
      assert [] + [c] == [c];
      assert [c][1..] == [];
    } else {
      assert (cs + [c])[0] == cs[0];
      assert (cs + [c])[1..] == cs[1..] + [c];
      OfKindSnoc(cs[1..], c, k);
    }
  }

  /** Grouping a list extended by one constraint is adding it to the grouping. */
  lemma GroupOfSnoc(cs: seq<TaskConstraint>, c: TaskConstraint)
    ensures GroupOf(cs + [c]) == GroupOf(cs).Add(c)
  {
    OfKindSnoc(cs, c, PerPoolKind);
    OfKindSnoc(cs, c, TasksKind);
    OfKindSnoc(cs, c, WithScoreKind);
    OfKindSnoc(cs, c, WithScorePerPoolKind);
  }

  /** Declaration order is kept within a kind: grouping commutes with concatenation. */
  lemma {:induction false} OfKindAppend(a: seq<TaskConstraint>, b: seq<TaskConstraint>, k: Kind)
    ensures OfKind(a + b, k) == OfKind(a, k) + OfKind(b, k)
  {
    if a == [] {
      assert [] + b == b;
    } else {
      assert (a + b)[0] == a[0];
      assert (a + b)[1..] == a[1..] + b;
      OfKindAppend(a[1..], b, k);
    }
  }

  /** The four groups partition the list: every constraint lands in exactly one. */
  lemma {:induction false} GroupsPartition(cs: seq<TaskConstraint>)
    ensures multiset(OfKind(cs, PerPoolKind)) + multiset(OfKind(cs, TasksKind))
          + multiset(OfKind(cs, WithScoreKind)) + multiset(OfKind(cs, WithScorePerPoolKind))
         == multiset(cs)
  {
    if cs != [] {
      GroupsPartition(cs[1..]);
      Uncons(cs);
    }
  }
}
