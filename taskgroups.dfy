/** The task-group composite: a tree whose leaves are tasks and whose inner nodes are
    plain, ordered, permutation and sampled groups.  `get_tasks(seed, source)` flattens
    the tree; every group of the tree is given the same seed and source. */
module TaskGroups {
  import opened Wrappers
  import opened PySeq
  import opened PyRandom
  import opened Tasks
  import opened Constraints
  import Sampling
  import SamplingLemmas
  import Sampler
  import Validator
  import ValidatorScores

  /** What a constructed TaskSampler keeps and its `get_tasks` reads: the resolved tasks,
      the constraints grouped by kind, the pool constraint, the per-pool quota and
      `permute`.  Its generator is not part of it: `get_tasks` reseeds it on every call. */
  datatype SamplerState = SamplerState(tasks: seq<Task>, groups: Grouped, pc: Option<PoolConstraint>,
                                       tpp: int, permute: bool)

  type Configured = s: SamplerState | WellGrouped(s.groups)
    witness SamplerState([], EmptyGroups, None, 0, false)

  /** A child of a group: a task, or a nested group (`isinstance(task, TaskGroup)`). */
  datatype Item = Leaf(task: Task) | Nested(group: TaskGroup)

  datatype TaskGroup =
    | Plain(children: seq<Item>)         // TaskGroup
    | Ordered(children: seq<Item>)       // OrderedTaskGroup
    | Permutation(children: seq<Item>)   // PermutationTaskGroup
    | Sampled(sampler: Configured)       // SampledTaskGroup

  /** `acc` followed by the tasks of r, or r's failure. */
  function Prepend(acc: seq<Task>, r: Result<seq<Task>>): (q: Result<seq<Task>>)
    ensures q.Ok? <==> r.Ok?
  {
    match r
    case Ok(v) => Ok(acc + v)
    case Err(e) => Err(e)
  }

  /** Two listings one after the other; the first failure wins, as in a loop that stops
      at the first exception. */
  function Then(a: Result<seq<Task>>, b: Result<seq<Task>>): (r: Result<seq<Task>>)
    ensures r.Ok? <==> a.Ok? && b.Ok?
  {
    match a
    case Err(e) => Err(e)
    case Ok(x) => Prepend(x, b)
  }

  // ---------------------------------------------------------------------------
  // get_tasks

  /** `group.get_tasks(seed, source)`; `bits` is the raw stream of every
      `random.Random(seed)` the tree creates.  A plain or ordered group lists its
      children; a permutation group lists them in the order a fresh generator's shuffle
      gives, unless in source mode; a sampled group returns its sampler's draw.  Source
      mode never fails, and the only failure is the sampler's ValueError. */
  function Expand(g: TaskGroup, bits: Bits, seed: int, source: bool): (r: Result<seq<Task>>)
    ensures source ==> r.Ok?
    ensures r.Err? ==> r.error == ValueError
    decreases g, 1
  {
    match g
    case Plain(cs) => ListOf(cs, g, bits, seed, source)
    case Ordered(cs) => ListOf(cs, g, bits, seed, source)
    case Permutation(cs) =>
      if source then ListOf(cs, g, bits, seed, source)
      else
        var order := Shuffle(Seeded(bits, seed), cs).0;
        assert forall x :: x in order ==> x in multiset(cs);
        ListOf(order, g, bits, seed, source)
    case Sampled(s) => SamplerDraw(s, bits, seed, source)
  }

  /** The sampler's `get_tasks(seed, source)`: its task list in source mode, otherwise a
      draw of at most as many of each task as it holds, or a ValueError. */
  function SamplerDraw(s: Configured, bits: Bits, seed: int, source: bool): (r: Result<seq<Task>>)
    ensures source ==> r == Ok(s.tasks)
    ensures r.Err? ==> r.error == ValueError
    ensures r.Ok? ==> multiset(r.value) <= multiset(s.tasks)
  {
    SamplingLemmas.GetTasksSpec(Seeded(bits, seed), s.tasks, s.groups, s.pc, s.tpp, s.permute, source);
    match Sampling.GetTasks(Seeded(bits, seed), s.tasks, s.groups, s.pc, s.tpp, s.permute, source)
    case Ok(v) => Ok(v.0)
    case Err(e) => Err(e)
  }

  /** `list_tasks`: each child in turn, a task as itself and a group by its own
      `get_tasks` with the same seed and source, concatenated.  `parent` is the group
      whose children these are (in some order); it only bounds the recursion. */
  function ListOf(items: seq<Item>, ghost parent: TaskGroup, bits: Bits, seed: int, source: bool): (r: Result<seq<Task>>)
    requires !parent.Sampled? && forall x :: x in items ==> x in parent.children
    ensures source ==> r.Ok?
    ensures r.Err? ==> r.error == ValueError
    decreases parent, 0, |items|
  {
    if items == [] then Ok([])
    else
      assert items[0] in parent.children;
      Then(Part(items[0], parent, bits, seed, source), ListOf(items[1..], parent, bits, seed, source))
  }

  /** What one child contributes to its parent's listing. */
  function Part(x: Item, ghost parent: TaskGroup, bits: Bits, seed: int, source: bool): (r: Result<seq<Task>>)
    requires !parent.Sampled? && x in parent.children
    ensures source ==> r.Ok?
    ensures r.Err? ==> r.error == ValueError
    ensures x.Leaf? ==> r == Ok([x.task])
    decreases parent, 0, 0
  {
    match x
    case Leaf(t) => Ok([t])
    case Nested(h) => Expand(h, bits, seed, source)
  }

  // ---------------------------------------------------------------------------
  // The stored tree

  /** Every task the tree stores, in declaration order: the leaves, and each sampled
      group's whole task list. */
  function Stored(g: TaskGroup): seq<Task>
    decreases g, 1
  {
    match g
    case Sampled(s) => s.tasks
    case _ => StoredList(g.children, g)
  }

  function StoredList(items: seq<Item>, ghost parent: TaskGroup): seq<Task>
    requires !parent.Sampled? && forall x :: x in items ==> x in parent.children
    decreases parent, 0, |items|
  {
    if items == [] then []
    else
      assert items[0] in parent.children;
      StoredItem(items[0], parent) + StoredList(items[1..], parent)
  }

  function StoredItem(x: Item, ghost parent: TaskGroup): seq<Task>
    requires !parent.Sampled? && x in parent.children
    decreases parent, 0, 0
  {
    match x
    case Leaf(t) => [t]
    case Nested(h) => Stored(h)
  }

  /** No permutation and no sampled group anywhere in the tree. */
  predicate Fixed(g: TaskGroup)
    decreases g, 1
  {
    match g
    case Plain(cs) => FixedList(cs, g)
    case Ordered(cs) => FixedList(cs, g)
    case _ => false
  }

  predicate FixedList(items: seq<Item>, ghost parent: TaskGroup)
    requires !parent.Sampled? && forall x :: x in items ==> x in parent.children
    decreases parent, 0, |items|
  {
    items != [] ==>
      assert items[0] in parent.children;
      (items[0].Nested? ==> Fixed(items[0].group)) && FixedList(items[1..], parent)
  }

  // ---------------------------------------------------------------------------
  // Properties of the listing

  /** The listing of a concatenation is the listings one after the other: child order is
      kept, each nested group's output stays contiguous, and lengths add up. */
  lemma {:induction false} ListOfAppend(a: seq<Item>, b: seq<Item>, parent: TaskGroup, bits: Bits, seed: int, source: bool)
    requires !parent.Sampled? && forall x :: x in a + b ==> x in parent.children
    ensures forall x :: x in a ==> x in parent.children
    ensures forall x :: x in b ==> x in parent.children
    ensures ListOf(a + b, parent, bits, seed, source)
         == Then(ListOf(a, parent, bits, seed, source), ListOf(b, parent, bits, seed, source))
    decreases |a|
  {
    assert forall x :: x in a ==> x in a + b;
    assert forall x :: x in b ==> x in a + b;
    if a == [] {
      assert a + b == b;
      match ListOf(b, parent, bits, seed, source)
      case Ok(v) => assert [] + v == v;
      case Err(_) =>
    } else {
      assert (a + b)[0] == a[0];
      assert (a + b)[1..] == a[1..] + b;
      ListOfAppend(a[1..], b, parent, bits, seed, source);
      var p := Part(a[0], parent, bits, seed, source);
      var l := ListOf(a[1..], parent, bits, seed, source);
      var m := ListOf(b, parent, bits, seed, source);
      if p.Ok? && l.Ok? && m.Ok? {
        ConcatAssoc(p.value, l.value, m.value);
      }
    }
  }

  /** In source mode every group lists exactly what the tree stores, in declaration order:
      permutation groups keep their children's order and sampled groups return all their
      tasks. */
  lemma {:induction false} SourceListing(g: TaskGroup, bits: Bits, seed: int)
    ensures Expand(g, bits, seed, true) == Ok(Stored(g))
    decreases g, 1
  {
    match g
    case Sampled(s) =>
    case _ => SourceListingList(g.children, g, bits, seed);
  }

  lemma {:induction false} SourceListingList(items: seq<Item>, parent: TaskGroup, bits: Bits, seed: int)
    requires !parent.Sampled? && forall x :: x in items ==> x in parent.children
    ensures ListOf(items, parent, bits, seed, true) == Ok(StoredList(items, parent))
    decreases parent, 0, |items|
  {
    if items != [] {
      assert items[0] in parent.children;
      if items[0].Nested? {
        SourceListing(items[0].group, bits, seed);
      }
      SourceListingList(items[1..], parent, bits, seed);
    }
  }

  /** A tree of plain and ordered groups only adds no randomness: whatever the seed and
      the mode, it lists its stored tasks in declaration order. */
  lemma {:induction false} FixedListing(g: TaskGroup, bits: Bits, seed: int, source: bool)
    requires Fixed(g)
    ensures Expand(g, bits, seed, source) == Ok(Stored(g))
    decreases g, 1
  {
    FixedListingList(g.children, g, bits, seed, source);
  }

  lemma {:induction false} FixedListingList(items: seq<Item>, parent: TaskGroup, bits: Bits, seed: int, source: bool)
    requires !parent.Sampled? && forall x :: x in items ==> x in parent.children
    requires FixedList(items, parent)
    ensures ListOf(items, parent, bits, seed, source) == Ok(StoredList(items, parent))
    decreases parent, 0, |items|
  {
    if items != [] {
      assert items[0] in parent.children;
      if items[0].Nested? {
        FixedListing(items[0].group, bits, seed, source);
      }
      FixedListingList(items[1..], parent, bits, seed, source);
    }
  }

  /** An ordered group adds no randomness of its own: when each nested group lists the
      same under two seeds, so does the ordered group. */
  lemma {:induction false} OrderedSeedFree(items: seq<Item>, parent: TaskGroup, bits: Bits, s1: int, s2: int, source: bool)
    requires parent.Ordered? && forall x :: x in items ==> x in parent.children
    requires forall x :: x in items && x.Nested? ==> Expand(x.group, bits, s1, source) == Expand(x.group, bits, s2, source)
    ensures ListOf(items, parent, bits, s1, source) == ListOf(items, parent, bits, s2, source)
    decreases |items|
  {
    if items != [] {
      assert items[0] in items;
      assert forall x :: x in items[1..] ==> x in items;
      OrderedSeedFree(items[1..], parent, bits, s1, s2, source);
    }
  }

  /** Outside source mode a permutation group lists its direct children in an order that
      is a permutation of them and depends on nothing but the generator `Random(seed)`;
      each child is still expanded with the parent's own seed. */
  lemma PermutationOrder(cs: seq<Item>, bits: Bits, seed: int)
    ensures var g := Permutation(cs);
      var order := Shuffle(Seeded(bits, seed), cs).0;
      && |order| == |cs| && multiset(order) == multiset(cs)
      && (forall x :: x in order ==> x in g.children)
      && Expand(g, bits, seed, false) == ListOf(order, g, bits, seed, false)
      && Expand(g, bits, seed, true) == ListOf(cs, g, bits, seed, true)
  {
    var order := Shuffle(Seeded(bits, seed), cs).0;
    assert forall x :: x in order ==> x in multiset(cs);
  }

  /** Listing the same children in another order lists the same stored tasks. */
  lemma {:induction false} StoredListAppend(a: seq<Item>, b: seq<Item>, parent: TaskGroup)
    requires !parent.Sampled? && forall x :: x in a + b ==> x in parent.children
    ensures forall x :: x in a ==> x in parent.children
    ensures forall x :: x in b ==> x in parent.children
    ensures StoredList(a + b, parent) == StoredList(a, parent) + StoredList(b, parent)
    decreases |a|
  {
    assert forall x :: x in a ==> x in a + b;
    assert forall x :: x in b ==> x in a + b;
    if a == [] {
      assert a + b == b;
    } else {
      assert (a + b)[0] == a[0];
      assert (a + b)[1..] == a[1..] + b;
      StoredListAppend(a[1..], b, parent);
      ConcatAssoc(StoredItem(a[0], parent), StoredList(a[1..], parent), StoredList(b, parent));
    }
  }

  /** Taking one child out of the middle of a listing takes out exactly its tasks. */
  lemma StoredListMove(pre: seq<Item>, x: Item, post: seq<Item>, parent: TaskGroup)
    requires !parent.Sampled? && forall y :: y in pre + ([x] + post) ==> y in parent.children
    ensures x in parent.children && forall y :: y in pre + post ==> y in parent.children
    ensures multiset(StoredList(pre + ([x] + post), parent))
         == multiset(StoredItem(x, parent)) + multiset(StoredList(pre + post, parent))
  {
    assert x in pre + ([x] + post);
    assert forall y :: y in pre + post ==> y in pre + ([x] + post);
    StoredListAppend(pre, [x] + post, parent);
    StoredListAppend(pre, post, parent);
    StoredListCons(x, post, parent);
    MultisetMove(StoredList(pre, parent), StoredItem(x, parent), StoredList(post, parent));
  }

  lemma StoredListCons(x: Item, post: seq<Item>, parent: TaskGroup)
    requires !parent.Sampled? && forall y :: y in [x] + post ==> y in parent.children
    ensures x in parent.children && forall y :: y in post ==> y in parent.children
    ensures StoredList([x] + post, parent) == StoredItem(x, parent) + StoredList(post, parent)
  {
    assert x in [x] + post;
    assert forall y :: y in post ==> y in [x] + post;
    assert ([x] + post)[0] == x && ([x] + post)[1..] == post;
  }

  lemma MultisetMove<T>(a: seq<T>, b: seq<T>, c: seq<T>)
    ensures multiset(a + (b + c)) == multiset(b) + multiset(a + c)
  {
  }

  lemma {:induction false} StoredListPermutation(xs: seq<Item>, ys: seq<Item>, parent: TaskGroup)
    requires !parent.Sampled? && forall x :: x in xs ==> x in parent.children
    requires multiset(xs) == multiset(ys)
    ensures forall y :: y in ys ==> y in parent.children
    ensures multiset(StoredList(xs, parent)) == multiset(StoredList(ys, parent))
    decreases |xs|
  {
    assert forall y :: y in ys ==> y in multiset(xs);
    if xs != [] {
      var x := xs[0];
      Uncons(xs);
      assert x in multiset(ys);
      var j :| 0 <= j < |ys| && ys[j] == x;
      CutAt(ys, j);
      ghost var rest := ys[..j] + ys[j + 1..];
      CancelOne(multiset(xs[1..]), multiset(rest), x);
      StoredListPermutation(xs[1..], rest, parent);
      StoredListMove(ys[..j], x, ys[j + 1..], parent);
    }
  }

  /** Whatever the seed and mode, a group never lists a task more often than the tree
      stores it: permuting children keeps the multiset, and a sampler draws a
      sub-multiset of its tasks. */
  lemma {:induction false} WithinStored(g: TaskGroup, bits: Bits, seed: int, source: bool)
    ensures var r := Expand(g, bits, seed, source);
      r.Ok? ==> multiset(r.value) <= multiset(Stored(g))
    decreases g, 1
  {
    match g
    case Sampled(s) =>
    case Permutation(cs) =>
      if source {
        WithinStoredList(cs, g, bits, seed, source);
      } else {
        var order := Shuffle(Seeded(bits, seed), cs).0;
        assert forall x :: x in order ==> x in multiset(cs);
        WithinStoredList(order, g, bits, seed, source);
        StoredListPermutation(order, cs, g);
      }
    case _ => WithinStoredList(g.children, g, bits, seed, source);
  }

  lemma {:induction false} WithinStoredList(items: seq<Item>, parent: TaskGroup, bits: Bits, seed: int, source: bool)
    requires !parent.Sampled? && forall x :: x in items ==> x in parent.children
    ensures var r := ListOf(items, parent, bits, seed, source);
      r.Ok? ==> multiset(r.value) <= multiset(StoredList(items, parent))
    decreases parent, 0, |items|
  {
    if items != [] {
      assert items[0] in parent.children;
      if items[0].Nested? {
        WithinStored(items[0].group, bits, seed, source);
      }
      WithinStoredList(items[1..], parent, bits, seed, source);
    }
  }

  // ---------------------------------------------------------------------------
  // The methods

  /** `get_tasks(seed, source)` of a group of the tree. */
  method GetTasks(g: TaskGroup, bits: Bits, seed: int, source: bool) returns (r: Result<seq<Task>>)
    ensures r == Expand(g, bits, seed, source)
    decreases g, 1
  {
    match g
    case Plain(cs) =>
      var tasks := ListTasks(cs, g, bits, seed, source);
      if source {
        return tasks;
      }
      r := tasks;
    case Ordered(cs) =>
      r := ListTasks(cs, g, bits, seed, source);
    case Permutation(cs) =>
      var random := new Sampler.Rng(Seeded(bits, seed));
      var tasks := cs;
      if !source {
        tasks := random.Shuffle(tasks);
        assert forall x :: x in tasks ==> x in multiset(cs);
      }
      r := ListTasks(tasks, g, bits, seed, source);
    case Sampled(s) =>
      var drawn := Sampling.GetTasks(Seeded(bits, seed), s.tasks, s.groups, s.pc, s.tpp, s.permute, source);
      r := if drawn.Ok? then Ok(drawn.value.0) else Err(drawn.error);
  }

  /** `list_tasks`: the children's contributions appended and extended in turn, stopping
      at the first failure. */
  method ListTasks(items: seq<Item>, ghost parent: TaskGroup, bits: Bits, seed: int, source: bool)
    returns (r: Result<seq<Task>>)
    requires !parent.Sampled? && forall x :: x in items ==> x in parent.children
    ensures r == ListOf(items, parent, bits, seed, source)
    decreases parent, 0
  {
    var tasks: seq<Task> := [];
    var todo := items;
    match ListOf(items, parent, bits, seed, source) {
      case Ok(v) => assert tasks + v == v;
      case Err(_) =>
    }
    while todo != []
      invariant forall x :: x in todo ==> x in parent.children
      invariant Prepend(tasks, ListOf(todo, parent, bits, seed, source)) == ListOf(items, parent, bits, seed, source)
      decreases |todo|
    {
      assert todo[0] in parent.children;
      assert forall x :: x in todo[1..] ==> x in todo;
      var rest := ListOf(todo[1..], parent, bits, seed, source);
      match todo[0] {
        case Leaf(t) =>
          if rest.Ok? {
            ConcatAssoc(tasks, [t], rest.value);
          }
          tasks := tasks + [t];
        case Nested(h) =>
          var sub := GetTasks(h, bits, seed, source);
          if sub.Err? {
            return Err(sub.error);
          }
          if rest.Ok? {
            ConcatAssoc(tasks, sub.value, rest.value);
          }
          tasks := tasks + sub.value;
      }
      todo := todo[1..];
    }
    assert tasks + [] == tasks;
    r := Ok(tasks);
  }

  // ---------------------------------------------------------------------------
  // SampledTaskGroup as an object

  /** A SampledTaskGroup: its task list and the sampler built over it when the group was
      created. */
  class SampledTaskGroup {
    /** TaskGroup's `tasks`: the list the sampler resolved the points of, in place. */
    const tasks: seq<Task>
    const sampler: Sampler.TaskSampler

    constructor (s: Sampler.TaskSampler)
      ensures tasks == s.tasks && sampler == s
    {
      tasks := s.tasks;
      sampler := s;
    }

    ghost predicate Valid()
      reads sampler
    {
      sampler.Valid() && tasks == sampler.tasks
    }

    /** The group as a node of the composite. */
    function Node(): (g: TaskGroup)
      requires Valid()
      reads sampler
      ensures g.Sampled? && g.sampler.tasks == tasks
    {
      Sampled(SamplerState(sampler.tasks, sampler.taskConstraints, sampler.poolConstraint,
                           sampler.tasksPerPool, sampler.permute))
    }

    /** `get_tasks(seed, source)`: the sampler's draw, nothing else. */
    method GetTasks(bits: Bits, seed: int, source: bool) returns (r: Result<seq<Task>>)
      requires Valid()
      modifies sampler
      ensures Valid() && Node() == old(Node())
      ensures var R := Sampling.GetTasks(Seeded(bits, seed), tasks, sampler.taskConstraints, sampler.poolConstraint,
                                         sampler.tasksPerPool, sampler.permute, source);
        && (R.Err? ==> r == Err(R.error))
        && (R.Ok? ==> r == Ok(R.value.0))
    {
      r := sampler.GetTasks(bits, seed, source);
    }
  }

  /** `SampledTaskGroup(tasks, task_constraints, pool_constraint, permute)`: the sampler is
      built, and so the constraints validated, when the group is created; a failure there
      is the group's failure.  The group's tasks are the sampler's, points resolved. */
  method NewSampledTaskGroup(g: Random, tasks: seq<Task>, cs: seq<TaskConstraint>, pc: Option<PoolConstraint>,
                             permute: bool, scorer: Sampler.Scorer) returns (r: Result<SampledTaskGroup>)
    ensures Sampler.ResolveAll(tasks, scorer).Err? ==> r == Err(AssertionError(NotebookMissing))
    ensures Sampler.ResolveAll(tasks, scorer).Ok? ==>
      var v := Validator.ValidatorOf(Sampler.ResolveAll(tasks, scorer).value, GroupOf(cs), pc);
      && (ValidatorScores.ValidationOf(v).Fail? ==> r == Err(ValidatorScores.ValidationOf(v).error))
      && (r.Ok? <==> ValidatorScores.ValidationOf(v) == Pass)
    ensures r.Ok? ==>
      && fresh(r.value) && fresh(r.value.sampler) && r.value.Valid()
      && r.value.tasks == Sampler.ResolveAll(tasks, scorer).value
      && r.value.Node().sampler == SamplerState(r.value.tasks, GroupOf(cs), pc, Sampler.TasksPerPoolOf(GroupOf(cs)), permute)
  {
    var s := Sampler.NewTaskSampler(g, tasks, cs, pc, permute, scorer);
    if s.Err? {
      return Err(s.error);
    }
    var group := new SampledTaskGroup(s.value);
    r := Ok(group);
  }
}
