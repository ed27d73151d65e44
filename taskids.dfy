/** `GenerateTaskIDs.generate_ids`: the nbgrader grade ids of a task notebook's cells,
    derived from the task's name and the notebook's subtask structure. */
module TaskIds {
  import opened Wrappers
  import opened PySeq
  import opened PyFormat

  /** A cell as generate_ids sees it: the three classifications the notebook library
      reports (`is_description`, `is_solution`, `is_grade`) and the cell's grade id. */
  datatype Cell = Cell(description: bool, solution: bool, grade: bool, gradeId: string)

  /** The classification generate_ids acts on: description before solution before grade. */
  datatype CellKind = Description | Solution | Grade | Other

  function KindOf(c: Cell): CellKind
  {
    if c.description then Description
    else if c.solution then Solution
    else if c.grade then Grade
    else Other
  }

  /** `get_task_info(nb)`: the cell indices of each subtask, and the header's index if the
      notebook has one. */
  datatype TaskInfo = TaskInfo(subtasks: seq<seq<nat>>, header: Option<nat>)

  class Notebook {
    var cells: seq<Cell>

    constructor (cells: seq<Cell>)
      ensures this.cells == cells
    {
      this.cells := cells;
    }
  }

  /** Subtask letters run from 'A' through the code points below the surrogate range. */
  const MaxSubtasks: nat := 0xD800 - 65

  /** Every index the task info names is a cell of the notebook. */
  predicate InRange(cells: seq<Cell>, info: TaskInfo)
  {
    && (forall k, j :: 0 <= k < |info.subtasks| && 0 <= j < |info.subtasks[k]| ==> info.subtasks[k][j] < |cells|)
    && (info.header.Some? ==> info.header.value < |cells|)
  }

  /** `"{}_{}".format(name, chr(ord("A") + k))`, the id of the k-th subtask. */
  function SubtaskId(name: string, k: nat): string
    requires k < MaxSubtasks
  {
    name + "_" + [(65 + k) as char]
  }

  /** The ids of the first n subtasks, in subtask order. */
  function SubtaskIds(name: string, n: nat): (r: seq<string>)
    requires n <= MaxSubtasks
    ensures |r| == n && forall k :: 0 <= k < n ==> r[k] == SubtaskId(name, k)
  {
    if n == 0 then [] else SubtaskIds(name, n - 1) + [SubtaskId(name, n - 1)]
  }

  /** How many cells of the given kind the indices name. */
  function CountKind(cells: seq<Cell>, idxs: seq<nat>, kind: CellKind): nat
    requires forall j :: 0 <= j < |idxs| ==> idxs[j] < |cells|
  {
    if idxs == [] then 0
    else CountKind(cells, idxs[..|idxs| - 1], kind) + (if KindOf(cells[idxs[|idxs| - 1]]) == kind then 1 else 0)
  }

  /** The id a cell gets inside a subtask with the given id, when `headers` description
      cells and `tests` grade cells of the subtask came before it; None for other cells. */
  function Label(c: Cell, id: string, headers: nat, tests: nat): (r: Option<string>)
    ensures r.None? <==> KindOf(c) == Other
  {
    match KindOf(c)
    case Description => Some(id + "_Description" + Str(headers))
    case Solution => Some(id)
    case Grade => Some("test_" + id + Str(tests))
    case Other => None
  }

  /** One assignment `cells[index].metadata.nbgrader.grade_id = id`. */
  datatype Write = Write(index: nat, id: string)

  function Emit(i: nat, id: Option<string>): seq<Write>
  {
    match id
    case Some(v) => [Write(i, v)]
    case None => []
  }

  /** The assignments of one subtask, in the order of its cells. */
  function SubtaskWrites(cells: seq<Cell>, id: string, sub: seq<nat>): (r: seq<Write>)
    requires forall j :: 0 <= j < |sub| ==> sub[j] < |cells|
    ensures forall w :: w in r ==> w.index in sub && KindOf(cells[w.index]) != Other
  {
    if sub == [] then []
    else
      var init := sub[..|sub| - 1];
      var i := sub[|sub| - 1];
      SubtaskWrites(cells, id, init)
        + Emit(i, Label(cells[i], id, CountKind(cells, init, Description), CountKind(cells, init, Grade)))
  }

  /** The assignments of the subtasks, subtask by subtask. */
  function AllWrites(cells: seq<Cell>, name: string, subtasks: seq<seq<nat>>): (r: seq<Write>)
    requires |subtasks| <= MaxSubtasks
    requires forall k, j :: 0 <= k < |subtasks| && 0 <= j < |subtasks[k]| ==> subtasks[k][j] < |cells|
    ensures Targets(cells, r)
  {
    if subtasks == [] then []
    else
      var n := |subtasks| - 1;
      AllWrites(cells, name, subtasks[..n]) + SubtaskWrites(cells, SubtaskId(name, n), subtasks[n])
  }

  /** The id of the header cell: all subtask ids joined, then "_Header". */
  function HeaderId(name: string, n: nat): (r: string)
    requires n <= MaxSubtasks
    ensures |r| >= 7 && r[|r| - 7..] == "_Header"
  {
    Concat(SubtaskIds(name, n)) + "_Header"
  }

  /** Everything generate_ids assigns, in order: the subtasks' cells, then the header. */
  function Writes(cells: seq<Cell>, name: string, info: TaskInfo): (r: seq<Write>)
    requires |info.subtasks| <= MaxSubtasks && InRange(cells, info)
    ensures Targets(cells, r)
  {
    AllWrites(cells, name, info.subtasks)
      + (if info.header.Some? then [Write(info.header.value, HeaderId(name, |info.subtasks|))] else [])
  }

  /** The cells after the assignments; a later assignment to a cell overrides an earlier
      one, and nothing but grade ids changes. */
  function Apply(cells: seq<Cell>, ws: seq<Write>): (r: seq<Cell>)
    requires forall w :: w in ws ==> w.index < |cells|
    ensures |r| == |cells|
    ensures forall i :: 0 <= i < |r| ==> r[i] == cells[i].(gradeId := r[i].gradeId)
    decreases |ws|
  {
    if ws == [] then cells
    else
      var w := ws[0];
      assert forall v :: v in ws[1..] ==> v in ws;
      Apply(cells[w.index := cells[w.index].(gradeId := w.id)], ws[1..])
  }

  // ---------------------------------------------------------------------------
  // generate_ids

  /** `generate_ids(nb, name)` with `task` the notebook's task info.  Each subtask gets
      the next letter; within it, description cells are numbered from 0, solution cells
      get the subtask id and grade cells are numbered as tests from 0; finally the header,
      if any, gets the joined ids. */
  method GenerateIds(nb: Notebook, info: TaskInfo, name: string)
    requires |info.subtasks| <= MaxSubtasks && InRange(nb.cells, info)
    modifies nb
    ensures Targets(old(nb.cells), Writes(old(nb.cells), name, info))
    ensures nb.cells == Apply(old(nb.cells), Writes(old(nb.cells), name, info))
  {
    var cells, ids := LabelSubtasks(nb.cells, info.subtasks, name);
    ghost var all := AllWrites(nb.cells, name, info.subtasks);
    if info.header.Some? {
      var h := info.header.value;
      ApplyAppend(nb.cells, all, [Write(h, HeaderId(name, |info.subtasks|))]);
      cells := cells[h := cells[h].(gradeId := Concat(ids) + "_Header")];
    } else {
      assert all + [] == all;
    }
    nb.cells := cells;
  }

  /** The loop over the subtasks: each one's id, then its cells labelled. */
  method LabelSubtasks(cells0: seq<Cell>, subtasks: seq<seq<nat>>, name: string) returns (cells: seq<Cell>, ids: seq<string>)
    requires |subtasks| <= MaxSubtasks
    requires forall k, j :: 0 <= k < |subtasks| && 0 <= j < |subtasks[k]| ==> subtasks[k][j] < |cells0|
    ensures ids == SubtaskIds(name, |subtasks|)
    ensures Targets(cells0, AllWrites(cells0, name, subtasks))
    ensures cells == Apply(cells0, AllWrites(cells0, name, subtasks))
  {
    cells := cells0;
    ids := [];
    var suffix := 65;
    for k := 0 to |subtasks|
      invariant suffix == 65 + k
      invariant ids == SubtaskIds(name, k)
      invariant Targets(cells0, AllWrites(cells0, name, subtasks[..k]))
      invariant cells == Apply(cells0, AllWrites(cells0, name, subtasks[..k]))
    {
      var subtaskId := name + "_" + [suffix as char];
      assert subtaskId == SubtaskId(name, k);
      ids := ids + [subtaskId];
      suffix := suffix + 1;
      AllWritesStep(cells0, name, subtasks, k);
      cells := LabelSubtask(cells, cells0, AllWrites(cells0, name, subtasks[..k]), subtaskId, subtasks[k]);
    }
    FullSlice(subtasks);
  }

  /** The loop over one subtask's cells, counting description and grade cells. */
  method LabelSubtask(cells: seq<Cell>, ghost cells0: seq<Cell>, ghost before: seq<Write>, id: string, subtask: seq<nat>)
    returns (cells': seq<Cell>)
    requires forall j :: 0 <= j < |subtask| ==> subtask[j] < |cells0|
    requires Targets(cells0, before) && cells == Apply(cells0, before)
    ensures Targets(cells0, before + SubtaskWrites(cells0, id, subtask))
    ensures cells' == Apply(cells0, before + SubtaskWrites(cells0, id, subtask))
  {
    cells' := cells;
    var tests := 0;
    var headers := 0;
    assert subtask[..0] == [] && before + [] == before;
    for j := 0 to |subtask|
      invariant headers == CountKind(cells0, subtask[..j], Description)
      invariant tests == CountKind(cells0, subtask[..j], Grade)
      invariant Targets(cells0, SubtaskWrites(cells0, id, subtask[..j]))
      invariant cells' == Apply(cells0, before + SubtaskWrites(cells0, id, subtask[..j]))
    {
      var idx := subtask[j];
      var cell := cells'[idx];
      assert KindOf(cell) == KindOf(cells0[idx]);
      SubtaskStep(cells0, id, subtask, j);
      ApplyAppend(cells0, before + SubtaskWrites(cells0, id, subtask[..j]),
                  Emit(idx, Label(cells0[idx], id, headers, tests)));
      ConcatAssoc(before, SubtaskWrites(cells0, id, subtask[..j]), Emit(idx, Label(cells0[idx], id, headers, tests)));
      if cell.description {
        cells' := cells'[idx := cell.(gradeId := id + "_Description" + Str(headers))];
        headers := headers + 1;
      } else if cell.solution {
        cells' := cells'[idx := cell.(gradeId := id)];
      } else if cell.grade {
        cells' := cells'[idx := cell.(gradeId := "test_" + id + Str(tests))];
        tests := tests + 1;
      }
    }
    FullSlice(subtask);
  }

  /** Every assignment targets a cell of the notebook. */
  predicate Targets(cells: seq<Cell>, ws: seq<Write>)
  {
    forall w :: w in ws ==> w.index < |cells|
  }

  lemma SubtaskStep(cells: seq<Cell>, id: string, sub: seq<nat>, j: nat)
    requires j < |sub| && forall i :: 0 <= i < |sub| ==> sub[i] < |cells|
    requires Targets(cells, SubtaskWrites(cells, id, sub[..j]))
    ensures sub[..j + 1][..j] == sub[..j]
    ensures SubtaskWrites(cells, id, sub[..j + 1])
         == SubtaskWrites(cells, id, sub[..j])
            + Emit(sub[j], Label(cells[sub[j]], id, CountKind(cells, sub[..j], Description), CountKind(cells, sub[..j], Grade)))
    ensures CountKind(cells, sub[..j + 1], Description)
         == CountKind(cells, sub[..j], Description) + (if KindOf(cells[sub[j]]) == Description then 1 else 0)
    ensures CountKind(cells, sub[..j + 1], Grade)
         == CountKind(cells, sub[..j], Grade) + (if KindOf(cells[sub[j]]) == Grade then 1 else 0)
    ensures Targets(cells, SubtaskWrites(cells, id, sub[..j + 1]))
  {
    assert sub[..j + 1][..j] == sub[..j];
  }

  lemma AllWritesStep(cells: seq<Cell>, name: string, subtasks: seq<seq<nat>>, k: nat)
    requires k < |subtasks| <= MaxSubtasks
    requires forall k, j :: 0 <= k < |subtasks| && 0 <= j < |subtasks[k]| ==> subtasks[k][j] < |cells|
    ensures subtasks[..k + 1][..k] == subtasks[..k]
    ensures AllWrites(cells, name, subtasks[..k + 1])
         == AllWrites(cells, name, subtasks[..k]) + SubtaskWrites(cells, SubtaskId(name, k), subtasks[k])
  {
    assert subtasks[..k + 1][..k] == subtasks[..k];
  }

  lemma {:induction false} ApplyAppend(cells: seq<Cell>, a: seq<Write>, b: seq<Write>)
    requires Targets(cells, a) && Targets(cells, b)
    ensures Targets(cells, a + b)
    ensures Apply(cells, a + b) == Apply(Apply(cells, a), b)
    decreases |a|
  {
    if a == [] {
      assert a + b == b;
    } else {
      var w := a[0];
      var c1 := cells[w.index := cells[w.index].(gradeId := w.id)];
      assert (a + b)[0] == w && (a + b)[1..] == a[1..] + b;
      assert forall v :: v in a[1..] ==> v in a;
      ApplyAppend(c1, a[1..], b);
    }
  }
}
