/** What generate_ids leaves in each cell: the id the last assignment to it gives. */
module TaskIdsLemmas {
  import opened Wrappers
  import opened PySeq
  import opened PyFormat
  import opened TaskIds

  /** The id the last assignment to cell i in ws gives it, if any assignment does. */
  function LastWrite(ws: seq<Write>, i: nat): Option<string>
  {
    if ws == [] then None
    else if ws[|ws| - 1].index == i then Some(ws[|ws| - 1].id)
    else LastWrite(ws[..|ws| - 1], i)
  }

  function IdOr(o: Option<string>, otherwise: string): string
  {
    match o
    case Some(v) => v
    case None => otherwise
  }

  lemma {:induction false} LastWriteAppend(a: seq<Write>, b: seq<Write>, i: nat)
    ensures LastWrite(a + b, i) == if LastWrite(b, i).Some? then LastWrite(b, i) else LastWrite(a, i)
    decreases |b|
  {
    if b == [] {
      assert a + b == a;
    } else {
      assert (a + b)[..|a + b| - 1] == a + b[..|b| - 1];
      LastWriteAppend(a, b[..|b| - 1], i);
    }
  }

  /** A cell no assignment names keeps its id. */
  lemma {:induction false} LastWriteNone(ws: seq<Write>, i: nat)
    requires forall w :: w in ws ==> w.index != i
    ensures LastWrite(ws, i) == None
    decreases |ws|
  {
    if ws != [] {
      assert forall w :: w in ws[..|ws| - 1] ==> w in ws;
      LastWriteNone(ws[..|ws| - 1], i);
    }
  }

  /** After the assignments each cell holds the id of the last one to it, or its own. */
  lemma {:induction false} ApplyAt(cells: seq<Cell>, ws: seq<Write>, i: nat)
    requires Targets(cells, ws) && i < |cells|
    ensures Apply(cells, ws)[i].gradeId == IdOr(LastWrite(ws, i), cells[i].gradeId)
    decreases |ws|
  {
    if ws != [] {
      var init := ws[..|ws| - 1];
      var w := ws[|ws| - 1];
      assert init + [w] == ws;
      assert forall v :: v in init ==> v in ws;
      ApplyAppend(cells, init, [w]);
      ApplyAt(cells, init, i);
      assert [w][1..] == [];
    }
  }

  /** The subtasks assign only to their own cells, and only to cells of some kind. */
  lemma {:induction false} AllWritesTargets(cells: seq<Cell>, name: string, subtasks: seq<seq<nat>>)
    requires |subtasks| <= MaxSubtasks
    requires forall k, j :: 0 <= k < |subtasks| && 0 <= j < |subtasks[k]| ==> subtasks[k][j] < |cells|
    ensures forall w :: w in AllWrites(cells, name, subtasks) ==> w.index in Concat(subtasks) && KindOf(cells[w.index]) != Other
    decreases |subtasks|
  {
    if subtasks != [] {
      var n := |subtasks| - 1;
      var init := subtasks[..n];
      assert init + [subtasks[n]] == subtasks;
      ConcatAppend(init, subtasks[n]);
      AllWritesTargets(cells, name, init);
    }
  }

  /** Within a subtask without repeated cells, the j-th cell gets the label its kind and
      the counts of description and grade cells before it give. */
  lemma {:induction false} SubtaskLabel(cells: seq<Cell>, id: string, sub: seq<nat>, j: nat)
    requires forall j :: 0 <= j < |sub| ==> sub[j] < |cells|
    requires NoDup(sub) && j < |sub|
    ensures LastWrite(SubtaskWrites(cells, id, sub), sub[j])
         == Label(cells[sub[j]], id, CountKind(cells, sub[..j], Description), CountKind(cells, sub[..j], Grade))
    decreases |sub|, 1
  {
    if j == |sub| - 1 {
      SubtaskLabelLast(cells, id, sub);
    } else {
      SubtaskLabelInit(cells, id, sub, j);
    }
  }

  /** SubtaskLabel for a cell before the last one, from the subtask without its last cell. */
  lemma {:induction false} SubtaskLabelInit(cells: seq<Cell>, id: string, sub: seq<nat>, j: nat)
    requires forall j :: 0 <= j < |sub| ==> sub[j] < |cells|
    requires NoDup(sub) && j < |sub| - 1
    ensures LastWrite(SubtaskWrites(cells, id, sub), sub[j])
         == Label(cells[sub[j]], id, CountKind(cells, sub[..j], Description), CountKind(cells, sub[..j], Grade))
    decreases |sub|, 0
  {
    var init := sub[..|sub| - 1];
    SubtaskLabelEarlier(cells, id, sub, j);
    assert init[j] == sub[j] && init[..j] == sub[..j];
    assert NoDup(init);
    SubtaskLabel(cells, id, init, j);
  }

  lemma SubtaskLabelLast(cells: seq<Cell>, id: string, sub: seq<nat>)
    requires forall j :: 0 <= j < |sub| ==> sub[j] < |cells|
    requires NoDup(sub) && sub != []
    ensures var n := |sub| - 1;
      LastWrite(SubtaskWrites(cells, id, sub), sub[n])
      == Label(cells[sub[n]], id, CountKind(cells, sub[..n], Description), CountKind(cells, sub[..n], Grade))
  {
    var n := |sub| - 1;
    var init := sub[..n];
    var last := sub[n];
    var l := Label(cells[last], id, CountKind(cells, init, Description), CountKind(cells, init, Grade));
    LastWriteAppend(SubtaskWrites(cells, id, init), Emit(last, l), last);
    if l.None? {
      assert last !in init by {
        assert forall i :: 0 <= i < n ==> init[i] == sub[i];
      }
      LastWriteNone(SubtaskWrites(cells, id, init), last);
    }
  }

  lemma SubtaskLabelEarlier(cells: seq<Cell>, id: string, sub: seq<nat>, j: nat)
    requires forall j :: 0 <= j < |sub| ==> sub[j] < |cells|
    requires NoDup(sub) && j < |sub| - 1
    ensures LastWrite(SubtaskWrites(cells, id, sub), sub[j]) == LastWrite(SubtaskWrites(cells, id, sub[..|sub| - 1]), sub[j])
  {
    var n := |sub| - 1;
    var init := sub[..n];
    var last := sub[n];
    var l := Label(cells[last], id, CountKind(cells, init, Description), CountKind(cells, init, Grade));
    LastWriteAppend(SubtaskWrites(cells, id, init), Emit(last, l), sub[j]);
    assert sub[j] != last;
  }

  /** Across subtasks without shared cells, cell k/j gets the label of subtask k. */
  lemma {:induction false} AllLabel(cells: seq<Cell>, name: string, subtasks: seq<seq<nat>>, k: nat, j: nat)
    requires |subtasks| <= MaxSubtasks
    requires forall k, j :: 0 <= k < |subtasks| && 0 <= j < |subtasks[k]| ==> subtasks[k][j] < |cells|
    requires NoDup(Concat(subtasks)) && k < |subtasks| && j < |subtasks[k]|
    ensures LastWrite(AllWrites(cells, name, subtasks), subtasks[k][j])
         == Label(cells[subtasks[k][j]], SubtaskId(name, k),
                  CountKind(cells, subtasks[k][..j], Description), CountKind(cells, subtasks[k][..j], Grade))
    decreases |subtasks|
  {
    var n := |subtasks| - 1;
    var init := subtasks[..n];
    var i := subtasks[k][j];
    assert init + [subtasks[n]] == subtasks;
    ConcatAppend(init, subtasks[n]);
    NoDupSplit(Concat(init), subtasks[n]);
    LastWriteAppend(AllWrites(cells, name, init), SubtaskWrites(cells, SubtaskId(name, n), subtasks[n]), i);
    if k == n {
      SubtaskLabel(cells, SubtaskId(name, n), subtasks[n], j);
      assert i in subtasks[n];
      AllWritesTargets(cells, name, init);
      LastWriteNone(AllWrites(cells, name, init), i);
    } else {
      assert init[k] == subtasks[k];
      InConcat(init, k, j);
      LastWriteNone(SubtaskWrites(cells, SubtaskId(name, n), subtasks[n]), i);
      AllLabel(cells, name, init, k, j);
    }
  }

  /** generate_ids gives the header, if there is one, the joined subtask ids, and leaves
      alone every other cell that no subtask lists or that is neither a description, a
      solution nor a grade cell. */
  lemma GeneratedHeaderAndUntouched(cells: seq<Cell>, name: string, info: TaskInfo)
    requires |info.subtasks| <= MaxSubtasks && InRange(cells, info)
    ensures var r := Apply(cells, Writes(cells, name, info));
      && (info.header.Some? ==> r[info.header.value].gradeId == HeaderId(name, |info.subtasks|))
      && (forall i :: 0 <= i < |cells| && info.header != Some(i) && (i !in Concat(info.subtasks) || KindOf(cells[i]) == Other)
            ==> r[i] == cells[i])
  {
    var ws := Writes(cells, name, info);
    var all := AllWrites(cells, name, info.subtasks);
    var tail := if info.header.Some? then [Write(info.header.value, HeaderId(name, |info.subtasks|))] else [];
    AllWritesTargets(cells, name, info.subtasks);
    if info.header.Some? {
      ApplyAt(cells, ws, info.header.value);
    }
    forall i | 0 <= i < |cells| && info.header != Some(i) && (i !in Concat(info.subtasks) || KindOf(cells[i]) == Other)
      ensures Apply(cells, ws)[i] == cells[i]
    {
      LastWriteNone(ws, i);
      ApplyAt(cells, ws, i);
    }
  }

  /** generate_ids labels the j-th cell of subtask k by the k-th subtask id and the
      description and grade cells before it in that subtask, when no cell is listed twice
      and the header is not one of the subtasks' cells. */
  lemma GeneratedLabel(cells: seq<Cell>, name: string, info: TaskInfo, k: nat, j: nat)
    requires |info.subtasks| <= MaxSubtasks && InRange(cells, info)
    requires NoDup(Concat(info.subtasks)) && k < |info.subtasks| && j < |info.subtasks[k]|
    requires info.header != Some(info.subtasks[k][j])
    ensures var i := info.subtasks[k][j];
      Apply(cells, Writes(cells, name, info))[i].gradeId
      == IdOr(Label(cells[i], SubtaskId(name, k),
                    CountKind(cells, info.subtasks[k][..j], Description),
                    CountKind(cells, info.subtasks[k][..j], Grade)),
              cells[i].gradeId)
  {
    var i := info.subtasks[k][j];
    var all := AllWrites(cells, name, info.subtasks);
    var tail := if info.header.Some? then [Write(info.header.value, HeaderId(name, |info.subtasks|))] else [];
    AllWritesTargets(cells, name, info.subtasks);
    AllLabel(cells, name, info.subtasks, k, j);
    LastWriteAppend(all, tail, i);
    ApplyAt(cells, all + tail, i);
  }

  /** Different subtasks get different ids: their letters differ. */
  lemma SubtaskIdsDistinct(name: string, k1: nat, k2: nat)
    requires k1 < MaxSubtasks && k2 < MaxSubtasks && k1 != k2
    ensures SubtaskId(name, k1) != SubtaskId(name, k2)
  {
    var a := SubtaskId(name, k1);
    var b := SubtaskId(name, k2);
    assert a[|a| - 1] != b[|b| - 1];
  }

  /** A later cell of a subtask has seen at least as many cells of each kind, and one
      more when the earlier cell is of that kind. */
  lemma {:induction false} CountKindMonotone(cells: seq<Cell>, s: seq<nat>, a: nat, b: nat, kind: CellKind)
    requires a < b <= |s| && forall j :: 0 <= j < |s| ==> s[j] < |cells|
    ensures CountKind(cells, s[..a], kind) + (if KindOf(cells[s[a]]) == kind then 1 else 0) <= CountKind(cells, s[..b], kind)
    decreases b
  {
    assert s[..b][..b - 1] == s[..b - 1];
    if a < b - 1 {
      CountKindMonotone(cells, s, a, b - 1, kind);
    }
  }

  lemma SuffixDiffers(p: string, x: string, y: string)
    requires x != y
    ensures p + x != p + y
  {
    assert (p + x)[|p|..] == x && (p + y)[|p|..] == y;
  }

  /** Two description cells, or two grade cells, of one subtask get different ids. */
  lemma LabelsDistinct(cells: seq<Cell>, id: string, sub: seq<nat>, j1: nat, j2: nat)
    requires j1 < j2 < |sub| && forall j :: 0 <= j < |sub| ==> sub[j] < |cells|
    requires KindOf(cells[sub[j1]]) == KindOf(cells[sub[j2]])
    requires KindOf(cells[sub[j1]]) == Description || KindOf(cells[sub[j1]]) == Grade
    ensures Label(cells[sub[j1]], id, CountKind(cells, sub[..j1], Description), CountKind(cells, sub[..j1], Grade))
         != Label(cells[sub[j2]], id, CountKind(cells, sub[..j2], Description), CountKind(cells, sub[..j2], Grade))
  {
    var kind := KindOf(cells[sub[j1]]);
    CountKindMonotone(cells, sub, j1, j2, kind);
    var m := CountKind(cells, sub[..j1], kind);
    var n := CountKind(cells, sub[..j2], kind);
    StrInjective(m, n);
    if kind == Description {
      SuffixDiffers(id + "_Description", Str(m), Str(n));
    } else {
      SuffixDiffers("test_" + id, Str(m), Str(n));
    }
  }
}
