/** Python list operations used by the modelled code, written out over Dafny sequences. */
module PySeq {

  /** Python's normalisation of a slice start `s[i:]` for a list of length `n`. */
  function SliceIndex(i: int, n: nat): (r: nat)
    ensures r <= n
    ensures 0 <= i ==> r == if i <= n then i else n
    ensures i < 0 ==> r == if -i <= n then n + i else 0
  {
    if i < 0 then (if -i <= n then n + i else 0) else if i <= n then i else n
  }

  /** `s[-k:]`: for k > 0 the last min(k, |s|) elements, for k == 0 the whole list,
      for k < 0 the list without its first |k| elements. */
  function PyTail<T>(s: seq<T>, k: int): (r: seq<T>)
    ensures k == 0 ==> r == s
    ensures k > 0 ==> |r| == (if k <= |s| then k else |s|) && r == s[|s| - |r|..]
    ensures k < 0 ==> r == (if -k <= |s| then s[-k..] else [])
  {
    s[SliceIndex(-k, |s|)..]
  }

  /** What `del s[-k:]` leaves behind: the complement of `PyTail(s, k)`. */
  function PyDropTail<T>(s: seq<T>, k: int): (r: seq<T>)
    ensures r + PyTail(s, k) == s
    ensures k == 0 ==> r == []
  {
    s[..SliceIndex(-k, |s|)]
  }

  /** The last k elements, and none at all when k <= 0. */
  function LastN<T>(s: seq<T>, k: int): (r: seq<T>)
    ensures k <= 0 ==> r == []
    ensures k > 0 ==> r == PyTail(s, k)
    ensures |r| <= |s| && r == s[|s| - |r|..]
  {
    if k <= 0 then [] else PyTail(s, k)
  }

  /** The elements of xs in order of first appearance, each once. */
  function Distinct<T(==,!new)>(xs: seq<T>): (r: seq<T>)
    ensures forall x :: x in r <==> x in xs
    ensures NoDup(r)
  {
    var r := DistinctAfter(xs, []);
    assert [] + r == r;
    r
  }

  function DistinctAfter<T(==,!new)>(xs: seq<T>, seen: seq<T>): (r: seq<T>)
    requires NoDup(seen)
    ensures forall x :: x in r <==> x in xs && x !in seen
    ensures NoDup(seen + r)
    decreases |xs|
  {
    if xs == [] then []
    else if xs[0] in seen then DistinctAfter(xs[1..], seen)
    else
      var rest := DistinctAfter(xs[1..], seen + [xs[0]]);
      assert seen + ([xs[0]] + rest) == seen + [xs[0]] + rest;
      [xs[0]] + rest
  }

  /** Appending one element extends the first-appearance order only when it is new. */
  lemma {:induction false} DistinctSnoc<T(!new)>(xs: seq<T>, x: T)
    ensures Distinct(xs + [x]) == Distinct(xs) + (if x in xs then [] else [x])
  {
    DistinctAfterSnoc(xs, [], x);
  }

  lemma {:induction false} DistinctAfterSnoc<T(!new)>(xs: seq<T>, seen: seq<T>, x: T)
    requires NoDup(seen)
    ensures DistinctAfter(xs + [x], seen)
         == DistinctAfter(xs, seen) + (if x in xs || x in seen then [] else [x])
    decreases |xs|
  {
    if xs == [] {
      assert [] + [x] == [x];
      assert [x][1..] == [];
    } else {
      ConsSnoc(xs, x);
      Uncons(xs);
      if xs[0] in seen {
        DistinctAfterSnoc(xs[1..], seen, x);
      } else {
        var seen' := seen + [xs[0]];
        NoDupSnoc(seen, xs[0]);
        DistinctAfterSnoc(xs[1..], seen', x);
        ConcatAssoc([xs[0]], DistinctAfter(xs[1..], seen'), if x in xs[1..] || x in seen' then [] else [x]);
      }
    }
  }

  lemma ConsSnoc<T>(xs: seq<T>, x: T)
    requires xs != []
    ensures (xs + [x])[0] == xs[0] && (xs + [x])[1..] == xs[1..] + [x]
  {
  }

  lemma NoDupSnoc<T>(xs: seq<T>, y: T)
    requires NoDup(xs) && y !in xs
    ensures NoDup(xs + [y])
  {
  }

  predicate NoDup<T(==)>(xs: seq<T>) {
    forall i, j :: 0 <= i < j < |xs| ==> xs[i] != xs[j]
  }

  lemma ConcatAssoc<T>(a: seq<T>, b: seq<T>, c: seq<T>)
    ensures a + (b + c) == (a + b) + c
  {
  }

  lemma FullSlice<T>(xs: seq<T>)
    ensures xs[..|xs|] == xs
  {
  }

  lemma SplitAt<T>(d: seq<T>, rest: seq<T>)
    ensures (d + rest)[..|d|] == d && (d + rest)[|d|..] == rest
  {
  }

  lemma TakeSnoc<T>(s: seq<T>, i: int)
    requires 0 <= i < |s|
    ensures s[..i + 1] == s[..i] + [s[i]] && s[i..][1..] == s[i + 1..]
  {
  }

  /** A non-empty list counts as its first element plus the rest. */
  lemma Uncons<T>(xs: seq<T>)
    requires xs != []
    ensures multiset(xs) == multiset{xs[0]} + multiset(xs[1..])
    ensures forall x :: x in xs <==> x == xs[0] || x in xs[1..]
  {
    assert xs == [xs[0]] + xs[1..];
  }

  /** A non-empty list counts as its prefix plus its last element. */
  lemma Unsnoc<T>(xs: seq<T>)
    requires xs != []
    ensures multiset(xs) == multiset(xs[..|xs| - 1]) + multiset{xs[|xs| - 1]}
    ensures forall x :: x in xs[..|xs| - 1] ==> x in xs
  {
    assert xs == xs[..|xs| - 1] + [xs[|xs| - 1]];
  }

  /** A list cut around position j: the element there and the others around it. */
  lemma CutAt<T>(ys: seq<T>, j: int)
    requires 0 <= j < |ys|
    ensures ys == ys[..j] + ([ys[j]] + ys[j + 1..])
    ensures multiset(ys) == multiset(ys[..j] + ys[j + 1..]) + multiset{ys[j]}
    ensures forall y :: y in ys[..j] + ys[j + 1..] ==> y in ys
  {
    assert ys == ys[..j] + [ys[j]] + ys[j + 1..];
  }

  lemma CancelOne<T>(a: multiset<T>, b: multiset<T>, x: T)
    requires a + multiset{x} == b + multiset{x}
    ensures a == b
  {
    assert forall y :: a[y] == (a + multiset{x})[y] - multiset{x}[y];
    assert forall y :: b[y] == (b + multiset{x})[y] - multiset{x}[y];
  }

  lemma NoDupTail<T>(xs: seq<T>)
    requires NoDup(xs) && xs != []
    ensures NoDup(xs[1..]) && xs[0] !in xs[1..]
  {
    assert forall i :: 0 <= i < |xs| - 1 ==> xs[1..][i] == xs[i + 1];
  }

  /** A list without duplicates holds every value at most once. */
  lemma {:induction false} NoDupCount<T>(xs: seq<T>, x: T)
    requires NoDup(xs)
    ensures multiset(xs)[x] <= 1
  {
    if xs != [] {
      NoDupTail(xs);
      NoDupCount(xs[1..], x);
      Uncons(xs);
    }
  }

  lemma TwoCopies<T>(xs: seq<T>, i: nat, j: nat)
    requires i < j < |xs|
    ensures xs[i] == xs[j] ==> multiset(xs)[xs[i]] >= 2
  {
    assert xs == xs[..i] + [xs[i]] + xs[i + 1..j] + [xs[j]] + xs[j + 1..];
  }

  /** Drawing from a list without duplicates yields a list without duplicates. */
  lemma SubNoDup<T>(a: seq<T>, b: seq<T>)
    requires multiset(a) <= multiset(b) && NoDup(b)
    ensures NoDup(a)
  {
    forall i, j | 0 <= i < j < |a| ensures a[i] != a[j] {
      TwoCopies(a, i, j);
      NoDupCount(b, a[i]);
    }
  }

  /** Two duplicate-free lists with no common element concatenate without duplicates. */
  lemma NoDupConcat<T>(a: seq<T>, b: seq<T>)
    requires NoDup(a) && NoDup(b)
    requires forall x :: x in a ==> x !in b
    ensures NoDup(a + b)
  {
    var c := a + b;
    forall i, j | 0 <= i < j < |c| ensures c[i] != c[j] {
      if i < |a| && j >= |a| {
        assert c[i] in a && c[j] == b[j - |a|];
      }
    }
  }

  /** The parts of a duplicate-free concatenation are duplicate-free and disjoint. */
  lemma NoDupSplit<T>(a: seq<T>, b: seq<T>)
    requires NoDup(a + b)
    ensures NoDup(a) && NoDup(b)
    ensures forall x :: x in a ==> x !in b
  {
    var c := a + b;
    assert forall i :: 0 <= i < |a| ==> c[i] == a[i];
    assert forall i :: 0 <= i < |b| ==> c[|a| + i] == b[i];
    forall i, j | 0 <= i < |a| && 0 <= j < |b| ensures a[i] != b[j] {
      assert c[i] == a[i] && c[|a| + j] == b[j];
    }
  }

  /** A change a -> a' balanced by g and x stays balanced next to an unchanged part. */
  lemma MultisetFrame<T>(a: multiset<T>, a': multiset<T>, rest: multiset<T>, g: multiset<T>, x: multiset<T>)
    requires a' + g == a + x
    ensures (a' + rest) + g == (a + rest) + x
    ensures (rest + a') + g == (rest + a) + x
  {
    assert (a' + rest) + g == (a' + g) + rest;
    assert (rest + a') + g == (a' + g) + rest;
  }

  /** Two removals in a row remove their sum. */
  lemma MultisetChain<T>(m1: multiset<T>, m2: multiset<T>, f0: multiset<T>, f1: multiset<T>, f2: multiset<T>)
    requires m1 + f1 == f0 && m2 + f2 == f1
    ensures (m1 + m2) + f2 == f0
  {
  }

  /** Cancelling what was kept: if a + g == f + k and g is k plus t, then a + t == f. */
  lemma MultisetCancel<T>(a: multiset<T>, f: multiset<T>, g: multiset<T>, k: multiset<T>, t: multiset<T>)
    requires a + g == f + k && g == k + t
    ensures a + t == f
  {
    forall x ensures (a + t)[x] == f[x] {
      assert (a + g)[x] == (f + k)[x];
    }
  }

  /** Remove the first element equal to x, as `list.remove(x)` does when x is present. */
  function RemoveFirst<T(==)>(xs: seq<T>, x: T): (r: seq<T>)
    ensures x in xs ==> multiset(r) + multiset{x} == multiset(xs)
    ensures x !in xs ==> r == xs
  {
    if xs == [] then []
    else if xs[0] == x then
      assert xs == [xs[0]] + xs[1..];
      xs[1..]
    else
      assert xs == [xs[0]] + xs[1..];
      [xs[0]] + RemoveFirst(xs[1..], x)
  }

  /** Concatenation of a sequence of lists. */
  function Concat<T>(parts: seq<seq<T>>): (r: seq<T>)
  {
    if parts == [] then [] else parts[0] + Concat(parts[1..])
  }

  lemma {:induction false} ConcatAppend<T>(parts: seq<seq<T>>, last: seq<T>)
    ensures Concat(parts + [last]) == Concat(parts) + last
  {
    if parts == [] {
      assert [] + [last] == [last];
    } else {
      assert (parts + [last])[1..] == parts[1..] + [last];
      ConcatAppend(parts[1..], last);
    }
  }

  /** Every element of every part is in the concatenation. */
  lemma {:induction false} InConcat<T>(parts: seq<seq<T>>, k: nat, j: nat)
    requires k < |parts| && j < |parts[k]|
    ensures parts[k][j] in Concat(parts)
    decreases k
  {
    if k > 0 {
      InConcat(parts[1..], k - 1, j);
    }
  }

  /** `s.replace(a, b)` for single characters. */
  function ReplaceChar(s: string, a: char, b: char): (r: string)
    ensures |r| == |s|
    ensures forall i :: 0 <= i < |s| ==> r[i] == (if s[i] == a then b else s[i])
  {
    if s == [] then [] else [if s[0] == a then b else s[0]] + ReplaceChar(s[1..], a, b)
  }
}
