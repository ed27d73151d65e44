/** The path helpers of `CopyFiles`: the dotted import path of a Python file, a fresh
    name for a file whose destination is taken, and copying a file without overwriting.
    Paths are '/'-separated strings, the filesystem a map from paths to file contents. */
module CopyFiles {
  import opened Wrappers
  import opened PySeq
  import opened PyFormat
  import opened Tasks

  type Bytes = seq<bv8>

  // ---------------------------------------------------------------------------
  // os.path for '/'-separated paths

  /** `s.rfind(c)`: the last position of c, or -1. */
  function LastIndex(s: string, c: char): (r: int)
    ensures -1 <= r < |s|
    ensures r >= 0 ==> s[r] == c
    ensures forall i :: r < i < |s| ==> s[i] != c
  {
    if s == [] then -1
    else if s[|s| - 1] == c then |s| - 1
    else LastIndex(s[..|s| - 1], c)
  }

  /** `s.rstrip(c)`. */
  function RStrip(s: string, c: char): (r: string)
    ensures |r| <= |s| && r == s[..|r|]
    ensures forall i :: |r| <= i < |s| ==> s[i] == c
    ensures r == [] || r[|r| - 1] != c
  {
    if s == [] || s[|s| - 1] != c then s else RStrip(s[..|s| - 1], c)
  }

  predicate OnlySlashes(s: string)
  {
    forall i :: 0 <= i < |s| ==> s[i] == '/'
  }

  /** `os.path.split(p)`: everything after the last '/' is the tail; the head before it
      loses its trailing slashes unless it consists of nothing else. */
  function Split(p: string): (r: (string, string))
    ensures '/' !in r.1
    ensures |r.1| <= |p| && p[|p| - |r.1|..] == r.1
    ensures |r.1| < |p| ==> p[|p| - |r.1| - 1] == '/'
    ensures |r.0| <= |p| && r.0 == p[..|r.0|]
    ensures r.0 == [] || r.0[|r.0| - 1] != '/' || OnlySlashes(r.0)
  {
    var i := LastIndex(p, '/') + 1;
    var head := p[..i];
    (if head != [] && !OnlySlashes(head) then RStrip(head, '/') else head, p[i..])
  }

  /** `os.path.splitext(p)`: the extension is the last '.' of the last component and what
      follows, unless only dots precede it in that component. */
  function SplitExt(p: string): (r: (string, string))
    ensures r.0 + r.1 == p
    ensures r.1 == [] || (r.1[0] == '.' && '/' !in r.1 && '.' !in r.1[1..])
  {
    var s := LastIndex(p, '/');
    var d := LastIndex(p, '.');
    if d > s && exists i :: s + 1 <= i < d && p[i] != '.' then
      assert p[..d] + p[d..] == p;
      (p[..d], p[d..])
    else
      assert p + [] == p;
      (p, [])
  }

  lemma SplitDir(d: string, t: string)
    requires d != [] && d[|d| - 1] != '/'
    requires t != [] && '/' !in t
    ensures Split(d + "/" + t) == (d, t)
  {
    var p := d + "/" + t;
    assert p[|d|] == '/';
    assert forall i :: |d| < i < |p| ==> p[i] == t[i - |d| - 1];
    assert LastIndex(p, '/') == |d|;
    var head := p[..|d| + 1];
    assert head == d + "/";
    assert !OnlySlashes(head) by {
      assert head[|d| - 1] == d[|d| - 1];
    }
    assert RStrip(head, '/') == RStrip(d, '/');
    assert p[|d| + 1..] == t;
  }

  lemma SplitExtOf(q: string, e: string)
    requires q != [] && q[|q| - 1] != '/' && q[|q| - 1] != '.'
    requires '.' !in e && '/' !in e
    ensures SplitExt(q + "." + e) == (q, "." + e)
  {
    var p := q + "." + e;
    assert p[|q|] == '.';
    assert forall i :: |q| < i < |p| ==> p[i] == e[i - |q| - 1];
    assert LastIndex(p, '.') == |q|;
    var s := LastIndex(p, '/');
    assert s < |q| - 1 by {
      assert p[|q| - 1] == q[|q| - 1];
    }
    assert p[|q| - 1] != '.';
    assert p[..|q|] == q && p[|q|..] == "." + e;
  }

  // ---------------------------------------------------------------------------
  // get_import_path

  /** `get_import_path(p)`: a package's `__init__.py` stands for its directory, any other
      file for its path without the extension; separators become dots. */
  function ImportPath(p: string): (r: string)
    ensures '/' !in r
  {
    var (head, tail) := Split(p);
    ReplaceChar(if tail == InitFile then head else SplitExt(p).0, '/', '.')
  }

  /** A package `d/__init__.py` imports as its directory, with dots between components. */
  lemma ImportPathPackage(d: string)
    requires d != [] && d[|d| - 1] != '/'
    ensures ImportPath(d + "/__init__.py") == ReplaceChar(d, '/', '.')
  {
    InitFileName();
    SplitDir(d, InitFile);
  }

  const InitFile: string := "__init__.py"

  lemma InitFileName()
    ensures InitFile != [] && '/' !in InitFile
    ensures forall d :: d + "/__init__.py" == d + "/" + InitFile
  {
  }

  /** Any other file `q.e` imports as q, with dots between components. */
  lemma ImportPathModule(q: string, e: string)
    requires q != [] && q[|q| - 1] != '/' && q[|q| - 1] != '.'
    requires '.' !in e && '/' !in e
    requires Split(q + "." + e).1 != InitFile
    ensures ImportPath(q + "." + e) == ReplaceChar(q, '/', '.')
  {
    SplitExtOf(q, e);
  }

  // ---------------------------------------------------------------------------
  // get_new_name and copyfile

  /** `"{}_{}{}".format(name, k, extension)` for the name and extension of a file. */
  function Suffixed(file: string, k: nat): string
  {
    SplitExt(file).0 + "_" + Str(k) + SplitExt(file).1
  }

  lemma MiddleCancel(p: string, x: string, y: string, q: string)
    requires p + x + q == p + y + q
    ensures x == y
  {
    assert |x| == |y|;
    assert (p + x + q)[|p|..|p| + |x|] == x;
    assert (p + y + q)[|p|..|p| + |y|] == y;
  }

  /** Different suffixes give different names, and none is the file's own name. */
  lemma SuffixedDistinct(file: string, k: nat, j: nat)
    ensures k != j ==> Suffixed(file, k) != Suffixed(file, j)
    ensures Suffixed(file, k) != file
  {
    if k != j {
      SuffixesDistinct(SplitExt(file).0, SplitExt(file).1, k, j);
    }
    assert |Suffixed(file, k)| > |file|;
  }

  lemma SuffixesDistinct(name: string, extension: string, k: nat, j: nat)
    requires k != j
    ensures name + "_" + Str(k) + extension != name + "_" + Str(j) + extension
  {
    var x, y := "_" + Str(k), "_" + Str(j);
    assert name + "_" + Str(k) == name + x && name + "_" + Str(j) == name + y;
    if name + x + extension == name + y + extension {
      MiddleCancel(name, x, y, extension);
      assert Str(k) == x[1..] && Str(j) == y[1..];
      StrInjective(k, j);
    }
  }

  /** Joining to one directory keeps names apart when they agree on being absolute. */
  lemma JoinDistinct(dst: string, a: string, b: string)
    requires a != b
    requires (|a| > 0 && a[0] == '/') <==> (|b| > 0 && b[0] == '/')
    ensures Join(dst, a) != Join(dst, b)
  {
  }

  /** So the paths tried for different suffixes differ. */
  lemma CandidatesDistinct(file: string, dst: string, k: nat, j: nat)
    requires k != j
    ensures Join(dst, Suffixed(file, k)) != Join(dst, Suffixed(file, j))
  {
    SuffixedDistinct(file, k, j);
    var name := SplitExt(file).0;
    var a := Suffixed(file, k);
    var b := Suffixed(file, j);
    if name != [] {
      assert a[0] == name[0] && b[0] == name[0];
    } else {
      assert a[0] == '_' && b[0] == '_';
    }
    JoinDistinct(dst, a, b);
  }

  /** What `copyfile(src, dst)` does to the files: when dst exists nothing is copied and
      the status says whether the contents agree; otherwise dst gets src's contents and
      the status is True.  Errors are the FileNotFoundErrors of a missing src and of
      `os.makedirs("")` for a dst without a directory part. */
  function Copy(files: map<string, Bytes>, src: string, dst: string): (r: (Result<bool>, map<string, Bytes>))
    ensures dst in files ==> r.1 == files
    ensures forall p :: p in files ==> p in r.1 && r.1[p] == files[p]
    ensures r.1.Keys <= files.Keys + {dst}
  {
    if dst in files then
      (if src in files then Ok(files[src] == files[dst]) else Err(FileNotFoundError), files)
    else if Split(dst).0 == [] then
      (Err(FileNotFoundError), files)
    else if src !in files then
      (Err(FileNotFoundError), files)
    else
      (Ok(true), files[dst := files[src]])
  }

  /** True means dst now holds what src holds; False means both exist, differ, and
      nothing changed. */
  lemma CopyStatus(files: map<string, Bytes>, src: string, dst: string)
    ensures var (status, after) := Copy(files, src, dst);
      && (status == Ok(true) <==> src in files && dst in after && after[dst] == files[src])
      && (status == Ok(false) <==> src in files && dst in files && files[dst] != files[src])
      && (status == Ok(false) ==> after == files)
      && (status.Err? ==> after == files)
  {
    var (status, after) := Copy(files, src, dst);
    if status == Ok(true) {
      assert src in after && after[src] == files[src];
    }
    if src in files && dst in after && after[dst] == files[src] && dst !in files {
      assert after != files;
    }
  }

  /** Copying again after a successful copy changes nothing and reports equal contents. */
  lemma CopyTwice(files: map<string, Bytes>, src: string, dst: string)
    requires Copy(files, src, dst).0 == Ok(true)
    ensures var after := Copy(files, src, dst).1;
      Copy(after, src, dst) == (Ok(true), after)
  {
    var after := Copy(files, src, dst).1;
    assert src in files;
    assert dst in after && after[dst] == files[src] && after[src] == files[src];
  }

  /** The filesystem the copies act on. */
  class FileSystem {
    var files: map<string, Bytes>

    constructor (files: map<string, Bytes>)
      ensures this.files == files
    {
      this.files := files;
    }

    /** `get_new_name(file, dst)`: the name with the smallest suffix k >= 1 whose path in
        dst is free. */
    method GetNewName(file: string, dst: string) returns (newName: string)
      ensures exists k :: k >= 1 && newName == Suffixed(file, k)
                && Join(dst, newName) !in files
                && forall j :: 1 <= j < k ==> Join(dst, Suffixed(file, j)) in files
      ensures newName != file
    {
      var suffix := 1;
      var (name, extension) := SplitExt(file);
      newName := name + "_" + Str(suffix) + extension;
      ghost var tried: set<string> := {};
      while Join(dst, newName) in files
        invariant suffix >= 1 && newName == Suffixed(file, suffix)
        invariant forall j :: 1 <= j < suffix ==> Join(dst, Suffixed(file, j)) in files
        invariant tried <= files.Keys && |tried| == suffix - 1
        invariant forall j :: j >= suffix ==> Join(dst, Suffixed(file, j)) !in tried
        decreases |files.Keys| - |tried|
      {
        TriedStep(files.Keys, file, dst, tried, suffix);
        tried := tried + {Join(dst, newName)};
        suffix := suffix + 1;
        newName := name + "_" + Str(suffix) + extension;
      }
      SuffixedDistinct(file, suffix, suffix);
    }

    /** `copyfile(src, dst)`. */
    method CopyFile(src: string, dst: string) returns (r: Result<bool>)
      modifies this
      ensures (r, files) == Copy(old(files), src, dst)
    {
      if dst in files {
        if src !in files {
          return Err(FileNotFoundError);
        }
        return Ok(files[src] == files[dst]);
      }
      var (dirs, _) := Split(dst);
      if dirs == [] {
        return Err(FileNotFoundError);
      }
      if src !in files {
        return Err(FileNotFoundError);
      }
      files := files[dst := files[src]];
      return Ok(true);
    }
  }

  /** A taken path joins the paths tried so far; it is new, so the count grows by one. */
  lemma TriedStep(existing: set<string>, file: string, dst: string, tried: set<string>, suffix: nat)
    requires tried <= existing && |tried| == suffix - 1
    requires forall j :: j >= suffix ==> Join(dst, Suffixed(file, j)) !in tried
    requires Join(dst, Suffixed(file, suffix)) in existing
    ensures var tried' := tried + {Join(dst, Suffixed(file, suffix))};
      && tried' <= existing && |tried'| == suffix && |tried'| <= |existing|
      && forall j :: j >= suffix + 1 ==> Join(dst, Suffixed(file, j)) !in tried'
  {
    var path := Join(dst, Suffixed(file, suffix));
    forall j | j > suffix
      ensures Join(dst, Suffixed(file, j)) != path
    {
      CandidatesDistinct(file, dst, j, suffix);
    }
    SubsetCard(tried + {path}, existing);
  }

  lemma SubsetCard<T>(a: set<T>, b: set<T>)
    requires a <= b
    ensures |a| <= |b|
  {
    assert b == a + (b - a);
  }
}
