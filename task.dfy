/** The Task record.  Equality of datatype values is field-wise over
    (pool, name, root, points), as for the source's dataclass. */
module Tasks {
  import opened PySeq

  datatype Task = Task(pool: string, name: string, root: string, points: int)

  /** `Task(pool, name)`: no root yet and the points sentinel -1 ("not resolved"). */
  function NewTask(pool: string, name: string): (t: Task)
    ensures t.pool == pool && t.name == name
    ensures t.root == "" && !Resolved(t)
  {
    Task(pool, name, "", -1)
  }

  /** Points are known once they are non-negative. */
  predicate Resolved(t: Task) { t.points >= 0 }

  /** `os.path.join(a, b)` for '/'-separated paths: an absolute b replaces a, an empty
      or '/'-terminated a is extended directly, otherwise one separator is inserted. */
  function Join(a: string, b: string): (r: string)
    ensures |b| > 0 && b[0] == '/' ==> r == b
    ensures !(|b| > 0 && b[0] == '/') ==> |r| >= |b| && r[|r| - |b|..] == b
    ensures !(|b| > 0 && b[0] == '/') ==> |r| >= |a| && r[..|a|] == a
    ensures a == "" ==> r == b
    ensures !(|b| > 0 && b[0] == '/') && a != "" ==>
      r == if a[|a| - 1] == '/' then a + b else a + "/" + b
  {
    if |b| > 0 && b[0] == '/' then b else Sep(a) + b
  }

  /** `relpath`: the task's directory relative to the pools' parent; it ends in the
      task's name, and is just the name when the pool is empty. */
  function RelPath(t: Task): (r: string)
    ensures |r| >= |t.name| && r[|r| - |t.name|..] == t.name
    ensures t.pool == "" ==> r == t.name
  {
    Join(t.pool, t.name)
  }

  /** `path`, `os.path.join(root, pool, name)`: the root joined with `relpath`. */
  function Path(t: Task): (r: string)
    ensures r == Join(t.root, RelPath(t))
    ensures |r| >= |t.name| && r[|r| - |t.name|..] == t.name
  {
    JoinAssoc(t.root, t.pool, t.name);
    Join(Join(t.root, t.pool), t.name)
  }

  /** `notebook_path`: the notebook `name.ipynb` inside the task's directory. */
  function NotebookPath(t: Task): (r: string)
    ensures |r| >= |t.name| + 6 && r[|r| - |t.name| - 6..] == t.name + ".ipynb"
    ensures !(|t.name| > 0 && t.name[0] == '/') ==> |r| > |Path(t)| && r[..|Path(t)|] == Path(t)
  {
    var nb := t.name + ".ipynb";
    assert |t.name| > 0 ==> nb[0] == t.name[0];
    assert |t.name| == 0 ==> nb[0] == '.';
    Join(Path(t), nb)
  }

  /** Joining is associative: `os.path.join(a, b, c)` is a joined with b joined with c. */
  lemma JoinAssoc(a: string, b: string, c: string)
    ensures Join(Join(a, b), c) == Join(a, Join(b, c))
  {
    if |c| > 0 && c[0] == '/' {
    } else if |b| > 0 && b[0] == '/' {
      JoinAbsolute(b, c);
    } else if b == "" {
      JoinEmptyMiddle(a, c);
    } else {
      JoinAssocRelative(a, b, c);
    }
  }

  lemma JoinAbsolute(b: string, c: string)
    requires |b| > 0 && b[0] == '/'
    ensures |Join(b, c)| > 0 && Join(b, c)[0] == '/'
  {
  }

  lemma JoinEmptyMiddle(a: string, c: string)
    requires !(|c| > 0 && c[0] == '/')
    ensures Join(Join(a, ""), c) == Join(a, Join("", c))
  {
    JoinRelative(a, c);
    JoinRelative(a, "");
    JoinRelative(Sep(a), c);
    assert Sep(a) + "" == Sep(a);
  }

  lemma JoinAssocRelative(a: string, b: string, c: string)
    requires b != "" && b[0] != '/' && !(|c| > 0 && c[0] == '/')
    ensures Join(Join(a, b), c) == Join(a, Join(b, c))
  {
    JoinLeft(a, b, c);
    JoinRight(a, b, c);
    ConcatAssoc(Sep(a), Sep(b), c);
  }

  lemma JoinLeft(a: string, b: string, c: string)
    requires b != "" && b[0] != '/' && !(|c| > 0 && c[0] == '/')
    ensures Join(Join(a, b), c) == Sep(a) + Sep(b) + c
  {
    assert Join(a, b) == Sep(a) + b;
    SepAppend(Sep(a), b);
  }

  lemma JoinRight(a: string, b: string, c: string)
    requires b != "" && b[0] != '/' && !(|c| > 0 && c[0] == '/')
    ensures Join(a, Join(b, c)) == Sep(a) + (Sep(b) + c)
  {
    var bc := Sep(b) + c;
    assert Join(b, c) == bc;
    assert bc[0] == b[0];
  }

  /** The directory prefix Join puts in front of a relative path: a itself when empty
      or '/'-terminated, otherwise a and one separator. */
  function Sep(a: string): string
  {
    if a == "" || a[|a| - 1] == '/' then a else a + "/"
  }

  lemma JoinRelative(a: string, b: string)
    requires !(|b| > 0 && b[0] == '/')
    ensures Join(a, b) == Sep(a) + b
    ensures Sep(Sep(a)) == Sep(a)
  {
  }

  lemma SepAppend(x: string, b: string)
    requires b != ""
    ensures Sep(x + b) == x + Sep(b)
  {
    assert (x + b)[|x + b| - 1] == b[|b| - 1];
    if b[|b| - 1] != '/' {
      assert x + b + "/" == x + (b + "/");
    }
  }

  /** A task still without a root has its path relative to the pool directory. */
  lemma PathWithoutRoot(t: Task)
    requires t.root == ""
    ensures Path(t) == RelPath(t)
  {
  }

  /** Joining two non-empty '/'-free components inserts exactly one separator. */
  lemma JoinPlain(a: string, b: string)
    requires a != "" && b != "" && '/' !in a && '/' !in b
    ensures Join(a, b) == a + "/" + b
    ensures (a + "/" + b)[|a + "/" + b| - 1] == b[|b| - 1] && b[|b| - 1] != '/'
  {
    assert a[|a| - 1] in a && b[0] in b && b[|b| - 1] in b;
  }

  /** For a relative pool, a root, pool and name all free of '/' the path is
      root/pool/name and the notebook lies inside it as name.ipynb. */
  lemma PathLayout(t: Task)
    requires t.root != "" && t.pool != "" && t.name != ""
    requires '/' !in t.root && '/' !in t.pool && '/' !in t.name
    ensures Path(t) == t.root + "/" + t.pool + "/" + t.name
    ensures RelPath(t) == t.pool + "/" + t.name
    ensures NotebookPath(t) == Path(t) + "/" + t.name + ".ipynb"
  {
    JoinPlain(t.pool, t.name);
    PathPlain(t);
    NotebookPlain(Path(t), t.name);
  }

  lemma PathPlain(t: Task)
    requires t.root != "" && t.pool != "" && t.name != ""
    requires '/' !in t.root && '/' !in t.pool && '/' !in t.name
    ensures Path(t) == t.root + "/" + t.pool + "/" + t.name
  {
    JoinPlain(t.root, t.pool);
    var rp := t.root + "/" + t.pool;
    SepAppend(t.root + "/", t.pool);
    SepPlain(t.pool);
    assert t.name[0] in t.name;
    assert Join(rp, t.name) == Sep(rp) + t.name;
    assert Sep(rp) == t.root + "/" + t.pool + "/";
  }

  lemma NotebookPlain(path: string, name: string)
    requires name != "" && '/' !in name && path != "" && path[|path| - 1] != '/'
    ensures Join(path, name + ".ipynb") == path + "/" + name + ".ipynb"
  {
    var nb := name + ".ipynb";
    assert nb[0] == name[0] && name[0] in name;
    assert path + "/" + nb == path + "/" + name + ".ipynb";
  }

  lemma SepPlain(a: string)
    requires a != "" && '/' !in a
    ensures Sep(a) == a + "/"
  {
    assert a[|a| - 1] in a;
  }
}
