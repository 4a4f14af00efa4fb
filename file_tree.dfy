/** The part of the file system the build service touches, as a tree: a node is a
    file holding bytes or a directory mapping entry names to nodes. A path is the
    sequence of entry names below the root. */
module FileTree {
  import opened Results

  type Bytes = seq<bv8>

  datatype Node = File(data: Bytes) | Dir(children: map<string, Node>)

  type Path = seq<string>

  /** The node at `p`, if every step names an entry of a directory. */
  function Get(t: Node, p: Path): Option<Node>
    decreases |p|
  {
    if p == [] then Some(t)
    else if t.Dir? && p[0] in t.children then Get(t.children[p[0]], p[1..])
    else None
  }

  predicate IsDir(t: Node, p: Path) {
    Get(t, p).Some? && Get(t, p).value.Dir?
  }

  predicate IsFile(t: Node, p: Path) {
    Get(t, p).Some? && Get(t, p).value.File?
  }

  /** `p` is `q` or lies below it. */
  predicate Below(p: Path, q: Path) {
    |q| <= |p| && p[..|q|] == q
  }

  /** Neither path lies below the other, so writing one never touches the other. */
  predicate Apart(p: Path, q: Path) {
    !Below(p, q) && !Below(q, p)
  }

  /** The tree with `n` placed at `p`, directories created along the way. */
  function Put(t: Node, p: Path, n: Node): Node
    decreases |p|
  {
    if p == [] then n
    else
      var cs := if t.Dir? then t.children else map[];
      var sub := if p[0] in cs then cs[p[0]] else Dir(map[]);
      Dir(cs[p[0] := Put(sub, p[1..], n)])
  }

  /** The tree with the entry at `p` and everything below it removed (`rm -rf`). */
  function Remove(t: Node, p: Path): Node
    requires p != []
    decreases |p|
  {
    if !t.Dir? || p[0] !in t.children then t
    else if |p| == 1 then Dir(t.children - {p[0]})
    else Dir(t.children[p[0] := Remove(t.children[p[0]], p[1..])])
  }

  lemma {:induction false} GetAppend(t: Node, p: Path, q: Path)
    ensures Get(t, p + q) == if Get(t, p).Some? then Get(Get(t, p).value, q) else None
    decreases |p|
  {
    if p != [] {
      assert (p + q)[0] == p[0] && (p + q)[1..] == p[1..] + q;
      if t.Dir? && p[0] in t.children {
        GetAppend(t.children[p[0]], p[1..], q);
      }
    } else {
      assert p + q == q;
    }
  }

  lemma {:induction false} GetPut(t: Node, p: Path, n: Node)
    ensures Get(Put(t, p, n), p) == Some(n)
    decreases |p|
  {
    if p != [] {
      var cs := if t.Dir? then t.children else map[];
      var sub := if p[0] in cs then cs[p[0]] else Dir(map[]);
      GetPut(sub, p[1..], n);
    }
  }

  /** Placing a node leaves every path apart from it as it was. */
  lemma {:induction false} GetPutApart(t: Node, p: Path, q: Path, n: Node)
    requires Apart(p, q)
    ensures Get(Put(t, p, n), q) == Get(t, q)
    decreases |p|
  {
    assert p != [] && q != [];
    var cs := if t.Dir? then t.children else map[];
    var sub := if p[0] in cs then cs[p[0]] else Dir(map[]);
    if p[0] == q[0] {
      ApartTails(p, q);
      GetPutApart(sub, p[1..], q[1..], n);
      if !(t.Dir? && p[0] in t.children) {
        assert Get(sub, q[1..]) == None by {
          assert q[1..] != [];
        }
      }
    }
  }

  /** Paths apart from each other with the same first entry stay apart below it. */
  lemma ApartTails(p: Path, q: Path)
    requires p != [] && q != [] && p[0] == q[0] && Apart(p, q)
    ensures |p| > 1 && |q| > 1 && Apart(p[1..], q[1..])
  {
    BelowTails(p, q);
    BelowTails(q, p);
  }

  /** With the same first entry, one path lies below the other exactly when the
      rest of it lies below the rest of the other. */
  lemma BelowTails(p: Path, q: Path)
    requires p != [] && q != [] && p[0] == q[0]
    ensures Below(p[1..], q[1..]) <==> Below(p, q)
    ensures |p| == 1 ==> Below(q, p)
  {
    if |q| <= |p| {
      assert p[..|q|] == [p[0]] + p[1..][..|q| - 1];
      assert q == [q[0]] + q[1..];
    }
    if |p| == 1 {
      assert q[..1] == [q[0]];
    }
  }

  /** Placing `n` at `p` and then `m` below it equals placing `n` with `m` inside. */
  lemma {:induction false} PutPut(t: Node, p: Path, q: Path, n: Node, m: Node)
    ensures Put(Put(t, p, n), p + q, m) == Put(t, p, Put(n, q, m))
    decreases |p|
  {
    if p == [] {
      assert p + q == q;
    } else {
      var cs := if t.Dir? then t.children else map[];
      var sub := if p[0] in cs then cs[p[0]] else Dir(map[]);
      assert (p + q)[0] == p[0] && (p + q)[1..] == p[1..] + q;
      var x := Put(sub, p[1..], n);
      var y := Put(x, p[1..] + q, m);
      assert Put(t, p, n) == Dir(cs[p[0] := x]);
      assert Put(Put(t, p, n), p + q, m) == Dir(cs[p[0] := x][p[0] := y]);
      assert cs[p[0] := x][p[0] := y] == cs[p[0] := y];
      PutPut(sub, p[1..], q, n, m);
    }
  }

  /** Putting back what is already there changes nothing. */
  lemma {:induction false} PutGet(t: Node, p: Path)
    requires Get(t, p).Some?
    ensures Put(t, p, Get(t, p).value) == t
    decreases |p|
  {
    if p != [] {
      PutGet(t.children[p[0]], p[1..]);
      assert t.children[p[0] := t.children[p[0]]] == t.children;
    }
  }

  lemma {:induction false} GetRemove(t: Node, p: Path)
    requires p != []
    ensures Get(Remove(t, p), p).None?
    decreases |p|
  {
    if t.Dir? && p[0] in t.children && |p| > 1 {
      GetRemove(t.children[p[0]], p[1..]);
    }
  }

  /** Removing a path leaves every path apart from it as it was. */
  lemma {:induction false} GetRemoveApart(t: Node, p: Path, q: Path)
    requires p != [] && Apart(p, q)
    ensures Get(Remove(t, p), q) == Get(t, q)
    decreases |p|
  {
    assert q != [];
    if t.Dir? && p[0] in t.children && p[0] == q[0] {
      ApartTails(p, q);
      GetRemoveApart(t.children[p[0]], p[1..], q[1..]);
    }
  }

  // ---------------------------------------------------------------------------
  // Recursive copy of a directory into a destination that may already exist.

  /** The entry `k` of an optional directory. */
  function ChildOf(d: Option<Node>, k: string): Option<Node> {
    if d.Some? && d.value.Dir? && k in d.value.children then Some(d.value.children[k]) else None
  }

  /** Copying `s` onto what is at the destination fails somewhere: a directory
      would have to be created where a file is, or a file copied onto a directory. */
  predicate Conflict(d: Option<Node>, s: Node)
    decreases s
  {
    match s
    case File(_) => d.Some? && d.value.Dir?
    case Dir(cs) => (d.Some? && d.value.File?) || exists k :: k in cs && Conflict(ChildOf(d, k), cs[k])
  }

  /** The destination after copying `s` onto `d`: files of `s` replace whatever
      was at their place, entries of `d` that `s` does not name are kept. */
  function Merge(d: Option<Node>, s: Node): Node
    decreases s
  {
    match s
    case File(_) => s
    case Dir(cs) =>
      var keep := if d.Some? && d.value.Dir? then d.value.children else map[];
      Dir(map k | k in keep.Keys + cs.Keys :: if k in cs then Merge(ChildOf(d, k), cs[k]) else keep[k])
  }

  /** Every file of the source is found at the same relative path of the copy,
      with the same bytes. */
  lemma {:induction false} MergeCopiesFiles(d: Option<Node>, s: Node, q: Path)
    requires IsFile(s, q)
    ensures Get(Merge(d, s), q) == Get(s, q)
    decreases |q|
  {
    if q != [] {
      var k := q[0];
      MergeCopiesFiles(ChildOf(d, k), s.children[k], q[1..]);
    }
  }

  /** Every directory of the source is a directory of the copy. */
  lemma {:induction false} MergeCopiesDirs(d: Option<Node>, s: Node, q: Path)
    requires IsDir(s, q)
    ensures IsDir(Merge(d, s), q)
    decreases |q|
  {
    if q != [] {
      var k := q[0];
      MergeCopiesDirs(ChildOf(d, k), s.children[k], q[1..]);
    }
  }

  /** The copy merges instead of replacing: a file of the destination that the
      source has nothing at stays, unless the copy fails. */
  lemma {:induction false} MergeKeepsFiles(dn: Node, s: Node, q: Path)
    requires !Conflict(Some(dn), s)
    requires IsFile(dn, q) && Get(s, q).None?
    ensures Get(Merge(Some(dn), s), q) == Get(dn, q)
    decreases |q|
  {
    var k := q[0];
    if s.Dir? && k in s.children {
      assert !Conflict(ChildOf(Some(dn), k), s.children[k]);
      MergeKeepsFiles(dn.children[k], s.children[k], q[1..]);
    }
  }

  // ---------------------------------------------------------------------------
  // Facts the copy loop relies on

  /** A file sits where `mkdir -p p` needs a directory: at some proper prefix of `p`. */
  predicate Blocked(t: Node, p: Path) {
    exists i :: 0 <= i < |p| && IsFile(t, p[..i])
  }

  /** Whether copying the directory at `src` onto `dst` goes through. */
  predicate CopyAllowed(t: Node, src: Path, dst: Path)
    requires IsDir(t, src)
  {
    !Blocked(t, dst) && !Conflict(Get(t, dst), Get(t, src).value)
  }

  /** The destination directory's entries once the entries `done` of the source
      have been copied. */
  function Partial(d: Option<Node>, cs: map<string, Node>, done: set<string>): map<string, Node>
    requires done <= cs.Keys
  {
    var keep := if d.Some? && d.value.Dir? then d.value.children else map[];
    map k | k in keep.Keys + done :: if k in done then Merge(ChildOf(d, k), cs[k]) else keep[k]
  }

  lemma PartialNone(d: Option<Node>, cs: map<string, Node>)
    requires d.None? || d.value.Dir?
    ensures Dir(Partial(d, cs, {})) == if d.None? then Dir(map[]) else d.value
  {
    if d.Some? {
      assert Partial(d, cs, {}) == d.value.children;
    } else {
      assert Partial(d, cs, {}) == map[];
    }
  }

  lemma PartialAll(d: Option<Node>, cs: map<string, Node>)
    ensures Dir(Partial(d, cs, cs.Keys)) == Merge(d, Dir(cs))
  {
  }

  lemma PartialStep(d: Option<Node>, cs: map<string, Node>, done: set<string>, k: string)
    requires done <= cs.Keys && k in cs && k !in done
    ensures Partial(d, cs, done)[k := Merge(ChildOf(d, k), cs[k])] == Partial(d, cs, done + {k})
    ensures ChildOf(Some(Dir(Partial(d, cs, done))), k) == ChildOf(d, k)
  {
  }

  /** The entry `k` of the directory placed at `p`. */
  lemma GetChildOfPut(t: Node, p: Path, m: map<string, Node>, k: string)
    ensures Get(Put(t, p, Dir(m)), p + [k]) == ChildOf(Some(Dir(m)), k)
  {
    GetAppend(Put(t, p, Dir(m)), p, [k]);
    GetPut(t, p, Dir(m));
  }

  /** Placing a node at an entry of the directory placed at `p` updates that directory. */
  lemma PutChildOfPut(t: Node, p: Path, m: map<string, Node>, k: string, n: Node)
    ensures Put(Put(t, p, Dir(m)), p + [k], n) == Put(t, p, Dir(m[k := n]))
  {
    PutPut(t, p, [k], Dir(m), n);
  }

  /** After a directory is placed at `p`, no prefix of `p + [k]` holds a file. */
  lemma {:induction false} PutUnblocks(t: Node, p: Path, n: Node, k: string)
    requires n.Dir?
    ensures !Blocked(Put(t, p, n), p + [k])
    decreases |p|
  {
    var u := Put(t, p, n);
    forall i | 0 <= i < |p| + 1 ensures !IsFile(u, (p + [k])[..i]) {
      assert (p + [k])[..i] == p[..i];
      PutPrefixIsDir(t, p, n, i);
    }
  }

  /** Every prefix of `p`, and `p` itself, is a directory once a directory is placed at `p`. */
  lemma {:induction false} PutPrefixIsDir(t: Node, p: Path, n: Node, i: nat)
    requires n.Dir? && i <= |p|
    ensures IsDir(Put(t, p, n), p[..i])
    decreases |p|
  {
    if i > 0 {
      var cs := if t.Dir? then t.children else map[];
      var sub := if p[0] in cs then cs[p[0]] else Dir(map[]);
      PutPrefixIsDir(sub, p[1..], n, i - 1);
      assert p[..i][1..] == p[1..][..i - 1];
    } else {
      assert p[..i] == [];
    }
  }

  /** What a path one entry longer can sit below. */
  lemma BelowExtend(p: Path, q: Path, k: string)
    ensures Below(p + [k], q) ==> Below(p, q) || q == p + [k]
    ensures Below(p + [k], q + [k]) ==> Below(p, q)
  {
    if |q| <= |p| {
      assert (p + [k])[..|q|] == p[..|q|];
    }
    if |q| + 1 <= |p| + 1 {
      assert (p + [k])[..|q| + 1] == p[..|q|] + [(p + [k])[|q|]];
    }
  }

  /** Paths apart stay apart when the same entry is added to both. */
  lemma ApartExtend(p: Path, q: Path, k: string)
    requires Apart(p, q)
    ensures Apart(p + [k], q + [k]) && Apart(p + [k], q) && Apart(p, q + [k])
  {
    BelowExtend(p, q, k);
    BelowExtend(q, p, k);
  }
}
