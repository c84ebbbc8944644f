/** delete -r of athena/bin/delete/delete.c: marking a whole tree as deleted by renaming every
    name in it to `.#name`, on a file system that is a finite tree. */
module DeleteTree {
  import opened Wrappers
  import opened Paths

  datatype Node = File(id: nat) | Dir(entries: map<string, Node>)

  type Entries = map<string, Node>

  function Mark(name: string): (r: string)
    ensures IsDeleted(r) && r[2..] == name
  {
    ".#" + name
  }

  lemma MarkIsUnique(k: string)
    requires IsDeleted(k)
    ensures Mark(k[2..]) == k
  {
  }

  predicate Undeleted(e: Entries, name: string) { name in e && !IsDeleted(name) }

  // ----- What delete -r is meant to do -----

  /** A directory after everything undeleted in it is marked, at every level: each undeleted name
      becomes its mark, in place of an older file of that mark; other deleted files stay. */
  ghost function MarkEntries(e: Entries): Entries
    decreases Dir(e), 0
  {
    map k | k in Marks(e) :: if Replaced(e, k) then MarkNode(e[k[2..]]) else e[k]
  }

  ghost function MarkNode(n: Node): Node
    decreases n, 1
  {
    match n
    case File(_) => n
    case Dir(e) => Dir(MarkEntries(e))
  }

  /** `k` is the mark of a name that is not deleted. */
  predicate Replaced(e: Entries, k: string) {
    IsDeleted(k) && Undeleted(e, k[2..])
  }

  ghost function Marks(e: Entries): (r: set<string>)
    ensures forall k | k in r :: Replaced(e, k) || (k in e && IsDeleted(k))
  {
    (set k | k in e && IsDeleted(k)) + (set n | n in e && !IsDeleted(n) :: Mark(n))
  }

  // ----- Paths into the tree -----

  function Get(t: Node, path: seq<string>): Option<Node> {
    if path == [] then Some(t)
    else if t.Dir? && path[0] in t.entries then Get(t.entries[path[0]], path[1..])
    else None
  }

  function Put(t: Node, path: seq<string>, x: Node): Node
    requires Get(t, path).Some?
  {
    if path == [] then x else Dir(t.entries[path[0] := Put(t.entries[path[0]], path[1..], x)])
  }

  lemma {:induction false} PutGet(t: Node, path: seq<string>, x: Node, y: Node)
    requires Get(t, path).Some?
    ensures Get(Put(t, path, x), path) == Some(x)
    ensures Put(Put(t, path, x), path, y) == Put(t, path, y)
    ensures Put(t, path, Get(t, path).value) == t
    decreases |path|
  {
    if path != [] {
      PutGet(t.entries[path[0]], path[1..], x, y);
      assert t.entries[path[0] := t.entries[path[0]]] == t.entries;
    }
  }

  lemma {:induction false} OneDeeper(t: Node, path: seq<string>, n: string)
    requires Get(t, path).Some?
    ensures Get(t, path + [n]) ==
      if Get(t, path).value.Dir? && n in Get(t, path).value.entries then Some(Get(t, path).value.entries[n]) else None
    ensures Get(t, path + [n]).Some? ==> forall x ::
      Put(t, path + [n], x) == Put(t, path, Dir(Get(t, path).value.entries[n := x]))
    decreases |path|
  {
    if path == [] {
      assert path + [n] == [n];
      assert [n][1..] == [];
    } else {
      assert (path + [n])[1..] == path[1..] + [n];
      OneDeeper(t.entries[path[0]], path[1..], n);
    }
  }

  // ----- Deleting one name after the other -----

  /** One name marked, with all that is below it. */
  ghost function MarkOne(e: Entries, n: string): Entries
    requires n in e
  {
    (e - {n})[Mark(n) := MarkNode(e[n])]
  }

  /** The directory when the names `done` have been dealt with. */
  ghost function Half(e: Entries, done: set<string>): Entries
    requires forall n | n in done :: Undeleted(e, n)
  {
    map k | k in (e.Keys - done) + (set n | n in done :: Mark(n)) ::
      if IsDeleted(k) && k[2..] in done then assert Undeleted(e, k[2..]); MarkNode(e[k[2..]]) else e[k]
  }

  lemma HalfStep(e: Entries, done: set<string>, n: string)
    requires (forall x | x in done :: Undeleted(e, x)) && Undeleted(e, n) && n !in done
    ensures n in Half(e, done) && Half(e, done)[n] == e[n]
    ensures MarkOne(Half(e, done), n) == Half(e, done + {n})
  {
    hide MarkNode;
    var a, b := MarkOne(Half(e, done), n), Half(e, done + {n});
    forall k ensures k in a <==> k in b {
      if IsDeleted(k) { MarkIsUnique(k); }
    }
    forall k | k in a && k in b ensures a[k] == b[k] {
      if IsDeleted(k) { MarkIsUnique(k); }
    }
  }

  lemma HalfEnds(e: Entries, done: set<string>)
    requires forall x :: x in done <==> Undeleted(e, x)
    ensures Half(e, {}) == e
    ensures Half(e, done) == MarkEntries(e)
  {
    hide MarkNode;
    HalfStarts(e);
    var a, b := Half(e, done), MarkEntries(e);
    forall k ensures k in a <==> k in b {
      if IsDeleted(k) { MarkIsUnique(k); }
    }
    forall k | k in a && k in b ensures a[k] == b[k] {
      if IsDeleted(k) { MarkIsUnique(k); }
    }
  }

  lemma HalfStarts(e: Entries)
    ensures Half(e, {}) == e
  {
    hide MarkNode;
  }

  /** No directory has itself or its parent among its entries. */
  ghost predicate NoDots(n: Node) {
    n.Dir? ==> forall k | k in n.entries :: !IsDotfile(k) && NoDots(n.entries[k])
  }

  class FileSystem {
    var tree: Node

    ghost predicate IsDirectory(path: seq<string>)
      reads this
    {
      Get(tree, path).Some? && Get(tree, path).value.Dir?
    }

    ghost function Ls(path: seq<string>): Entries
      requires IsDirectory(path)
      reads this
    {
      Get(tree, path).value.entries
    }

    /** readdir over a whole directory, in whatever order. */
    method ReadDir(path: seq<string>) returns (names: seq<string>)
      requires IsDirectory(path)
      ensures forall k :: k in names <==> k in Ls(path)
      ensures forall i, j | 0 <= i < j < |names| :: names[i] != names[j]
    {
      names := [];
      var left := Get(tree, path).value.entries.Keys;
      while left != {}
        invariant left <= Ls(path).Keys
        invariant forall k :: k in names <==> k in Ls(path) && k !in left
        invariant forall i, j | 0 <= i < j < |names| :: names[i] != names[j]
        decreases left
      {
        var k :| k in left;
        left := left - {k};
        names := names + [k];
      }
    }

    method Store(path: seq<string>, e: Entries)
      requires IsDirectory(path)
      modifies this
      ensures tree == old(Put(tree, path, Dir(e))) && IsDirectory(path) && Ls(path) == e
    {
      PutGet(tree, path, Dir(e), Dir(e));
      tree := Put(tree, path, Dir(e));
    }

    /** unlink, and rmdir of a directory that must be empty. */
    method Remove(path: seq<string>, name: string)
      requires IsDirectory(path) && name in Ls(path)
      requires Ls(path)[name].Dir? ==> Ls(path)[name].entries == map[]
      modifies this
      ensures tree == old(Put(tree, path, Dir(Ls(path) - {name})))
    {
      Store(path, Get(tree, path).value.entries - {name});
    }

    /** unlink_completely: everything below a name, then the name. */
    method UnlinkCompletely(path: seq<string>, name: string, ghost node: Node)
      requires IsDirectory(path) && name in Ls(path) && Ls(path)[name] == node && NoDots(node)
      modifies this
      ensures tree == old(Put(tree, path, Dir(Ls(path) - {name})))
      decreases node, 1
    {
      OneDeeper(tree, path, name);
      if Get(tree, path + [name]).value.Dir? {
        ghost var t0 := tree;
        ClearDirectory(path + [name], node);
        Inside(t0, tree, path, name, Dir(map[]));
        Remove(path, name);
        ghost var e := Get(t0, path).value.entries;
        assert e[name := Dir(map[])] - {name} == e - {name};
      } else {
        Remove(path, name);
      }
    }

    /** The loop of unlink_completely over a directory. */
    method ClearDirectory(path: seq<string>, ghost node: Node)
      requires Get(tree, path) == Some(node) && node.Dir? && NoDots(node)
      modifies this
      ensures tree == old(Put(tree, path, Dir(map[])))
      decreases node, 0
    {
      ghost var t0, cur := tree, node.entries;
      PutGet(t0, path, node, node);
      var names := ReadDir(path);
      for i := 0 to |names|
        invariant tree == Put(t0, path, Dir(cur)) && Get(tree, path) == Some(Dir(cur))
        invariant forall k :: k in cur <==> k in names[i..]
        invariant forall k | k in cur :: k in node.entries && cur[k] == node.entries[k]
      {
        var k := names[i];
        assert k in names[i..] && forall x :: x in names[i + 1..] <==> x in names[i..] && x != k;
        if IsDotfile(k) {
          assert false;
        }
        UnlinkCompletely(path, k, node.entries[k]);
        PutGet(t0, path, Dir(cur), Dir(cur - {k}));
        PutGet(t0, path, Dir(cur - {k}), Dir(cur - {k}));
        cur := cur - {k};
      }
      assert cur == map[];
    }

    /** do_move: an older file of the mark is removed for good, then the name becomes the mark. */
    method DoMove(path: seq<string>, name: string)
      requires IsDirectory(path) && name in Ls(path) && NoDots(Get(tree, path).value)
      modifies this
      ensures tree == old(Put(tree, path, Dir((Ls(path) - {name})[Mark(name) := Ls(path)[name]])))
    {
      ghost var t0, e0 := tree, Ls(path);
      var buf := Mark(name);
      var found := buf in Get(tree, path).value.entries;
      if found {
        assert buf != name by { assert |buf| == |name| + 2; }
        UnlinkCompletely(path, buf, e0[buf]);
        PutGet(t0, path, Dir(e0 - {buf}), Dir(e0 - {buf}));
      }
      var e := Get(tree, path).value.entries;
      ghost var t1 := tree;
      Store(path, (e - {name})[buf := e[name]]);
      assert (e - {name})[buf := e[name]] == (e0 - {name})[buf := e0[name]];
      PutGet(t0, path, Dir(e0 - {buf}), Dir((e - {name})[buf := e[name]]));
    }

    /** empty_directory: nothing in it but deleted files. */
    method EmptyDirectory(path: seq<string>) returns (r: bool)
      requires IsDirectory(path) && NoDots(Get(tree, path).value)
      ensures r <==> forall k | k in Ls(path) :: IsDeleted(k)
    {
      var names := ReadDir(path);
      for i := 0 to |names|
        invariant forall k | k in names[..i] :: IsDeleted(k)
      {
        if !IsDeleted(names[i]) {
          assert names[i] in names;
          return false;
        }
      }
      assert names[..|names|] == names;
      return true;
    }

    /** delete with the options of `delete -rf`: a name that is not there is passed over. */
    method Delete(path: seq<string>, name: string, ghost node: Option<Node>)
      requires IsDirectory(path) && NoDots(Get(tree, path).value)
      requires node == if name in Ls(path) then Some(Ls(path)[name]) else None
      modifies this
      ensures node.None? ==> tree == old(tree)
      ensures node.Some? ==> tree == old(Put(tree, path, Dir(MarkOne(Ls(path), name))))
      decreases if node.Some? then node.value else File(0), 3
    {
      OneDeeper(tree, path, name);
      var found := Get(tree, path + [name]);
      if found.None? {
        return;
      }
      if found.value.Dir? {
        var empty := EmptyDirectory(path + [name]);
        if empty {
          AllDeletedStays(node.value.entries);
          DoMove(path, name);
        } else {
          RecursiveDelete(path, name, node.value);
        }
      } else {
        DoMove(path, name);
      }
    }

    /** recursive_delete: the undeleted contents one by one, then the directory itself. */
    method RecursiveDelete(path: seq<string>, name: string, ghost node: Node)
      requires IsDirectory(path) && NoDots(Get(tree, path).value)
      requires name in Ls(path) && Ls(path)[name] == node && node.Dir?
      modifies this
      ensures tree == old(Put(tree, path, Dir(MarkOne(Ls(path), name))))
      decreases node, 2
    {
      ghost var t0, e0 := tree, Ls(path);
      OneDeeper(tree, path, name);
      var contents := Undeleteds(path + [name]);
      MarkContents(path + [name], contents, node);
      ghost var marked := Dir(MarkEntries(node.entries));
      Inside(t0, tree, path, name, marked);
      MarkedNoDots(node);
      DoMove(path, name);
      assert (e0[name := marked] - {name})[Mark(name) := marked] == MarkOne(e0, name);
    }

    /** The readdir loop that collects what is to be deleted. */
    method Undeleteds(path: seq<string>) returns (contents: seq<string>)
      requires IsDirectory(path) && NoDots(Get(tree, path).value)
      ensures forall k :: k in contents <==> Undeleted(Ls(path), k)
      ensures forall i, j | 0 <= i < j < |contents| :: contents[i] != contents[j]
    {
      var names := ReadDir(path);
      contents := [];
      for i := 0 to |names|
        invariant forall k :: k in contents <==> k in names[..i] && !IsDotfile(k) && !IsDeleted(k)
        invariant forall i, j | 0 <= i < j < |contents| :: contents[i] != contents[j]
      {
        assert names[..i + 1] == names[..i] + [names[i]];
        if !IsDotfile(names[i]) && !IsDeleted(names[i]) {
          contents := contents + [names[i]];
        }
      }
      assert names[..|names|] == names;
    }

    /** The loop that deletes them. */
    method MarkContents(path: seq<string>, contents: seq<string>, ghost node: Node)
      requires Get(tree, path) == Some(node) && node.Dir? && NoDots(node)
      requires forall k :: k in contents <==> Undeleted(node.entries, k)
      requires forall i, j | 0 <= i < j < |contents| :: contents[i] != contents[j]
      modifies this
      ensures tree == old(Put(tree, path, Dir(MarkEntries(node.entries))))
      decreases node, 1
    {
      hide Half;
      hide MarkEntries;
      hide Put;
      hide Get;
      ghost var t0, e := tree, node.entries;
      UptoEnds(e, contents);
      PutGet(t0, path, node, node);
      for i := 0 to |contents|
        invariant Partway(t0, path, node, Upto(contents, i))
      {
        UptoStep(contents, i);
        MarkNext(path, contents[i], node, t0, Upto(contents, i));
      }
    }

    /** The directory at `path` is as in `t0`, but for the names `done`. */
    ghost predicate Partway(t0: Node, path: seq<string>, node: Node, done: set<string>)
      reads this
    {
      && node.Dir? && Get(t0, path) == Some(node) && (forall n | n in done :: Undeleted(node.entries, n))
      && tree == Put(t0, path, Dir(Half(node.entries, done)))
      && Get(tree, path) == Some(Dir(Half(node.entries, done)))
    }

    method MarkNext(path: seq<string>, k: string, ghost node: Node, ghost t0: Node, ghost done: set<string>)
      requires Partway(t0, path, node, done) && NoDots(node) && Undeleted(node.entries, k) && k !in done
      modifies this
      ensures Partway(t0, path, node, done + {k})
      decreases node, 0
    {
      ghost var e := node.entries;
      HalfStep(e, done, k);
      HalfNoDots(node, done);
      hide Half;
      hide NoDots;
      Delete(path, k, Some(e[k]));
      PutGet(t0, path, Dir(Half(e, done)), Dir(Half(e, done + {k})));
      PutGet(t0, path, Dir(Half(e, done + {k})), Dir(Half(e, done + {k})));
    }
  }

  ghost function Upto(names: seq<string>, i: nat): set<string>
    requires i <= |names|
  {
    set k | k in names[..i]
  }

  lemma UptoStep(names: seq<string>, i: nat)
    requires i < |names| && forall i, j | 0 <= i < j < |names| :: names[i] != names[j]
    ensures names[i] in names && names[i] !in Upto(names, i) && Upto(names, i + 1) == Upto(names, i) + {names[i]}
  {
    assert names[..i + 1] == names[..i] + [names[i]];
  }

  lemma UptoEnds(e: Entries, names: seq<string>)
    requires forall k :: k in names <==> Undeleted(e, k)
    ensures Upto(names, 0) == {} && Half(e, {}) == e
    ensures (forall n | n in Upto(names, |names|) :: Undeleted(e, n)) && Half(e, Upto(names, |names|)) == MarkEntries(e)
  {
    assert names[..|names|] == names;
    HalfEnds(e, Upto(names, |names|));
  }

  lemma {:induction false} MarkedNoDots(n: Node)
    requires NoDots(n)
    ensures NoDots(MarkNode(n))
    decreases n
  {
    if n.Dir? {
      var e := n.entries;
      forall k | k in MarkEntries(e) ensures !IsDotfile(k) && NoDots(MarkEntries(e)[k]) {
        if Replaced(e, k) {
          MarkedNoDots(e[k[2..]]);
        }
      }
    }
  }

  lemma HalfNoDots(n: Node, done: set<string>)
    requires NoDots(n) && n.Dir? && forall x | x in done :: Undeleted(n.entries, x)
    ensures NoDots(Dir(Half(n.entries, done)))
  {
    var e := n.entries;
    forall k | k in Half(e, done) ensures !IsDotfile(k) && NoDots(Half(e, done)[k]) {
      if IsDeleted(k) && k[2..] in done {
        MarkedNoDots(e[k[2..]]);
      }
    }
  }

  /** Editing the directory `name` of `path` is editing `path`. */
  lemma Inside(t0: Node, t: Node, path: seq<string>, name: string, x: Node)
    requires Get(t0, path).Some? && Get(t0, path).value.Dir? && Get(t0, path + [name]).Some? && t == Put(t0, path + [name], x)
    ensures var e := Get(t0, path).value.entries;
      name in e && Get(t, path) == Some(Dir(e[name := x])) && forall y :: Put(t, path, y) == Put(t0, path, y)
  {
    OneDeeper(t0, path, name);
    var e := Get(t0, path).value.entries;
    assert t == Put(t0, path, Dir(e[name := x]));
    PutGet(t0, path, Dir(e[name := x]), x);
    forall y ensures Put(t, path, y) == Put(t0, path, y) {
      PutGet(t0, path, Dir(e[name := x]), y);
    }
  }

  lemma AllDeletedStays(e: Entries)
    requires forall k | k in e :: IsDeleted(k)
    ensures MarkEntries(e) == e
  {
    hide MarkNode;
    forall k | k in e && IsDeleted(k) ensures !Replaced(e, k) {
    }
  }

  // ----- What the marking amounts to -----

  function MarkPath(path: seq<string>): (r: seq<string>)
    ensures |r| == |path|
  {
    if path == [] then [] else [Mark(path[0])] + MarkPath(path[1..])
  }

  /** Whatever could be reached without passing a deleted name is found under the marks of its
      path, marked itself, and beside it there is no name left that is not deleted. */
  lemma {:induction false} MarkedAtEveryLevel(t: Node, path: seq<string>)
    requires Get(t, path).Some? && forall n | n in path :: !IsDeleted(n)
    ensures Get(MarkNode(t), MarkPath(path)) == Some(MarkNode(Get(t, path).value))
    ensures var x := Get(MarkNode(t), MarkPath(path)).value;
      x.Dir? ==> forall k | k in x.entries :: IsDeleted(k)
    decreases |path|
  {
    if path != [] {
      var n := path[0];
      assert n in path;
      MarkedAtEveryLevel(t.entries[n], path[1..]);
      assert Replaced(t.entries, Mark(n)) && Mark(n) in Marks(t.entries);
      assert MarkPath(path)[1..] == MarkPath(path[1..]);
    }
  }

  ghost predicate Live(path: seq<string>) { forall n | n in path :: !IsDeleted(n) }

  /** `k` is an older deleted file of the directory `dir` whose place no undeleted file takes. */
  ghost predicate Unclaimed(t: Node, dir: seq<string>, k: string) {
    && Live(dir) && Get(t, dir).Some? && Get(t, dir).value.Dir?
    && k in Get(t, dir).value.entries && IsDeleted(k) && !Undeleted(Get(t, dir).value.entries, k[2..])
  }

  /** One step into the marked tree. */
  lemma MarkedStep(t: Node, p: seq<string>)
    requires p != []
    ensures Get(MarkNode(t), p) ==
            if t.File? then None
            else if Replaced(t.entries, p[0]) then Get(MarkNode(t.entries[p[0][2..]]), p[1..])
            else if p[0] in t.entries && IsDeleted(p[0]) then Get(t.entries[p[0]], p[1..])
            else None
  {
    if t.Dir? && IsDeleted(p[0]) { MarkIsUnique(p[0]); }
  }

  /** An older deleted file, and everything below it, survives unchanged where no undeleted file of
      its directory takes its place, at any depth. */
  lemma {:induction false} OldMarksSurvive(t: Node, dir: seq<string>, k: string, rest: seq<string>)
    requires Unclaimed(t, dir, k)
    ensures Get(MarkNode(t), MarkPath(dir) + [k] + rest) == Get(t, dir + [k] + rest)
    decreases |dir|
  {
    hide MarkNode, Marks;
    var e := t.entries;
    var p, q := MarkPath(dir) + [k] + rest, dir + [k] + rest;
    MarkedStep(t, p);
    if dir == [] {
      assert p == [k] + rest && q == [k] + rest;
    } else {
      var n := dir[0];
      assert n in dir && forall x | x in dir[1..] :: x in dir;
      OldMarksSurvive(e[n], dir[1..], k, rest);
      assert q[1..] == dir[1..] + [k] + rest;
      assert p[1..] == MarkPath(dir[1..]) + [k] + rest && p[0] == Mark(n);
    }
  }

  /** And nothing else survives: whatever is in the marked tree was undeleted and is found under the
      marks of its path, or is, or lies below, such an older file. */
  lemma {:induction false} EveryPathComesFrom(t: Node, p: seq<string>) returns (dir: seq<string>, rest: seq<string>)
    requires Get(MarkNode(t), p).Some?
    ensures p == MarkPath(dir) + rest && Live(dir) && Get(t, dir).Some?
    ensures rest == [] ==> Get(MarkNode(t), p) == Some(MarkNode(Get(t, dir).value))
    ensures rest != [] ==> Unclaimed(t, dir, rest[0]) && Get(MarkNode(t), p) == Get(t, dir + rest)
    decreases |p|
  {
    hide MarkNode, Marks;
    if p == [] {
      dir, rest := [], [];
    } else {
      MarkedStep(t, p);
      var e, k := t.entries, p[0];
      if Replaced(e, k) {
        var n := k[2..];
        MarkIsUnique(k);
        var dir', rest' := EveryPathComesFrom(e[n], p[1..]);
        dir, rest := [n] + dir', rest';
        assert p == [k] + p[1..];
        assert dir[1..] == dir' && (dir + rest)[1..] == dir' + rest;
        assert MarkPath(dir) == [k] + MarkPath(dir');
      } else {
        dir, rest := [], p;
        assert [] + p == p && p == [k] + p[1..];
      }
    }
  }

  /** Deleting again changes nothing. */
  lemma MarkTwice(e: Entries)
    ensures MarkEntries(MarkEntries(e)) == MarkEntries(e)
  {
    AllDeletedStays(MarkEntries(e));
  }

  // ----- Taking the marks off again -----

  ghost predicate HasMark(name: string) { exists i: nat :: LastMark(name, i) }

  /** What convert_to_user_name makes of a name. */
  ghost function UserName(name: string): string
    requires HasMark(name)
  {
    var i: nat :| LastMark(name, i);
    name[..i] + name[i + 2..]
  }

  ghost predicate MarkFree(name: string) { forall j: nat :: !OccursAt(name, ".#", j) }

  ghost predicate MarkFreeTree(t: Node) {
    t.Dir? ==> forall n | n in t.entries :: MarkFree(n) && MarkFreeTree(t.entries[n])
  }

  /** `t` is `x` with every name turned into its user name. */
  ghost predicate Unmarks(x: Node, t: Node) {
    match x
    case File(_) => t == x
    case Dir(ex) =>
      && t.Dir?
      && (forall k | k in ex :: HasMark(k) && UserName(k) in t.entries && Unmarks(ex[k], t.entries[UserName(k)]))
      && (forall n | n in t.entries :: exists k :: k in ex && HasMark(k) && UserName(k) == n)
  }

  lemma UserNameOfMark(n: string)
    requires MarkFree(n)
    ensures HasMark(Mark(n)) && UserName(Mark(n)) == n && !IsDeleted(n)
  {
    MarkThenConvert("", n);
    assert "" + ".#" + n == Mark(n) && "" + n == n;
    assert LastMark(Mark(n), 0);
    if IsDeleted(n) {
      assert n[0..] == n && OccursAt(n, ".#", 0);
    }
  }

  /** A tree without marks comes back, name for name and file for file, when the marks that
      delete -r put on are taken off. */
  lemma {:induction false} MarksComeOff(t: Node)
    requires MarkFreeTree(t)
    ensures Unmarks(MarkNode(t), t)
    decreases t
  {
    if t.Dir? {
      var e := t.entries;
      var ex := MarkEntries(e);
      forall n | n in e ensures Mark(n) in ex && ex[Mark(n)] == MarkNode(e[n]) && HasMark(Mark(n)) && UserName(Mark(n)) == n {
        UserNameOfMark(n);
        assert Replaced(e, Mark(n)) && Mark(n) in Marks(e);
      }
      forall k | k in ex ensures HasMark(k) && UserName(k) in e && Unmarks(ex[k], e[UserName(k)]) {
        if !Replaced(e, k) {
          UserNameOfMark(k);
          assert false;
        }
        MarkIsUnique(k);
        MarksComeOff(e[k[2..]]);
      }
    }
  }

  /** And it is the only tree that they come off to. */
  lemma {:induction false} UnmarkedIsUnique(x: Node, t: Node, u: Node)
    requires Unmarks(x, t) && Unmarks(x, u)
    ensures t == u
    decreases x
  {
    if x.Dir? {
      var ex := x.entries;
      forall n | n in t.entries || n in u.entries ensures n in t.entries && n in u.entries && t.entries[n] == u.entries[n] {
        var k :| k in ex && HasMark(k) && UserName(k) == n;
        UnmarkedIsUnique(ex[k], t.entries[n], u.entries[n]);
      }
      assert t.entries == u.entries;
    }
  }
}
