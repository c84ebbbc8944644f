/** The expunge command of athena/bin/delete/expunge.c from the paths it is given to the files it
    removes: the paths are put in the forest, and the forest is walked.  Removals are known by
    their paths here, no longer by records. */
module ExpungeCommand {
  import opened Wrappers
  import opened FileForest
  import opened Expunge

  // ----- Paths and components -----

  /** The names on the way from a root to a record. */
  ghost function Parts(m: Memory, depth: map<Ptr, nat>, p: Ptr): seq<string>
    requires p in m && p in depth
    decreases depth[p]
  {
    var q := m[p].parent;
    if q == NULL || q !in m || q !in depth || depth[q] >= depth[p] then [] else Parts(m, depth, q) + [m[p].name]
  }

  /** Each name with a slash behind it. */
  function Spelled(parts: seq<string>): string {
    if parts == [] then "" else parts[0] + "/" + Spelled(parts[1..])
  }

  ghost predicate Components(parts: seq<string>) { forall i | 0 <= i < |parts| :: '/' !in parts[i] }

  lemma {:induction false} SpelledSnoc(parts: seq<string>, name: string)
    ensures Spelled(parts + [name]) == Spelled(parts) + name + "/"
  {
    if parts == [] {
      assert (parts + [name])[1..] == [];
    } else {
      assert (parts + [name])[1..] == parts[1..] + [name];
      SpelledSnoc(parts[1..], name);
    }
  }

  lemma SameHead(a: string, s: string, b: string, t: string)
    requires '/' !in a && '/' !in b && a + "/" + s <= b + "/" + t
    ensures a == b && s <= t
  {
    var u, v := a + "/" + s, b + "/" + t;
    assert u[|a|] == '/' && v[|b|] == '/';
    assert forall i | 0 <= i < |a| :: u[i] == a[i] && a[i] in a;
    assert forall i | 0 <= i < |b| :: v[i] == b[i] && b[i] in b;
    assert |a| == |b|;
    assert a == u[..|a|] == v[..|a|] == b;
    assert s == u[|a| + 1..] && t == v[|a| + 1..];
  }

  /** Paths are one below the other exactly as their lists of components are. */
  lemma {:induction false} SpelledPrefix(a: seq<string>, b: seq<string>)
    requires Components(a) && Components(b)
    ensures Spelled(a) <= Spelled(b) <==> a <= b
  {
    if a != [] && b != [] {
      SpelledPrefix(a[1..], b[1..]);
      assert a == [a[0]] + a[1..] && b == [b[0]] + b[1..];
      var s, t := Spelled(a[1..]), Spelled(b[1..]);
      if Spelled(a) <= Spelled(b) {
        SameHead(a[0], s, b[0], t);
      }
      if a <= b {
        assert a[0] == b[0] && a[1..] == b[1..][..|a| - 1];
        assert a[0] + "/" + s == (a[0] + "/" + t)[..|a[0] + "/" + s|];
      }
    }
  }

  /** The forest is in order after paths have been added to it. */
  ghost predicate Kept(m: Memory, kids: Lists, depth: map<Ptr, nat>, statDir: string -> Option<nat>) {
    ForestOk(m, kids, depth) && SpecsMatch(m, kids) && AllTidy(m, depth, statDir)
  }

  lemma AtKept(m: Memory, kids: Lists, depth: map<Ptr, nat>, statDir: string -> Option<nat>, p: Ptr)
    requires Kept(m, kids, depth, statDir) && p in m
    ensures p in depth && p != NULL && (m[p].parent == NULL ==> p == ROOT || p == CWD)
    ensures m[p].parent == NULL ==> depth[p] == 0 && Top(m, depth, p) == p && Parts(m, depth, p) == []
    ensures m[p].parent == NULL ==> PathOf(m, depth, p) == if p == ROOT then "/" else ""
    ensures m[p].parent != NULL ==> m[p].parent in m && m[p].parent in depth && depth[p] == depth[m[p].parent] + 1
    ensures m[p].parent != NULL ==> '/' !in m[p].name && Examined(m, depth, statDir, m[p].parent)
  {
    hide ListOk;
    AtNode(m, kids, depth, p);
  }

  /** One step up from a record. */
  lemma StepUp(m: Memory, kids: Lists, depth: map<Ptr, nat>, statDir: string -> Option<nat>, p: Ptr)
    requires Kept(m, kids, depth, statDir) && p in m && m[p].parent != NULL
    ensures p in depth && m[p].parent in m && m[p].parent in depth
    ensures Top(m, depth, p) == Top(m, depth, m[p].parent) && Parts(m, depth, p) == Parts(m, depth, m[p].parent) + [m[p].name]
    ensures PathOf(m, depth, p) ==
      PathOf(m, depth, m[p].parent) + (if m[m[p].parent].parent == NULL then "" else "/") + m[p].name
  {
    hide Kept;
    AtKept(m, kids, depth, statDir, p);
    AtKept(m, kids, depth, statDir, m[p].parent);
  }

  /** The path of a record is spelled by the names on its way. */
  lemma {:induction false} PathIsSpelled(m: Memory, kids: Lists, depth: map<Ptr, nat>, statDir: string -> Option<nat>, p: Ptr)
    requires Kept(m, kids, depth, statDir) && p in m
    ensures p in depth && |Parts(m, depth, p)| == depth[p] && Components(Parts(m, depth, p))
    ensures Top(m, depth, p) == ROOT || Top(m, depth, p) == CWD
    ensures m[p].parent != NULL ==>
      PathOf(m, depth, p) + "/" == (if Top(m, depth, p) == ROOT then "/" else "") + Spelled(Parts(m, depth, p))
    decreases if p in depth then depth[p] else 0
  {
    hide Kept, PathOf, Parts, Top, Spelled, Examined;
    AtKept(m, kids, depth, statDir, p);
    if m[p].parent != NULL {
      var q := m[p].parent;
      PathIsSpelled(m, kids, depth, statDir, q);
      AtKept(m, kids, depth, statDir, q);
      StepUp(m, kids, depth, statDir, p);
      SpelledSnoc(Parts(m, depth, q), m[p].name);
      NothingSpelled();
      var start := if Top(m, depth, p) == ROOT then "/" else "";
      OneMorePart(PathOf(m, depth, q), m[q].parent == NULL, m[p].name, start, Spelled(Parts(m, depth, q)));
    }
  }

  lemma NothingSpelled()
    ensures Spelled([]) == ""
  {
  }

  lemma OneMorePart(path: string, top: bool, name: string, start: string, spelled: string)
    requires if top then path == start && spelled == "" else path + "/" == start + spelled
    ensures path + (if top then "" else "/") + name + "/" == start + (spelled + name + "/")
  {
    if top {
      assert path + "" + name + "/" == start + (spelled + name + "/");
    } else {
      assert path + "/" + name + "/" == start + spelled + name + "/";
    }
  }

  /** No path under the working directory looks like one under the root, since the empty path
      cannot be examined. */
  lemma {:induction false} RelativeIsPlain(m: Memory, kids: Lists, depth: map<Ptr, nat>, statDir: string -> Option<nat>, p: Ptr)
    requires Kept(m, kids, depth, statDir) && statDir("") == None && p in m && p in depth && Top(m, depth, p) == CWD
    ensures !("/" <= PathOf(m, depth, p))
    decreases depth[p]
  {
    hide Kept, PathOf, Parts, Top;
    AtKept(m, kids, depth, statDir, p);
    if m[p].parent != NULL {
      var q, name := m[p].parent, m[p].name;
      StepUp(m, kids, depth, statDir, p);
      RelativeIsPlain(m, kids, depth, statDir, q);
      AtKept(m, kids, depth, statDir, q);
      assert name != "" ==> name[0] in name;
      var path := PathOf(m, depth, p);
      if m[q].parent == NULL {
        assert path == name;
      } else {
        assert path == PathOf(m, depth, q) + "/" + name;
        assert path[0] == PathOf(m, depth, q)[0];
      }
    }
  }

  lemma RootedBegins(m: Memory, kids: Lists, depth: map<Ptr, nat>, statDir: string -> Option<nat>, p: Ptr)
    requires Kept(m, kids, depth, statDir) && p in m && p in depth && Top(m, depth, p) == ROOT
    ensures "/" <= PathOf(m, depth, p)
    decreases depth[p]
  {
    hide Kept, PathOf, Parts, Top;
    AtKept(m, kids, depth, statDir, p);
    if m[p].parent != NULL {
      StepUp(m, kids, depth, statDir, p);
      RootedBegins(m, kids, depth, statDir, m[p].parent);
    }
  }

  // ----- A record is known by what it would remove -----

  lemma OneOfName(m: Memory, kids: Lists, depth: map<Ptr, nat>, p: Ptr, asDir: bool, x: Ptr, y: Ptr)
    requires ForestOk(m, kids, depth) && p in m && p in kids && x in ListOf(kids[p], asDir) && y in ListOf(kids[p], asDir)
    requires x in m && y in m && m[x].name == m[y].name
    ensures x == y
  {
    hide ForestOk;
    AtNode(m, kids, depth, p);
    var l := ListOf(kids[p], asDir);
    assert ListOk(m, p, l);
    var i :| 0 <= i < |l| && l[i] == x;
    var j :| 0 <= j < |l| && l[j] == y;
  }

  lemma InList(m: Memory, kids: Lists, depth: map<Ptr, nat>, x: Ptr)
    requires ForestOk(m, kids, depth) && SpecsMatch(m, kids) && x in m && m[x].parent != NULL
    ensures m[x].parent in m && m[x].parent in kids && x in ListOf(kids[m[x].parent], m[x].specs.isDir)
  {
    hide ForestOk, ListOk;
    AtNode(m, kids, depth, x);
  }

  /** Records with the same components are the same, or a directory and a file side by side. */
  lemma {:induction false} SameParts(m: Memory, kids: Lists, depth: map<Ptr, nat>, statDir: string -> Option<nat>, x: Ptr, y: Ptr)
    requires Kept(m, kids, depth, statDir) && x in m && y in m && x in depth && y in depth
    requires m[x].parent != NULL && m[y].parent != NULL
    requires Top(m, depth, x) == Top(m, depth, y) && Parts(m, depth, x) == Parts(m, depth, y)
    ensures m[x].parent == m[y].parent && (x == y || m[x].specs.isDir != m[y].specs.isDir)
    decreases depth[x]
  {
    hide ForestOk, SpecsMatch, AllTidy, PathOf, Parts, Top;
    StepUp(m, kids, depth, statDir, x);
    StepUp(m, kids, depth, statDir, y);
    AtKept(m, kids, depth, statDir, x);
    AtKept(m, kids, depth, statDir, y);
    var q, r := m[x].parent, m[y].parent;
    var a, b := Parts(m, depth, q), Parts(m, depth, r);
    assert Parts(m, depth, x) == a + [m[x].name] && Parts(m, depth, y) == b + [m[y].name];
    assert a == (a + [m[x].name])[..|a|] && b == (b + [m[y].name])[..|b|];
    assert m[x].name == (a + [m[x].name])[|a|] && m[y].name == (b + [m[y].name])[|b|];
    PathIsSpelled(m, kids, depth, statDir, q);
    PathIsSpelled(m, kids, depth, statDir, r);
    AtKept(m, kids, depth, statDir, q);
    AtKept(m, kids, depth, statDir, r);
    if m[q].parent != NULL && m[r].parent != NULL {
      SameParts(m, kids, depth, statDir, q, r);
    }
    assert q == r;
    InList(m, kids, depth, x);
    InList(m, kids, depth, y);
    if m[x].specs.isDir == m[y].specs.isDir {
      OneOfName(m, kids, depth, q, m[x].specs.isDir, x, y);
    }
  }

  ghost function RemovalOf(m: Memory, depth: map<Ptr, nat>, x: Ptr): Removal
    requires x in m && x in depth
  {
    RemovalFor(m[x].specs.isDir, PathOf(m, depth, x))
  }

  /** Records in the same tree whose paths are equal, or one below the other, have such components. */
  lemma PrefixParts(m: Memory, kids: Lists, depth: map<Ptr, nat>, statDir: string -> Option<nat>, x: Ptr, y: Ptr)
    requires Kept(m, kids, depth, statDir) && x in m && y in m && x in depth && y in depth
    requires m[x].parent != NULL && m[y].parent != NULL && Top(m, depth, x) == Top(m, depth, y)
    requires PathOf(m, depth, x) + "/" <= PathOf(m, depth, y) + "/"
    ensures Parts(m, depth, x) <= Parts(m, depth, y)
    ensures PathOf(m, depth, x) != PathOf(m, depth, y) ==> depth[x] < depth[y]
  {
    hide Kept, PathOf, Parts, Top, Spelled;
    PathIsSpelled(m, kids, depth, statDir, x);
    PathIsSpelled(m, kids, depth, statDir, y);
    var a, b := Parts(m, depth, x), Parts(m, depth, y);
    var start := if Top(m, depth, x) == ROOT then "/" else "";
    assert Spelled(a) == (start + Spelled(a))[|start|..] && Spelled(b) == (start + Spelled(b))[|start|..];
    SpelledPrefix(a, b);
    if |a| == |b| {
      assert a == b;
      Unslashed(PathOf(m, depth, x), PathOf(m, depth, y));
    }
  }

  lemma Unslashed(s: string, t: string)
    requires s + "/" == t + "/"
    ensures s == t
  {
    assert |s| == |t|;
    assert s == (s + "/")[..|s|] && t == (t + "/")[..|t|];
  }

  /** No two records stand for the same removal. */
  lemma RemovalIdentifies(m: Memory, kids: Lists, depth: map<Ptr, nat>, statDir: string -> Option<nat>, x: Ptr, y: Ptr)
    requires Kept(m, kids, depth, statDir) && statDir("") == None && x in m && y in m && x in depth && y in depth
    requires m[x].parent != NULL && m[y].parent != NULL && RemovalOf(m, depth, x) == RemovalOf(m, depth, y)
    ensures x == y
  {
    hide Kept;
    PathIsSpelled(m, kids, depth, statDir, x);
    PathIsSpelled(m, kids, depth, statDir, y);
    if Top(m, depth, x) == ROOT {
      SameTop(m, kids, depth, statDir, x, y);
    } else if Top(m, depth, y) == ROOT {
      SameTop(m, kids, depth, statDir, y, x);
    }
    PrefixParts(m, kids, depth, statDir, x, y);
    PrefixParts(m, kids, depth, statDir, y, x);
    SameParts(m, kids, depth, statDir, x, y);
  }

  /** Nothing under the working directory has a path below that of something under the root. */
  lemma SameTop(m: Memory, kids: Lists, depth: map<Ptr, nat>, statDir: string -> Option<nat>, x: Ptr, y: Ptr)
    requires Kept(m, kids, depth, statDir) && statDir("") == None && x in m && y in m && x in depth && y in depth
    requires PathOf(m, depth, x) <= PathOf(m, depth, y) && Top(m, depth, x) == ROOT
    ensures Top(m, depth, y) == ROOT
  {
    hide Kept;
    PathIsSpelled(m, kids, depth, statDir, y);
    RootedBegins(m, kids, depth, statDir, x);
    if Top(m, depth, y) == CWD {
      RelativeIsPlain(m, kids, depth, statDir, y);
    }
  }

  // ----- The order of the visits -----

  /** `s` lists all records as the walk visits them. */
  ghost predicate Visiting(m: Memory, kids: Lists, depth: map<Ptr, nat>, s: seq<Ptr>) {
    && Distinct(s) && (forall x :: x in s <==> x in m)
    && ChildrenFirst(m, s) && DirsFirst(m, kids, s) && RootFirst(m, depth, s)
  }

  /** A directory is visited before the files beside it. */
  lemma DirEarlier(m: Memory, kids: Lists, depth: map<Ptr, nat>, s: seq<Ptr>, i: nat, j: nat)
    requires ForestOk(m, kids, depth) && SpecsMatch(m, kids) && Visiting(m, kids, depth, s) && i < |s| && j < |s|
    requires s[i] in m && s[j] in m && m[s[i]].parent != NULL && m[s[i]].parent == m[s[j]].parent
    requires !m[s[i]].specs.isDir && m[s[j]].specs.isDir
    ensures j < i
  {
    hide ForestOk, SpecsMatch, ChildrenFirst, RootFirst, Distinct;
    InList(m, kids, depth, s[i]);
    InList(m, kids, depth, s[j]);
    assert Sibling(m, kids, s[i], s[j]);
  }

  /** What is below a record, or below a directory beside it of the same name, is visited before it. */
  lemma {:induction false} BelowEarlier(m: Memory, kids: Lists, depth: map<Ptr, nat>, statDir: string -> Option<nat>, s: seq<Ptr>, i: nat, j: nat)
    requires Kept(m, kids, depth, statDir) && Visiting(m, kids, depth, s) && i < |s| && j < |s|
    requires s[i] in m && s[j] in m && s[i] in depth && s[j] in depth && m[s[i]].parent != NULL
    requires Top(m, depth, s[i]) == Top(m, depth, s[j]) && Parts(m, depth, s[i]) <= Parts(m, depth, s[j]) && depth[s[i]] < depth[s[j]]
    ensures j < i
    decreases depth[s[j]]
  {
    hide ForestOk, SpecsMatch, AllTidy, DirsFirst, RootFirst, Distinct, PathOf, Parts, Top;
    var x, y := s[i], s[j];
    AtKept(m, kids, depth, statDir, x);
    AtKept(m, kids, depth, statDir, y);
    StepUp(m, kids, depth, statDir, y);
    var q := m[y].parent;
    assert q in s;
    var k: nat :| k < |s| && s[k] == q;
    assert j < k;
    PathIsSpelled(m, kids, depth, statDir, x);
    PathIsSpelled(m, kids, depth, statDir, q);
    AtKept(m, kids, depth, statDir, q);
    var a, b := Parts(m, depth, x), Parts(m, depth, q);
    assert a == (b + [m[y].name])[..|a|] == b[..|a|];
    if depth[q] > depth[x] {
      BelowEarlier(m, kids, depth, statDir, s, i, k);
    } else {
      SameParts(m, kids, depth, statDir, x, q);
      if x == q {
        SameSpot(s, i, k);
      } else {
        DirEarlier(m, kids, depth, s, i, k);
      }
    }
  }

  lemma SameSpot(s: seq<Ptr>, i: nat, k: nat)
    requires Distinct(s) && i < |s| && k < |s| && s[i] == s[k]
    ensures i == k
  {
  }

  /** A path below another is visited before it. */
  lemma LowerPathEarlier(m: Memory, kids: Lists, depth: map<Ptr, nat>, statDir: string -> Option<nat>, s: seq<Ptr>, i: nat, j: nat)
    requires Kept(m, kids, depth, statDir) && statDir("") == None && Visiting(m, kids, depth, s) && i < |s| && j < |s|
    requires s[i] in m && s[j] in m && s[i] in depth && s[j] in depth && m[s[i]].parent != NULL && m[s[j]].parent != NULL
    requires PathOf(m, depth, s[i]) + "/" <= PathOf(m, depth, s[j])
    ensures j < i
  {
    hide Kept, ChildrenFirst, DirsFirst, Distinct, PathOf, Parts, Top, Spelled;
    var x, y := s[i], s[j];
    var a, b := PathOf(m, depth, x), PathOf(m, depth, y);
    assert a <= a + "/" <= b <= b + "/";
    PathIsSpelled(m, kids, depth, statDir, x);
    PathIsSpelled(m, kids, depth, statDir, y);
    if Top(m, depth, x) == ROOT {
      SameTop(m, kids, depth, statDir, x, y);
    }
    if Top(m, depth, x) == Top(m, depth, y) {
      PrefixParts(m, kids, depth, statDir, x, y);
      BelowEarlier(m, kids, depth, statDir, s, i, j);
    } else {
      assert i != j;
    }
  }

  // ----- What is removed -----

  /** The visit that made the removal at position `k`. */
  lemma {:induction false} VisitOf(m: Memory, depth: map<Ptr, nat>, s: seq<Ptr>, k: nat) returns (i: nat)
    requires k < |Removals(m, depth, s)|
    ensures i < |s| && s[i] in m && s[i] in depth && m[s[i]].specified && Removals(m, depth, s)[k] == RemovalOf(m, depth, s[i])
  {
    var now := s[0] in m && s[0] in depth && m[s[0]].specified;
    if now && k == 0 {
      i := 0;
    } else {
      i := VisitOf(m, depth, s[1..], if now then k - 1 else k);
      i := i + 1;
    }
  }

  lemma {:induction false} VisitsOf(m: Memory, depth: map<Ptr, nat>, s: seq<Ptr>, k: nat, l: nat) returns (i: nat, j: nat)
    requires k < l < |Removals(m, depth, s)|
    ensures i < j < |s| && s[i] in m && s[i] in depth && s[j] in m && s[j] in depth && m[s[i]].specified && m[s[j]].specified
    ensures Removals(m, depth, s)[k] == RemovalOf(m, depth, s[i]) && Removals(m, depth, s)[l] == RemovalOf(m, depth, s[j])
  {
    var now := s[0] in m && s[0] in depth && m[s[0]].specified;
    if now && k == 0 {
      i := 0;
      j := VisitOf(m, depth, s[1..], l - 1);
      j := j + 1;
    } else {
      i, j := VisitsOf(m, depth, s[1..], if now then k - 1 else k, if now then l - 1 else l);
      i, j := i + 1, j + 1;
    }
  }

  lemma {:induction false} RemovedIfAsked(m: Memory, depth: map<Ptr, nat>, s: seq<Ptr>, x: Ptr)
    requires x in s && x in m && x in depth && m[x].specified
    ensures RemovalOf(m, depth, x) in Removals(m, depth, s)
  {
    if s[0] != x {
      RemovedIfAsked(m, depth, s[1..], x);
    }
  }

  ghost function Total(removed: seq<Removal>, size: Removal -> nat): nat {
    if removed == [] then 0 else size(removed[0]) + Total(removed[1..], size)
  }

  lemma {:induction false} SpaceIsTotal(m: Memory, kids: Lists, depth: map<Ptr, nat>, s: seq<Ptr>, size: Removal -> nat)
    requires Sized(m, depth, size) && forall x | x in s && x in m && m[x].specified :: m[x].parent != NULL
    ensures Space(m, s) == Total(Removals(m, depth, s), size)
  {
    if s != [] {
      SpaceIsTotal(m, kids, depth, s[1..], size);
      assert s[0] in s;
      if s[0] in m && m[s[0]].specified {
        var r := RemovalOf(m, depth, s[0]);
        assert ([r] + Removals(m, depth, s[1..]))[1..] == Removals(m, depth, s[1..]);
      } else {
        assert Removals(m, depth, s) == Removals(m, depth, s[1..]);
      }
    }
  }

  /** The removals for the paths that were given. */
  ghost predicate Asked(paths: seq<string>, lstat: string -> Option<Specs>, r: Removal) {
    exists i | 0 <= i < |paths| :: AskedBy(paths[i], lstat, r)
  }

  ghost predicate AskedBy(path: string, lstat: string -> Option<Specs>, r: Removal) {
    lstat(Stripped(path)).Some? && r == RemovalFor(lstat(Stripped(path)).value.isDir, Canonical(path))
  }

  /** Nothing is removed twice. */
  ghost predicate EachOnce(removed: seq<Removal>) { forall k, l | 0 <= k < l < |removed| :: removed[k] != removed[l] }

  /** A path is removed after every path below it. */
  ghost predicate LowerFirst(removed: seq<Removal>) {
    forall k, l | 0 <= k < |removed| && 0 <= l < |removed| && removed[k].path + "/" <= removed[l].path :: l < k
  }

  lemma RemovedOnce(m: Memory, kids: Lists, depth: map<Ptr, nat>, statDir: string -> Option<nat>, s: seq<Ptr>)
    requires Kept(m, kids, depth, statDir) && statDir("") == None && Visiting(m, kids, depth, s)
    requires forall x | x in m && m[x].specified :: m[x].parent != NULL
    ensures EachOnce(Removals(m, depth, s)) && LowerFirst(Removals(m, depth, s))
  {
    hide Kept, Removals, PathOf;
    var removed := Removals(m, depth, s);
    forall k, l | 0 <= k < l < |removed| ensures removed[k] != removed[l] {
      var i, j := VisitsOf(m, depth, s, k, l);
      if removed[k] == removed[l] {
        RemovalIdentifies(m, kids, depth, statDir, s[i], s[j]);
      }
    }
    forall k: nat, l: nat | k < |removed| && l < |removed| && removed[k].path + "/" <= removed[l].path ensures l < k {
      if k < l {
        var i, j := VisitsOf(m, depth, s, k, l);
        LowerPathEarlier(m, kids, depth, statDir, s, i, j);
      }
    }
  }

  lemma RemovedAsAsked(f: Forest, depth: map<Ptr, nat>, s: seq<Ptr>, leaves: seq<Ptr>, paths: seq<string>, lstat: string -> Option<Specs>)
    requires f.depth == depth && |leaves| == |paths| && f.AllRemembered(leaves, paths) && f.AllOfKind(leaves, paths, lstat)
    requires forall x | x in f.m :: f.m[x].specified <==> x in leaves
    requires forall x :: x in s <==> x in f.m
    ensures forall r :: r in Removals(f.m, depth, s) <==> Asked(paths, lstat, r)
  {
    hide PathOf, Removals, Canonical, Stripped, StartOf, Top;
    var m := f.m;
    var removed := Removals(m, depth, s);
    forall r | r in removed ensures Asked(paths, lstat, r) {
      var k :| 0 <= k < |removed| && removed[k] == r;
      var i := VisitOf(m, depth, s, k);
      var n :| 0 <= n < |leaves| && leaves[n] == s[i];
      assert f.Remembers(leaves[n], paths[n]);
      assert AskedBy(paths[n], lstat, r);
    }
    forall r | Asked(paths, lstat, r) ensures r in removed {
      var n :| 0 <= n < |paths| && AskedBy(paths[n], lstat, r);
      assert f.Remembers(leaves[n], paths[n]) && leaves[n] in leaves;
      RemovedIfAsked(m, depth, s, leaves[n]);
    }
  }

  /** expunge, for the paths found for all its arguments, without prompts or a time limit and with
      every removal succeeding: nothing happens unless all of them can be examined; then exactly
      they are removed, each once and after everything below it, and the space that is reported is
      that of what was removed. */
  method Command(root: Specs, cwd: Specs, paths: seq<string>, lstat: string -> Option<Specs>, statDir: string -> Option<nat>, ghost size: Removal -> nat)
    returns (ok: bool, removed: seq<Removal>, space: nat)
    ensures ok <==> forall i | 0 <= i < |paths| :: Examinable(paths[i], lstat, statDir)
    ensures !ok ==> removed == [] && space == 0
    ensures ok ==> forall r :: r in removed <==> Asked(paths, lstat, r)
    ensures statDir("") == None ==> EachOnce(removed) && LowerFirst(removed)
    ensures ok && Honest(size, paths, lstat, statDir) ==> space == Total(removed, size)
  {
    hide ForestOk, PathOf, Top, Examinable, Honest, Removals, Space, Total;
    hide ChildrenFirst, DirsFirst, RootFirst, Distinct;
    var f := new Forest(root, cwd);
    ghost var m0, kids0, depth0 := f.m, f.kids, f.depth;
    NewIsTidy(m0, kids0, depth0, statDir, size);
    hide SpecsMatch, AllTidy, Sized;
    var leaves := f.AddPaths(paths, lstat, statDir, size);
    if |leaves| < |paths| {
      return false, [], 0;
    }
    ghost var m, kids, depth := f.m, f.kids, f.depth;
    assert forall x | x in m :: !m[x].freed && (m[x].specified <==> x in leaves);
    forall x | x in m && m[x].specified ensures m[x].parent != NULL {
      var i :| 0 <= i < |leaves| && leaves[i] == x;
      assert f.Remembers(leaves[i], paths[i]);
    }
    forall s: seq<Ptr> | forall x :: x in s <==> x in m ensures forall r :: r in Removals(m, depth, s) <==> Asked(paths, lstat, r) {
      RemovedAsAsked(f, depth, s, leaves, paths, lstat);
    }
    var w := new Walker(f);
    ghost var visits := w.ExpungeAll();
    ok, removed, space := true, w.removed, w.spaceRemoved;
    assert removed == Removals(m, depth, visits);
    if statDir("") == None { RemovedOnce(m, kids, depth, statDir, visits); }
    if Honest(size, paths, lstat, statDir) { SpaceIsTotal(m, kids, depth, visits, size); }
  }

  lemma NewIsTidy(m: Memory, kids: Lists, depth: map<Ptr, nat>, statDir: string -> Option<nat>, size: Removal -> nat)
    requires m.Keys == {ROOT, CWD} && m[ROOT].parent == NULL && m[CWD].parent == NULL
    ensures SpecsMatch(m, kids) && AllTidy(m, depth, statDir) && Sized(m, depth, size)
  {
  }
}
