/** expunge_specified of athena/bin/delete/expunge.c: the walk over the forest that removes the
    files asked for and releases every record, here without prompts and with every removal
    succeeding. */
module Expunge {
  import opened FileForest

  /** The shape of a tree of records. */
  datatype Shape = Node(ptr: Ptr, dirs: seq<Shape>, files: seq<Shape>)

  function Ptrs(ts: seq<Shape>): (r: seq<Ptr>)
    ensures |r| == |ts|
  {
    seq(|ts|, i requires 0 <= i < |ts| => ts[i].ptr)
  }

  ghost function Nodes(t: Shape): set<Ptr> { {t.ptr} + NodesAll(t.dirs) + NodesAll(t.files) }

  ghost function NodesAll(ts: seq<Shape>): set<Ptr> {
    if ts == [] then {} else Nodes(ts[0]) + NodesAll(ts[1..])
  }

  /** `t` is the shape that the lists of children describe. */
  ghost predicate Fits(kids: Lists, t: Shape) {
    && t.ptr in kids
    && kids[t.ptr] == Kids(Ptrs(t.dirs), Ptrs(t.files))
    && FitsAll(kids, t.dirs) && FitsAll(kids, t.files)
  }

  ghost predicate FitsAll(kids: Lists, ts: seq<Shape>) {
    ts == [] || (Fits(kids, ts[0]) && FitsAll(kids, ts[1..]))
  }

  /** Everything beneath a record comes before it. */
  ghost function Post(t: Shape): seq<Ptr> { PostAll(t.dirs) + PostAll(t.files) + [t.ptr] }

  ghost function PostAll(ts: seq<Shape>): seq<Ptr> {
    if ts == [] then [] else Post(ts[0]) + PostAll(ts[1..])
  }

  lemma {:induction false} FitsKept(kids: Lists, kids': Lists, t: Shape)
    requires Fits(kids, t) && forall x | x in Nodes(t) && x in kids :: x in kids' && kids'[x] == kids[x]
    ensures Fits(kids', t)
    decreases t
  {
    assert t.ptr in Nodes(t);
    FitsAllKept(kids, kids', t.dirs);
    FitsAllKept(kids, kids', t.files);
  }

  lemma {:induction false} FitsAllKept(kids: Lists, kids': Lists, ts: seq<Shape>)
    requires FitsAll(kids, ts) && forall x | x in NodesAll(ts) && x in kids :: x in kids' && kids'[x] == kids[x]
    ensures FitsAll(kids', ts)
    decreases ts
  {
    if ts != [] {
      FitsKept(kids, kids', ts[0]);
      FitsAllKept(kids, kids', ts[1..]);
    }
  }

  // ----- Trees of one forest do not overlap -----

  /** The ancestor of `x` at depth `d`. */
  ghost function Ancestor(m: Memory, kids: Lists, depth: map<Ptr, nat>, x: Ptr, d: nat): Ptr
    requires ForestOk(m, kids, depth) && x in m
    decreases if x in depth then depth[x] else 0
  {
    Up(m, kids, depth, x);
    if depth[x] <= d || m[x].parent == NULL then x else Ancestor(m, kids, depth, m[x].parent, d)
  }

  lemma {:induction false} AncestorStep(m: Memory, kids: Lists, depth: map<Ptr, nat>, x: Ptr, d: nat)
    requires ForestOk(m, kids, depth) && x in m && x in depth && depth[x] > d
    ensures Ancestor(m, kids, depth, x, d + 1) in m
    ensures var y := Ancestor(m, kids, depth, x, d + 1); y in depth && depth[y] == d + 1 ==>
      m[y].parent != NULL ==> Ancestor(m, kids, depth, x, d) == Ancestor(m, kids, depth, m[y].parent, d)
    decreases depth[x]
  {
    hide ForestOk;
    Up(m, kids, depth, x);
    if depth[x] > d + 1 && m[x].parent != NULL {
      Deeper(m, kids, depth, x);
      AncestorStep(m, kids, depth, m[x].parent, d);
    }
  }

  lemma Deeper(m: Memory, kids: Lists, depth: map<Ptr, nat>, x: Ptr)
    requires ForestOk(m, kids, depth) && x in m && m[x].parent != NULL
    ensures x in depth && m[x].parent in m && m[x].parent in depth && depth[x] == depth[m[x].parent] + 1
  {
    AtNode(m, kids, depth, x);
  }

  lemma ChildLinks(m: Memory, kids: Lists, depth: map<Ptr, nat>, p: Ptr, asDir: bool, c: Ptr)
    requires ForestOk(m, kids, depth) && p in m && p in kids && c in ListOf(kids[p], asDir)
    ensures c in m && m[c].parent == p && p != NULL && c in depth && p in depth && depth[c] == depth[p] + 1
  {
    hide ForestOk;
    AtNode(m, kids, depth, p);
    ChildOf(m, p, ListOf(kids[p], asDir), c);
    Deeper(m, kids, depth, c);
  }

  /** All records of a tree have its root as their ancestor at the depth of the root. */
  lemma {:induction false} RootOfAll(m: Memory, kids: Lists, depth: map<Ptr, nat>, t: Shape, x: Ptr)
    requires ForestOk(m, kids, depth) && Fits(kids, t) && t.ptr in m && x in Nodes(t)
    ensures x in m && x in depth && t.ptr in depth && depth[x] >= depth[t.ptr]
    ensures Ancestor(m, kids, depth, x, depth[t.ptr]) == t.ptr
    decreases t
  {
    hide ForestOk;
    Up(m, kids, depth, t.ptr);
    if x != t.ptr {
      var asDir := x in NodesAll(t.dirs);
      var ts := if asDir then t.dirs else t.files;
      var i := Holding(kids, ts, x);
      assert Ptrs(ts)[i] == ts[i].ptr && Ptrs(ts) == ListOf(kids[t.ptr], asDir);
      ChildLinks(m, kids, depth, t.ptr, asDir, ts[i].ptr);
      RootOfAll(m, kids, depth, ts[i], x);
      AncestorStep(m, kids, depth, x, depth[t.ptr]);
    }
  }

  lemma {:induction false} Holding(kids: Lists, ts: seq<Shape>, x: Ptr) returns (i: nat)
    requires FitsAll(kids, ts) && x in NodesAll(ts)
    ensures i < |ts| && x in Nodes(ts[i]) && Fits(kids, ts[i])
    decreases |ts|
  {
    if x in Nodes(ts[0]) {
      i := 0;
    } else {
      i := Holding(kids, ts[1..], x);
      i := i + 1;
    }
  }

  /** All of `ts` are rooted at depth `d`. */
  ghost predicate Level(m: Memory, depth: map<Ptr, nat>, ts: seq<Shape>, d: nat) {
    forall i | 0 <= i < |ts| :: ts[i].ptr in m && ts[i].ptr in depth && depth[ts[i].ptr] == d
  }

  lemma Apart(m: Memory, kids: Lists, depth: map<Ptr, nat>, ts: seq<Shape>, us: seq<Shape>, d: nat)
    requires ForestOk(m, kids, depth) && FitsAll(kids, ts) && FitsAll(kids, us)
    requires Level(m, depth, ts, d) && Level(m, depth, us, d)
    requires forall i, j | 0 <= i < |ts| && 0 <= j < |us| :: ts[i].ptr != us[j].ptr
    ensures NodesAll(ts) !! NodesAll(us)
  {
    hide ForestOk;
    forall x | x in NodesAll(ts) && x in NodesAll(us) ensures false {
      var i := Holding(kids, ts, x);
      var j := Holding(kids, us, x);
      RootOfAll(m, kids, depth, ts[i], x);
      RootOfAll(m, kids, depth, us[j], x);
    }
  }

  /** Nothing shallower than its roots is in a list of trees, and all of it is in memory. */
  lemma InsideMemory(m: Memory, kids: Lists, depth: map<Ptr, nat>, ts: seq<Shape>, d: nat)
    requires ForestOk(m, kids, depth) && FitsAll(kids, ts) && Level(m, depth, ts, d)
    ensures forall x | x in NodesAll(ts) :: x in m && x in depth && depth[x] >= d
  {
    hide ForestOk;
    forall x | x in NodesAll(ts) ensures x in m && x in depth && depth[x] >= d {
      var i := Holding(kids, ts, x);
      RootOfAll(m, kids, depth, ts[i], x);
    }
  }

  // ----- What the walk leaves behind -----

  /** The records `gone` are released; of the others only links have changed. */
  ghost predicate Thinned(m: Memory, m': Memory, gone: set<Ptr>) {
    && m'.Keys == m.Keys - gone
    && forall x | x in m' ::
         m'[x] == m[x].(previous := m'[x].previous, next := m'[x].next, dirs := m'[x].dirs, files := m'[x].files)
  }

  lemma ThinnedTwice(m: Memory, m': Memory, m'': Memory, gone: set<Ptr>, gone': set<Ptr>)
    requires Thinned(m, m', gone) && Thinned(m', m'', gone')
    ensures Thinned(m, m'', gone + gone')
  {
  }

  /** The lists after the trees at position `k` and after in one list of `parent` are gone. */
  function Prune(kids: Lists, parent: Ptr, asDir: bool, k: nat, gone: set<Ptr>): Lists
    requires parent in kids && k <= |ListOf(kids[parent], asDir)|
  {
    (kids - gone)[parent := WithList(kids[parent], asDir, ListOf(kids[parent], asDir)[..k])]
  }

  /** The removals that a visit in the given order makes: the paths asked for. */
  ghost function Removals(m: Memory, depth: map<Ptr, nat>, visits: seq<Ptr>): seq<Removal> {
    if visits == [] then []
    else
      var x := visits[0];
      (if x in m && x in depth && m[x].specified then [RemovalFor(m[x].specs.isDir, PathOf(m, depth, x))] else []) + Removals(m, depth, visits[1..])
  }

  ghost function Space(m: Memory, visits: seq<Ptr>): nat {
    if visits == [] then 0
    else (if visits[0] in m && m[visits[0]].specified then m[visits[0]].specs.size else 0) + Space(m, visits[1..])
  }

  lemma {:induction false} LogAppend(m: Memory, depth: map<Ptr, nat>, a: seq<Ptr>, b: seq<Ptr>)
    ensures Removals(m, depth, a + b) == Removals(m, depth, a) + Removals(m, depth, b)
    ensures Space(m, a + b) == Space(m, a) + Space(m, b)
  {
    if a == [] {
      assert a + b == b;
    } else {
      assert (a + b)[1..] == a[1..] + b;
      LogAppend(m, depth, a[1..], b);
    }
  }

  /** Removing other records changes neither the paths nor the sizes of those that remain. */
  lemma {:induction false} LogKept(m: Memory, m': Memory, kids': Lists, depth: map<Ptr, nat>, gone: set<Ptr>, visits: seq<Ptr>)
    requires Thinned(m, m', gone) && ForestOk(m', kids', depth) && forall x | x in visits :: x in m'
    ensures Removals(m', depth, visits) == Removals(m, depth, visits) && Space(m', visits) == Space(m, visits)
  {
    hide ForestOk;
    if visits != [] {
      assert visits[0] in visits;
      PathsKept(m', m, kids', depth, depth, visits[0]);
      LogKept(m, m', kids', depth, gone, visits[1..]);
    }
  }

  lemma {:induction false} PostIsNodes(t: Shape, x: Ptr)
    ensures x in Post(t) <==> x in Nodes(t)
    decreases t
  {
    PostAllIsNodes(t.dirs, x);
    PostAllIsNodes(t.files, x);
  }

  lemma {:induction false} PostAllIsNodes(ts: seq<Shape>, x: Ptr)
    ensures x in PostAll(ts) <==> x in NodesAll(ts)
    decreases ts
  {
    if ts != [] {
      PostIsNodes(ts[0], x);
      PostAllIsNodes(ts[1..], x);
    }
  }

  /** No record but possibly a root has been flagged. */
  ghost predicate Unflagged(m: Memory) { forall x | x in m && m[x].parent != NULL :: !m[x].freed }

  /** Thinning keeps directories with directories. */
  lemma PruneSpecs(m: Memory, kids: Lists, m': Memory, kids': Lists, gone: set<Ptr>)
    requires SpecsMatch(m, kids) && Thinned(m, m', gone)
    requires forall g | g in kids' :: g in kids && forall y | y in m' :: y in kids'[g].dirs <==> y in kids[g].dirs
    requires forall x | x in m' && m'[x].parent != NULL :: m'[x].parent in kids'
    ensures SpecsMatch(m', kids')
  {
  }

  lemma EmptiedKids(kids: Lists, leaf: Ptr, gone: set<Ptr>, gone': set<Ptr>)
    requires leaf in kids && leaf !in gone && leaf !in gone'
    ensures Prune(Prune(kids, leaf, true, 0, gone), leaf, false, 0, gone') == (kids - (gone + gone'))[leaf := Kids([], [])]
  {
  }

  lemma SweptKids(kids: Lists, parent: Ptr, asDir: bool, k: nat, leaf: Ptr, gone: set<Ptr>, gone': set<Ptr>)
    requires parent in kids && k < |ListOf(kids[parent], asDir)| && ListOf(kids[parent], asDir)[k] == leaf
    requires parent !in gone && parent !in gone' && parent != leaf && leaf in kids && leaf !in gone && leaf !in gone'
    ensures var kids2 := (kids - gone)[leaf := Kids([], [])];
      var kids3 := Prune(kids2, parent, asDir, k + 1, gone');
      ShrunkKids(kids3, parent, k, asDir) == Prune(kids, parent, asDir, k, gone + {leaf} + gone')
  {
    var l := ListOf(kids[parent], asDir);
    assert Without(l[..k + 1], k) == l[..k];
  }

  /** Position `k` and after of one list of `parent` hold the trees `ts`. */
  ghost predicate ListIs(m: Memory, kids: Lists, parent: Ptr, asDir: bool, k: nat, ts: seq<Shape>) {
    && parent in m && parent in kids && !m[parent].freed
    && k + |ts| == |ListOf(kids[parent], asDir)|
    && ListOf(kids[parent], asDir)[k..] == Ptrs(ts)
    && FitsAll(kids, ts)
  }

  lemma ListLevel(m: Memory, kids: Lists, depth: map<Ptr, nat>, parent: Ptr, asDir: bool, k: nat, ts: seq<Shape>)
    requires ForestOk(m, kids, depth) && ListIs(m, kids, parent, asDir, k, ts)
    ensures parent in depth && Level(m, depth, ts, depth[parent] + 1)
    ensures forall i | 0 <= i < |ts| :: ListOf(kids[parent], asDir)[k + i] == ts[i].ptr && m[ts[i].ptr].parent == parent
    ensures forall i, j | 0 <= i < j < |ts| :: ts[i].ptr != ts[j].ptr
  {
    hide ForestOk;
    Up(m, kids, depth, parent);
    var l := ListOf(kids[parent], asDir);
    forall i | 0 <= i < |ts| ensures l[k + i] == ts[i].ptr && ts[i].ptr in m && ts[i].ptr in depth
      && depth[ts[i].ptr] == depth[parent] + 1 && m[ts[i].ptr].parent == parent
    {
      assert l[k..][i] == Ptrs(ts)[i];
      ChildLinks(m, kids, depth, parent, asDir, l[k + i]);
    }
    AtNode(m, kids, depth, parent);
    assert ListOk(m, parent, l);
    forall i, j | 0 <= i < j < |ts| ensures ts[i].ptr != ts[j].ptr {
      assert l[k + i] == ts[i].ptr && l[k + j] == ts[j].ptr;
    }
  }

  /** The records of a tree other than its root. */
  ghost function Beneath(t: Shape): set<Ptr> { NodesAll(t.dirs) + NodesAll(t.files) }

  /** A tree whose root is in memory: its parts do not overlap. */
  lemma PartsApart(m: Memory, kids: Lists, depth: map<Ptr, nat>, t: Shape)
    requires ForestOk(m, kids, depth) && Fits(kids, t) && t.ptr in m && !m[t.ptr].freed
    ensures t.ptr !in Beneath(t) && NodesAll(t.dirs) !! NodesAll(t.files)
    ensures ListIs(m, kids, t.ptr, true, 0, t.dirs) && ListIs(m, kids, t.ptr, false, 0, t.files)
    ensures forall x | x in Beneath(t) :: x in m && x in depth && t.ptr in depth && depth[x] > depth[t.ptr]
  {
    hide ForestOk;
    ListLevel(m, kids, depth, t.ptr, true, 0, t.dirs);
    ListLevel(m, kids, depth, t.ptr, false, 0, t.files);
    AtNode(m, kids, depth, t.ptr);
    forall i, j | 0 <= i < |t.dirs| && 0 <= j < |t.files| ensures t.dirs[i].ptr != t.files[j].ptr {
      assert Ptrs(t.dirs)[i] in kids[t.ptr].dirs && Ptrs(t.files)[j] in kids[t.ptr].files;
    }
    Apart(m, kids, depth, t.dirs, t.files, depth[t.ptr] + 1);
    InsideMemory(m, kids, depth, t.dirs, depth[t.ptr] + 1);
    InsideMemory(m, kids, depth, t.files, depth[t.ptr] + 1);
  }

  /** After the directories beneath a record are gone, its files are as they were. */
  lemma FilesRemain(m: Memory, kids: Lists, depth: map<Ptr, nat>, t: Shape, m': Memory, kids': Lists)
    requires ForestOk(m, kids, depth) && Fits(kids, t) && t.ptr in m && !m[t.ptr].freed
    requires Thinned(m, m', NodesAll(t.dirs)) && kids' == Prune(kids, t.ptr, true, 0, NodesAll(t.dirs))
    ensures t.ptr in m' && ListIs(m', kids', t.ptr, false, 0, t.files)
    ensures forall x | x in PostAll(t.files) :: x in m'
  {
    hide ForestOk;
    PartsApart(m, kids, depth, t);
    FitsAllKept(kids, kids', t.files);
    forall x | x in PostAll(t.files) ensures x in m' {
      PostAllIsNodes(t.files, x);
    }
  }

  /** After the tree of the first of some siblings is emptied, the siblings behind it are as they were. */
  lemma SiblingsRemain(m: Memory, kids: Lists, depth: map<Ptr, nat>, parent: Ptr, asDir: bool, k: nat, ts: seq<Shape>, m': Memory, kids': Lists)
    requires ts != [] && ts[0].ptr in m && !m[ts[0].ptr].freed
    requires ListIs(m, kids, parent, asDir, k, ts)
    requires Thinned(m, m', Beneath(ts[0])) && kids' == (kids - Beneath(ts[0]))[ts[0].ptr := Kids([], [])]
    requires ForestOk(m, kids, depth)
    ensures ListIs(m', kids', parent, asDir, k + 1, ts[1..])
    ensures parent != ts[0].ptr && parent in kids' && ListOf(kids'[parent], asDir) == ListOf(kids[parent], asDir)
    ensures ts[0].ptr !in NodesAll(ts[1..]) && parent !in NodesAll(ts[1..]) && parent !in Beneath(ts[0])
    ensures forall x | x in PostAll(ts[1..]) :: x in m'
  {
    hide ForestOk;
    var t, us := ts[0], ts[1..];
    ListLevel(m, kids, depth, parent, asDir, k, ts);
    PartsApart(m, kids, depth, t);
    Apart(m, kids, depth, [t], us, depth[parent] + 1);
    assert [t][1..] == [];
    assert NodesAll([t]) == Nodes(t) + NodesAll([]);
    InsideMemory(m, kids, depth, us, depth[parent] + 1);
    FitsAllKept(kids, kids', us);
    assert ListOf(kids[parent], asDir)[k + 1..] == ListOf(kids[parent], asDir)[k..][1..];
    assert Ptrs(ts)[1..] == Ptrs(us);
    forall x | x in PostAll(us) ensures x in m' {
      PostAllIsNodes(us, x);
    }
  }

  /** The sibling behind position `k`. */
  lemma NextSibling(m: Memory, kids: Lists, depth: map<Ptr, nat>, parent: Ptr, asDir: bool, k: nat)
    requires ForestOk(m, kids, depth) && parent in m && parent in kids && k < |ListOf(kids[parent], asDir)|
    ensures var l := ListOf(kids[parent], asDir);
      l[k] in m && m[l[k]].next == if k + 1 < |l| then l[k + 1] else NULL
    ensures var l := ListOf(kids[parent], asDir); k + 1 < |l| ==> l[k + 1] != NULL
  {
    hide ForestOk;
    AtNode(m, kids, depth, parent);
    var l := ListOf(kids[parent], asDir);
    ListStep(m, parent, l, k);
    if k + 1 < |l| {
      ListStep(m, parent, l, k + 1);
      NotNull(m, kids, depth, l[k + 1]);
    }
  }

  lemma FirstChild(m: Memory, kids: Lists, depth: map<Ptr, nat>, p: Ptr, asDir: bool)
    requires ForestOk(m, kids, depth) && p in m && p in kids
    ensures HeadOf(m[p], asDir) == Head(ListOf(kids[p], asDir))
    ensures ListOf(kids[p], asDir) != [] ==> Head(ListOf(kids[p], asDir)) != NULL
  {
    hide ForestOk;
    AtNode(m, kids, depth, p);
    if ListOf(kids[p], asDir) != [] {
      ChildLinks(m, kids, depth, p, asDir, ListOf(kids[p], asDir)[0]);
      NotNull(m, kids, depth, ListOf(kids[p], asDir)[0]);
    }
  }

  lemma KindOf(m: Memory, kids: Lists, depth: map<Ptr, nat>, parent: Ptr, asDir: bool, x: Ptr)
    requires ForestOk(m, kids, depth) && SpecsMatch(m, kids) && parent in m && parent in kids && x in ListOf(kids[parent], asDir)
    ensures x in m && m[x].specs.isDir == asDir && m[x].parent == parent && parent != NULL
  {
    hide ForestOk;
    ChildLinks(m, kids, depth, parent, asDir, x);
    AtNode(m, kids, depth, parent);
  }

  /** The release of one record, in the terms of the walk. */
  lemma ReleaseThins(m: Memory, kids: Lists, depth: map<Ptr, nat>, parent: Ptr, asDir: bool, k: nat)
    requires FileForest.Ready(m, kids, parent, k, asDir) && ForestOk(m, kids, depth) && SpecsMatch(m, kids)
    ensures var leaf := ListOf(kids[parent], asDir)[k];
      && Thinned(m, Unhung(m, parent, leaf, asDir), {leaf})
      && (ForestOk(Unhung(m, parent, leaf, asDir), ShrunkKids(kids, parent, k, asDir), depth) ==>
           SpecsMatch(Unhung(m, parent, leaf, asDir), ShrunkKids(kids, parent, k, asDir)))
  {
    hide ForestOk;
    var l := ListOf(kids[parent], asDir);
    var leaf := l[k];
    var m', kids' := Unhung(m, parent, leaf, asDir), ShrunkKids(kids, parent, k, asDir);
    UnhungRecords(m, kids, parent, k, asDir);
    if ForestOk(m', kids', depth) {
      forall y | y in m' ensures y in Without(l, k) <==> y in l {
        if y in l { StillListed(l, k, y); }
      }
      forall x | x in m' && m'[x].parent != NULL ensures m'[x].parent in kids' {
        AtNode(m', kids', depth, x);
      }
      hide Unhung;
      PruneSpecs(m, kids, m', kids', {leaf});
    }
  }

  class Walker {
    const f: Forest
    var spaceRemoved: nat
    var removed: seq<Removal>

    constructor (f: Forest)
      ensures this.f == f && spaceRemoved == 0 && removed == []
    {
      this.f, spaceRemoved, removed := f, 0, [];
    }

    ghost predicate Ready()
      reads this, f
    {
      f.Valid() && SpecsMatch(f.m, f.kids) && Unflagged(f.m)
    }

    /** What was visited is gone, was logged in that order, and only that. */
    ghost predicate Logged(m: Memory, depth: map<Ptr, nat>, removed0: seq<Removal>, space0: nat, visits: seq<Ptr>)
      reads this, f
    {
      && f.depth == depth
      && removed == removed0 + Removals(m, depth, visits)
      && spaceRemoved == space0 + Space(m, visits)
    }

    /** really_do_expunge: remove the file and count its size. */
    method ReallyDoExpunge(leaf: Ptr)
      requires f.Valid() && leaf in f.m && f.m[leaf].specified
      modifies this`spaceRemoved, this`removed
      ensures Logged(f.m, f.depth, old(removed), old(spaceRemoved), [leaf])
    {
      var path := f.GetLeafPath(leaf);
      if f.m[leaf].specs.isDir {
        removed := removed + [Rmdir(path)];
      } else {
        removed := removed + [Unlink(path)];
      }
      spaceRemoved := spaceRemoved + f.m[leaf].specs.size;
      assert [leaf][1..] == [];
    }

    /** The call for the children in one of the two lists, if there are any. */
    method ExpungeChildren(leaf: Ptr, asDir: bool, ghost ts: seq<Shape>)
      requires Ready() && ListIs(f.m, f.kids, leaf, asDir, 0, ts)
      modifies this`spaceRemoved, this`removed, f
      ensures Ready() && Thinned(old(f.m), f.m, NodesAll(ts)) && leaf in f.m
      ensures leaf in old(f.kids) && f.kids == Prune(old(f.kids), leaf, asDir, 0, NodesAll(ts))
      ensures Logged(old(f.m), old(f.depth), old(removed), old(spaceRemoved), PostAll(ts))
      decreases ts, 1
    {
      hide ForestOk;
      hide SpecsMatch;
      hide FitsAll;
      hide Removals;
      hide Space;
      FirstChild(f.m, f.kids, f.depth, leaf, asDir);
      var head := HeadOf(f.m[leaf], asDir);
      assert ListOf(f.kids[leaf], asDir)[0..] == ListOf(f.kids[leaf], asDir);
      if head != NULL {
        ExpungeList(head, leaf, asDir, 0, ts);
      } else {
        NothingVisited(f.m, f.depth);
        assert f.kids == Prune(f.kids, leaf, asDir, 0, {});
      }
    }

    /** expunge_specified up to the sibling: the directories beneath, the files beneath, then the
        record itself if it was asked for. */
    method ExpungeTree(leaf: Ptr, ghost t: Shape)
      requires Ready() && Fits(f.kids, t) && leaf == t.ptr && leaf in f.m && !f.m[leaf].freed
      modifies this`spaceRemoved, this`removed, f
      ensures Ready() && Thinned(old(f.m), f.m, Beneath(t)) && leaf in f.m
      ensures f.kids == (old(f.kids) - Beneath(t))[leaf := Kids([], [])]
      ensures Logged(old(f.m), old(f.depth), old(removed), old(spaceRemoved), Post(t))
      decreases t, 2
    {
      hide ForestOk;
      hide SpecsMatch;
      hide Fits;
      hide Thinned;
      hide ListIs;
      hide Removals;
      hide Space;
      TreeParts(t);
      hide Nodes, NodesAll, Post, PostAll, Beneath;
      ghost var m0, kids0, depth0 := f.m, f.kids, f.depth;
      PartsApart(m0, kids0, depth0, t);
      ExpungeChildren(leaf, true, t.dirs);
      ghost var m1, kids1 := f.m, f.kids;
      FilesRemain(m0, kids0, depth0, t, m1, kids1);
      ExpungeChildren(leaf, false, t.files);
      EmptiedKids(kids0, leaf, NodesAll(t.dirs), NodesAll(t.files));
      ThinnedTwice(m0, m1, f.m, NodesAll(t.dirs), NodesAll(t.files));
      LogKept(m0, m1, kids1, depth0, NodesAll(t.dirs), PostAll(t.files));
      LogAppend(m0, depth0, PostAll(t.dirs), PostAll(t.files));
      LogKept(m0, f.m, f.kids, depth0, Beneath(t), [leaf]);
      LogAppend(m0, depth0, PostAll(t.dirs) + PostAll(t.files), [leaf]);
      if f.m[leaf].specified {
        ReallyDoExpunge(leaf);
      } else {
        NotAskedFor(f.m, f.depth, leaf);
      }
    }

    /** expunge_specified for a record that is in a list: its tree, the trees of the siblings
        behind it, and then its release. */
    method ExpungeList(leaf: Ptr, ghost parent: Ptr, ghost asDir: bool, ghost k: nat, ghost ts: seq<Shape>)
      requires Ready() && ListIs(f.m, f.kids, parent, asDir, k, ts) && ts != [] && leaf == ts[0].ptr
      modifies this`spaceRemoved, this`removed, f
      ensures Ready() && Thinned(old(f.m), f.m, NodesAll(ts)) && parent in f.m
      ensures parent in old(f.kids) && f.kids == Prune(old(f.kids), parent, asDir, k, NodesAll(ts))
      ensures Logged(old(f.m), old(f.depth), old(removed), old(spaceRemoved), PostAll(ts))
      decreases ts, 0
    {
      hide ForestOk;
      hide SpecsMatch;
      hide Unflagged;
      hide Thinned;
      hide Removals;
      hide Space;
      ghost var m0, kids0, depth0 := f.m, f.kids, f.depth;
      ghost var t, us := ts[0], ts[1..];
      TreeReady(m0, kids0, depth0, parent, asDir, k, ts);
      ListParts(ts);
      hide ListIs, FitsAll, Fits, Nodes, NodesAll, Post, PostAll, Beneath, Prune;
      ExpungeTree(leaf, t);
      ghost var m1, kids1 := f.m, f.kids;
      SiblingsRemain(m0, kids0, depth0, parent, asDir, k, ts, m1, kids1);
      ExpungeSiblings(leaf, parent, asDir, k, us);
      ghost var m2, kids2 := f.m, f.kids;
      ThinnedTwice(m0, m1, m2, Beneath(t), NodesAll(us));
      LogKept(m0, m1, kids1, depth0, Beneath(t), PostAll(us));
      LogAppend(m0, depth0, Post(t), PostAll(us));
      Release(leaf, parent, asDir, k);
      ThinnedTwice(m0, m2, f.m, Beneath(t) + NodesAll(us), {leaf});
      SweptKids(kids0, parent, asDir, k, leaf, Beneath(t), NodesAll(us));
    }

    /** The call for the next sibling, if there is one. */
    method ExpungeSiblings(leaf: Ptr, ghost parent: Ptr, ghost asDir: bool, ghost k: nat, ghost us: seq<Shape>)
      requires Ready() && ListIs(f.m, f.kids, parent, asDir, k + 1, us) && ListOf(f.kids[parent], asDir)[k] == leaf
      modifies this`spaceRemoved, this`removed, f
      ensures Ready() && Thinned(old(f.m), f.m, NodesAll(us)) && parent in f.m
      ensures parent in old(f.kids) && f.kids == Prune(old(f.kids), parent, asDir, k + 1, NodesAll(us))
      ensures Logged(old(f.m), old(f.depth), old(removed), old(spaceRemoved), PostAll(us))
      decreases us, 1
    {
      hide ForestOk;
      hide SpecsMatch;
      hide FitsAll;
      hide Removals;
      hide Space;
      NextSibling(f.m, f.kids, f.depth, parent, asDir, k);
      var next := f.m[leaf].next;
      assert us != [] ==> ListOf(f.kids[parent], asDir)[k + 1..][0] == Ptrs(us)[0];
      if next != NULL {
        ExpungeList(next, parent, asDir, k + 1, us);
      } else {
        NothingVisited(f.m, f.depth);
        assert ListOf(f.kids[parent], asDir)[..k + 1] == ListOf(f.kids[parent], asDir);
        assert f.kids == Prune(f.kids, parent, asDir, k + 1, {});
      }
    }

    /** free_leaf at the end of a visit: the record is the last of its list and has no children left. */
    method Release(leaf: Ptr, ghost parent: Ptr, ghost asDir: bool, ghost k: nat)
      requires Ready() && parent in f.m && parent in f.kids && !f.m[parent].freed
      requires k < |ListOf(f.kids[parent], asDir)| && ListOf(f.kids[parent], asDir)[k] == leaf
      requires leaf in f.kids && f.kids[leaf] == Kids([], []) && leaf != parent
      modifies f
      ensures Ready() && Thinned(old(f.m), f.m, {leaf}) && f.depth == old(f.depth)
      ensures f.kids == ShrunkKids(old(f.kids), parent, k, asDir)
    {
      hide ForestOk;
      KindOf(f.m, f.kids, f.depth, parent, asDir, leaf);
      hide SpecsMatch;
      ghost var m0, kids0 := f.m, f.kids;
      f.FreeLeaf(leaf, k, asDir);
      ReleaseThins(m0, kids0, f.depth, parent, asDir, k);
    }

    /** expunge_specified on a root, which has no siblings and is never released. */
    method ExpungeRoot(root: Ptr, ghost t: Shape)
      requires Ready() && (root == ROOT || root == CWD) && Fits(f.kids, t) && root == t.ptr && root in f.m && !f.m[root].freed
      modifies this`spaceRemoved, this`removed, f
      ensures Ready() && root in f.m && f.m[root].freed
      ensures f.m.Keys == old(f.m).Keys - Beneath(t) && f.kids == (old(f.kids) - Beneath(t))[root := Kids([], [])]
      ensures forall x | x in f.m ::
        f.m[x] == old(f.m)[x].(previous := f.m[x].previous, next := f.m[x].next, dirs := f.m[x].dirs, files := f.m[x].files,
                               freed := x == root || old(f.m)[x].freed)
      ensures Logged(old(f.m), old(f.depth), old(removed), old(spaceRemoved), Post(t))
    {
      hide ForestOk;
      hide SpecsMatch;
      hide Fits;
      hide Removals;
      hide Space;
      ghost var m0 := f.m;
      RootIsTop(f.m, f.kids, f.depth, root);
      ExpungeTree(root, t);
      ghost var m1 := f.m;
      f.FreeLeaf(root, 0, true);
      SpecsIgnoreFlags(m1, f.m, f.kids, root);
    }

    /** The two calls of expunge_specified in expunge: from any forest in which nothing is flagged,
        every record but the two roots is released and the roots are left without children; each
        record was visited once, and what was asked for was removed, in visiting order, and its
        size counted. */
    method ExpungeAll() returns (ghost visits: seq<Ptr>)
      requires f.Valid() && SpecsMatch(f.m, f.kids) && forall x | x in f.m :: !f.m[x].freed
      modifies this`spaceRemoved, this`removed, f
      ensures f.Valid() && f.m.Keys == {ROOT, CWD} && f.kids[ROOT] == Kids([], []) && f.kids[CWD] == Kids([], [])
      ensures f.m[ROOT].dirs == NULL && f.m[ROOT].files == NULL && f.m[CWD].dirs == NULL && f.m[CWD].files == NULL
      ensures Distinct(visits) && (forall x :: x in visits <==> x in old(f.m)) && ChildrenFirst(old(f.m), visits)
      ensures DirsFirst(old(f.m), old(f.kids), visits) && RootFirst(old(f.m), old(f.depth), visits)
      ensures removed == old(removed) + Removals(old(f.m), old(f.depth), visits)
      ensures spaceRemoved == old(spaceRemoved) + Space(old(f.m), visits)
    {
      hide ForestOk;
      hide SpecsMatch;
      hide Fits;
      hide Removals;
      hide Space;
      hide NodesAll;
      hide Post;
      hide ChildrenFirst;
      hide DirsFirst;
      hide RootFirst;
      hide Distinct;
      ghost var m0, kids0, depth0 := f.m, f.kids, f.depth;
      ghost var r, c := TwoShapes(m0, kids0, depth0);
      visits := Post(r) + Post(c);
      ExpungeRoot(ROOT, r);
      ghost var m1, kids1 := f.m, f.kids;
      FitsKept(kids0, kids1, c);
      CwdUntouched(m0, m1, kids1, depth0, r, c);
      ExpungeRoot(CWD, c);
      LogAppend(m0, depth0, Post(r), Post(c));
      assert f.m.Keys == {ROOT, CWD};
      NoKids(f.m, f.kids, f.depth, ROOT);
      NoKids(f.m, f.kids, f.depth, CWD);
    }
  }

  ghost predicate Distinct(s: seq<Ptr>) { forall i, j | 0 <= i < j < |s| :: s[i] != s[j] }

  lemma RootIsTop(m: Memory, kids: Lists, depth: map<Ptr, nat>, p: Ptr)
    requires ForestOk(m, kids, depth) && (p == ROOT || p == CWD)
    ensures p in m && m[p].parent == NULL && p in kids && p in depth && depth[p] == 0
  {
    AtNode(m, kids, depth, p);
  }

  lemma SpecsIgnoreFlags(m: Memory, m': Memory, kids: Lists, p: Ptr)
    requires SpecsMatch(m, kids) && p in m && m' == m[p := m[p].(freed := true)]
    ensures SpecsMatch(m', kids)
  {
  }

  /** The visits under the second root do not notice what went on under the first. */
  lemma CwdUntouched(m: Memory, m': Memory, kids': Lists, depth: map<Ptr, nat>, r: Shape, c: Shape)
    requires ForestOk(m', kids', depth) && Nodes(r) !! Nodes(c) && m'.Keys == m.Keys - Beneath(r)
    requires forall x | x in Nodes(c) :: x in m
    requires forall x | x in m' ::
      m'[x] == m[x].(previous := m'[x].previous, next := m'[x].next, dirs := m'[x].dirs, files := m'[x].files, freed := m'[x].freed)
    ensures Removals(m', depth, Post(c)) == Removals(m, depth, Post(c)) && Space(m', Post(c)) == Space(m, Post(c))
  {
    forall x | x in Post(c) ensures x in m' && x != r.ptr {
      PostIsNodes(c, x);
    }
    LogKeptFor(m, m', kids', depth, Post(c));
  }

  lemma {:induction false} LogKeptFor(m: Memory, m': Memory, kids': Lists, depth: map<Ptr, nat>, visits: seq<Ptr>)
    requires ForestOk(m', kids', depth)
    requires forall x | x in m' :: x in m && m'[x].name == m[x].name && m'[x].parent == m[x].parent
    requires forall x | x in visits :: x in m' && m'[x].specified == m[x].specified && m'[x].specs == m[x].specs
    ensures Removals(m', depth, visits) == Removals(m, depth, visits) && Space(m', visits) == Space(m, visits)
  {
    hide ForestOk;
    if visits != [] {
      assert visits[0] in visits;
      PathsKept(m', m, kids', depth, depth, visits[0]);
      LogKeptFor(m, m', kids', depth, visits[1..]);
    }
  }

  // ----- The shapes of a forest -----

  lemma {:induction false} DepthBound(depth: map<Ptr, nat>) returns (b: nat)
    ensures forall p | p in depth :: depth[p] <= b
    decreases depth.Keys
  {
    if depth == map[] {
      b := 0;
    } else {
      var p :| p in depth;
      var rest := depth - {p};
      b := DepthBound(rest);
      assert forall q | q in depth && q != p :: q in rest && rest[q] == depth[q];
      b := if depth[p] > b then depth[p] else b;
    }
  }

  lemma {:induction false} Build(m: Memory, kids: Lists, depth: map<Ptr, nat>, b: nat, p: Ptr) returns (t: Shape)
    requires ForestOk(m, kids, depth) && p in m && p in depth && forall q | q in depth :: depth[q] <= b
    ensures t.ptr == p && Fits(kids, t)
    decreases b - depth[p], 1, 0
  {
    AtNode(m, kids, depth, p);
    var dirs := BuildAll(m, kids, depth, b, p, true, kids[p].dirs);
    var files := BuildAll(m, kids, depth, b, p, false, kids[p].files);
    t := Node(p, dirs, files);
  }

  lemma {:induction false} BuildAll(m: Memory, kids: Lists, depth: map<Ptr, nat>, b: nat, p: Ptr, asDir: bool, l: seq<Ptr>) returns (ts: seq<Shape>)
    requires ForestOk(m, kids, depth) && p in m && p in kids && p in depth && forall q | q in depth :: depth[q] <= b
    requires forall x | x in l :: x in ListOf(kids[p], asDir)
    ensures Ptrs(ts) == l && FitsAll(kids, ts)
    decreases b - depth[p], 0, |l|
  {
    hide ForestOk;
    if l == [] {
      ts := [];
    } else {
      assert l[0] in l;
      ChildLinks(m, kids, depth, p, asDir, l[0]);
      var t := Build(m, kids, depth, b, l[0]);
      var rest := BuildAll(m, kids, depth, b, p, asDir, l[1..]);
      ts := [t] + rest;
      assert ts[1..] == rest;
    }
  }

  lemma TreeReady(m: Memory, kids: Lists, depth: map<Ptr, nat>, parent: Ptr, asDir: bool, k: nat, ts: seq<Shape>)
    requires ForestOk(m, kids, depth) && Unflagged(m) && ListIs(m, kids, parent, asDir, k, ts) && ts != []
    ensures Fits(kids, ts[0]) && ts[0].ptr in m && !m[ts[0].ptr].freed
    ensures ListOf(kids[parent], asDir)[k] == ts[0].ptr && parent != ts[0].ptr && ts[0].ptr in kids
    ensures ts[0].ptr !in Beneath(ts[0])
  {
    hide ForestOk;
    ListLevel(m, kids, depth, parent, asDir, k, ts);
    NotNull(m, kids, depth, parent);
    PartsApart(m, kids, depth, ts[0]);
  }

  lemma NothingVisited(m: Memory, depth: map<Ptr, nat>)
    ensures Removals(m, depth, []) == [] && Space(m, []) == 0
  {
  }

  lemma NotAskedFor(m: Memory, depth: map<Ptr, nat>, x: Ptr)
    requires x in m && !m[x].specified
    ensures Removals(m, depth, [x]) == [] && Space(m, [x]) == 0
  {
    assert [x][1..] == [];
  }

  /** A list of trees is its first tree and the rest. */
  lemma ListParts(ts: seq<Shape>)
    requires ts != []
    ensures Beneath(ts[0]) + NodesAll(ts[1..]) + {ts[0].ptr} == NodesAll(ts)
    ensures Beneath(ts[0]) + {ts[0].ptr} + NodesAll(ts[1..]) == NodesAll(ts)
    ensures Post(ts[0]) + PostAll(ts[1..]) == PostAll(ts)
  {
  }

  lemma TreeParts(t: Shape)
    ensures NodesAll(t.dirs) + NodesAll(t.files) == Beneath(t)
    ensures PostAll(t.dirs) + PostAll(t.files) + [t.ptr] == Post(t)
  {
  }

  /** Every record is under one of the two roots, and each visit order lists its records once. */
  lemma TwoShapes(m: Memory, kids: Lists, depth: map<Ptr, nat>) returns (r: Shape, c: Shape)
    requires ForestOk(m, kids, depth) && forall x | x in m :: !m[x].freed
    ensures r.ptr == ROOT && c.ptr == CWD && Fits(kids, r) && Fits(kids, c) && Nodes(r) !! Nodes(c)
    ensures Distinct(Post(r) + Post(c)) && forall x :: x in Post(r) + Post(c) <==> x in m
    ensures ChildrenFirst(m, Post(r) + Post(c)) && DirsFirst(m, kids, Post(r) + Post(c)) && RootFirst(m, depth, Post(r) + Post(c))
    ensures m.Keys - Beneath(r) - Beneath(c) == {ROOT, CWD} && ROOT in kids && CWD in kids
    ensures forall x | x in Nodes(c) :: x in m
  {
    hide ForestOk;
    r, c := TwoTrees(m, kids, depth);
    PostDistinct(m, kids, depth, r);
    PostDistinct(m, kids, depth, c);
    BothFirst(m, kids, depth, r, c);
    BothDirsFirst(m, kids, depth, r, c);
    TopsInOrder(m, kids, depth, r, c);
    hide Fits, ChildrenFirst, DirsFirst, RootFirst;
    forall x ensures x in Post(r) <==> x in Nodes(r) { PostIsNodes(r, x); }
    forall x ensures x in Post(c) <==> x in Nodes(c) { PostIsNodes(c, x); }
    hide Post, NodesAll, Nodes, Beneath;
    DistinctAppend(Post(r), Post(c));
    hide Distinct;
  }

  lemma TwoTrees(m: Memory, kids: Lists, depth: map<Ptr, nat>) returns (r: Shape, c: Shape)
    requires ForestOk(m, kids, depth) && forall x | x in m :: !m[x].freed
    ensures r.ptr == ROOT && c.ptr == CWD && Fits(kids, r) && Fits(kids, c) && Nodes(r) !! Nodes(c)
    ensures m.Keys == Nodes(r) + Nodes(c) && r.ptr in m && c.ptr in m
    ensures m.Keys - Beneath(r) - Beneath(c) == {ROOT, CWD} && ROOT in kids && CWD in kids
  {
    hide ForestOk;
    RootIsTop(m, kids, depth, ROOT);
    RootIsTop(m, kids, depth, CWD);
    var b := DepthBound(depth);
    r := Build(m, kids, depth, b, ROOT);
    c := Build(m, kids, depth, b, CWD);
    TopsApart(m, kids, depth, r, c);
    PartsApart(m, kids, depth, r);
    PartsApart(m, kids, depth, c);
    forall x | x in m ensures x in Nodes(r) + Nodes(c) {
      Covered(m, kids, depth, r, c, x);
    }
    hide Fits;
    assert m.Keys == Nodes(r) + Nodes(c);
    hide NodesAll;
  }

  lemma BothFirst(m: Memory, kids: Lists, depth: map<Ptr, nat>, r: Shape, c: Shape)
    requires ForestOk(m, kids, depth) && forall x | x in m :: !m[x].freed
    requires r.ptr == ROOT && c.ptr == CWD && Fits(kids, r) && Fits(kids, c)
    ensures ChildrenFirst(m, Post(r) + Post(c))
  {
    hide ForestOk;
    RootIsTop(m, kids, depth, ROOT);
    RootIsTop(m, kids, depth, CWD);
    TopsApart(m, kids, depth, r, c);
    BeneathFirst(m, kids, depth, r);
    BeneathFirst(m, kids, depth, c);
    forall x, y | x in Post(c) && y in Post(r) && x in m ensures m[x].parent != y {
      PostIsNodes(r, y);
      PostIsNodes(c, x);
      if m[x].parent == y {
        assert [r][1..] == [];
        assert NodesAll([r]) == Nodes(r) + NodesAll([]);
        ChildStays(m, kids, depth, [r], x, y);
      }
    }
    ChildrenFirstAppend(m, Post(r), Post(c));
  }

  lemma TopsApart(m: Memory, kids: Lists, depth: map<Ptr, nat>, r: Shape, c: Shape)
    requires ForestOk(m, kids, depth) && r.ptr == ROOT && c.ptr == CWD && Fits(kids, r) && Fits(kids, c)
    ensures Nodes(r) !! Nodes(c) && forall x | x in Nodes(r) + Nodes(c) :: x in m
  {
    hide ForestOk;
    RootIsTop(m, kids, depth, ROOT);
    RootIsTop(m, kids, depth, CWD);
    forall x | x in Nodes(r) ensures x in m && Ancestor(m, kids, depth, x, 0) == ROOT {
      RootOfAll(m, kids, depth, r, x);
    }
    forall x | x in Nodes(c) ensures x in m && Ancestor(m, kids, depth, x, 0) == CWD {
      RootOfAll(m, kids, depth, c, x);
    }
  }

  lemma {:induction false} Covered(m: Memory, kids: Lists, depth: map<Ptr, nat>, r: Shape, c: Shape, x: Ptr)
    requires ForestOk(m, kids, depth) && r.ptr == ROOT && c.ptr == CWD && Fits(kids, r) && Fits(kids, c) && x in m
    ensures x in Nodes(r) || x in Nodes(c)
    decreases if x in depth then depth[x] else 0
  {
    hide ForestOk;
    hide ListOk;
    AtNode(m, kids, depth, x);
    var p := m[x].parent;
    if p != NULL {
      Covered(m, kids, depth, r, c, p);
      if p in Nodes(r) {
        ChildCovered(kids, r, p, x);
      } else {
        ChildCovered(kids, c, p, x);
      }
    }
  }

  lemma {:induction false} ChildCovered(kids: Lists, t: Shape, p: Ptr, x: Ptr)
    requires Fits(kids, t) && p in Nodes(t) && p in kids && (x in kids[p].dirs || x in kids[p].files)
    ensures x in Nodes(t)
    decreases t
  {
    if p == t.ptr {
      if x in kids[p].dirs { PtrIsNode(t.dirs, x); } else { PtrIsNode(t.files, x); }
    } else if p in NodesAll(t.dirs) {
      ChildCoveredAll(kids, t.dirs, p, x);
    } else {
      ChildCoveredAll(kids, t.files, p, x);
    }
  }

  lemma {:induction false} ChildCoveredAll(kids: Lists, ts: seq<Shape>, p: Ptr, x: Ptr)
    requires FitsAll(kids, ts) && p in NodesAll(ts) && p in kids && (x in kids[p].dirs || x in kids[p].files)
    ensures x in NodesAll(ts)
    decreases ts
  {
    if p in Nodes(ts[0]) {
      ChildCovered(kids, ts[0], p, x);
    } else {
      ChildCoveredAll(kids, ts[1..], p, x);
    }
  }

  lemma {:induction false} PtrIsNode(ts: seq<Shape>, x: Ptr)
    requires x in Ptrs(ts)
    ensures x in NodesAll(ts)
    decreases |ts|
  {
    if ts[0].ptr != x {
      assert Ptrs(ts)[1..] == Ptrs(ts[1..]);
      PtrIsNode(ts[1..], x);
    }
  }

  lemma DistinctAppend(a: seq<Ptr>, b: seq<Ptr>)
    requires Distinct(a) && Distinct(b) && forall x | x in a :: x !in b
    ensures Distinct(a + b)
  {
    var s := a + b;
    forall i, j | 0 <= i < j < |s| ensures s[i] != s[j] {
      if i < |a| <= j {
        assert a[i] in a && b[j - |a|] in b;
      }
    }
  }

  /** Each record is visited exactly once. */
  lemma {:induction false} PostDistinct(m: Memory, kids: Lists, depth: map<Ptr, nat>, t: Shape)
    requires ForestOk(m, kids, depth) && Fits(kids, t) && t.ptr in m && forall x | x in m :: !m[x].freed
    ensures Distinct(Post(t))
    decreases t
  {
    hide ForestOk;
    PartsApart(m, kids, depth, t);
    PostAllDistinct(m, kids, depth, t.ptr, true, 0, t.dirs);
    PostAllDistinct(m, kids, depth, t.ptr, false, 0, t.files);
    hide Fits;
    forall x ensures x in PostAll(t.dirs) <==> x in NodesAll(t.dirs) { PostAllIsNodes(t.dirs, x); }
    forall x ensures x in PostAll(t.files) <==> x in NodesAll(t.files) { PostAllIsNodes(t.files, x); }
    hide PostAll;
    DistinctAppend(PostAll(t.dirs), PostAll(t.files));
    DistinctAppend(PostAll(t.dirs) + PostAll(t.files), [t.ptr]);
  }

  lemma {:induction false} PostAllDistinct(m: Memory, kids: Lists, depth: map<Ptr, nat>, parent: Ptr, asDir: bool, k: nat, ts: seq<Shape>)
    requires ForestOk(m, kids, depth) && ListIs(m, kids, parent, asDir, k, ts) && forall x | x in m :: !m[x].freed
    ensures Distinct(PostAll(ts))
    decreases ts
  {
    hide ForestOk;
    if ts != [] {
      var t, us := ts[0], ts[1..];
      ListLevel(m, kids, depth, parent, asDir, k, ts);
      assert ListOf(kids[parent], asDir)[k + 1..] == ListOf(kids[parent], asDir)[k..][1..];
      assert Ptrs(ts)[1..] == Ptrs(us);
      PostDistinct(m, kids, depth, t);
      PostAllDistinct(m, kids, depth, parent, asDir, k + 1, us);
      Apart(m, kids, depth, [t], us, depth[parent] + 1);
      assert [t][1..] == [];
      assert NodesAll([t]) == Nodes(t) + NodesAll([]);
      forall x ensures x in Post(t) <==> x in Nodes(t) { PostIsNodes(t, x); }
      forall x ensures x in PostAll(us) <==> x in NodesAll(us) { PostAllIsNodes(us, x); }
      DistinctAppend(Post(t), PostAll(us));
    }
  }

  /** In a visiting order, children come before their parents. */
  ghost predicate ChildrenFirst(m: Memory, s: seq<Ptr>) {
    forall i, j | 0 <= i < |s| && 0 <= j < |s| && s[i] in m && m[s[i]].parent == s[j] :: i < j
  }

  /** Two orders can follow one another if no record of the second is a child of one of the first. */
  lemma ChildrenFirstAppend(m: Memory, a: seq<Ptr>, b: seq<Ptr>)
    requires ChildrenFirst(m, a) && ChildrenFirst(m, b)
    requires forall x, y | x in b && y in a && x in m :: m[x].parent != y
    ensures ChildrenFirst(m, a + b)
  {
    var s := a + b;
    forall i, j | 0 <= i < |s| && 0 <= j < |s| && s[i] in m && m[s[i]].parent == s[j] ensures i < j {
      assert i >= |a| ==> s[i] in b;
      assert j < |a| ==> s[j] in a;
    }
  }

  lemma ChildStays(m: Memory, kids: Lists, depth: map<Ptr, nat>, ts: seq<Shape>, x: Ptr, y: Ptr)
    requires ForestOk(m, kids, depth) && FitsAll(kids, ts) && x in m && y in NodesAll(ts) && y in m && m[x].parent == y
    ensures x in NodesAll(ts)
  {
    hide ForestOk;
    hide ListOk;
    NotNull(m, kids, depth, y);
    AtNode(m, kids, depth, x);
    ChildCoveredAll(kids, ts, y, x);
  }

  /** Everything beneath a record is visited before it. */
  lemma {:induction false} BeneathFirst(m: Memory, kids: Lists, depth: map<Ptr, nat>, t: Shape)
    requires ForestOk(m, kids, depth) && Fits(kids, t) && t.ptr in m && forall x | x in m :: !m[x].freed
    ensures ChildrenFirst(m, Post(t))
    decreases t
  {
    hide ForestOk;
    PartsApart(m, kids, depth, t);
    BeneathFirstAll(m, kids, depth, t.ptr, true, 0, t.dirs);
    BeneathFirstAll(m, kids, depth, t.ptr, false, 0, t.files);
    var a, b := PostAll(t.dirs), PostAll(t.files);
    forall x ensures x in a <==> x in NodesAll(t.dirs) { PostAllIsNodes(t.dirs, x); }
    forall x ensures x in b <==> x in NodesAll(t.files) { PostAllIsNodes(t.files, x); }
    forall x, y | x in b && y in a && x in m ensures m[x].parent != y {
      if m[x].parent == y { ChildStays(m, kids, depth, t.dirs, x, y); }
    }
    hide Fits;
    hide PostAll;
    ChildrenFirstAppend(m, a, b);
    NotBelowItself(m, kids, depth, t);
    ChildrenFirstAppend(m, a + b, [t.ptr]);
  }

  lemma NotBelowItself(m: Memory, kids: Lists, depth: map<Ptr, nat>, t: Shape)
    requires ForestOk(m, kids, depth) && Fits(kids, t) && t.ptr in m && !m[t.ptr].freed
    ensures m[t.ptr].parent != t.ptr && m[t.ptr].parent !in Beneath(t)
  {
    hide ForestOk;
    PartsApart(m, kids, depth, t);
    NotNull(m, kids, depth, t.ptr);
    Up(m, kids, depth, t.ptr);
    if m[t.ptr].parent in Beneath(t) {
      NotNull(m, kids, depth, m[t.ptr].parent);
    }
  }

  lemma {:induction false} BeneathFirstAll(m: Memory, kids: Lists, depth: map<Ptr, nat>, parent: Ptr, asDir: bool, k: nat, ts: seq<Shape>)
    requires ForestOk(m, kids, depth) && ListIs(m, kids, parent, asDir, k, ts) && forall x | x in m :: !m[x].freed
    ensures ChildrenFirst(m, PostAll(ts))
    decreases ts
  {
    hide ForestOk;
    if ts != [] {
      var t, us := ts[0], ts[1..];
      ListLevel(m, kids, depth, parent, asDir, k, ts);
      assert ListOf(kids[parent], asDir)[k + 1..] == ListOf(kids[parent], asDir)[k..][1..];
      assert Ptrs(ts)[1..] == Ptrs(us);
      BeneathFirst(m, kids, depth, t);
      BeneathFirstAll(m, kids, depth, parent, asDir, k + 1, us);
      Apart(m, kids, depth, [t], us, depth[parent] + 1);
      InsideMemory(m, kids, depth, [t], depth[parent] + 1);
      assert [t][1..] == [];
      assert NodesAll([t]) == Nodes(t) + NodesAll([]);
      forall x ensures x in Post(t) <==> x in NodesAll([t]) { PostIsNodes(t, x); }
      forall x ensures x in PostAll(us) <==> x in NodesAll(us) { PostAllIsNodes(us, x); }
      forall x, y | x in PostAll(us) && y in Post(t) && x in m ensures m[x].parent != y {
        if m[x].parent == y { ChildStays(m, kids, depth, [t], x, y); }
      }
      ChildrenFirstAppend(m, Post(t), PostAll(us));
    }
  }

  // ----- Directories before files, and the root before the working directory -----

  ghost predicate Sibling(m: Memory, kids: Lists, x: Ptr, y: Ptr) {
    x in m && y in m && m[x].parent == m[y].parent && m[x].parent in m && m[x].parent in kids
  }

  /** In a visiting order, the directories of a directory come before its files. */
  ghost predicate DirsFirst(m: Memory, kids: Lists, s: seq<Ptr>) {
    forall i, j | 0 <= i < j < |s| && Sibling(m, kids, s[i], s[j]) ::
      !(s[i] in kids[m[s[i]].parent].files && s[j] in kids[m[s[i]].parent].dirs)
  }

  /** What is under the root comes before what is under the working directory. */
  ghost predicate RootFirst(m: Memory, depth: map<Ptr, nat>, s: seq<Ptr>) {
    forall i, j | 0 <= i < j < |s| && s[i] in m && s[i] in depth && s[j] in m && s[j] in depth ::
      !(Top(m, depth, s[i]) == CWD && Top(m, depth, s[j]) == ROOT)
  }

  /** `x` is a file and `y` a directory of the same directory. */
  ghost predicate FileBeside(m: Memory, kids: Lists, x: Ptr, y: Ptr) {
    Sibling(m, kids, x, y) && x in kids[m[x].parent].files && y in kids[m[x].parent].dirs
  }

  lemma DirsFirstAppend(m: Memory, kids: Lists, a: seq<Ptr>, b: seq<Ptr>)
    requires DirsFirst(m, kids, a) && DirsFirst(m, kids, b)
    requires forall x, y | x in a && y in b :: !FileBeside(m, kids, x, y)
    ensures DirsFirst(m, kids, a + b)
  {
    var s := a + b;
    forall i, j | 0 <= i < j < |s| && Sibling(m, kids, s[i], s[j])
      ensures !(s[i] in kids[m[s[i]].parent].files && s[j] in kids[m[s[i]].parent].dirs)
    {
      if i < |a| <= j {
        assert s[i] in a && s[j] in b;
        assert !FileBeside(m, kids, s[i], s[j]);
      }
    }
  }

  /** What is in a tree, but not its root, has its parent in the tree. */
  lemma {:induction false} ParentInside(m: Memory, kids: Lists, depth: map<Ptr, nat>, t: Shape, x: Ptr)
    requires ForestOk(m, kids, depth) && Fits(kids, t) && t.ptr in m && x in Nodes(t) && x != t.ptr
    ensures x in m && m[x].parent in Nodes(t)
    decreases t
  {
    hide ForestOk;
    var asDir := x in NodesAll(t.dirs);
    var ts := if asDir then t.dirs else t.files;
    var i := Holding(kids, ts, x);
    assert Ptrs(ts)[i] == ts[i].ptr && Ptrs(ts) == ListOf(kids[t.ptr], asDir);
    ChildLinks(m, kids, depth, t.ptr, asDir, ts[i].ptr);
    if x != ts[i].ptr {
      ParentInside(m, kids, depth, ts[i], x);
      NodeOfAll(ts, i, m[x].parent);
    }
  }

  lemma {:induction false} NodeOfAll(ts: seq<Shape>, i: nat, x: Ptr)
    requires i < |ts| && x in Nodes(ts[i])
    ensures x in NodesAll(ts)
    decreases |ts|
  {
    if i > 0 {
      NodeOfAll(ts[1..], i - 1, x);
    }
  }

  /** The parent of a record in a list of trees is in one of them, unless the record is a root of one. */
  lemma ParentInsideAll(m: Memory, kids: Lists, depth: map<Ptr, nat>, ts: seq<Shape>, d: nat, x: Ptr)
    requires ForestOk(m, kids, depth) && FitsAll(kids, ts) && Level(m, depth, ts, d) && x in NodesAll(ts)
    ensures x in m && (x in Ptrs(ts) || m[x].parent in NodesAll(ts))
  {
    hide ForestOk;
    var i := Holding(kids, ts, x);
    if x == ts[i].ptr {
      assert Ptrs(ts)[i] == x;
    } else {
      ParentInside(m, kids, depth, ts[i], x);
      NodeOfAll(ts, i, m[x].parent);
    }
  }

  lemma NotBoth(m: Memory, kids: Lists, depth: map<Ptr, nat>, p: Ptr, x: Ptr)
    requires ForestOk(m, kids, depth) && p in m
    ensures p in kids && !(x in kids[p].dirs && x in kids[p].files)
  {
    hide ForestOk;
    AtNode(m, kids, depth, p);
  }

  /** Below different trees, and at their roots unless these are a file and a directory. */
  lemma ApartBeside(m: Memory, kids: Lists, depth: map<Ptr, nat>, ts: seq<Shape>, us: seq<Shape>, d: nat, x: Ptr, y: Ptr)
    requires ForestOk(m, kids, depth) && FitsAll(kids, ts) && FitsAll(kids, us) && Level(m, depth, ts, d) && Level(m, depth, us, d)
    requires NodesAll(ts) !! NodesAll(us) && x in NodesAll(ts) && y in NodesAll(us) && Sibling(m, kids, x, y)
    ensures x in Ptrs(ts) && y in Ptrs(us)
  {
    hide ForestOk;
    ParentInsideAll(m, kids, depth, ts, d, x);
    ParentInsideAll(m, kids, depth, us, d, y);
    InsideMemory(m, kids, depth, ts, d);
    InsideMemory(m, kids, depth, us, d);
    var g := m[x].parent;
    if g in NodesAll(ts) {
      ChildStays(m, kids, depth, ts, y, g);
    } else if g in NodesAll(us) {
      ChildStays(m, kids, depth, us, x, g);
    }
  }

  lemma {:induction false} DirsFirstIn(m: Memory, kids: Lists, depth: map<Ptr, nat>, t: Shape)
    requires ForestOk(m, kids, depth) && Fits(kids, t) && t.ptr in m && forall x | x in m :: !m[x].freed
    ensures DirsFirst(m, kids, Post(t))
    decreases t
  {
    hide ForestOk;
    PartsApart(m, kids, depth, t);
    DirsFirstInAll(m, kids, depth, t.ptr, true, 0, t.dirs);
    DirsFirstInAll(m, kids, depth, t.ptr, false, 0, t.files);
    var a, b := PostAll(t.dirs), PostAll(t.files);
    forall x, y | x in a && y in b ensures !FileBeside(m, kids, x, y) {
      if FileBeside(m, kids, x, y) {
        PostAllIsNodes(t.dirs, x);
        PostAllIsNodes(t.files, y);
        DirThenFile(m, kids, depth, t, x, y);
      }
    }
    forall x | x in a + b ensures !FileBeside(m, kids, x, t.ptr) {
      if FileBeside(m, kids, x, t.ptr) {
        PostAllIsNodes(t.dirs, x);
        PostAllIsNodes(t.files, x);
        ParentInside(m, kids, depth, t, x);
        NotBelowItself(m, kids, depth, t);
      }
    }
    hide Fits, PostAll, FileBeside;
    DirsFirstAppend(m, kids, a, b);
    assert DirsFirst(m, kids, [t.ptr]);
    DirsFirstAppend(m, kids, a + b, [t.ptr]);
  }

  lemma DirThenFile(m: Memory, kids: Lists, depth: map<Ptr, nat>, t: Shape, x: Ptr, y: Ptr)
    requires ForestOk(m, kids, depth) && Fits(kids, t) && t.ptr in m && !m[t.ptr].freed
    requires x in NodesAll(t.dirs) && y in NodesAll(t.files)
    ensures !FileBeside(m, kids, x, y)
  {
    hide ForestOk;
    if FileBeside(m, kids, x, y) {
      PartsApart(m, kids, depth, t);
      Up(m, kids, depth, t.ptr);
      ListLevel(m, kids, depth, t.ptr, true, 0, t.dirs);
      ListLevel(m, kids, depth, t.ptr, false, 0, t.files);
      ApartBeside(m, kids, depth, t.dirs, t.files, depth[t.ptr] + 1, x, y);
      ChildLinks(m, kids, depth, t.ptr, true, x);
      NotBoth(m, kids, depth, t.ptr, x);
    }
  }

  lemma {:induction false} DirsFirstInAll(m: Memory, kids: Lists, depth: map<Ptr, nat>, parent: Ptr, asDir: bool, k: nat, ts: seq<Shape>)
    requires ForestOk(m, kids, depth) && ListIs(m, kids, parent, asDir, k, ts) && forall x | x in m :: !m[x].freed
    ensures DirsFirst(m, kids, PostAll(ts))
    decreases ts
  {
    hide ForestOk;
    if ts != [] {
      var t, us := ts[0], ts[1..];
      ListLevel(m, kids, depth, parent, asDir, k, ts);
      assert ListOf(kids[parent], asDir)[k + 1..] == ListOf(kids[parent], asDir)[k..][1..];
      assert Ptrs(ts)[1..] == Ptrs(us);
      DirsFirstIn(m, kids, depth, t);
      DirsFirstInAll(m, kids, depth, parent, asDir, k + 1, us);
      forall x, y | x in Post(t) && y in PostAll(us) ensures !FileBeside(m, kids, x, y) {
        if FileBeside(m, kids, x, y) {
          PostIsNodes(t, x);
          PostAllIsNodes(us, y);
          SameList(m, kids, depth, parent, asDir, k, ts, x, y);
        }
      }
      hide Fits, FitsAll, Post, FileBeside, DirsFirst;
      DirsFirstAppend(m, kids, Post(t), PostAll(us));
    }
  }

  lemma SameList(m: Memory, kids: Lists, depth: map<Ptr, nat>, parent: Ptr, asDir: bool, k: nat, ts: seq<Shape>, x: Ptr, y: Ptr)
    requires ForestOk(m, kids, depth) && ListIs(m, kids, parent, asDir, k, ts) && ts != []
    requires x in Nodes(ts[0]) && y in NodesAll(ts[1..])
    ensures !FileBeside(m, kids, x, y)
  {
    hide ForestOk;
    if FileBeside(m, kids, x, y) {
      var t, us := ts[0], ts[1..];
      ListLevel(m, kids, depth, parent, asDir, k, ts);
      Apart(m, kids, depth, [t], us, depth[parent] + 1);
      assert [t][1..] == [];
      assert NodesAll([t]) == Nodes(t) + NodesAll([]);
      ApartBeside(m, kids, depth, [t], us, depth[parent] + 1, x, y);
      Listed(kids, parent, asDir, k, ts, y);
      assert x == Ptrs([t])[0] == t.ptr && x == ListOf(kids[parent], asDir)[k];
      NotBoth(m, kids, depth, parent, x);
      NotBoth(m, kids, depth, parent, y);
    }
  }

  lemma Listed(kids: Lists, parent: Ptr, asDir: bool, k: nat, ts: seq<Shape>, y: Ptr)
    requires ts != [] && parent in kids && k + |ts| == |ListOf(kids[parent], asDir)| && ListOf(kids[parent], asDir)[k..] == Ptrs(ts)
    requires y in Ptrs(ts[1..])
    ensures y in ListOf(kids[parent], asDir)
  {
    var i :| 0 <= i < |Ptrs(ts[1..])| && Ptrs(ts[1..])[i] == y;
    assert Ptrs(ts)[i + 1] == y;
    assert ListOf(kids[parent], asDir)[k + i + 1] == y;
  }

  lemma BothDirsFirst(m: Memory, kids: Lists, depth: map<Ptr, nat>, r: Shape, c: Shape)
    requires ForestOk(m, kids, depth) && forall x | x in m :: !m[x].freed
    requires r.ptr == ROOT && c.ptr == CWD && Fits(kids, r) && Fits(kids, c)
    ensures DirsFirst(m, kids, Post(r) + Post(c))
  {
    hide ForestOk;
    RootIsTop(m, kids, depth, ROOT);
    RootIsTop(m, kids, depth, CWD);
    TopsApart(m, kids, depth, r, c);
    DirsFirstIn(m, kids, depth, r);
    DirsFirstIn(m, kids, depth, c);
    forall x, y | x in Post(r) && y in Post(c) ensures !FileBeside(m, kids, x, y) {
      PostIsNodes(r, x);
      PostIsNodes(c, y);
      if FileBeside(m, kids, x, y) {
        TopBeside(m, kids, depth, r, x, y);
      }
    }
    hide Fits, Post, FileBeside, DirsFirst;
    DirsFirstAppend(m, kids, Post(r), Post(c));
  }

  /** A file below a root has its siblings below the same root. */
  lemma TopBeside(m: Memory, kids: Lists, depth: map<Ptr, nat>, r: Shape, x: Ptr, y: Ptr)
    requires ForestOk(m, kids, depth) && Fits(kids, r) && r.ptr in m && m[r.ptr].parent == NULL && x in Nodes(r)
    requires FileBeside(m, kids, x, y)
    ensures y in Nodes(r)
  {
    hide ForestOk;
    var g := m[x].parent;
    NotNull(m, kids, depth, g);
    ParentInside(m, kids, depth, r, x);
    assert [r][1..] == [];
    assert NodesAll([r]) == Nodes(r) + NodesAll([]);
    ChildStays(m, kids, depth, [r], y, g);
  }

  /** The root that a record is under is its ancestor at depth 0. */
  lemma {:induction false} TopIsAncestor(m: Memory, kids: Lists, depth: map<Ptr, nat>, x: Ptr)
    requires ForestOk(m, kids, depth) && x in m
    ensures x in depth && Top(m, depth, x) == Ancestor(m, kids, depth, x, 0)
    decreases if x in depth then depth[x] else 0
  {
    hide ForestOk;
    Up(m, kids, depth, x);
    if m[x].parent != NULL {
      Deeper(m, kids, depth, x);
      NotNull(m, kids, depth, x);
      TopIsAncestor(m, kids, depth, m[x].parent);
    }
  }

  lemma TopsInOrder(m: Memory, kids: Lists, depth: map<Ptr, nat>, r: Shape, c: Shape)
    requires ForestOk(m, kids, depth) && r.ptr == ROOT && c.ptr == CWD && Fits(kids, r) && Fits(kids, c)
    ensures RootFirst(m, depth, Post(r) + Post(c))
  {
    hide ForestOk;
    RootIsTop(m, kids, depth, ROOT);
    RootIsTop(m, kids, depth, CWD);
    var s := Post(r) + Post(c);
    forall i, j | 0 <= i < j < |s| && s[i] in m && s[i] in depth && s[j] in m && s[j] in depth
      ensures !(Top(m, depth, s[i]) == CWD && Top(m, depth, s[j]) == ROOT)
    {
      var t := if i < |Post(r)| then r else c;
      var u := if i < |Post(r)| then s[i] else s[j];
      assert u in Post(t);
      PostIsNodes(t, u);
      RootOfAll(m, kids, depth, t, u);
      TopIsAncestor(m, kids, depth, u);
    }
  }
}
