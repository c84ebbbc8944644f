/** The forest of file records of the delete suite (athena/bin/delete/directories.c).  Memory is
    a map from addresses to records, so that every access to a released record would be an error
    of the model, and `free` takes an address out of the map. */
module FileForest {
  import opened Wrappers
  import opened Paths

  type Ptr = nat
  const NULL: Ptr := 0
  const ROOT: Ptr := 1
  const CWD: Ptr := 2

  datatype Specs = Specs(isDir: bool, size: nat)

  datatype FileRec = FileRec(
    name: string,
    previous: Ptr, parent: Ptr, dirs: Ptr, files: Ptr, next: Ptr,
    specified: bool, freed: bool,
    specs: Specs)

  type Memory = map<Ptr, FileRec>

  /** The children of a record, as the lists its links are meant to form. */
  datatype Kids = Kids(dirs: seq<Ptr>, files: seq<Ptr>)

  type Lists = map<Ptr, Kids>

  // ----- The invariant -----

  function Head(l: seq<Ptr>): Ptr { if l == [] then NULL else l[0] }

  ghost predicate Linked(m: Memory, p: Ptr, l: seq<Ptr>, i: nat)
    requires i < |l|
  {
    && l[i] in m
    && m[l[i]].parent == p
    && m[l[i]].previous == (if i == 0 then NULL else l[i - 1])
    && m[l[i]].next == (if i + 1 < |l| then l[i + 1] else NULL)
  }

  /** `l` is a doubly linked list of children of `p` with distinct names. */
  ghost predicate ListOk(m: Memory, p: Ptr, l: seq<Ptr>) {
    && (forall i | 0 <= i < |l| :: Linked(m, p, l, i))
    && (forall i, j | 0 <= i < j < |l| :: l[i] in m && l[j] in m && m[l[i]].name != m[l[j]].name)
  }

  ghost predicate NodeOk(m: Memory, kids: Lists, depth: map<Ptr, nat>, p: Ptr)
    requires p in m
  {
    && p in kids && p in depth
    && m[p].dirs == Head(kids[p].dirs) && m[p].files == Head(kids[p].files)
    && ListOk(m, p, kids[p].dirs) && ListOk(m, p, kids[p].files)
    && (forall q | q in kids[p].dirs :: q !in kids[p].files)
    && (m[p].parent == NULL <==> p == ROOT || p == CWD)
    && (m[p].parent == NULL ==> depth[p] == 0)
    && (m[p].parent != NULL ==>
          && m[p].parent in m && m[p].parent in kids && m[p].parent in depth
          && (p in kids[m[p].parent].dirs || p in kids[m[p].parent].files)
          && depth[p] == depth[m[p].parent] + 1)
  }

  ghost predicate ForestOk(m: Memory, kids: Lists, depth: map<Ptr, nat>) {
    && NULL !in m && ROOT in m && CWD in m && m[ROOT].name == "/" && m[CWD].name == ""
    && (forall p | p in m :: NodeOk(m, kids, depth, p))
  }

  lemma AtNode(m: Memory, kids: Lists, depth: map<Ptr, nat>, p: Ptr)
    requires ForestOk(m, kids, depth) && p in m
    ensures NodeOk(m, kids, depth, p) && p != NULL
  {
  }

  // ----- Paths of records -----

  /** What get_leaf_path gives. */
  ghost function PathOf(m: Memory, depth: map<Ptr, nat>, p: Ptr): string
    requires p in m && p in depth
    decreases depth[p]
  {
    var q := m[p].parent;
    if q == NULL || q !in m || q !in depth || depth[q] >= depth[p] then m[p].name
    else PathOf(m, depth, q) + (if m[q].parent != NULL then "/" else "") + m[p].name
  }

  /** The root that a record is under. */
  ghost function Top(m: Memory, depth: map<Ptr, nat>, p: Ptr): Ptr
    requires p in m && p in depth
    decreases depth[p]
  {
    var q := m[p].parent;
    if q == NULL || q !in m || q !in depth || depth[q] >= depth[p] then p else Top(m, depth, q)
  }

  lemma Up(m: Memory, kids: Lists, depth: map<Ptr, nat>, p: Ptr)
    requires ForestOk(m, kids, depth) && p in m
    ensures p in depth
    ensures m[p].parent != NULL ==> m[p].parent in m && m[p].parent in depth && depth[m[p].parent] < depth[p]
  {
    assert NodeOk(m, kids, depth, p);
    if m[p].parent != NULL {
      assert NodeOk(m, kids, depth, m[p].parent);
    }
  }

  /** Names and parents are never changed, so paths are not either. */
  lemma {:induction false} PathsKept(m: Memory, m': Memory, kids: Lists, depth: map<Ptr, nat>, depth': map<Ptr, nat>, p: Ptr)
    requires ForestOk(m, kids, depth) && p in m
    requires forall q | q in m :: q in m' && m'[q].name == m[q].name && m'[q].parent == m[q].parent
    requires forall q | q in m && q in depth :: q in depth' && depth'[q] == depth[q]
    ensures p in depth && p in m' && p in depth' && PathOf(m', depth', p) == PathOf(m, depth, p) && Top(m', depth', p) == Top(m, depth, p)
    decreases if p in depth then depth[p] else 0
  {
    assert NodeOk(m, kids, depth, p);
    var q := m[p].parent;
    if q != NULL {
      PathsKept(m, m', kids, depth, depth', q);
    }
  }

  /** Nothing that was there is renamed, moved or flagged freed, and nothing new is flagged. */
  ghost predicate Extends(m: Memory, depth: map<Ptr, nat>, m': Memory, depth': map<Ptr, nat>) {
    && (forall x | x in m :: x in m' && m'[x].name == m[x].name && m'[x].parent == m[x].parent && m'[x].freed == m[x].freed)
    && (forall x | x in m && x in depth :: x in depth' && depth'[x] == depth[x])
    && (forall x | x in m' && x !in m :: !m'[x].freed)
  }

  lemma ExtendsTwice(m: Memory, depth: map<Ptr, nat>, m': Memory, depth': map<Ptr, nat>, m'': Memory, depth'': map<Ptr, nat>)
    requires Extends(m, depth, m', depth') && Extends(m', depth', m'', depth'')
    ensures Extends(m, depth, m'', depth'')
  {
  }

  /** The records asked for are those asked for before, and `leaf`. */
  ghost predicate NowSpecified(m: Memory, m': Memory, leaf: Ptr) {
    forall x | x in m' :: m'[x].specified <==> x == leaf || (x in m && m[x].specified)
  }

  ghost predicate NowAllSpecified(m: Memory, m': Memory, leaves: seq<Ptr>) {
    forall x | x in m' :: m'[x].specified <==> x in leaves || (x in m && m[x].specified)
  }

  lemma SpecifiedOneMore(m: Memory, depth: map<Ptr, nat>, m': Memory, depth': map<Ptr, nat>, m'': Memory, leaves: seq<Ptr>, leaf: Ptr)
    requires Extends(m, depth, m', depth') && NowAllSpecified(m, m', leaves) && NowSpecified(m', m'', leaf)
    requires forall x | x in leaves :: x in m'
    ensures NowAllSpecified(m, m'', leaves + [leaf])
  {
  }

  /** Directories are in the list of directories, other files in the other list. */
  ghost predicate SpecsMatch(m: Memory, kids: Lists) {
    forall x | x in m && m[x].parent != NULL ::
      m[x].parent in kids && (m[x].specs.isDir <==> x in kids[m[x].parent].dirs)
  }

  /** The call that removes a file. */
  datatype Removal = Rmdir(path: string) | Unlink(path: string)

  function RemovalFor(isDir: bool, path: string): Removal { if isDir then Rmdir(path) else Unlink(path) }

  /** A name is one component of a path, and everything a file is in is a directory that could be
      examined under its path. */
  ghost predicate Tidy(m: Memory, depth: map<Ptr, nat>, statDir: string -> Option<nat>, x: Ptr)
    requires x in m
  {
    m[x].parent != NULL ==>
      && '/' !in m[x].name && m[x].parent in m && m[x].parent in depth
      && (m[m[x].parent].parent != NULL ==> m[m[x].parent].specs.isDir && statDir(PathOf(m, depth, m[x].parent)).Some?)
  }

  ghost predicate AllTidy(m: Memory, depth: map<Ptr, nat>, statDir: string -> Option<nat>) {
    forall x | x in m :: Tidy(m, depth, statDir, x)
  }

  /** What was a directory still is one, and nothing else has become one. */
  ghost predicate KindsKept(m: Memory, m': Memory) {
    forall x | x in m && m[x].parent != NULL :: x in m' && m'[x].specs.isDir == m[x].specs.isDir
  }

  /** Each record has the size `size` of what would be removed. */
  ghost predicate Sized(m: Memory, depth: map<Ptr, nat>, size: Removal -> nat) {
    forall x | x in m && m[x].parent != NULL ::
      x in depth && m[x].specs.size == size(RemovalFor(m[x].specs.isDir, PathOf(m, depth, x)))
  }

  /** What adding paths keeps: the kinds, the order of things, and honest sizes. */
  ghost predicate Grown(m: Memory, kids: Lists, depth: map<Ptr, nat>, m': Memory, kids': Lists, depth': map<Ptr, nat>,
                        statDir: string -> Option<nat>, size: Removal -> nat, honest: bool)
  {
    && (SpecsMatch(m, kids) ==> SpecsMatch(m', kids') && KindsKept(m, m'))
    && (SpecsMatch(m, kids) && AllTidy(m, depth, statDir) ==> AllTidy(m', depth', statDir))
    && (Sized(m, depth, size) && honest ==> Sized(m', depth', size))
  }

  lemma GrownTwice(m: Memory, kids: Lists, depth: map<Ptr, nat>, m': Memory, kids': Lists, depth': map<Ptr, nat>,
                   m'': Memory, kids'': Lists, depth'': map<Ptr, nat>,
                   statDir: string -> Option<nat>, size: Removal -> nat, honest: bool, honest': bool, honest'': bool)
    requires Extends(m, depth, m', depth') && Extends(m', depth', m'', depth'')
    requires Grown(m, kids, depth, m', kids', depth', statDir, size, honest)
    requires Grown(m', kids', depth', m'', kids'', depth'', statDir, size, honest')
    requires honest'' ==> honest && honest'
    ensures Extends(m, depth, m'', depth'') && Grown(m, kids, depth, m'', kids'', depth'', statDir, size, honest'')
  {
    hide SpecsMatch, AllTidy, Sized;
  }

  lemma GrownSpecs(m: Memory, kids: Lists, depth: map<Ptr, nat>, m': Memory, kids': Lists, depth': map<Ptr, nat>,
                   statDir: string -> Option<nat>, size: Removal -> nat, honest: bool)
    requires Grown(m, kids, depth, m', kids', depth', statDir, size, honest)
    ensures SpecsMatch(m, kids) ==> SpecsMatch(m', kids')
  {
    hide SpecsMatch, AllTidy, Sized;
  }

  lemma GrownKinds(m: Memory, kids: Lists, depth: map<Ptr, nat>, m': Memory, kids': Lists, depth': map<Ptr, nat>,
                   statDir: string -> Option<nat>, size: Removal -> nat, honest: bool)
    requires Grown(m, kids, depth, m', kids', depth', statDir, size, honest) && SpecsMatch(m, kids)
    ensures SpecsMatch(m', kids') && forall x | x in m && m[x].parent != NULL :: x in m' && m'[x].specs.isDir == m[x].specs.isDir
  {
    hide SpecsMatch, AllTidy, Sized;
  }

  /** A list reached by its links: from any element the `next` link leads to the following one. */
  lemma ListStep(m: Memory, p: Ptr, l: seq<Ptr>, i: nat)
    requires ListOk(m, p, l) && i < |l|
    ensures l[i] in m && m[l[i]].next == (if i + 1 < |l| then l[i + 1] else NULL)
  {
    assert Linked(m, p, l, i);
  }

  // ----- Appending a child -----

  function ListOf(k: Kids, asDir: bool): seq<Ptr> { if asDir then k.dirs else k.files }

  function WithList(k: Kids, asDir: bool, l: seq<Ptr>): Kids {
    if asDir then k.(dirs := l) else k.(files := l)
  }

  function HeadOf(r: FileRec, asDir: bool): Ptr { if asDir then r.dirs else r.files }

  function WithHead(r: FileRec, asDir: bool, head: Ptr): FileRec {
    if asDir then r.(dirs := head) else r.(files := head)
  }

  function Last(l: seq<Ptr>): Ptr { if l == [] then NULL else l[|l| - 1] }

  function NewRec(name: string, previous: Ptr, parent: Ptr, specified: bool): FileRec {
    FileRec(name, previous, parent, NULL, NULL, NULL, specified, false, Specs(false, 0))
  }

  /** Memory after a new record `q` is hung behind `last`, or first in a list of `parent`. */
  function Hung(m: Memory, parent: Ptr, last: Ptr, q: Ptr, r: FileRec, asDir: bool): Memory
    requires parent in m && (last != NULL ==> last in m)
  {
    if last != NULL then m[q := r][last := m[last].(next := q)]
    else m[q := r][parent := WithHead(m[parent], asDir, q)]
  }

  /** What AddChild is allowed to do to the links that other lists look at. */
  ghost predicate SameLinks(m: Memory, m': Memory, x: Ptr) {
    x in m && x in m' && m'[x].name == m[x].name && m'[x].parent == m[x].parent
    && m'[x].previous == m[x].previous && m'[x].next == m[x].next
  }

  lemma ListKept(m: Memory, m': Memory, p: Ptr, l: seq<Ptr>)
    requires ListOk(m, p, l) && forall x | x in l :: SameLinks(m, m', x)
    ensures ListOk(m', p, l)
  {
    forall i | 0 <= i < |l| ensures Linked(m', p, l, i) {
      assert Linked(m, p, l, i) && l[i] in l;
    }
    forall i, j | 0 <= i < j < |l| ensures l[i] in m' && l[j] in m' && m'[l[i]].name != m'[l[j]].name {
      assert l[i] in l && l[j] in l;
    }
  }

  lemma ChildOf(m: Memory, p: Ptr, l: seq<Ptr>, x: Ptr)
    requires ListOk(m, p, l) && x in l
    ensures x in m && m[x].parent == p
  {
    var i :| 0 <= i < |l| && l[i] == x;
    assert Linked(m, p, l, i);
  }

  /** A list grows at its end. */
  lemma ListGrows(m: Memory, m': Memory, p: Ptr, l: seq<Ptr>, q: Ptr)
    requires ListOk(m, p, l) && q !in m && q in m'
    requires forall x | x in l && x != Last(l) :: SameLinks(m, m', x)
    requires l != [] ==> Last(l) in m && Last(l) in m' && m'[Last(l)] == m[Last(l)].(next := q)
    requires m'[q].parent == p && m'[q].previous == Last(l) && m'[q].next == NULL
    requires forall x | x in l :: x in m && m[x].name != m'[q].name
    ensures ListOk(m', p, l + [q])
  {
    var l' := l + [q];
    forall i, j | 0 <= i < j < |l| ensures l[i] != l[j] {
      assert l[i] in m && l[j] in m;
    }
    forall i | 0 <= i < |l'| ensures Linked(m', p, l', i) {
      if i < |l| {
        assert Linked(m, p, l, i) && l[i] in l;
      }
    }
    forall i, j | 0 <= i < j < |l'| ensures l'[i] in m' && l'[j] in m' && m'[l'[i]].name != m'[l'[j]].name {
      assert Linked(m', p, l', i) && Linked(m', p, l', j);
      assert l[i] in l;
      if j < |l| {
        assert l[j] in l;
      }
    }
  }

  ghost predicate CanHang(m: Memory, kids: Lists, depth: map<Ptr, nat>, parent: Ptr, q: Ptr, name: string, asDir: bool) {
    && ForestOk(m, kids, depth) && parent in m && parent in kids && parent in depth
    && q !in m && q > CWD
    && forall x | x in ListOf(kids[parent], asDir) :: x in m && m[x].name != name
  }

  ghost function GrownKids(kids: Lists, parent: Ptr, q: Ptr, asDir: bool): Lists
    requires parent in kids
  {
    kids[parent := WithList(kids[parent], asDir, ListOf(kids[parent], asDir) + [q])][q := Kids([], [])]
  }

  lemma HangKeeps(m: Memory, kids: Lists, depth: map<Ptr, nat>, parent: Ptr, q: Ptr, name: string, specified: bool, asDir: bool)
    requires CanHang(m, kids, depth, parent, q, name, asDir)
    ensures var last := Last(ListOf(kids[parent], asDir));
      && (last != NULL ==> last in m)
      && ForestOk(Hung(m, parent, last, q, NewRec(name, last, parent, specified), asDir),
                  GrownKids(kids, parent, q, asDir), depth[q := depth[parent] + 1])
  {
    hide NodeOk;
    hide ListOk;
    var l := ListOf(kids[parent], asDir);
    var last := Last(l);
    HangAtParent(m, kids, depth, parent, q, name, specified, asDir);
    var m' := Hung(m, parent, last, q, NewRec(name, last, parent, specified), asDir);
    var kids', depth' := GrownKids(kids, parent, q, asDir), depth[q := depth[parent] + 1];
    forall p | p in m' ensures NodeOk(m', kids', depth', p) {
      if p == q {
        HangNew(m, kids, depth, parent, q, name, specified, asDir);
      } else if p != parent {
        HangElsewhere(m, kids, depth, parent, q, name, specified, asDir, p);
      }
    }
  }

  lemma HangNew(m: Memory, kids: Lists, depth: map<Ptr, nat>, parent: Ptr, q: Ptr, name: string, specified: bool, asDir: bool)
    requires CanHang(m, kids, depth, parent, q, name, asDir)
    requires var last := Last(ListOf(kids[parent], asDir)); last != NULL ==> last in m
    ensures var last := Last(ListOf(kids[parent], asDir));
      NodeOk(Hung(m, parent, last, q, NewRec(name, last, parent, specified), asDir),
             GrownKids(kids, parent, q, asDir), depth[q := depth[parent] + 1], q)
  {
    hide ForestOk;
    AtNode(m, kids, depth, parent);
    assert q in ListOf(kids[parent], asDir) + [q];
  }

  lemma HangAtParent(m: Memory, kids: Lists, depth: map<Ptr, nat>, parent: Ptr, q: Ptr, name: string, specified: bool, asDir: bool)
    requires CanHang(m, kids, depth, parent, q, name, asDir)
    ensures var last := Last(ListOf(kids[parent], asDir));
      && (last != NULL ==> last in m)
      && NodeOk(Hung(m, parent, last, q, NewRec(name, last, parent, specified), asDir),
                GrownKids(kids, parent, q, asDir), depth[q := depth[parent] + 1], parent)
  {
    hide ForestOk;
    hide ListOk;
    AtNode(m, kids, depth, parent);
    var l := ListOf(kids[parent], asDir);
    var other := ListOf(kids[parent], !asDir);
    var last := Last(l);
    if l != [] {
      ChildOf(m, parent, l, last);
      AtNode(m, kids, depth, last);
    }
    var m' := Hung(m, parent, last, q, NewRec(name, last, parent, specified), asDir);
    forall x | x in other ensures x in m && SameLinks(m, m', x) && x != q {
      ChildOf(m, parent, other, x);
      assert x !in l;
    }
    ListKept(m, m', parent, other);
    forall x | x in l && x != last ensures SameLinks(m, m', x) {
      ChildOf(m, parent, l, x);
    }
    ListGrows(m, m', parent, l, q);
    var g := m[parent].parent;
    assert g != NULL ==> g != parent && g != q;
  }

  lemma HangElsewhere(m: Memory, kids: Lists, depth: map<Ptr, nat>, parent: Ptr, q: Ptr, name: string, specified: bool, asDir: bool, p: Ptr)
    requires CanHang(m, kids, depth, parent, q, name, asDir) && p in m && p != parent
    ensures var last := Last(ListOf(kids[parent], asDir));
      && (last != NULL ==> last in m)
      && NodeOk(Hung(m, parent, last, q, NewRec(name, last, parent, specified), asDir),
                GrownKids(kids, parent, q, asDir), depth[q := depth[parent] + 1], p)
  {
    hide ForestOk;
    hide ListOk;
    AtNode(m, kids, depth, p);
    AtNode(m, kids, depth, parent);
    HangOtherList(m, kids, depth, parent, q, name, specified, asDir, p, true);
    HangOtherList(m, kids, depth, parent, q, name, specified, asDir, p, false);
    var last := Last(ListOf(kids[parent], asDir));
    assert p == last ==> m[p].parent == parent by {
      if p == last { ChildOf(m, parent, ListOf(kids[parent], asDir), last); }
    }
  }

  lemma HangOtherList(m: Memory, kids: Lists, depth: map<Ptr, nat>, parent: Ptr, q: Ptr, name: string, specified: bool, asDir: bool, p: Ptr, d: bool)
    requires CanHang(m, kids, depth, parent, q, name, asDir) && p in m && p in kids && p != parent
    ensures var last := Last(ListOf(kids[parent], asDir));
      && (last != NULL ==> last in m)
      && ListOk(Hung(m, parent, last, q, NewRec(name, last, parent, specified), asDir), p, ListOf(kids[p], d))
  {
    hide ForestOk;
    hide ListOk;
    AtNode(m, kids, depth, p);
    AtNode(m, kids, depth, parent);
    var l := ListOf(kids[parent], asDir);
    var last := Last(l);
    if l != [] { ChildOf(m, parent, l, last); }
    var m' := Hung(m, parent, last, q, NewRec(name, last, parent, specified), asDir);
    forall x | x in ListOf(kids[p], d) ensures SameLinks(m, m', x) {
      ChildOf(m, p, ListOf(kids[p], d), x);
    }
    ListKept(m, m', p, ListOf(kids[p], d));
  }

  // ----- Releasing a record -----

  /** Memory after a record without children is unlinked from its list and released. */
  function Unhung(m: Memory, parent: Ptr, leaf: Ptr, asDir: bool): Memory
    requires parent in m && leaf in m && parent != leaf
    requires m[leaf].previous != NULL ==> m[leaf].previous in m
    requires m[leaf].next != NULL ==> m[leaf].next in m
  {
    var prev, next := m[leaf].previous, m[leaf].next;
    var m1 := if prev != NULL then m[prev := m[prev].(next := next)] else m;
    var m2 := if next != NULL then m1[next := m1[next].(previous := prev)] else m1;
    var m3 := if HeadOf(m2[parent], asDir) == leaf then m2[parent := WithHead(m2[parent], asDir, next)] else m2;
    m3 - {leaf}
  }

  function Without(l: seq<Ptr>, k: nat): seq<Ptr>
    requires k < |l|
  {
    l[..k] + l[k + 1..]
  }

  function ShrunkKids(kids: Lists, parent: Ptr, k: nat, asDir: bool): Lists
    requires parent in kids && k < |ListOf(kids[parent], asDir)|
  {
    var l := ListOf(kids[parent], asDir);
    (kids - {l[k]})[parent := WithList(kids[parent], asDir, Without(l, k))]
  }

  /** Element `k` of a list of `parent` can be released: it has no children. */
  ghost predicate CanFree(m: Memory, kids: Lists, depth: map<Ptr, nat>, parent: Ptr, k: nat, asDir: bool) {
    && ForestOk(m, kids, depth) && parent in m && parent in kids
    && k < |ListOf(kids[parent], asDir)|
    && var leaf := ListOf(kids[parent], asDir)[k];
      leaf in kids && kids[leaf] == Kids([], []) && leaf != parent
  }

  /** What is known about the list and its element `k`. */
  ghost predicate Ready(m: Memory, kids: Lists, parent: Ptr, k: nat, asDir: bool) {
    && parent in m && parent in kids && k < |ListOf(kids[parent], asDir)|
    && var l := ListOf(kids[parent], asDir);
    && ListOk(m, parent, l)
    && (forall i | 0 <= i < |l| :: l[i] in m && l[i] != NULL && l[i] != parent && m[l[i]].parent == parent)
    && (forall i, j | 0 <= i < j < |l| :: l[i] != l[j])
    && m[l[k]].previous == (if k == 0 then NULL else l[k - 1])
    && m[l[k]].next == (if k + 1 < |l| then l[k + 1] else NULL)
    && HeadOf(m[parent], asDir) == l[0]
    && l[k] in kids && kids[l[k]] == Kids([], [])
  }

  lemma FreeReady(m: Memory, kids: Lists, depth: map<Ptr, nat>, parent: Ptr, k: nat, asDir: bool)
    requires CanFree(m, kids, depth, parent, k, asDir)
    ensures Ready(m, kids, parent, k, asDir)
    ensures var leaf := ListOf(kids[parent], asDir)[k]; m[leaf].dirs == NULL && m[leaf].files == NULL
  {
    hide ForestOk;
    AtNode(m, kids, depth, parent);
    var l := ListOf(kids[parent], asDir);
    assert ListOk(m, parent, l);
    forall i | 0 <= i < |l| ensures l[i] in m && l[i] != NULL && m[l[i]].parent == parent && l[i] != parent {
      assert Linked(m, parent, l, i);
      AtNode(m, kids, depth, l[i]);
    }
    assert Linked(m, parent, l, k);
    AtNode(m, kids, depth, l[k]);
  }

  lemma ListShrinks(m: Memory, m': Memory, p: Ptr, l: seq<Ptr>, k: nat)
    requires ListOk(m, p, l) && k < |l|
    requires forall i | 0 <= i < |l| && i != k :: l[i] in m && l[i] in m' && m'[l[i]].name == m[l[i]].name && m'[l[i]].parent == m[l[i]].parent
    requires forall i | 0 <= i < |l| && i != k && i != k + 1 :: m'[l[i]].previous == m[l[i]].previous
    requires forall i | 0 <= i < |l| && i != k && i + 1 != k :: m'[l[i]].next == m[l[i]].next
    requires k > 0 ==> m'[l[k - 1]].next == (if k + 1 < |l| then l[k + 1] else NULL)
    requires k + 1 < |l| ==> m'[l[k + 1]].previous == (if k > 0 then l[k - 1] else NULL)
    ensures ListOk(m', p, Without(l, k))
  {
    var l' := Without(l, k);
    forall i: nat | i < |l'| ensures Linked(m', p, l', i) {
      var j := if i < k then i else i + 1;
      assert l'[i] == l[j] && Linked(m, p, l, j) && j < |l| && j != k;
      assert i > 0 ==> l'[i - 1] == l[if i - 1 < k then i - 1 else i];
      assert i + 1 < |l'| ==> l'[i + 1] == l[if i + 1 < k then i + 1 else i + 2];
      hide Without;
    }
    forall i, j | 0 <= i < j < |l'| ensures l'[i] in m' && l'[j] in m' && m'[l'[i]].name != m'[l'[j]].name {
      var i', j' := if i < k then i else i + 1, if j < k then j else j + 1;
      assert l'[i] == l[i'] && l'[j] == l[j'] && i' < j';
    }
  }

  lemma FreeKeeps(m: Memory, kids: Lists, depth: map<Ptr, nat>, parent: Ptr, k: nat, asDir: bool)
    requires CanFree(m, kids, depth, parent, k, asDir) && Ready(m, kids, parent, k, asDir)
    ensures ForestOk(Unhung(m, parent, ListOf(kids[parent], asDir)[k], asDir), ShrunkKids(kids, parent, k, asDir), depth)
  {
    hide NodeOk;
    hide ListOk;
    var leaf := ListOf(kids[parent], asDir)[k];
    var m', kids' := Unhung(m, parent, leaf, asDir), ShrunkKids(kids, parent, k, asDir);
    NotTop(m, kids, depth, leaf);
    forall p | p in m' ensures NodeOk(m', kids', depth, p) {
      AtNode(m, kids, depth, p);
      if p == parent {
        FreeAtParent(m, kids, depth, parent, k, asDir);
      } else {
        FreeElsewhere(m, kids, depth, parent, k, asDir, p);
      }
    }
  }

  lemma NotTop(m: Memory, kids: Lists, depth: map<Ptr, nat>, p: Ptr)
    requires ForestOk(m, kids, depth) && p in m && m[p].parent != NULL
    ensures p != ROOT && p != CWD
  {
    AtNode(m, kids, depth, p);
  }

  lemma FreeAtParent(m: Memory, kids: Lists, depth: map<Ptr, nat>, parent: Ptr, k: nat, asDir: bool)
    requires Ready(m, kids, parent, k, asDir) && NodeOk(m, kids, depth, parent)
    ensures NodeOk(Unhung(m, parent, ListOf(kids[parent], asDir)[k], asDir), ShrunkKids(kids, parent, k, asDir), depth, parent)
  {
    hide ListOk;
    var l, other := ListOf(kids[parent], asDir), ListOf(kids[parent], !asDir);
    var leaf := l[k];
    var m' := Unhung(m, parent, leaf, asDir);
    UnhungRecords(m, kids, parent, k, asDir);
    forall i | 0 <= i < |l| && i != k ensures l[i] in m' && m'[l[i]].name == m[l[i]].name && m'[l[i]].parent == m[l[i]].parent {
    }
    ListShrinks(m, m', parent, l, k);
    forall x | x in other ensures SameLinks(m, m', x) {
      ChildOf(m, parent, other, x);
      assert x !in l;
    }
    ListKept(m, m', parent, other);
    hide Unhung;
    forall x | x in Without(l, k) ensures x in l {
    }
  }

  /** Which records an unlinking changes, and how. */
  lemma UnhungRecords(m: Memory, kids: Lists, parent: Ptr, k: nat, asDir: bool)
    requires Ready(m, kids, parent, k, asDir)
    ensures var l := ListOf(kids[parent], asDir); var m' := Unhung(m, parent, l[k], asDir);
      && m'.Keys == m.Keys - {l[k]}
      && m'[parent] == (if k == 0 then WithHead(m[parent], asDir, m[l[k]].next) else m[parent])
      && (k > 0 ==> m'[l[k - 1]] == m[l[k - 1]].(next := m[l[k]].next))
      && (k + 1 < |l| ==> m'[l[k + 1]] == m[l[k + 1]].(previous := m[l[k]].previous))
      && (forall x | x in m' && x != parent && (k > 0 ==> x != l[k - 1]) && (k + 1 < |l| ==> x != l[k + 1]) :: m'[x] == m[x])
      && (forall x | x in m' && x != parent :: m'[x] == m[x].(previous := m'[x].previous, next := m'[x].next))
  {
    hide ListOk;
  }

  lemma StillListed(l: seq<Ptr>, k: nat, p: Ptr)
    requires k < |l| && p in l && p != l[k]
    ensures p in Without(l, k)
  {
    var i :| 0 <= i < |l| && l[i] == p;
    assert Without(l, k)[if i < k then i else i - 1] == p;
  }

  lemma FreeElsewhere(m: Memory, kids: Lists, depth: map<Ptr, nat>, parent: Ptr, k: nat, asDir: bool, p: Ptr)
    requires Ready(m, kids, parent, k, asDir) && p in m && NodeOk(m, kids, depth, p)
    requires p != parent && p != ListOf(kids[parent], asDir)[k]
    ensures NodeOk(Unhung(m, parent, ListOf(kids[parent], asDir)[k], asDir), ShrunkKids(kids, parent, k, asDir), depth, p)
  {
    hide ListOk;
    var l := ListOf(kids[parent], asDir);
    UnhungRecords(m, kids, parent, k, asDir);
    FreeOtherList(m, kids, depth, parent, k, asDir, p, true);
    FreeOtherList(m, kids, depth, parent, k, asDir, p, false);
    hide Unhung;
    hide Without;
    if m[p].parent == parent && p in l {
      StillListed(l, k, p);
    }
  }

  lemma FreeOtherList(m: Memory, kids: Lists, depth: map<Ptr, nat>, parent: Ptr, k: nat, asDir: bool, p: Ptr, d: bool)
    requires Ready(m, kids, parent, k, asDir) && p in m && NodeOk(m, kids, depth, p) && p != parent
    ensures ListOk(Unhung(m, parent, ListOf(kids[parent], asDir)[k], asDir), p, ListOf(kids[p], d))
  {
    hide ListOk;
    var l := ListOf(kids[parent], asDir);
    var m' := Unhung(m, parent, l[k], asDir);
    UnhungRecords(m, kids, parent, k, asDir);
    hide Unhung;
    forall x | x in ListOf(kids[p], d) ensures SameLinks(m, m', x) {
      ChildOf(m, p, ListOf(kids[p], d), x);
    }
    ListKept(m, m', p, ListOf(kids[p], d));
  }

  /** The state after the child `q` of `parent` was found, or made and hung at the end of its list. */
  ghost predicate Added(m: Memory, kids: Lists, depth: map<Ptr, nat>, m': Memory, kids': Lists, depth': map<Ptr, nat>,
                        parent: Ptr, name: string, specified: bool, asDir: bool, q: Ptr)
  {
    && parent in m && parent in kids && parent in depth
    && if q in m then
         && m[q].name == name && m[q].parent == parent && q in ListOf(kids[parent], asDir)
         && m' == m[q := m[q].(specified := m[q].specified || specified)]
         && kids' == kids && depth' == depth
       else
         var end := Last(ListOf(kids[parent], asDir));
         && (end != NULL ==> end in m)
         && m' == Hung(m, parent, end, q, NewRec(name, end, parent, specified), asDir)
         && kids' == GrownKids(kids, parent, q, asDir)
         && depth' == depth[q := depth[parent] + 1]
  }

  lemma AddedFacts(m: Memory, kids: Lists, depth: map<Ptr, nat>, m': Memory, kids': Lists, depth': map<Ptr, nat>,
                   parent: Ptr, name: string, specified: bool, asDir: bool, q: Ptr)
    requires Added(m, kids, depth, m', kids', depth', parent, name, specified, asDir, q)
    ensures Extends(m, depth, m', depth')
    ensures q in m' && m'[q].name == name && m'[q].parent == parent && parent in kids' && q in ListOf(kids'[parent], asDir)
    ensures forall x | x in m' :: m'[x].specified <==> (x == q && specified) || (x in m && m[x].specified)
    ensures forall x | x in m' && (x != q || x in m) :: x in m && m'[x].specs == m[x].specs
    ensures forall g | g in kids && (q in m || g != q) :: g in kids' && forall y | y != q :: y in kids'[g].dirs <==> y in kids[g].dirs
  {
    if q !in m {
      forall y | y != q ensures y in ListOf(kids[parent], asDir) + [q] <==> y in ListOf(kids[parent], asDir) {
      }
      assert q in ListOf(kids[parent], asDir) + [q];
    }
  }

  class Forest {
    var m: Memory
    var nextPtr: Ptr
    ghost var kids: Lists
    ghost var depth: map<Ptr, nat>

    ghost predicate Valid()
      reads this
    {
      ForestOk(m, kids, depth) && nextPtr > CWD && forall p | p in m :: p < nextPtr
    }

    /** initialize_tree. */
    constructor (root: Specs, cwd: Specs)
      ensures Valid() && m.Keys == {ROOT, CWD}
      ensures m[ROOT] == FileRec("/", NULL, NULL, NULL, NULL, NULL, false, false, root)
      ensures m[CWD] == FileRec("", NULL, NULL, NULL, NULL, NULL, false, false, cwd)
      ensures kids == map[ROOT := Kids([], []), CWD := Kids([], [])]
    {
      m := map[ROOT := FileRec("/", NULL, NULL, NULL, NULL, NULL, false, false, root),
               CWD := FileRec("", NULL, NULL, NULL, NULL, NULL, false, false, cwd)];
      nextPtr := 3;
      kids := map[ROOT := Kids([], []), CWD := Kids([], [])];
      depth := map[ROOT := 0, CWD := 0];
    }

    /** get_leaf_path: follows parent links, prepending names. */
    method GetLeafPath(leaf: Ptr) returns (path: string)
      requires Valid() && leaf in m
      ensures leaf in depth && path == PathOf(m, depth, leaf)
    {
      hide ForestOk;
      path := "";
      var p := leaf;
      Up(m, kids, depth, p);
      ghost var goal := PathOf(m, depth, leaf);
      while true
        invariant p in m && p in depth && goal == PathOf(m, depth, p) + path
        decreases depth[p]
      {
        Up(m, kids, depth, p);
        var parent := m[p].parent;
        var slash := if parent != NULL && m[parent].parent != NULL then "/" else "";
        ghost var rest := path;
        path := slash + m[p].name + path;
        if parent == NULL {
          return;
        }
        assert PathOf(m, depth, parent) + slash + m[p].name + rest == PathOf(m, depth, parent) + path;
        p := parent;
      }
    }

    /** The search for a sibling of that name, remembering the record before. */
    method Find(parent: Ptr, name: string, asDir: bool) returns (cur: Ptr, last: Ptr)
      requires Valid() && parent in m && parent in kids
      ensures cur != NULL ==> cur in m && cur in ListOf(kids[parent], asDir) && m[cur].name == name
      ensures cur == NULL ==>
        && last == Last(ListOf(kids[parent], asDir))
        && forall x | x in ListOf(kids[parent], asDir) :: x in m && m[x].name != name
    {
      hide ForestOk;
      hide ListOk;
      AtNode(m, kids, depth, parent);
      ghost var l := ListOf(kids[parent], asDir);
      ghost var i := 0;
      last := NULL;
      cur := HeadOf(m[parent], asDir);
      while cur != NULL
        invariant 0 <= i <= |l| && cur == Head(l[i..]) && last == Last(l[..i])
        invariant forall k | 0 <= k < i :: l[k] in m && m[l[k]].name != name
        decreases |l| - i
      {
        assert i < |l| && cur == l[i];
        ListStep(m, parent, l, i);
        if m[cur].name == name {
          return;
        }
        last := cur;
        cur := m[cur].next;
        i := i + 1;
      }
      assert i == |l| by {
        if i < |l| {
          ListStep(m, parent, l, i);
          AtNode(m, kids, depth, l[i]);
        }
      }
      assert l[..i] == l;
    }

    /** add_file_to_parent and add_directory_to_parent: the child of that name in that list,
        made at its end if there is none. */
    method AddChild(parent: Ptr, name: string, specified: bool, asDir: bool) returns (last: Ptr)
      requires Valid() && parent in m
      modifies this
      ensures Valid()
      ensures Added(old(m), old(kids), old(depth), m, kids, depth, parent, name, specified, asDir, last)
    {
      hide ForestOk;
      hide ListOk;
      AtNode(m, kids, depth, parent);
      var cur;
      cur, last := Find(parent, name, asDir);
      if cur != NULL {
        ChildOf(m, parent, ListOf(kids[parent], asDir), cur);
        DataKeeps(m, kids, depth, cur, m[cur].(specified := m[cur].specified || specified));
        m := m[cur := m[cur].(specified := m[cur].specified || specified)];
        last := cur;
        return;
      }
      var q := nextPtr;
      HangKeeps(m, kids, depth, parent, q, name, specified, asDir);
      var r := NewRec(name, last, parent, specified);
      if last != NULL {
        m := m[q := r][last := m[last].(next := q)];
      } else {
        m := m[q := r][parent := WithHead(m[parent], asDir, q)];
      }
      kids := GrownKids(kids, parent, q, asDir);
      depth := depth[q := depth[parent] + 1];
      nextPtr := nextPtr + 1;
      last := q;
    }

    /** A new or found child has the path of its parent, extended. */
    lemma ChildPath(p: Ptr)
      requires Valid() && p in m && m[p].parent != NULL
      ensures m[p].parent in m && m[p].parent in depth && p in depth
      ensures PathOf(m, depth, p) ==
        PathOf(m, depth, m[p].parent) + (if m[m[p].parent].parent == NULL then "" else "/") + m[p].name
      ensures Top(m, depth, p) == Top(m, depth, m[p].parent)
    {
      hide ForestOk;
      Up(m, kids, depth, p);
    }

    method SetSpecs(p: Ptr, specs: Specs)
      requires Valid() && p in m
      modifies this`m
      ensures Valid() && m == old(m)[p := old(m)[p].(specs := specs)]
    {
      DataKeeps(m, kids, depth, p, m[p].(specs := specs));
      m := m[p := m[p].(specs := specs)];
    }

    /** Adding a child and then filling in its specs, if the file can be examined. */
    method Place(parent: Ptr, name: string, specified: bool, asDir: bool, specs: Option<Specs>) returns (p: Ptr)
      requires Valid() && parent in m && (specs.Some? ==> specs.value.isDir == asDir)
      modifies this
      ensures Valid() && Extends(old(m), old(depth), m, depth)
      ensures p in m && p in depth && m[p].parent == parent && m[p].name == name && parent in old(depth)
      ensures PathOf(m, depth, p) == old(PathOf(m, depth, parent)) + (if old(m[parent]).parent == NULL then "" else "/") + name
      ensures specs.Some? ==> m[p].specs == specs.value
      ensures forall x | x in m :: m[x].specified <==> (x == p && specified) || (x in old(m) && old(m)[x].specified)
      ensures specs.Some? && SpecsMatch(old(m), old(kids)) ==> SpecsMatch(m, kids)
      ensures Top(m, depth, p) == old(Top(m, depth, parent))
      ensures forall x | x in m && x != p :: x in old(m) && m[x].specs == old(m)[x].specs
      ensures SpecsMatch(old(m), old(kids)) ==> KindsKept(old(m), m)
    {
      hide ForestOk;
      hide PathOf;
      hide Top;
      hide ListOf;
      ghost var m0, kids0, depth0 := m, kids, depth;
      Up(m, kids, depth, parent);
      p := AddChild(parent, name, specified, asDir);
      ghost var m1 := m;
      Examine(p, specs);
      PlacedFacts(m0, kids0, depth0, m1, m, kids, depth, parent, name, specified, asDir, p, specs);
      hide Added;
      hide SpecsMatch;
      PathsKept(m0, m, kids0, depth0, depth, parent);
      NotNull(m, kids, depth, parent);
      ChildPath(p);
    }

    method Examine(p: Ptr, specs: Option<Specs>)
      requires Valid() && p in m
      modifies this`m
      ensures Valid() && m.Keys == old(m).Keys
      ensures if specs.Some? then m[p].specs == specs.value else m == old(m)
      ensures forall x | x in m :: m[x] == old(m)[x].(specs := m[x].specs) && (x != p ==> m[x] == old(m)[x])
    {
      hide ForestOk;
      if specs.Some? {
        SetSpecs(p, specs.value);
      }
    }

    /** add_path_to_tree.  `lstat` is asked about the path, `statDir` about the directories on
        the way to it and gives their size. */
    method AddPath(path: string, lstat: string -> Option<Specs>, statDir: string -> Option<nat>, ghost size: Removal -> nat)
      returns (leaf: Option<Ptr>)
      requires Valid()
      modifies this
      ensures Valid() && Extends(old(m), old(depth), m, depth)
      ensures leaf.Some? <==> Examinable(path, lstat, statDir)
      ensures leaf.Some? ==> Remembers(leaf.value, path) && lstat(Stripped(path)) == Some(m[leaf.value].specs)
      ensures leaf.Some? ==> NowSpecified(old(m), m, leaf.value)
      ensures leaf.Some? ==>
        Grown(old(m), old(kids), old(depth), m, kids, depth, statDir, size, HonestDirs(size, statDir) && HonestOf(size, path, lstat))
    {
      hide PathOf;
      hide Top;
      hide ForestOk;
      hide Grown;
      hide HonestDirs;
      hide HonestOf;
      hide CanReach, FirstPart, Finish, DropSlash, Canonical;
      var lpath := Stripped(path);
      var specs := lstat(lpath);
      if specs.None? {
        return None;
      }
      var parent, ptr, built := CWD, lpath, "";
      if "/" <= lpath {
        parent, ptr, built := ROOT, lpath[1..], "/";
      } else if "./" <= lpath {
        ptr := lpath[2..];
      }
      TopPath(parent);
      FinishJoins(PathOf(m, depth, parent), true, ptr);
      CanonicalParts(path);
      ghost var m0, kids0, depth0 := m, kids, depth;
      var name;
      var ok;
      ok, parent, name := Walk(parent, FirstPart(ptr).0, FirstPart(ptr).1, built, statDir, size);
      if !ok {
        return None;
      }
      ghost var m1, kids1, depth1 := m, kids, depth;
      NotNull(m, kids, depth, parent);
      var p := Place(parent, name, true, specs.value.isDir, specs);
      PlacedGrows(m1, kids1, depth1, m, kids, depth, statDir, size, HonestOf(size, path, lstat), p) by {
        if HonestOf(size, path, lstat) { HonestMeans(size, path, lstat); }
      }
      GrownTwice(m0, kids0, depth0, m1, kids1, depth1, m, kids, depth, statDir, size,
                 HonestDirs(size, statDir), HonestOf(size, path, lstat), HonestDirs(size, statDir) && HonestOf(size, path, lstat));
      leaf := Some(p);
    }

    /** The loop that makes the directories on the way. */
    method Walk(start: Ptr, first: string, others: string, base: string, statDir: string -> Option<nat>, ghost size: Removal -> nat)
      returns (ok: bool, parent: Ptr, name: string)
      requires Valid() && start in m && start in depth && m[start].parent == NULL && '/' !in first && base == PathOf(m, depth, start)
      modifies this
      ensures Valid() && Extends(old(m), old(depth), m, depth)
      ensures forall x | x in m :: m[x].specified <==> x in old(m) && old(m)[x].specified
      ensures ok <==> CanReach(base, first, others, statDir)
      ensures ok ==> Examined(m, depth, statDir, parent) && '/' !in name && Top(m, depth, parent) == old(Top(m, depth, start))
      ensures ok ==>
        PathOf(m, depth, parent) + (if m[parent].parent == NULL then "" else "/") + name ==
        old(Finish(PathOf(m, depth, start), m[start].parent == NULL, first, others))
      ensures ok ==> Grown(old(m), old(kids), old(depth), m, kids, depth, statDir, size, HonestDirs(size, statDir))
    {
      ghost var goal := Finish(PathOf(m, depth, start), m[start].parent == NULL, first, others);
      hide PathOf;
      hide Top;
      hide FirstPart;
      hide ForestOk;
      hide HonestDirs;
      var rest, built := others, base;
      ok, parent, name := true, start, first;
      assert Grown(m, kids, depth, m, kids, depth, statDir, size, HonestDirs(size, statDir));
      hide Grown;
      while rest != ""
        invariant Valid() && Extends(old(m), old(depth), m, depth) && ok
        invariant Examined(m, depth, statDir, parent) && '/' !in name && Top(m, depth, parent) == old(Top(m, depth, start))
        invariant Finish(PathOf(m, depth, parent), m[parent].parent == NULL, name, rest) == goal
        invariant built == PathOf(m, depth, parent) + (if m[parent].parent == NULL then "" else "/")
        invariant CanReach(built, name, rest, statDir) == CanReach(base, first, others, statDir)
        invariant forall x | x in m :: m[x].specified <==> x in old(m) && old(m)[x].specified
        invariant Grown(old(m), old(kids), old(depth), m, kids, depth, statDir, size, HonestDirs(size, statDir))
        decreases |rest|
      {
        ghost var m1, kids1, depth1 := m, kids, depth;
        built := built + name;
        ok, parent := Descend(parent, name, built, statDir, size);
        name, rest := FirstPart(rest).0, FirstPart(rest).1;
        if !ok {
          ExtendsTwice(old(m), old(depth), m1, depth1, m, depth);
          return;
        }
        GrownTwice(old(m), old(kids), old(depth), m1, kids1, depth1, m, kids, depth, statDir, size,
                   HonestDirs(size, statDir), HonestDirs(size, statDir), HonestDirs(size, statDir));
        built := built + "/";
      }
    }

    /** One turn of it: the directory is found or made, and examined. */
    method Descend(parent: Ptr, name: string, built: string, statDir: string -> Option<nat>, ghost size: Removal -> nat)
      returns (ok: bool, dir: Ptr)
      requires Valid() && Examined(m, depth, statDir, parent) && '/' !in name
      requires built == PathOf(m, depth, parent) + (if m[parent].parent == NULL then "" else "/") + name
      modifies this
      ensures Valid() && Extends(old(m), old(depth), m, depth) && ok == statDir(built).Some?
      ensures forall x | x in m :: m[x].specified <==> x in old(m) && old(m)[x].specified
      ensures ok ==> Examined(m, depth, statDir, dir) && m[dir].parent != NULL
      ensures ok ==> PathOf(m, depth, dir) == built && Top(m, depth, dir) == old(Top(m, depth, parent))
      ensures ok ==> Grown(old(m), old(kids), old(depth), m, kids, depth, statDir, size, HonestDirs(size, statDir))
    {
      hide PathOf;
      hide Top;
      hide ForestOk;
      hide Grown;
      var stat := statDir(built);
      ghost var m1, kids1, depth1 := m, kids, depth;
      NotNull(m, kids, depth, parent);
      dir := Place(parent, name, false, true, if stat.None? then None else Some(Specs(true, stat.value)));
      ok := stat.Some?;
      if ok {
        PlacedGrows(m1, kids1, depth1, m, kids, depth, statDir, size, HonestDirs(size, statDir), dir);
      }
    }

    /** process_files without a time limit: paths are added up to the first that cannot be
        examined, and every leaf handed out on the way still has its path when all are in. */
    method AddPaths(paths: seq<string>, lstat: string -> Option<Specs>, statDir: string -> Option<nat>, ghost size: Removal -> nat)
      returns (leaves: seq<Ptr>)
      requires Valid()
      modifies this
      ensures Valid() && Extends(old(m), old(depth), m, depth) && |leaves| <= |paths|
      ensures AllRemembered(leaves, paths) && forall i | 0 <= i < |leaves| :: Examinable(paths[i], lstat, statDir)
      ensures |leaves| < |paths| ==> !Examinable(paths[|leaves|], lstat, statDir)
      ensures |leaves| == |paths| && SpecsMatch(old(m), old(kids)) ==> AllOfKind(leaves, paths, lstat)
      ensures |leaves| == |paths| ==> NowAllSpecified(old(m), m, leaves)
      ensures |leaves| == |paths| ==>
        Grown(old(m), old(kids), old(depth), m, kids, depth, statDir, size, Honest(size, paths, lstat, statDir))
    {
      hide *;
      leaves := [];
      ghost var honest := Honest(size, paths, lstat, statDir);
      NoneAdded(paths, lstat, statDir, size, honest);
      for i := 0 to |paths|
        invariant Valid() && Extends(old(m), old(depth), m, depth) && |leaves| == i
        invariant AllRemembered(leaves, paths) && forall k | 0 <= k < i :: Examinable(paths[k], lstat, statDir)
        invariant SpecsMatch(old(m), old(kids)) ==> AllOfKind(leaves, paths, lstat)
        invariant NowAllSpecified(old(m), m, leaves)
        invariant Grown(old(m), old(kids), old(depth), m, kids, depth, statDir, size, honest)
      {
        ghost var m1, kids1, depth1 := m, kids, depth;
        GrownSpecs(old(m), old(kids), old(depth), m1, kids1, depth1, statDir, size, honest);
        var leaf := AddNext(paths, lstat, statDir, size, leaves);
        ExtendsTwice(old(m), old(depth), m1, depth1, m, depth);
        if leaf.None? {
          return;
        }
        SpecifiedOneMore(old(m), old(depth), m1, depth1, m, leaves, leaf.value);
        HonestParts(size, paths, lstat, statDir, i);
        GrownTwice(old(m), old(kids), old(depth), m1, kids1, depth1, m, kids, depth, statDir, size,
                   honest, HonestDirs(size, statDir) && HonestOf(size, paths[i], lstat), honest);
        leaves := leaves + [leaf.value];
      }
    }

    lemma NoneAdded(paths: seq<string>, lstat: string -> Option<Specs>, statDir: string -> Option<nat>, size: Removal -> nat, honest: bool)
      ensures Extends(m, depth, m, depth) && Grown(m, kids, depth, m, kids, depth, statDir, size, honest)
      ensures AllRemembered([], paths) && AllOfKind([], paths, lstat) && NowAllSpecified(m, m, [])
    {
    }

    /** One turn of it. */
    method AddNext(paths: seq<string>, lstat: string -> Option<Specs>, statDir: string -> Option<nat>, ghost size: Removal -> nat, leaves: seq<Ptr>)
      returns (leaf: Option<Ptr>)
      requires Valid() && |leaves| < |paths| && AllRemembered(leaves, paths)
      modifies this
      ensures Valid() && Extends(old(m), old(depth), m, depth)
      ensures leaf.Some? <==> Examinable(paths[|leaves|], lstat, statDir)
      ensures AllRemembered(if leaf.Some? then leaves + [leaf.value] else leaves, paths)
      ensures leaf.Some? && SpecsMatch(old(m), old(kids)) && old(AllOfKind(leaves, paths, lstat)) ==> AllOfKind(leaves + [leaf.value], paths, lstat)
      ensures leaf.Some? ==> NowSpecified(old(m), m, leaf.value) && forall x | x in leaves :: x in old(m)
      ensures leaf.Some? ==>
        Grown(old(m), old(kids), old(depth), m, kids, depth, statDir, size, HonestDirs(size, statDir) && HonestOf(size, paths[|leaves|], lstat))
    {
      hide ForestOk, PathOf, Top, HonestDirs, HonestOf, Examinable, SpecsMatch, Grown, NowSpecified, Canonical, Stripped, StartOf;
      ghost var m1, kids1, depth1 := m, kids, depth;
      var i := |leaves|;
      leaf := AddPath(paths[i], lstat, statDir, size);
      forall k | 0 <= k < i ensures Remembers(leaves[k], paths[k]) {
        PathsKept(m1, m, kids1, depth1, depth, leaves[k]);
      }
      if leaf.Some? && SpecsMatch(m1, kids1) {
        GrownKinds(m1, kids1, depth1, m, kids, depth, statDir, size, HonestDirs(size, statDir) && HonestOf(size, paths[i], lstat));
      }
    }

    ghost predicate AllRemembered(leaves: seq<Ptr>, paths: seq<string>)
      reads this
    {
      |leaves| <= |paths| && forall i | 0 <= i < |leaves| :: Remembers(leaves[i], paths[i])
    }

    /** The kinds of the records are those that were reported. */
    ghost predicate AllOfKind(leaves: seq<Ptr>, paths: seq<string>, lstat: string -> Option<Specs>)
      reads this
    {
      && |leaves| <= |paths|
      && forall i | 0 <= i < |leaves| ::
           leaves[i] in m && lstat(Stripped(paths[i])).Some? && m[leaves[i]].specs.isDir == lstat(Stripped(paths[i])).value.isDir
    }

    ghost predicate Remembers(leaf: Ptr, path: string)
      reads this
    {
      && leaf in m && leaf in depth && m[leaf].parent != NULL
      && PathOf(m, depth, leaf) == Canonical(path) && Top(m, depth, leaf) == StartOf(path)
    }

    /** free_leaf: flags the record; one without children is unlinked and released, unless it is
        a root.  (A parent that was itself flagged before would be released in turn; here no
        parent is.) */
    method FreeLeaf(leaf: Ptr, ghost k: nat, ghost asDir: bool)
      requires Valid() && leaf in m && leaf in kids
      requires kids[leaf] == Kids([], []) && m[leaf].parent != NULL ==>
        && CanFree(m, kids, depth, m[leaf].parent, k, asDir)
        && ListOf(kids[m[leaf].parent], asDir)[k] == leaf && m[leaf].specs.isDir == asDir && !m[m[leaf].parent].freed
      modifies this
      ensures Valid() && depth == old(depth)
      ensures old(kids[leaf]) != Kids([], []) || old(m[leaf]).parent == NULL ==>
        m == old(m)[leaf := old(m[leaf].(freed := true))] && kids == old(kids)
      ensures old(kids[leaf]) == Kids([], []) && old(m[leaf]).parent != NULL ==>
        && Ready(old(m), old(kids), old(m[leaf]).parent, k, asDir)
        && m == Unhung(old(m), old(m[leaf]).parent, leaf, asDir)
        && kids == ShrunkKids(old(kids), old(m[leaf]).parent, k, asDir)
    {
      hide ForestOk;
      AtNode(m, kids, depth, leaf);
      var r := m[leaf];
      if r.dirs != NULL || r.files != NULL || r.parent == NULL {
        assert r.dirs == NULL && r.files == NULL ==> kids[leaf] == Kids([], []) by { NoKids(m, kids, depth, leaf); }
        DataKeeps(m, kids, depth, leaf, r.(freed := true));
        m := m[leaf := r.(freed := true)];
        return;
      }
      NoKids(m, kids, depth, leaf);
      FreeReady(m, kids, depth, r.parent, k, asDir);
      FreeKeeps(m, kids, depth, r.parent, k, asDir);
      hide Ready;
      ghost var goal := Unhung(m, r.parent, leaf, asDir);
      if r.previous != NULL {
        m := m[r.previous := m[r.previous].(next := r.next)];
      }
      if r.next != NULL {
        m := m[r.next := m[r.next].(previous := r.previous)];
      }
      if r.specs.isDir {
        if m[r.parent].dirs == leaf {
          m := m[r.parent := m[r.parent].(dirs := r.next)];
        }
      } else {
        if m[r.parent].files == leaf {
          m := m[r.parent := m[r.parent].(files := r.next)];
        }
      }
      m := m - {leaf};
      kids := ShrunkKids(kids, r.parent, k, asDir);
    }

    lemma TopPath(p: Ptr)
      requires Valid() && (p == ROOT || p == CWD)
      ensures p in m && p in depth && m[p].parent == NULL && Top(m, depth, p) == p
      ensures PathOf(m, depth, p) == if p == ROOT then "/" else ""
    {
      AtNode(m, kids, depth, p);
    }
  }

  lemma NoKids(m: Memory, kids: Lists, depth: map<Ptr, nat>, p: Ptr)
    requires ForestOk(m, kids, depth) && p in m
    ensures p in kids
    ensures m[p].dirs == NULL && m[p].files == NULL <==> kids[p] == Kids([], [])
  {
    hide ForestOk;
    AtNode(m, kids, depth, p);
    if kids[p].dirs != [] {
      assert Linked(m, p, kids[p].dirs, 0);
      AtNode(m, kids, depth, kids[p].dirs[0]);
    }
    if kids[p].files != [] {
      assert Linked(m, p, kids[p].files, 0);
      AtNode(m, kids, depth, kids[p].files[0]);
    }
  }

  lemma NotNull(m: Memory, kids: Lists, depth: map<Ptr, nat>, p: Ptr)
    requires ForestOk(m, kids, depth) && p in m
    ensures p != NULL
  {
  }

  /** The kind of a record is that of the list it is in. */
  lemma ListedKind(m: Memory, kids: Lists, depth: map<Ptr, nat>, parent: Ptr, p: Ptr, asDir: bool)
    requires ForestOk(m, kids, depth) && SpecsMatch(m, kids) && parent in m && parent in kids && p in ListOf(kids[parent], asDir)
    ensures p in m && m[p].parent == parent && parent != NULL && m[p].specs.isDir == asDir
  {
    hide ForestOk;
    AtNode(m, kids, depth, parent);
    ChildOf(m, parent, ListOf(kids[parent], asDir), p);
  }

  /** A child was added and then examined. */
  lemma PlacedFacts(m0: Memory, kids0: Lists, depth0: map<Ptr, nat>, m1: Memory, m: Memory, kids: Lists, depth: map<Ptr, nat>,
                    parent: Ptr, name: string, specified: bool, asDir: bool, p: Ptr, specs: Option<Specs>)
    requires ForestOk(m0, kids0, depth0) && ForestOk(m, kids, depth) && parent in m0
    requires Added(m0, kids0, depth0, m1, kids, depth, parent, name, specified, asDir, p)
    requires m.Keys == m1.Keys && p in m && (specs.Some? ==> specs.value.isDir == asDir)
    requires if specs.Some? then m[p].specs == specs.value else m == m1
    requires forall x | x in m :: m[x] == m1[x].(specs := m[x].specs) && (x != p ==> m[x] == m1[x])
    ensures Extends(m0, depth0, m, depth) && m[p].parent == parent && m[p].name == name
    ensures forall x | x in m :: m[x].specified <==> (x == p && specified) || (x in m0 && m0[x].specified)
    ensures specs.Some? && SpecsMatch(m0, kids0) ==> SpecsMatch(m, kids)
    ensures forall x | x in m && x != p :: x in m0 && m[x].specs == m0[x].specs
    ensures SpecsMatch(m0, kids0) ==> KindsKept(m0, m)
  {
    hide ForestOk, PathOf, ListOf;
    AddedFacts(m0, kids0, depth0, m1, kids, depth, parent, name, specified, asDir, p);
    var known := p in m0;
    assert known ==> parent in kids0 && p in ListOf(kids0[parent], asDir);
    hide Added, KindsKept;
    if SpecsMatch(m0, kids0) {
      hide SpecsMatch;
      KindsPlaced(m0, kids0, depth0, m, parent, p, asDir);
      if specs.Some? {
        SpecsPlaced(m0, kids0, depth0, m, kids, depth, parent, p, asDir);
      }
    }
  }

  lemma KindsPlaced(m0: Memory, kids0: Lists, depth0: map<Ptr, nat>, m: Memory, parent: Ptr, p: Ptr, asDir: bool)
    requires ForestOk(m0, kids0, depth0) && SpecsMatch(m0, kids0) && parent in m0 && p in m && forall x | x in m0 :: x in m
    requires p in m0 ==> parent in kids0 && p in ListOf(kids0[parent], asDir) && (m[p].specs == m0[p].specs || m[p].specs.isDir == asDir)
    requires forall x | x in m && x != p :: x in m0 && m[x].specs == m0[x].specs
    ensures KindsKept(m0, m)
  {
    hide ForestOk;
    if p in m0 {
      ListedKind(m0, kids0, depth0, parent, p, asDir);
    }
  }

  /** What one more record, or one examined again, leaves in order. */
  lemma TidyPlaced(m0: Memory, kids0: Lists, depth0: map<Ptr, nat>, m: Memory, depth: map<Ptr, nat>, statDir: string -> Option<nat>, p: Ptr)
    requires ForestOk(m0, kids0, depth0) && AllTidy(m0, depth0, statDir) && Extends(m0, depth0, m, depth)
    requires KindsKept(m0, m) && p in m && forall x | x in m && x != p :: x in m0
    requires m[p].parent in m0 && '/' !in m[p].name && Examined(m0, depth0, statDir, m[p].parent)
    ensures AllTidy(m, depth, statDir)
  {
    hide ForestOk, PathOf, Top;
    forall x | x in m ensures Tidy(m, depth, statDir, x) {
      if m[x].parent != NULL {
        PathsKept(m0, m, kids0, depth0, depth, m[x].parent);
      }
    }
  }

  /** Files may be put in `q`: it is a root or an examined directory. */
  ghost predicate Examined(m: Memory, depth: map<Ptr, nat>, statDir: string -> Option<nat>, q: Ptr) {
    q in m && q in depth && (m[q].parent != NULL ==> m[q].specs.isDir && statDir(PathOf(m, depth, q)).Some?)
  }

  lemma SizedPlaced(m0: Memory, kids0: Lists, depth0: map<Ptr, nat>, m: Memory, depth: map<Ptr, nat>, size: Removal -> nat, p: Ptr)
    requires ForestOk(m0, kids0, depth0) && Sized(m0, depth0, size) && Extends(m0, depth0, m, depth)
    requires p in m && p in depth && m[p].specs.size == size(RemovalFor(m[p].specs.isDir, PathOf(m, depth, p)))
    requires forall x | x in m && x != p :: x in m0 && m[x].specs == m0[x].specs
    ensures Sized(m, depth, size)
  {
    hide ForestOk, PathOf, Top;
    forall x | x in m && m[x].parent != NULL
      ensures x in depth && m[x].specs.size == size(RemovalFor(m[x].specs.isDir, PathOf(m, depth, x)))
    {
      if x != p {
        PathsKept(m0, m, kids0, depth0, depth, x);
      }
    }
  }

  lemma PlacedGrows(m0: Memory, kids0: Lists, depth0: map<Ptr, nat>, m: Memory, kids: Lists, depth: map<Ptr, nat>,
                    statDir: string -> Option<nat>, size: Removal -> nat, honest: bool, p: Ptr)
    requires ForestOk(m0, kids0, depth0) && Extends(m0, depth0, m, depth)
    requires SpecsMatch(m0, kids0) ==> SpecsMatch(m, kids) && KindsKept(m0, m)
    requires p in m && p in depth && '/' !in m[p].name && Examined(m0, depth0, statDir, m[p].parent)
    requires forall x | x in m && x != p :: x in m0 && m[x].specs == m0[x].specs
    requires honest ==> m[p].specs.size == size(RemovalFor(m[p].specs.isDir, PathOf(m, depth, p)))
    ensures Grown(m0, kids0, depth0, m, kids, depth, statDir, size, honest)
  {
    hide ForestOk, SpecsMatch, PathOf, AllTidy, Sized, Extends, KindsKept;
    if SpecsMatch(m0, kids0) && AllTidy(m0, depth0, statDir) {
      TidyPlaced(m0, kids0, depth0, m, depth, statDir, p);
    }
    if Sized(m0, depth0, size) && honest {
      SizedPlaced(m0, kids0, depth0, m, depth, size, p);
    }
  }

  lemma SpecsPlaced(m0: Memory, kids0: Lists, depth0: map<Ptr, nat>, m: Memory, kids: Lists, depth: map<Ptr, nat>, parent: Ptr, p: Ptr, asDir: bool)
    requires ForestOk(m0, kids0, depth0) && ForestOk(m, kids, depth) && SpecsMatch(m0, kids0) && Extends(m0, depth0, m, depth)
    requires p in m && m[p].parent == parent && parent in m && parent in kids && p in ListOf(kids[parent], asDir)
    requires m[p].specs.isDir == asDir
    requires forall x | x in m && x != p :: x in m0 && m[x].specs == m0[x].specs
    requires forall g | g in kids0 && (p in m0 || g != p) :: g in kids && forall y | y != p :: y in kids[g].dirs <==> y in kids0[g].dirs
    ensures SpecsMatch(m, kids)
  {
    hide ForestOk;
    hide ListOk;
    forall x | x in m && m[x].parent != NULL
      ensures m[x].parent in kids && (m[x].specs.isDir <==> x in kids[m[x].parent].dirs)
    {
      if x == p {
        AtNode(m, kids, depth, parent);
      } else {
        AtNode(m0, kids0, depth0, x);
      }
    }
  }

  // ----- Adding a path -----

  /** get_specs cuts one trailing slash off the path it is given, unless the path is "/". */
  function Stripped(path: string): string {
    if |path| > 1 && path[|path| - 1] == '/' then path[..|path| - 1] else path
  }

  function DropSlash(s: string): string {
    if s != "" && s[|s| - 1] == '/' then s[..|s| - 1] else s
  }

  /** The part of a path below its starting directory. */
  function BelowStart(path: string): string {
    if "/" <= path then path[1..] else if "./" <= path then path[2..] else path
  }

  /** The path under which a file is remembered: a leading "./" and trailing slashes dropped. */
  function Canonical(path: string): string {
    var lpath := Stripped(path);
    (if "/" <= lpath then "/" else "") + DropSlash(BelowStart(lpath))
  }

  lemma CanonicalParts(path: string)
    ensures var lpath := Stripped(path);
            (if "/" <= lpath then "/" else "") + "" + DropSlash(BelowStart(lpath)) == Canonical(path)
  {
    hide DropSlash, BelowStart, Stripped;
  }

  /** The root under which a file is remembered. */
  function StartOf(path: string): Ptr { if "/" <= Stripped(path) then ROOT else CWD }

  /** Every directory on the way can be examined. */
  predicate CanReach(built: string, name: string, rest: string, statDir: string -> Option<nat>)
    decreases |rest|
  {
    rest == "" ||
    (statDir(built + name).Some? && CanReach(built + name + "/", FirstPart(rest).0, FirstPart(rest).1, statDir))
  }

  /** A path can be added: it can be examined, and so can the directories on the way. */
  predicate Examinable(path: string, lstat: string -> Option<Specs>, statDir: string -> Option<nat>) {
    var lpath := Stripped(path);
    && lstat(lpath).Some?
    && var (name, rest) := FirstPart(BelowStart(lpath));
    CanReach(if "/" <= lpath then "/" else "", name, rest, statDir)
  }

  /** `size` is what a path is reported to have. */
  ghost predicate HonestOf(size: Removal -> nat, path: string, lstat: string -> Option<Specs>) {
    var specs := lstat(Stripped(path));
    specs.Some? ==> specs.value.size == size(RemovalFor(specs.value.isDir, Canonical(path)))
  }

  lemma HonestMeans(size: Removal -> nat, path: string, lstat: string -> Option<Specs>)
    requires HonestOf(size, path, lstat) && lstat(Stripped(path)).Some?
    ensures lstat(Stripped(path)).value.size == size(RemovalFor(lstat(Stripped(path)).value.isDir, Canonical(path)))
  {
  }

  ghost predicate HonestDirs(size: Removal -> nat, statDir: string -> Option<nat>) {
    forall d :: statDir(d).Some? ==> statDir(d).value == size(Rmdir(d))
  }

  /** The sizes that the file system reports are those of a function of what would be removed. */
  ghost predicate Honest(size: Removal -> nat, paths: seq<string>, lstat: string -> Option<Specs>, statDir: string -> Option<nat>) {
    HonestDirs(size, statDir) && forall i | 0 <= i < |paths| :: HonestOf(size, paths[i], lstat)
  }

  lemma HonestParts(size: Removal -> nat, paths: seq<string>, lstat: string -> Option<Specs>, statDir: string -> Option<nat>, i: nat)
    requires i < |paths|
    ensures Honest(size, paths, lstat, statDir) ==> HonestDirs(size, statDir) && HonestOf(size, paths[i], lstat)
  {
    hide HonestDirs, HonestOf;
  }

  /** Where the walk down the forest ends up. */
  function Finish(prefix: string, top: bool, name: string, rest: string): string
    decreases |rest|
  {
    var p := prefix + (if top then "" else "/") + name;
    if rest == "" then p else Finish(p, false, FirstPart(rest).0, FirstPart(rest).1)
  }

  lemma DropSlashAfter(name: string, rest: string)
    requires rest != ""
    ensures DropSlash(name + "/" + rest) == name + "/" + DropSlash(rest)
  {
    var s := name + "/" + rest;
    assert s[|s| - 1] == rest[|rest| - 1];
    assert s[..|s| - 1] == name + "/" + rest[..|rest| - 1];
  }

  lemma {:induction false} FinishJoins(prefix: string, top: bool, s: string)
    ensures Finish(prefix, top, FirstPart(s).0, FirstPart(s).1) == prefix + (if top then "" else "/") + DropSlash(s)
    decreases |s|
  {
    hide DropSlash;
    hide FirstPart;
    var (name, rest) := FirstPart(s);
    var p := prefix + (if top then "" else "/");
    if rest != "" {
      FinishJoins(p + name, false, rest);
      DropSlashAfter(name, rest);
      Associate(p, name, DropSlash(rest));
    } else {
      OnePart(s);
    }
  }

  lemma Associate(a: string, b: string, c: string)
    ensures a + b + "/" + c == a + (b + "/" + c)
  {
  }

  lemma OnePart(s: string)
    requires FirstPart(s).1 == ""
    ensures DropSlash(s) == FirstPart(s).0
  {
  }

  /** The flags and specs of a record play no part in the links. */
  lemma DataKeeps(m: Memory, kids: Lists, depth: map<Ptr, nat>, p: Ptr, r: FileRec)
    requires ForestOk(m, kids, depth) && p in m
    requires r == m[p].(specified := r.specified, freed := r.freed, specs := r.specs)
    ensures ForestOk(m[p := r], kids, depth)
  {
    hide ForestOk;
    hide ListOk;
    var m' := m[p := r];
    forall x | x in m' ensures NodeOk(m', kids, depth, x) {
      AtNode(m, kids, depth, x);
      forall y | y in kids[x].dirs ensures SameLinks(m, m', y) { ChildOf(m, x, kids[x].dirs, y); }
      forall y | y in kids[x].files ensures SameLinks(m, m', y) { ChildOf(m, x, kids[x].files, y); }
      ListKept(m, m', x, kids[x].dirs);
      ListKept(m, m', x, kids[x].files);
    }
    Together(m, m', kids, depth);
  }

  lemma Together(m: Memory, m': Memory, kids: Lists, depth: map<Ptr, nat>)
    requires ForestOk(m, kids, depth) && m'.Keys == m.Keys && forall x | x in m :: m'[x].name == m[x].name
    requires forall x | x in m' :: NodeOk(m', kids, depth, x)
    ensures ForestOk(m', kids, depth)
  {
  }

  /** For a path without trailing slashes the canonical path is the path itself, less a leading "./". */
  lemma CanonicalIsPath(path: string)
    requires path != "" && path[|path| - 1] != '/'
    ensures Canonical(path) == if "./" <= path then path[2..] else path
  {
    hide *;
    SlashCut(path);
    StartCut(path);
    NoSlashCut(path);
    CanonicalFrom(path);
    if "/" <= path { assert path[0] == '/' && "/" + path[1..] == path; }
  }

  /** How many characters at the beginning of a path only say where it starts. */
  function StartLength(path: string): (k: nat)
    ensures k <= |path|
  {
    if "/" <= path then 1 else if "./" <= path then 2 else 0
  }

  lemma StartCut(path: string)
    ensures BelowStart(path) == path[StartLength(path)..]
    ensures "/" <= path ==> StartLength(path) == 1
    ensures "./" <= path ==> StartLength(path) == 2 && !("/" <= path)
    ensures !("/" <= path) && !("./" <= path) ==> StartLength(path) == 0
  {
    if "./" <= path { assert path[0] == "./"[0]; }
    if "/" <= path { assert path[0] == "/"[0]; }
  }

  lemma NoSlashCut(path: string)
    requires path != "" && path[|path| - 1] != '/'
    ensures DropSlash(path[StartLength(path)..]) == path[StartLength(path)..]
    ensures DropSlash(path[StartLength(path)..] + "/") == path[StartLength(path)..]
  {
  }

  lemma CanonicalFrom(path: string)
    requires path != "" && Stripped(path) == path
    ensures Canonical(path) == (if "/" <= path then "/" else "") + DropSlash(BelowStart(path))
  {
    hide Stripped, BelowStart, DropSlash;
  }

  /** One or two trailing slashes make no difference to where a file is remembered. */
  lemma CanonicalOfSlash(path: string)
    requires path != "" && path[|path| - 1] != '/' && path != "."
    ensures Canonical(path + "/") == Canonical(path) && Canonical(path + "//") == Canonical(path)
    ensures StartOf(path + "/") == StartOf(path) && StartOf(path + "//") == StartOf(path)
  {
    hide *;
    CanonicalIsPath(path);
    SlashCut(path);
    OneSlash(path);
  }

  lemma SlashCut(path: string)
    requires path != ""
    ensures Stripped(path + "/") == path && Stripped(path + "//") == path + "/"
    ensures path[|path| - 1] != '/' ==> Stripped(path) == path
  {
    assert (path + "//")[..|path| + 1] == path + "/";
  }

  lemma OneSlash(path: string)
    requires path != "" && path[|path| - 1] != '/' && path != "."
    requires Stripped(path + "/") == path && Stripped(path + "//") == path + "/" && Stripped(path) == path
    ensures Canonical(path + "/") == Canonical(path) && Canonical(path + "//") == Canonical(path)
    ensures StartOf(path + "/") == StartOf(path) && StartOf(path + "//") == StartOf(path)
  {
    hide Stripped, BelowStart, DropSlash, StartLength;
    StartCut(path);
    StartCut(path + "/");
    NoSlashCut(path);
    SameBeginning(path);
  }

  lemma SameBeginning(path: string)
    requires path != "" && path[|path| - 1] != '/' && path != "."
    ensures "/" <= path + "/" <==> "/" <= path
    ensures StartLength(path + "/") == StartLength(path)
    ensures (path + "/")[StartLength(path)..] == path[StartLength(path)..] + "/"
  {
    assert (path + "/")[0] == path[0] && (|path| > 1 ==> (path + "/")[1] == path[1]);
  }

  lemma {:induction false} ReachMeaning(built: string, s: string, statDir: string -> Option<nat>)
    ensures CanReach(built, FirstPart(s).0, FirstPart(s).1, statDir) <==>
            forall i | 0 <= i < |s| - 1 && s[i] == '/' :: statDir(built + s[..i]).Some?
    decreases |s|
  {
    hide FirstPart;
    var (name, rest) := FirstPart(s);
    assert forall i | 0 <= i < |name| :: name[i] != '/';
    if rest != "" {
      var built' := built + name + "/";
      ReachMeaning(built', rest, statDir);
      assert s == name + "/" + rest;
      assert s[..|name|] == name;
      forall i | 0 <= i < |s| && s[i] == '/'
        ensures i >= |name|
        ensures i > |name| ==> rest[i - |name| - 1] == '/' && built + s[..i] == built' + rest[..i - |name| - 1]
      {
      }
      forall j | 0 <= j < |rest| && rest[j] == '/'
        ensures s[j + |name| + 1] == '/' && built + s[..j + |name| + 1] == built' + rest[..j]
      {
      }
      if CanReach(built, name, rest, statDir) {
        forall i | 0 <= i < |s| - 1 && s[i] == '/'
          ensures statDir(built + s[..i]).Some?
        {
        }
      }
    }
  }

  /** A path without a trailing slash can be added exactly if it can be examined and so can the
      part before each of its slashes, less a leading "./" and not counting a leading slash. */
  lemma ExaminableMeaning(path: string, lstat: string -> Option<Specs>, statDir: string -> Option<nat>)
    requires path != "" && path[|path| - 1] != '/'
    ensures var from := if "./" <= path then 2 else 0;
            Examinable(path, lstat, statDir) <==>
            && lstat(path).Some?
            && forall i | from <= i < |path| && path[i] == '/' && i > 0 :: statDir(path[from..i]).Some?
    ensures Examinable(path + "/", lstat, statDir) <==> Examinable(path, lstat, statDir)
  {
    hide *;
    SlashCut(path);
    StartCut(path);
    ExaminableFrom(path, path, lstat, statDir);
    ExaminableFrom(path + "/", path, lstat, statDir);
    ReachMeaning(if "/" <= path then "/" else "", path[StartLength(path)..], statDir);
    WayMeaning(path, statDir);
  }

  lemma ExaminableFrom(given: string, path: string, lstat: string -> Option<Specs>, statDir: string -> Option<nat>)
    requires Stripped(given) == path
    ensures Examinable(given, lstat, statDir) <==>
            && lstat(path).Some?
            && CanReach(if "/" <= path then "/" else "", FirstPart(BelowStart(path)).0, FirstPart(BelowStart(path)).1, statDir)
  {
    hide Stripped, BelowStart, FirstPart, CanReach;
  }

  lemma WayMeaning(path: string, statDir: string -> Option<nat>)
    requires path != "" && path[|path| - 1] != '/'
    ensures var built, s, from := if "/" <= path then "/" else "", path[StartLength(path)..], if "./" <= path then 2 else 0;
            (forall i | 0 <= i < |s| - 1 && s[i] == '/' :: statDir(built + s[..i]).Some?) <==>
            forall i | from <= i < |path| && path[i] == '/' && i > 0 :: statDir(path[from..i]).Some?
  {
    hide *;
    StartCut(path);
    var built, k, from := if "/" <= path then "/" else "", StartLength(path), if "./" <= path then 2 else 0;
    var s := path[k..];
    Between(path, built, k, from);
    assert k == 0 ==> path[0] != '/' by {
      if path[0] == '/' { assert "/" <= path; }
    }
    ShiftedWay(path, built, s, k, from, statDir);
  }

  lemma Between(path: string, built: string, k: nat, from: nat)
    requires from <= k <= |path|
    requires if "/" <= path then built == "/" && k == 1 && from == 0 else built == "" && k == from
    ensures built == path[from..k]
  {
    if "/" <= path { assert path[0] == "/"[0]; }
  }

  lemma ShiftedWay(path: string, built: string, s: string, k: nat, from: nat, statDir: string -> Option<nat>)
    requires from <= k <= |path| && path != "" && path[|path| - 1] != '/'
    requires s == path[k..] && built == path[from..k] && (k == from != 1 || (k == 1 && from == 0))
    ensures (forall i | 0 <= i < |s| - 1 && s[i] == '/' :: statDir(built + s[..i]).Some?) <==>
            forall i | from <= i < |path| && path[i] == '/' && (i > 0 || k == 0) :: statDir(path[from..i]).Some?
  {
    forall i | k <= i < |path|
      ensures s[i - k] == path[i] && built + s[..i - k] == path[from..i]
    {
    }
    if forall i | 0 <= i < |s| - 1 && s[i] == '/' :: statDir(built + s[..i]).Some? {
      forall i | from <= i < |path| && path[i] == '/' && (i > 0 || k == 0)
        ensures statDir(path[from..i]).Some?
      {
        assert s[i - k] == '/';
      }
    }
    if forall i | from <= i < |path| && path[i] == '/' && (i > 0 || k == 0) :: statDir(path[from..i]).Some? {
      forall j | 0 <= j < |s| - 1 && s[j] == '/'
        ensures statDir(built + s[..j]).Some?
      {
        assert path[j + k] == '/' && built + s[..j] == path[from..j + k];
      }
    }
  }
}
