/** The widget tree of the Xj library (athena/lib/Xj/Jets.c): three walks that use nothing but the
    parent, sibling and child links.  Memory is a map from addresses to records; a released
    record is no longer in it, so every access to the map is a proof that the record is live. */
module JetTree {
  import opened Wrappers

  type Ptr = nat
  const NULL: Ptr := 0

  datatype Jet = Jet(parent: Ptr, sibling: Ptr, child: Ptr, window: nat)

  type Memory = map<Ptr, Jet>

  // ----- Recursive traversals -----

  datatype Tree = Tree(ptr: Ptr, kids: seq<Tree>)

  ghost function Post(t: Tree): seq<Ptr> { PostAll(t.kids) + [t.ptr] }

  ghost function PostAll(ts: seq<Tree>): seq<Ptr> {
    if ts == [] then [] else Post(ts[0]) + PostAll(ts[1..])
  }

  ghost function Pre(t: Tree): seq<Ptr> { [t.ptr] + PreAll(t.kids) }

  ghost function PreAll(ts: seq<Tree>): seq<Ptr> {
    if ts == [] then [] else Pre(ts[0]) + PreAll(ts[1..])
  }

  /** Both orders visit the same records, each equally often. */
  lemma {:induction false} SameVisits(t: Tree)
    ensures multiset(Pre(t)) == multiset(Post(t))
    decreases t
  {
    SameVisitsAll(t.kids);
  }

  lemma {:induction false} SameVisitsAll(ts: seq<Tree>)
    ensures multiset(PreAll(ts)) == multiset(PostAll(ts))
    decreases ts
  {
    if ts != [] {
      SameVisits(ts[0]);
      SameVisitsAll(ts[1..]);
    }
  }

  ghost predicate Distinct(s: seq<Ptr>) { forall x | x in s :: multiset(s)[x] == 1 }

  lemma DistinctSplit(a: seq<Ptr>, p: Ptr, b: seq<Ptr>)
    requires Distinct(a + [p] + b)
    ensures p !in a && p !in b
  {
    assert p in a + [p] + b;
    assert multiset(a + [p] + b) == multiset(a) + multiset{p} + multiset(b);
    assert p in a ==> multiset(a)[p] > 0;
    assert p in b ==> multiset(b)[p] > 0;
  }

  /** The records of `s` on which the class procedure is defined. */
  function Where(has: Ptr -> bool, s: seq<Ptr>): seq<Ptr> {
    if s == [] then []
    else
      var n := |s| - 1;
      Where(has, s[..n]) + (if has(s[n]) then [s[n]] else [])
  }

  lemma WhereSnoc(has: Ptr -> bool, s: seq<Ptr>, p: Ptr)
    ensures Where(has, s + [p]) == Where(has, s) + if has(p) then [p] else []
  {
    assert (s + [p])[..|s|] == s;
  }

  /** Of a series of visits the procedure is called for those records that have it, in that order. */
  lemma {:induction false} WhereAppend(has: Ptr -> bool, a: seq<Ptr>, b: seq<Ptr>)
    ensures Where(has, a + b) == Where(has, a) + Where(has, b)
    decreases |b|
  {
    if b == [] {
      assert a + b == a;
    } else {
      var last := |b| - 1;
      WhereAppend(has, a, b[..last]);
      assert (a + b)[..|a + b| - 1] == a + b[..last];
    }
  }

  lemma WhereOne(has: Ptr -> bool, x: Ptr)
    ensures Where(has, [x]) == if has(x) then [x] else []
  {
    assert [x][..0] == [];
  }

  /** `u` is `t` or below it. */
  ghost predicate Within(u: Tree, t: Tree)
    decreases t
  {
    u == t || exists i | 0 <= i < |t.kids| :: Within(u, t.kids[i])
  }

  ghost predicate Block(part: seq<Ptr>, whole: seq<Ptr>) { exists a, b :: whole == a + part + b }

  lemma BlockIn(part: seq<Ptr>, mid: seq<Ptr>, a: seq<Ptr>, b: seq<Ptr>)
    requires Block(part, mid)
    ensures Block(part, a + mid + b)
  {
    var c, d :| mid == c + part + d;
    assert a + mid + b == (a + c) + part + (d + b);
  }

  /** The visits below each record are together, in postorder just before the record, in preorder just
      after it. */
  lemma {:induction false} VisitsTogether(u: Tree, t: Tree)
    requires Within(u, t)
    ensures Block(PostAll(u.kids) + [u.ptr], Post(t)) && Block([u.ptr] + PreAll(u.kids), Pre(t))
    decreases t
  {
    if u == t {
      assert Post(t) == [] + (PostAll(u.kids) + [u.ptr]) + [] && Pre(t) == [] + ([u.ptr] + PreAll(u.kids)) + [];
    } else {
      var i :| 0 <= i < |t.kids| && Within(u, t.kids[i]);
      VisitsTogether(u, t.kids[i]);
      KidTogether(t.kids, i);
      var a, b :| PostAll(t.kids) == a + Post(t.kids[i]) + b;
      var c, d :| PreAll(t.kids) == c + Pre(t.kids[i]) + d;
      BlockIn(PostAll(u.kids) + [u.ptr], Post(t.kids[i]), a, b + [t.ptr]);
      BlockIn([u.ptr] + PreAll(u.kids), Pre(t.kids[i]), [t.ptr] + c, d);
      assert Post(t) == a + Post(t.kids[i]) + (b + [t.ptr]);
      assert Pre(t) == ([t.ptr] + c) + Pre(t.kids[i]) + d;
    }
  }

  lemma {:induction false} KidTogether(ts: seq<Tree>, i: nat)
    requires i < |ts|
    ensures Block(Post(ts[i]), PostAll(ts)) && Block(Pre(ts[i]), PreAll(ts))
    decreases |ts|
  {
    hide Post, Pre;
    if i == 0 {
      assert PostAll(ts) == [] + Post(ts[0]) + PostAll(ts[1..]) && PreAll(ts) == [] + Pre(ts[0]) + PreAll(ts[1..]);
    } else {
      KidTogether(ts[1..], i - 1);
      BlockIn(Post(ts[i]), PostAll(ts[1..]), Post(ts[0]), []);
      BlockIn(Pre(ts[i]), PreAll(ts[1..]), Pre(ts[0]), []);
      assert PostAll(ts) == Post(ts[0]) + PostAll(ts[1..]) + [] && PreAll(ts) == Pre(ts[0]) + PreAll(ts[1..]) + [];
    }
  }

  /** Children are visited in their order, each with all that is below it. */
  lemma {:induction false} KidsInOrder(ts: seq<Tree>, k: nat)
    requires k <= |ts|
    ensures PostAll(ts) == PostAll(ts[..k]) + PostAll(ts[k..]) && PreAll(ts) == PreAll(ts[..k]) + PreAll(ts[k..])
    decreases |ts|
  {
    hide Post, Pre;
    if k == 0 {
      assert ts[..0] == [] && ts[0..] == ts;
    } else {
      KidsInOrder(ts[1..], k - 1);
      assert ts[1..][..k - 1] == ts[..k][1..] && ts[1..][k - 1..] == ts[k..];
    }
  }

  // ----- What the links say -----

  function Head(ts: seq<Tree>): Ptr { if ts == [] then NULL else ts[0].ptr }

  /** The links below `t` describe its children. */
  ghost predicate Shaped(m: Memory, t: Tree)
    decreases t
  {
    && t.ptr in m && t.ptr != NULL
    && m[t.ptr].child == Head(t.kids)
    && ShapedAll(m, t.ptr, t.kids)
  }

  /** `ts` are consecutive siblings below `p`, the last of them without a sibling. */
  ghost predicate ShapedAll(m: Memory, p: Ptr, ts: seq<Tree>)
    decreases ts
  {
    ts == [] ||
    (&& Shaped(m, ts[0])
     && m[ts[0].ptr].parent == p
     && m[ts[0].ptr].sibling == Head(ts[1..])
     && ShapedAll(m, p, ts[1..]))
  }

  ghost predicate Same(m: Memory, m': Memory, x: Ptr) {
    x in m ==> x in m' && m'[x] == m[x].(window := m'[x].window)
  }

  /** At most windows differ. */
  ghost predicate AllSame(m: Memory, m': Memory) { forall x :: Same(m, m', x) }

  lemma {:induction false} ShapedKept(m: Memory, m': Memory, t: Tree)
    requires Shaped(m, t)
    requires forall x | x in PreAll(t.kids) :: Same(m, m', x)
    requires t.ptr in m' && m'[t.ptr].child == m[t.ptr].child
    ensures Shaped(m', t)
    decreases t
  {
    ShapedAllKept(m, m', t.ptr, t.kids);
  }

  lemma {:induction false} ShapedAllKept(m: Memory, m': Memory, p: Ptr, ts: seq<Tree>)
    requires ShapedAll(m, p, ts)
    requires forall x | x in PreAll(ts) :: Same(m, m', x)
    ensures ShapedAll(m', p, ts)
    decreases ts
  {
    if ts != [] {
      var t := ts[0];
      assert PreAll(ts) == [t.ptr] + PreAll(t.kids) + PreAll(ts[1..]);
      assert Same(m, m', t.ptr);
      ShapedKept(m, m', t);
      ShapedAllKept(m, m', p, ts[1..]);
    }
  }

  lemma HeadOf(m: Memory, p: Ptr, ts: seq<Tree>)
    requires ShapedAll(m, p, ts)
    ensures ts == [] <==> Head(ts) == NULL
  {
  }

  // ----- Where a walk is -----

  /** An ancestor of the current record, and its children behind the one that the walk is in. */
  datatype Frame = Frame(ptr: Ptr, later: seq<Tree>)

  /** What remains to be visited in postorder above the current tree. */
  ghost function PostAbove(stack: seq<Frame>): seq<Ptr> {
    if stack == [] then []
    else
      var f := stack[|stack| - 1];
      PostAll(f.later) + [f.ptr] + PostAbove(stack[..|stack| - 1])
  }

  /** What remains to be visited in preorder above the current tree. */
  ghost function PreAbove(stack: seq<Frame>): seq<Ptr> {
    if stack == [] then []
    else PreAll(stack[|stack| - 1].later) + PreAbove(stack[..|stack| - 1])
  }

  /** The record `p`, whose links are or were `parent` and `sibling`, hangs below `jet` at the
      place that `stack` describes. */
  ghost predicate Placed(m: Memory, jet: Ptr, p: Ptr, parent: Ptr, sibling: Ptr, stack: seq<Frame>)
    decreases |stack|
  {
    if stack == [] then p == jet
    else
      var f := stack[|stack| - 1];
      && parent == f.ptr && sibling == Head(f.later)
      && ShapedAll(m, f.ptr, f.later)
      && f.ptr in m && f.ptr != NULL
      && Placed(m, jet, f.ptr, m[f.ptr].parent, m[f.ptr].sibling, stack[..|stack| - 1])
  }

  /** The ancestors on the way. */
  ghost function Ptrs(stack: seq<Frame>): set<Ptr> { set f | f in stack :: f.ptr }

  lemma {:induction false} PlacedKept(m: Memory, m': Memory, jet: Ptr, p: Ptr, parent: Ptr, sibling: Ptr, stack: seq<Frame>)
    requires Placed(m, jet, p, parent, sibling, stack)
    requires forall x | x in PreAbove(stack) || x in Ptrs(stack) :: Same(m, m', x)
    ensures Placed(m', jet, p, parent, sibling, stack)
    decreases |stack|
  {
    if stack != [] {
      var f, up := stack[|stack| - 1], stack[..|stack| - 1];
      assert f.ptr in Ptrs(stack) && Ptrs(up) <= Ptrs(stack);
      assert Same(m, m', f.ptr);
      ShapedAllKept(m, m', f.ptr, f.later);
      PlacedKept(m, m', jet, f.ptr, m[f.ptr].parent, m[f.ptr].sibling, up);
    }
  }

  /** Above the current tree the postorder still visits what the preorder does, and the
      ancestors. */
  lemma {:induction false} AbovePost(stack: seq<Frame>, x: Ptr)
    requires x in PreAbove(stack) || x in Ptrs(stack)
    ensures x in PostAbove(stack)
    decreases |stack|
  {
    var f, up := stack[|stack| - 1], stack[..|stack| - 1];
    if x in PreAll(f.later) {
      SameVisitsAll(f.later);
      assert x in multiset(PreAll(f.later));
      assert x in PostAll(f.later);
    } else if x != f.ptr {
      assert stack == up + [f];
      AbovePost(up, x);
    }
  }

  lemma {:induction false} RootComesLast(m: Memory, jet: Ptr, p: Ptr, parent: Ptr, sibling: Ptr, stack: seq<Frame>)
    requires Placed(m, jet, p, parent, sibling, stack)
    requires stack != []
    ensures jet in PostAbove(stack)
    decreases |stack|
  {
    var f, up := stack[|stack| - 1], stack[..|stack| - 1];
    if up != [] {
      RootComesLast(m, jet, f.ptr, m[f.ptr].parent, m[f.ptr].sibling, up);
    }
  }

  lemma GoDown(t: Tree, stack: seq<Frame>)
    requires t.kids != []
    ensures var s := stack + [Frame(t.ptr, t.kids[1..])];
            && Post(t) + PostAbove(stack) == Post(t.kids[0]) + PostAbove(s)
            && PreAll(t.kids) + PreAbove(stack) == Pre(t.kids[0]) + PreAbove(s)
            && Ptrs(s) == Ptrs(stack) + {t.ptr}
  {
    var s := stack + [Frame(t.ptr, t.kids[1..])];
    assert s[..|stack|] == stack;
  }

  lemma GoRight(stack: seq<Frame>)
    requires stack != [] && stack[|stack| - 1].later != []
    ensures var f, up := stack[|stack| - 1], stack[..|stack| - 1];
            var s := up + [Frame(f.ptr, f.later[1..])];
            && PostAbove(stack) == Post(f.later[0]) + PostAbove(s)
            && PreAbove(stack) == Pre(f.later[0]) + PreAbove(s)
            && Ptrs(s) == Ptrs(stack)
  {
    var f, up := stack[|stack| - 1], stack[..|stack| - 1];
    var s := up + [Frame(f.ptr, f.later[1..])];
    assert s[..|up|] == up;
    assert stack == up + [f];
  }

  lemma GoDownPlaced(m: Memory, jet: Ptr, t: Tree, stack: seq<Frame>)
    requires Shaped(m, t) && t.kids != []
    requires Placed(m, jet, t.ptr, m[t.ptr].parent, m[t.ptr].sibling, stack)
    ensures var c := t.kids[0];
            && Shaped(m, c)
            && Placed(m, jet, c.ptr, m[c.ptr].parent, m[c.ptr].sibling, stack + [Frame(t.ptr, t.kids[1..])])
  {
    var s := stack + [Frame(t.ptr, t.kids[1..])];
    assert s[..|stack|] == stack;
  }

  lemma GoRightPlaced(m: Memory, jet: Ptr, p: Ptr, parent: Ptr, sibling: Ptr, stack: seq<Frame>)
    requires Placed(m, jet, p, parent, sibling, stack)
    requires stack != [] && stack[|stack| - 1].later != []
    ensures var f, up := stack[|stack| - 1], stack[..|stack| - 1];
            var c := f.later[0];
            && sibling == c.ptr && Shaped(m, c)
            && Placed(m, jet, c.ptr, m[c.ptr].parent, m[c.ptr].sibling, up + [Frame(f.ptr, f.later[1..])])
  {
    var f, up := stack[|stack| - 1], stack[..|stack| - 1];
    var s := up + [Frame(f.ptr, f.later[1..])];
    assert s[..|up|] == up;
  }

  lemma GoUp(m: Memory, jet: Ptr, p: Ptr, parent: Ptr, sibling: Ptr, stack: seq<Frame>)
    requires Placed(m, jet, p, parent, sibling, stack)
    requires stack != [] && sibling == NULL
    ensures var up := stack[..|stack| - 1];
            && PostAbove(stack) == [parent] + PostAbove(up)
            && PreAbove(stack) == PreAbove(up)
            && parent in m && parent != NULL && Ptrs(stack) == {parent} + Ptrs(up)
            && Placed(m, jet, parent, m[parent].parent, m[parent].sibling, up)
  {
    var f, up := stack[|stack| - 1], stack[..|stack| - 1];
    HeadOf(m, f.ptr, f.later);
    assert stack == up + [f];
  }

  lemma HasRight(m: Memory, jet: Ptr, p: Ptr, parent: Ptr, sibling: Ptr, stack: seq<Frame>)
    requires Placed(m, jet, p, parent, sibling, stack)
    requires stack != [] && sibling != NULL
    ensures stack[|stack| - 1].later != []
  {
  }

  lemma AtLeaf(m: Memory, t: Tree)
    requires Shaped(m, t)
    ensures t.ptr in m && t.ptr != NULL
    ensures m[t.ptr].child == NULL ==> t.kids == [] && Post(t) == [t.ptr] && PreAll(t.kids) == []
    ensures m[t.ptr].child != NULL ==> t.kids != [] && m[t.ptr].child == t.kids[0].ptr
  {
  }

  // ----- The postorder walks, step by step -----

  ghost predicate Left(done: seq<Ptr>, todo: seq<Ptr>, all: seq<Ptr>) { all == done + todo }

  /** The tree `t` below which nothing has been visited is next. */
  ghost predicate PostAt(m: Memory, jet: Ptr, t: Tree, stack: seq<Frame>, log: seq<Ptr>, all: seq<Ptr>) {
    && Shaped(m, t) && Distinct(all)
    && Placed(m, jet, t.ptr, m[t.ptr].parent, m[t.ptr].sibling, stack)
    && Left(log, Post(t) + PostAbove(stack), all)
  }

  /** The record `p`, whose links were `parent` and `sibling`, has been visited last. */
  ghost predicate PostDone(m: Memory, jet: Ptr, p: Ptr, parent: Ptr, sibling: Ptr, stack: seq<Frame>,
                           log: seq<Ptr>, all: seq<Ptr>)
  {
    && Distinct(all) && |log| > 0 && log[|log| - 1] == p
    && Placed(m, jet, p, parent, sibling, stack)
    && Left(log, PostAbove(stack), all)
  }

  lemma PostDown(m: Memory, jet: Ptr, t: Tree, stack: seq<Frame>, log: seq<Ptr>, all: seq<Ptr>)
    requires PostAt(m, jet, t, stack, log, all) && t.kids != []
    ensures PostAt(m, jet, t.kids[0], stack + [Frame(t.ptr, t.kids[1..])], log, all)
  {
    GoDown(t, stack);
    GoDownPlaced(m, jet, t, stack);
  }

  lemma PostVisit(m: Memory, jet: Ptr, t: Tree, stack: seq<Frame>, log: seq<Ptr>, all: seq<Ptr>)
    requires PostAt(m, jet, t, stack, log, all) && t.kids == []
    ensures PostDone(m, jet, t.ptr, m[t.ptr].parent, m[t.ptr].sibling, stack, log + [t.ptr], all)
  {
    assert Post(t) == [t.ptr];
  }

  lemma PostUp(m: Memory, jet: Ptr, p: Ptr, parent: Ptr, sibling: Ptr, stack: seq<Frame>, log: seq<Ptr>, all: seq<Ptr>)
    requires PostDone(m, jet, p, parent, sibling, stack, log, all)
    requires p != jet && sibling == NULL
    ensures stack != [] && parent in m
    ensures PostDone(m, jet, parent, m[parent].parent, m[parent].sibling, stack[..|stack| - 1], log + [parent], all)
  {
    GoUp(m, jet, p, parent, sibling, stack);
  }

  lemma PostRight(m: Memory, jet: Ptr, p: Ptr, parent: Ptr, sibling: Ptr, stack: seq<Frame>, log: seq<Ptr>, all: seq<Ptr>)
    requires PostDone(m, jet, p, parent, sibling, stack, log, all)
    requires p != jet && sibling != NULL
    ensures stack != []
    ensures var f := stack[|stack| - 1];
            && f.later != [] && sibling == f.later[0].ptr
            && PostAt(m, jet, f.later[0], stack[..|stack| - 1] + [Frame(f.ptr, f.later[1..])], log, all)
  {
    HasRight(m, jet, p, parent, sibling, stack);
    GoRight(stack);
    GoRightPlaced(m, jet, p, parent, sibling, stack);
  }

  /** Back at the root everything has been visited. */
  lemma PostEnd(m: Memory, jet: Ptr, p: Ptr, parent: Ptr, sibling: Ptr, stack: seq<Frame>, log: seq<Ptr>, all: seq<Ptr>)
    requires PostDone(m, jet, p, parent, sibling, stack, log, all)
    requires p == jet
    ensures log == all
  {
    if stack != [] {
      RootComesLast(m, jet, p, parent, sibling, stack);
      var before := log[..|log| - 1];
      assert log == before + [p];
      DistinctSplit(before, p, PostAbove(stack));
      assert false;
    }
  }

  lemma PostShaped(m: Memory, jet: Ptr, t: Tree, stack: seq<Frame>, log: seq<Ptr>, all: seq<Ptr>)
    requires PostAt(m, jet, t, stack, log, all)
    ensures Shaped(m, t) && t.ptr in m && t.ptr != NULL
  {
  }

  lemma PostBounds(m: Memory, jet: Ptr, p: Ptr, parent: Ptr, sibling: Ptr, stack: seq<Frame>, log: seq<Ptr>, all: seq<Ptr>)
    requires PostDone(m, jet, p, parent, sibling, stack, log, all)
    ensures |log| <= |all|
  {
  }

  /** Releasing what was visited last does not disturb the rest of the walk. */
  lemma PostRelease(m: Memory, jet: Ptr, p: Ptr, parent: Ptr, sibling: Ptr, stack: seq<Frame>, log: seq<Ptr>, all: seq<Ptr>)
    requires PostDone(m, jet, p, parent, sibling, stack, log, all)
    ensures PostDone(m - {p}, jet, p, parent, sibling, stack, log, all)
  {
    var before := log[..|log| - 1];
    assert log == before + [p];
    DistinctSplit(before, p, PostAbove(stack));
    forall x | x in PreAbove(stack) || x in Ptrs(stack)
      ensures Same(m, m - {p}, x)
    {
      AbovePost(stack, x);
    }
    PlacedKept(m, m - {p}, jet, p, parent, sibling, stack);
  }

  // ----- Taking a child out of its parent's list -----

  lemma DistinctParts(a: seq<Ptr>, b: seq<Ptr>)
    requires Distinct(a + b)
    ensures Distinct(a) && Distinct(b) && forall x | x in a :: x !in b
  {
    assert multiset(a + b) == multiset(a) + multiset(b);
    forall x | x in a
      ensures multiset(a)[x] == 1 && x !in b
    {
      assert x in a + b && x in multiset(a);
      assert x in b ==> x in multiset(b);
    }
    forall x | x in b
      ensures multiset(b)[x] == 1
    {
      assert x in a + b && x in multiset(b);
    }
  }

  lemma {:induction false} PreAllAppend(a: seq<Tree>, b: seq<Tree>)
    ensures PreAll(a + b) == PreAll(a) + PreAll(b)
  {
    if a == [] {
      assert a + b == b;
    } else {
      assert (a + b)[1..] == a[1..] + b;
      PreAllAppend(a[1..], b);
    }
  }

  lemma {:induction false} Kid(m: Memory, p: Ptr, ts: seq<Tree>, i: nat)
    requires ShapedAll(m, p, ts) && i < |ts|
    ensures Shaped(m, ts[i]) && m[ts[i].ptr].parent == p && m[ts[i].ptr].sibling == Head(ts[i + 1..])
    decreases i
  {
    if i > 0 {
      assert ts[1..][i..] == ts[i + 1..];
      Kid(m, p, ts[1..], i - 1);
    }
  }

  lemma PreAllCons(ts: seq<Tree>, i: nat)
    requires i < |ts|
    ensures PreAll(ts[i..]) == Pre(ts[i]) + PreAll(ts[i + 1..])
  {
    assert ts[i..][1..] == ts[i + 1..];
  }

  /** How the child at `i` divides the traversal of all children. */
  lemma Around(ts: seq<Tree>, i: nat)
    requires i < |ts|
    ensures PreAll(ts) == PreAll(ts[..i]) + (Pre(ts[i]) + PreAll(ts[i + 1..]))
    ensures PreAll(Without(ts, i)) == PreAll(ts[..i]) + PreAll(ts[i + 1..])
  {
    hide PreAll, Pre;
    PreAllCons(ts, i);
    assert ts == ts[..i] + ts[i..];
    PreAllAppend(ts[..i], ts[i..]);
    PreAllAppend(ts[..i], ts[i + 1..]);
  }

  /** Siblings share no record, and no record is its own descendant. */
  lemma Apart(ts: seq<Tree>, i: nat)
    requires Distinct(PreAll(ts)) && i < |ts|
    ensures forall x | x in Pre(ts[i]) :: x in PreAll(ts) && x !in PreAll(ts[..i]) && x !in PreAll(ts[i + 1..])
    ensures ts[i].ptr in Pre(ts[i]) && ts[i].ptr !in PreAll(ts[i].kids)
    ensures Distinct(Pre(ts[i])) && Distinct(PreAll(ts[i + 1..])) && Distinct(PreAll(ts[..i]))
    ensures forall x | x in PreAll(Without(ts, i)) :: x !in Pre(ts[i])
  {
    Around(ts, i);
    DistinctParts(PreAll(ts[..i]), Pre(ts[i]) + PreAll(ts[i + 1..]));
    DistinctParts(Pre(ts[i]), PreAll(ts[i + 1..]));
    DistinctParts([ts[i].ptr], PreAll(ts[i].kids));
  }

  lemma RootsDiffer(ts: seq<Tree>, i: nat, j: nat)
    requires Distinct(PreAll(ts)) && i < |ts| && j < |ts|
    requires ts[i].ptr == ts[j].ptr
    ensures i == j
  {
    if i < j {
      Apart(ts, j);
      Apart(ts[..j], i);
      assert false;
    } else if j < i {
      RootsDiffer(ts, j, i);
    }
  }

  function Without(ts: seq<Tree>, k: nat): seq<Tree>
    requires k < |ts|
  {
    ts[..k] + ts[k + 1..]
  }

  /** Memory after the child at `k` was taken out of the list of its parent. */
  ghost function Unlinked(m: Memory, p: Ptr, ts: seq<Tree>, k: nat): Memory
    requires p in m && ShapedAll(m, p, ts) && k < |ts|
  {
    Kid(m, p, ts, k);
    if k == 0 then m[p := m[p].(child := m[ts[0].ptr].sibling)]
    else
      Kid(m, p, ts, k - 1);
      m[ts[k - 1].ptr := m[ts[k - 1].ptr].(sibling := m[ts[k].ptr].sibling)]
  }

  /** A list whose record before `k` now points behind `k`. */
  lemma {:induction false} ShorterList(m: Memory, m': Memory, p: Ptr, ts: seq<Tree>, k: nat)
    requires ShapedAll(m, p, ts) && 0 < k < |ts| && Distinct(PreAll(ts))
    requires var q := ts[k - 1].ptr; q in m && m' == m[q := m[q].(sibling := Head(ts[k + 1..]))]
    ensures ShapedAll(m', p, Without(ts, k))
    decreases k
  {
    hide Shaped, ShapedAll, Distinct, Pre, PreAll;
    var q, head, rest := ts[k - 1].ptr, ts[0], ts[1..];
    Apart(ts, 0);
    InPre(head);
    SplitList(m, p, ts);
    SplitList(m, p, rest);
    if k == 1 {
      assert rest[1..] == ts[2..];
      PreAllCons(ts, 1);
      ShapedKept(m, m', head);
      ShapedAllKept(m, m', p, ts[2..]);
      JoinList(m', p, head, ts[2..]);
      assert Without(ts, 1) == [head] + ts[2..];
    } else {
      Apart(rest, k - 2);
      ShapedKept(m, m', head);
      assert rest[k..] == ts[k + 1..];
      ShorterList(m, m', p, rest, k - 1);
      JoinList(m', p, head, Without(rest, k - 1));
      assert Without(ts, k) == [head] + Without(rest, k - 1);
    }
  }

  lemma InPre(t: Tree)
    ensures t.ptr in Pre(t) && forall x | x in PreAll(t.kids) :: x in Pre(t)
  {
  }

  lemma SplitList(m: Memory, p: Ptr, ts: seq<Tree>)
    requires ShapedAll(m, p, ts) && ts != []
    ensures Shaped(m, ts[0]) && ts[0].ptr in m && ShapedAll(m, p, ts[1..])
    ensures m[ts[0].ptr].parent == p && m[ts[0].ptr].sibling == Head(ts[1..])
  {
  }

  lemma JoinList(m: Memory, p: Ptr, t: Tree, ts: seq<Tree>)
    requires Shaped(m, t) && t.ptr in m && ShapedAll(m, p, ts)
    requires m[t.ptr].parent == p && m[t.ptr].sibling == Head(ts)
    ensures ShapedAll(m, p, [t] + ts)
  {
    assert ([t] + ts)[1..] == ts;
  }

  /** The child that was taken out and what remains of the parent are both well linked. */
  lemma UnlinkedShapes(m: Memory, p: Ptr, ts: seq<Tree>, k: nat)
    requires Shaped(m, Tree(p, ts)) && k < |ts| && Distinct(Pre(Tree(p, ts)))
    ensures Shaped(Unlinked(m, p, ts, k), ts[k])
    ensures Shaped(Unlinked(m, p, ts, k), Tree(p, Without(ts, k)))
  {
    hide Shaped, ShapedAll, Distinct, Pre, PreAll;
    RootOf(m, p, ts);
    var m' := Unlinked(m, p, ts, k);
    ParentApart(p, ts);
    Kid(m, p, ts, k);
    Apart(ts, k);
    InPre(ts[k]);
    if k == 0 {
      Around(ts, 0);
      SplitList(m, p, ts);
      ShapedKept(m, m', ts[0]);
      ShapedAllKept(m, m', p, ts[1..]);
      assert Without(ts, 0) == ts[1..];
    } else {
      Apart(ts, k - 1);
      InPre(ts[k - 1]);
      PreAllCons(ts, k);
      Kid(m, p, ts, k - 1);
      ShapedKept(m, m', ts[k]);
      ShorterList(m, m', p, ts, k);
      assert Head(Without(ts, k)) == Head(ts);
    }
    MakeRoot(m', p, Without(ts, k));
  }

  lemma ParentApart(p: Ptr, ts: seq<Tree>)
    requires Distinct(Pre(Tree(p, ts)))
    ensures p !in PreAll(ts) && Distinct(PreAll(ts))
  {
    DistinctParts([p], PreAll(ts));
    assert p in [p];
  }

  lemma RootOf(m: Memory, p: Ptr, ts: seq<Tree>)
    requires Shaped(m, Tree(p, ts))
    ensures p in m && p != NULL && m[p].child == Head(ts) && ShapedAll(m, p, ts)
  {
  }

  lemma MakeRoot(m: Memory, p: Ptr, ts: seq<Tree>)
    requires p in m && p != NULL && m[p].child == Head(ts) && ShapedAll(m, p, ts)
    ensures Shaped(m, Tree(p, ts))
  {
  }

  function Members(s: seq<Ptr>): set<Ptr> { set x | x in s }

  /** Once the records of the child are gone, what remains of the parent is still well linked. */
  lemma RemainderShaped(m: Memory, p: Ptr, ts: seq<Tree>, k: nat)
    requires Shaped(m, Tree(p, ts)) && k < |ts| && Distinct(Pre(Tree(p, ts)))
    ensures Shaped(Unlinked(m, p, ts, k) - Members(Post(ts[k])), Tree(p, Without(ts, k)))
  {
    var m1 := Unlinked(m, p, ts, k);
    var m2 := m1 - Members(Post(ts[k]));
    UnlinkedShapes(m, p, ts, k);
    ParentApart(p, ts);
    hide Shaped, ShapedAll, Distinct, Pre, PreAll, Post, Unlinked;
    Apart(ts, k);
    SameVisits(ts[k]);
    assert forall x | x in Post(ts[k]) :: x in multiset(Pre(ts[k]));
    RootOf(m1, p, Without(ts, k));
    ShapedKept(m1, m2, Tree(p, Without(ts, k)));
  }

  lemma MembersSnoc(m: Memory, s: seq<Ptr>, p: Ptr)
    ensures m - Members(s) - {p} == m - Members(s + [p])
  {
  }

  lemma SubtreeDistinct(p: Ptr, ts: seq<Tree>, k: nat)
    requires k < |ts| && Distinct(Pre(Tree(p, ts)))
    ensures Distinct(Post(ts[k]))
  {
    ParentApart(p, ts);
    Apart(ts, k);
    SameVisits(ts[k]);
    forall x | x in Post(ts[k])
      ensures multiset(Post(ts[k]))[x] == 1
    {
      assert x in multiset(Pre(ts[k]));
    }
  }

  // ----- The preorder walk, step by step -----

  /** The tree `t` is next; its ancestors have been visited. */
  ghost predicate PreAt(m: Memory, jet: Ptr, t: Tree, stack: seq<Frame>, log: seq<Ptr>, all: seq<Ptr>) {
    && Shaped(m, t) && Distinct(all) && Cut(m, jet)
    && Placed(m, jet, t.ptr, m[t.ptr].parent, m[t.ptr].sibling, stack)
    && Left(log, Pre(t) + PreAbove(stack), all)
    && Ptrs(stack) <= Members(log)
  }

  /** Everything up to the end of the tree of `p` has been visited. */
  ghost predicate PreDone(m: Memory, jet: Ptr, p: Ptr, stack: seq<Frame>, log: seq<Ptr>, all: seq<Ptr>) {
    && p in m && Distinct(all) && Cut(m, jet)
    && Placed(m, jet, p, m[p].parent, m[p].sibling, stack)
    && Left(log, PreAbove(stack), all)
    && Ptrs(stack) <= Members(log)
  }

  /** The root of the walk is cut off from its parent and siblings. */
  ghost predicate Cut(m: Memory, jet: Ptr) { jet in m && m[jet].parent == NULL && m[jet].sibling == NULL }

  lemma {:induction false} RootOnStack(m: Memory, jet: Ptr, p: Ptr, parent: Ptr, sibling: Ptr, stack: seq<Frame>)
    requires Placed(m, jet, p, parent, sibling, stack)
    requires stack != []
    ensures jet in Ptrs(stack)
    decreases |stack|
  {
    var f, up := stack[|stack| - 1], stack[..|stack| - 1];
    assert f in stack;
    if up != [] {
      RootOnStack(m, jet, f.ptr, m[f.ptr].parent, m[f.ptr].sibling, up);
      assert forall g | g in up :: g in stack;
    }
  }

  /** A record that is next has not been visited; it is the root of the walk, or its parent has
      been visited. */
  lemma NextUnvisited(m: Memory, jet: Ptr, t: Tree, stack: seq<Frame>, log: seq<Ptr>, all: seq<Ptr>)
    requires PreAt(m, jet, t, stack, log, all)
    ensures t.ptr in m && t.ptr != NULL && t.ptr !in log && |log| < |all|
    ensures m[t.ptr].parent == NULL <==> t.ptr == jet
    ensures t.ptr != jet ==> m[t.ptr].parent in log && m[t.ptr].parent in m
  {
    var rest := PreAll(t.kids) + PreAbove(stack);
    assert all == log + [t.ptr] + rest;
    DistinctSplit(log, t.ptr, rest);
    if stack != [] {
      RootOnStack(m, jet, t.ptr, m[t.ptr].parent, m[t.ptr].sibling, stack);
      assert stack[|stack| - 1] in stack;
      assert stack[|stack| - 1].ptr in Ptrs(stack);
    }
  }

  lemma PreKept(m: Memory, m': Memory, jet: Ptr, t: Tree, stack: seq<Frame>, log: seq<Ptr>, all: seq<Ptr>)
    requires PreAt(m, jet, t, stack, log, all)
    requires AllSame(m, m')
    ensures PreAt(m', jet, t, stack, log, all)
  {
    assert Same(m, m', t.ptr) && Same(m, m', jet);
    ShapedKept(m, m', t);
    PlacedKept(m, m', jet, t.ptr, m[t.ptr].parent, m[t.ptr].sibling, stack);
  }

  lemma PreDown(m: Memory, jet: Ptr, t: Tree, stack: seq<Frame>, log: seq<Ptr>, all: seq<Ptr>)
    requires PreAt(m, jet, t, stack, log, all) && t.kids != []
    ensures PreAt(m, jet, t.kids[0], stack + [Frame(t.ptr, t.kids[1..])], log + [t.ptr], all)
  {
    GoDown(t, stack);
    GoDownPlaced(m, jet, t, stack);
    PreHead(t, stack);
    hide Pre, PreAll, PreAbove, Post, PostAbove, Placed, Shaped, Distinct;
    assert log + [t.ptr] + (PreAll(t.kids) + PreAbove(stack)) == log + ([t.ptr] + (PreAll(t.kids) + PreAbove(stack)));
  }

  lemma PreHead(t: Tree, stack: seq<Frame>)
    ensures Pre(t) + PreAbove(stack) == [t.ptr] + (PreAll(t.kids) + PreAbove(stack))
  {
    hide PreAll, PreAbove;
  }

  lemma PreVisit(m: Memory, jet: Ptr, t: Tree, stack: seq<Frame>, log: seq<Ptr>, all: seq<Ptr>)
    requires PreAt(m, jet, t, stack, log, all) && t.kids == []
    ensures PreDone(m, jet, t.ptr, stack, log + [t.ptr], all)
  {
    assert Pre(t) == [t.ptr];
  }

  lemma PreUp(m: Memory, jet: Ptr, p: Ptr, stack: seq<Frame>, log: seq<Ptr>, all: seq<Ptr>)
    requires PreDone(m, jet, p, stack, log, all)
    requires m[p].sibling == NULL && m[p].parent != NULL
    ensures stack != []
    ensures PreDone(m, jet, m[p].parent, stack[..|stack| - 1], log, all)
  {
    GoUp(m, jet, p, m[p].parent, m[p].sibling, stack);
  }

  lemma PreRight(m: Memory, jet: Ptr, p: Ptr, stack: seq<Frame>, log: seq<Ptr>, all: seq<Ptr>)
    requires PreDone(m, jet, p, stack, log, all)
    requires m[p].sibling != NULL
    ensures stack != []
    ensures var f := stack[|stack| - 1];
            && f.later != [] && m[p].sibling == f.later[0].ptr
            && PreAt(m, jet, f.later[0], stack[..|stack| - 1] + [Frame(f.ptr, f.later[1..])], log, all)
  {
    HasRight(m, jet, p, m[p].parent, m[p].sibling, stack);
    GoRight(stack);
    GoRightPlaced(m, jet, p, m[p].parent, m[p].sibling, stack);
  }

  lemma PreEnd(m: Memory, jet: Ptr, p: Ptr, stack: seq<Frame>, log: seq<Ptr>, all: seq<Ptr>)
    requires PreDone(m, jet, p, stack, log, all)
    requires m[p].parent == NULL
    ensures log == all
  {
  }

  lemma DoneIn(m: Memory, jet: Ptr, p: Ptr, stack: seq<Frame>, log: seq<Ptr>, all: seq<Ptr>)
    requires PreDone(m, jet, p, stack, log, all)
    ensures p in m && |log| <= |all|
  {
  }

  /** The place of the parent of a record without siblings behind it. */
  ghost function Above(m: Memory, jet: Ptr, p: Ptr, stack: seq<Frame>, log: seq<Ptr>, all: seq<Ptr>): (up: seq<Frame>)
    requires PreDone(m, jet, p, stack, log, all) && p in m && m[p].sibling == NULL
    ensures m[p].parent == NULL ==> log == all && |up| <= |stack|
    ensures m[p].parent != NULL ==> |up| < |stack| && PreDone(m, jet, m[p].parent, up, log, all)
  {
    if m[p].parent == NULL then PreEnd(m, jet, p, stack, log, all); stack
    else PreUp(m, jet, p, stack, log, all); stack[..|stack| - 1]
  }

  lemma PreChild(m: Memory, jet: Ptr, t: Tree, stack: seq<Frame>, log: seq<Ptr>, all: seq<Ptr>)
    requires PreAt(m, jet, t, stack, log, all)
    ensures t.ptr in m
    ensures m[t.ptr].child == NULL ==> t.kids == []
    ensures m[t.ptr].child != NULL ==> t.kids != [] && m[t.ptr].child == t.kids[0].ptr
  {
    AtLeaf(m, t);
  }

  // ----- Windows -----

  /** A realized jet has the window it created, or else its parent's; the root of the walk keeps
      the window it had. */
  ghost predicate Windowed(m: Memory, jet: Ptr, was: nat, own: Ptr -> Option<nat>, x: Ptr) {
    && x in m
    && (own(x).Some? ==> m[x].window == own(x).value)
    && (own(x).None? && x == jet ==> m[x].window == was)
    && (x != jet ==> m[x].parent in m)
    && (own(x).None? && x != jet ==> m[x].window == m[m[x].parent].window)
  }

  ghost predicate Settled(m: Memory, jet: Ptr, was: nat, own: Ptr -> Option<nat>, log: seq<Ptr>) {
    && (forall x | x in log :: Windowed(m, jet, was, own, x))
    && (forall x | x in log :: x != jet ==> m[x].parent in log)
  }

  /** Only windows of visited records changed. */
  ghost predicate Rewindowed(m0: Memory, m: Memory, log: seq<Ptr>) {
    && m.Keys == m0.Keys
    && AllSame(m0, m)
    && (forall x | x in m && x !in log :: m[x] == m0[x])
  }

  lemma RewindowedStep(m0: Memory, m: Memory, log: seq<Ptr>, p: Ptr, w: nat)
    requires Rewindowed(m0, m, log) && p in m
    ensures Rewindowed(m0, m[p := m[p].(window := w)], log + [p])
    ensures AllSame(m, m[p := m[p].(window := w)])
  {
    var m' := m[p := m[p].(window := w)];
    forall x
      ensures Same(m0, m', x)
    {
      assert Same(m0, m, x);
    }
  }

  lemma SettledStep(m: Memory, jet: Ptr, was: nat, own: Ptr -> Option<nat>, log: seq<Ptr>, p: Ptr, w: nat)
    requires Settled(m, jet, was, own, log)
    requires p in m && p !in log
    requires p == jet ==> own(p).Some? || w == was
    requires p != jet ==> m[p].parent in log && m[p].parent in m && (own(p).Some? || w == m[m[p].parent].window)
    requires own(p).Some? ==> w == own(p).value
    ensures Settled(m[p := m[p].(window := w)], jet, was, own, log + [p])
  {
    var m' := m[p := m[p].(window := w)];
    forall x | x in log + [p]
      ensures Windowed(m', jet, was, own, x)
      ensures x != jet ==> m'[x].parent in log + [p]
    {
      assert x in log ==> Windowed(m, jet, was, own, x);
    }
  }

  function WithLinks(m: Memory, jet: Ptr, parent: Ptr, sibling: Ptr): Memory
    requires jet in m
  {
    m[jet := m[jet].(parent := parent, sibling := sibling)]
  }

  /** With the links of the root cut, the walk can start. */
  lemma CutRoot(m: Memory, root: Tree)
    requires Shaped(m, root) && Distinct(Post(root))
    ensures PreAt(WithLinks(m, root.ptr, NULL, NULL), root.ptr, root, [], [], Pre(root))
  {
    var m' := WithLinks(m, root.ptr, NULL, NULL);
    AlsoDistinct(root);
    assert root == Tree(root.ptr, root.kids);
    assert Ptrs([]) == {} && PreAbove([]) == [];
    assert Pre(root) == [] + (Pre(root) + PreAbove([]));
    hide Distinct, Pre, PreAll, Post, PreAbove, Shaped, ShapedAll, Ptrs;
    RootOf(m, root.ptr, root.kids);
    ParentApart(root.ptr, root.kids);
    ShapedKept(m, m', root);
  }

  lemma AlsoDistinct(t: Tree)
    requires Distinct(Post(t))
    ensures Distinct(Pre(t))
  {
    SameVisits(t);
    hide Pre, Post;
    forall x | x in Pre(t)
      ensures multiset(Pre(t))[x] == 1
    {
      assert x in multiset(Pre(t));
      assert x in Post(t);
    }
  }

  /** Putting the links of the root back leaves only windows changed. */
  lemma Restored(m0: Memory, m: Memory, root: Tree, own: Ptr -> Option<nat>)
    requires root.ptr in m0 && root.ptr in m
    requires Rewindowed(WithLinks(m0, root.ptr, NULL, NULL), m, Pre(root))
    requires Settled(m, root.ptr, m0[root.ptr].window, own, Pre(root))
    ensures var m' := WithLinks(m, root.ptr, m0[root.ptr].parent, m0[root.ptr].sibling);
            && Rewindowed(m0, m', Pre(root))
            && forall x | x in Pre(root) :: Windowed(m', root.ptr, m0[root.ptr].window, own, x)
  {
    var jet := root.ptr;
    var m1, m' := WithLinks(m0, jet, NULL, NULL), WithLinks(m, jet, m0[jet].parent, m0[jet].sibling);
    hide Pre;
    forall x
      ensures Same(m0, m', x)
    {
      assert Same(m1, m, x);
    }
    InPre(root);
    forall x | x in Pre(root)
      ensures Windowed(m', jet, m0[jet].window, own, x)
    {
      assert Windowed(m, jet, m0[jet].window, own, x);
    }
  }

  class Toolkit {
    var m: Memory

    constructor (m0: Memory)
      ensures m == m0
    {
      m := m0;
    }

    /** A jet, the child at `k` of its parent, is taken out of the tree; then its records are
        released in postorder, each after its class procedure was called. */
    method DestroyJet(jet: Ptr, has: Ptr -> bool, ghost parent: Ptr, ghost kids: seq<Tree>, ghost k: nat)
      returns (called: seq<Ptr>)
      requires k < |kids| && kids[k].ptr == jet
      requires Shaped(m, Tree(parent, kids)) && Distinct(Pre(Tree(parent, kids)))
      modifies this
      ensures called == Where(has, Post(kids[k]))
      ensures m == Unlinked(old(m), parent, kids, k) - Members(Post(kids[k]))
      ensures Shaped(m, Tree(parent, Without(kids, k)))
    {
      UnlinkJet(jet, parent, kids, k);
      UnlinkedShapes(old(m), parent, kids, k);
      RemainderShaped(old(m), parent, kids, k);
      SubtreeDistinct(parent, kids, k);
      called := ReleaseAll(jet, has, kids[k]);
    }

    method UnlinkJet(jet: Ptr, ghost p: Ptr, ghost kids: seq<Tree>, ghost k: nat)
      requires k < |kids| && kids[k].ptr == jet
      requires Shaped(m, Tree(p, kids)) && Distinct(Pre(Tree(p, kids)))
      modifies this
      ensures m == Unlinked(old(m), p, kids, k)
    {
      ParentApart(p, kids);
      Kid(m, p, kids, k);
      RootOf(m, p, kids);
      Kid(m, p, kids, 0);
      hide Shaped, ShapedAll, Distinct, Pre, PreAll, Without;
      var parent := m[jet].parent;
      if m[parent].child == jet {
        RootsDiffer(kids, 0, k);
        m := m[parent := m[parent].(child := m[jet].sibling)];
      } else {
        var thisJet := ElderOf(jet, m[parent].child, p, kids, k);
        m := m[thisJet := m[thisJet].(sibling := m[jet].sibling)];
      }
    }

    /** The child before `jet`. */
    method ElderOf(jet: Ptr, first: Ptr, ghost p: Ptr, ghost kids: seq<Tree>, ghost k: nat) returns (thisJet: Ptr)
      requires ShapedAll(m, p, kids) && Distinct(PreAll(kids)) && 0 < k < |kids| && kids[k].ptr == jet && first == kids[0].ptr
      ensures thisJet == kids[k - 1].ptr && thisJet in m
    {
      hide Shaped, ShapedAll, Distinct, Pre, PreAll;
      thisJet := first;
      ghost var j := 0;
      Kid(m, p, kids, 0);
      while m[thisJet].sibling != jet
        invariant j < k && thisJet == kids[j].ptr && thisJet in m
        decreases k - j
      {
        Kid(m, p, kids, j);
        assert kids[j + 1..][0] == kids[j + 1];
        thisJet := m[thisJet].sibling;
        j := j + 1;
        Kid(m, p, kids, j);
      }
      Kid(m, p, kids, j);
      assert kids[j + 1..][0] == kids[j + 1];
      RootsDiffer(kids, j + 1, k);
    }

    method ReleaseAll(jet: Ptr, has: Ptr -> bool, ghost root: Tree) returns (called: seq<Ptr>)
      requires root.ptr == jet && Shaped(m, root) && Distinct(Post(root))
      modifies this
      ensures called == Where(has, Post(root))
      ensures m == old(m) - Members(Post(root))
    {
      called := [];
      ghost var log: seq<Ptr>, stack: seq<Frame>, t, all := [], [], root, Post(root);
      var thisJet := jet;
      assert PostAt(m, jet, t, stack, log, all);
      assert Where(has, log) == called;
      assert m == m - Members([]);
      AtLeaf(m, t);
      hide *;
      while thisJet != NULL
        invariant called == Where(has, log) && |log| <= |all|
        invariant m == old(m) - Members(log)
        invariant thisJet == NULL ==> log == all
        invariant thisJet != NULL ==> t.ptr == thisJet && PostAt(m, jet, t, stack, log, all)
        decreases |all| - |log|, thisJet
      {
        ghost var before := |log|;
        PostShaped(m, jet, t, stack, log, all);
        while m[thisJet].child != NULL
          invariant m == old(m) - Members(log)
          invariant t.ptr == thisJet && thisJet in m && PostAt(m, jet, t, stack, log, all)
          decreases t
        {
          PostShaped(m, jet, t, stack, log, all);
          AtLeaf(m, t);
          PostDown(m, jet, t, stack, log, all);
          thisJet := m[thisJet].child;
          stack, t := stack + [Frame(t.ptr, t.kids[1..])], t.kids[0];
          PostShaped(m, jet, t, stack, log, all);
        }
        PostShaped(m, jet, t, stack, log, all);
        AtLeaf(m, t);
        PostVisit(m, jet, t, stack, log, all);
        var parent, sibling := m[thisJet].parent, m[thisJet].sibling;
        WhereSnoc(has, log, thisJet);
        MembersSnoc(old(m), log, thisJet);
        if has(thisJet) { called := called + [thisJet]; }
        log := log + [thisJet];
        PostRelease(m, jet, thisJet, parent, sibling, stack, log, all);
        m := m - {thisJet};

        while thisJet != jet && sibling == NULL
          invariant |log| > before && called == Where(has, log)
          invariant m == old(m) - Members(log)
          invariant PostDone(m, jet, thisJet, parent, sibling, stack, log, all)
          decreases |stack|
        {
          PostUp(m, jet, thisJet, parent, sibling, stack, log, all);
          thisJet := parent;
          parent, sibling := m[thisJet].parent, m[thisJet].sibling;
          WhereSnoc(has, log, thisJet);
          MembersSnoc(old(m), log, thisJet);
          if has(thisJet) { called := called + [thisJet]; }
          stack, log := stack[..|stack| - 1], log + [thisJet];
          PostRelease(m, jet, thisJet, parent, sibling, stack, log, all);
          m := m - {thisJet};
        }

        PostBounds(m, jet, thisJet, parent, sibling, stack, log, all);
        if thisJet != jet {
          PostRight(m, jet, thisJet, parent, sibling, stack, log, all);
          thisJet := sibling;
          ghost var f := stack[|stack| - 1];
          stack, t := stack[..|stack| - 1] + [Frame(f.ptr, f.later[1..])], f.later[0];
        } else {
          PostEnd(m, jet, thisJet, parent, sibling, stack, log, all);
          thisJet := NULL;
        }
      }
    }

    /** The first pass of realization: the class procedures are called in postorder. */
    method PreRealizeJet(jet: Ptr, has: Ptr -> bool, ghost root: Tree) returns (called: seq<Ptr>)
      requires root.ptr == jet && Shaped(m, root) && Distinct(Post(root))
      ensures called == Where(has, Post(root))
    {
      called := [];
      ghost var log: seq<Ptr>, stack: seq<Frame>, t, all := [], [], root, Post(root);
      var thisJet := jet;
      assert PostAt(m, jet, t, stack, log, all);
      assert Where(has, log) == called;
      AtLeaf(m, t);
      hide *;
      while thisJet != NULL
        invariant called == Where(has, log) && |log| <= |all|
        invariant thisJet == NULL ==> log == all
        invariant thisJet != NULL ==> t.ptr == thisJet && Shaped(m, t) && PostAt(m, jet, t, stack, log, all)
        decreases |all| - |log|, thisJet
      {
        ghost var before := |log|;
        AtLeaf(m, t);
        while m[thisJet].child != NULL
          invariant t.ptr == thisJet && thisJet in m && Shaped(m, t) && PostAt(m, jet, t, stack, log, all)
          decreases t
        {
          AtLeaf(m, t);
          PostDown(m, jet, t, stack, log, all);
          thisJet := m[thisJet].child;
          stack, t := stack + [Frame(t.ptr, t.kids[1..])], t.kids[0];
          PostShaped(m, jet, t, stack, log, all);
        }
        AtLeaf(m, t);
        PostVisit(m, jet, t, stack, log, all);
        WhereSnoc(has, log, thisJet);
        if has(thisJet) { called := called + [thisJet]; }
        log := log + [thisJet];

        while thisJet != jet && m[thisJet].sibling == NULL
          invariant |log| > before && called == Where(has, log) && thisJet in m
          invariant PostDone(m, jet, thisJet, m[thisJet].parent, m[thisJet].sibling, stack, log, all)
          decreases |stack|
        {
          PostUp(m, jet, thisJet, m[thisJet].parent, m[thisJet].sibling, stack, log, all);
          thisJet := m[thisJet].parent;
          WhereSnoc(has, log, thisJet);
          if has(thisJet) { called := called + [thisJet]; }
          stack, log := stack[..|stack| - 1], log + [thisJet];
        }

        PostBounds(m, jet, thisJet, m[thisJet].parent, m[thisJet].sibling, stack, log, all);
        if thisJet != jet {
          PostRight(m, jet, thisJet, m[thisJet].parent, m[thisJet].sibling, stack, log, all);
          thisJet := m[thisJet].sibling;
          ghost var f := stack[|stack| - 1];
          stack, t := stack[..|stack| - 1] + [Frame(f.ptr, f.later[1..])], f.later[0];
          PostShaped(m, jet, t, stack, log, all);
        } else {
          PostEnd(m, jet, thisJet, m[thisJet].parent, m[thisJet].sibling, stack, log, all);
          thisJet := NULL;
        }
      }
    }

    /** A jet takes over its parent's window, unless it creates its own. */
    method Realize(p: Ptr, own: Ptr -> Option<nat>)
      requires p in m && (m[p].parent == NULL || m[p].parent in m)
      modifies this
      ensures p in m && m == old(m)[p := old(m)[p].(window := m[p].window)]
      ensures own(p).Some? ==> m[p].window == own(p).value
      ensures own(p).None? && m[p].parent == NULL ==> m[p].window == old(m)[p].window
      ensures own(p).None? && m[p].parent != NULL ==> m[p].window == old(m)[m[p].parent].window
    {
      if m[p].parent != NULL {
        m := m[p := m[p].(window := m[m[p].parent].window)];
      }
      if own(p).Some? {
        m := m[p := m[p].(window := own(p).value)];
      }
    }

    method RealizeAll(jet: Ptr, realizes: Ptr -> bool, own: Ptr -> Option<nat>, ghost root: Tree)
      returns (realized: seq<Ptr>)
      requires PreAt(m, jet, root, [], [], Pre(root))
      requires root.ptr == jet && jet in m && jet != NULL
      requires forall x :: own(x).Some? ==> realizes(x)
      modifies this
      ensures realized == Where(realizes, Pre(root))
      ensures Rewindowed(old(m), m, Pre(root))
      ensures Settled(m, jet, old(m)[jet].window, own, Pre(root))
    {
      realized := [];
      ghost var log: seq<Ptr>, stack: seq<Frame>, t, all, was := [], [], root, Pre(root), m[jet].window;
      var thisJet := jet;
      assert Where(realizes, log) == realized;
      assert Settled(m, jet, was, own, log);
      hide *;
      while thisJet != NULL
        invariant realized == Where(realizes, log) && |log| <= |all|
        invariant Settled(m, jet, was, own, log)
        invariant Rewindowed(old(m), m, log) && (jet in m && jet !in log ==> m[jet].window == was)
        invariant thisJet == NULL ==> log == all
        invariant thisJet != NULL ==> t.ptr == thisJet && PreAt(m, jet, t, stack, log, all)
        decreases |all| - |log|, thisJet
      {
        NextUnvisited(m, jet, t, stack, log, all);
        ghost var m0 := m;
        Realize(thisJet, own);
        if realizes(thisJet) { realized := realized + [thisJet]; }
        ghost var w := m[thisJet].window;
        SettledStep(m0, jet, was, own, log, thisJet, w);
        RewindowedStep(old(m), m0, log, thisJet, w);
        PreKept(m0, m, jet, t, stack, log, all);
        WhereSnoc(realizes, log, thisJet);
        PreChild(m, jet, t, stack, log, all);

        if m[thisJet].child != NULL {
          PreDown(m, jet, t, stack, log, all);
          log := log + [thisJet];
          thisJet := m[thisJet].child;
          stack, t := stack + [Frame(t.ptr, t.kids[1..])], t.kids[0];
        } else {
          PreVisit(m, jet, t, stack, log, all);
          log := log + [thisJet];
          thisJet, t, stack := Onward(thisJet, jet, t, stack, log, all);
        }
      }
    }

    /** The next record after one without children: its sibling, or that of the nearest ancestor
        that has one. */
    method Onward(p: Ptr, jet: Ptr, ghost t0: Tree, ghost stack0: seq<Frame>, ghost log: seq<Ptr>, ghost all: seq<Ptr>)
      returns (thisJet: Ptr, ghost t: Tree, ghost stack: seq<Frame>)
      requires PreDone(m, jet, p, stack0, log, all)
      ensures thisJet == NULL ==> log == all
      ensures thisJet != NULL ==> t.ptr == thisJet && PreAt(m, jet, t, stack, log, all)
    {
      hide *;
      stack, t, thisJet := stack0, t0, p;
      DoneIn(m, jet, p, stack, log, all);
      if m[thisJet].sibling != NULL {
        PreRight(m, jet, thisJet, stack, log, all);
        thisJet := m[thisJet].sibling;
        ghost var f := stack[|stack| - 1];
        stack, t := stack[..|stack| - 1] + [Frame(f.ptr, f.later[1..])], f.later[0];
      } else {
        stack := Above(m, jet, thisJet, stack, log, all);
        thisJet := m[thisJet].parent;
        while thisJet != NULL
          invariant thisJet == NULL ==> log == all
          invariant thisJet != NULL ==> PreDone(m, jet, thisJet, stack, log, all)
          decreases |stack|, if thisJet == NULL then 0 else 1
        {
          DoneIn(m, jet, thisJet, stack, log, all);
          if m[thisJet].sibling != NULL {
            PreRight(m, jet, thisJet, stack, log, all);
            thisJet := m[thisJet].sibling;
            ghost var f := stack[|stack| - 1];
            stack, t := stack[..|stack| - 1] + [Frame(f.ptr, f.later[1..])], f.later[0];
            break;
          }
          stack := Above(m, jet, thisJet, stack, log, all);
          thisJet := m[thisJet].parent;
        }
      }
    }

    /** Realizing a jet and everything beneath it: first every class is prepared in postorder,
        then every jet is realized in preorder, after it took over its parent's window.  The
        links are as before, in particular those of `jet` itself, which the walk cuts. */
    method RealizeJet(jet: Ptr, prepares: Ptr -> bool, realizes: Ptr -> bool, own: Ptr -> Option<nat>, ghost root: Tree)
      returns (prepared: seq<Ptr>, realized: seq<Ptr>)
      requires root.ptr == jet && Shaped(m, root) && Distinct(Post(root))
      requires forall x :: own(x).Some? ==> realizes(x)
      modifies this
      ensures prepared == Where(prepares, Post(root))
      ensures realized == Where(realizes, Pre(root))
      ensures Rewindowed(old(m), m, Pre(root))
      ensures forall x | x in Pre(root) :: Windowed(m, jet, old(m)[jet].window, own, x)
    {
      AtLeaf(m, root);
      hide Shaped, Distinct, Post, Pre, PreAt, Settled, Rewindowed, Windowed, Where;
      prepared := PreRealizeJet(jet, prepares, root);

      var parentJet, siblingJet := m[jet].parent, m[jet].sibling;
      m := WithLinks(m, jet, NULL, NULL);

      CutRoot(old(m), root);
      realized := RealizeAll(jet, realizes, own, root);
      Restored(old(m), m, root, own);

      m := WithLinks(m, jet, parentJet, siblingJet);
    }
  }
}
