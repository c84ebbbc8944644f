/** What the menu bar of the Xj library (athena/lib/Xj/Menu.c) does for its user: which item a motion
    of the pointer selects or opens, and which procedure a release of the button calls. */
module MenuUse {
  import opened Wrappers
  import opened MenuBar

  // ----- Calls -----

  /** An event calls at most one procedure, and it does exactly when the button is released over a
      selected item that may be called: that item's, by way of the verify procedure of the bar if
      there is one and the item asks for it. */
  lemma CalledIff(c: Setup, es: seq<Event>, e: Event)
    requires Layout(c.info, c.root)
    ensures var before, after := Run(c, Initial(c), es), Run(c, Initial(c), es + [e]).1;
            && (after == before.1 || exists call :: after == before.1 + [call])
            && (forall call :: after == before.1 + [call] <==>
                  e.Release? && before.0.down && before.0.own == SELECTED && call.menu == before.0.deepest && Callable(c, call))
  {
    hide *;
    var v := Run(c, Initial(c), es).0;
    RunKeeps(c, es);
    RunNext(c, es, e);
    CallsOf(c, v, e);
    var calls, more := Run(c, Initial(c), es).1, Step(c, v, e).1;
    assert more != [] ==> more == [more[0]];
    forall call
      ensures calls + more == calls + [call] <==> more == [call]
    {
      assert (calls + more)[|calls|..] == more && (calls + [call])[|calls|..] == [call];
    }
  }

  lemma RunNext(c: Setup, es: seq<Event>, e: Event)
    ensures var before := Run(c, Initial(c), es);
            Run(c, Initial(c), es + [e]) == (Step(c, before.0, e).0, before.1 + Step(c, before.0, e).1)
  {
    hide Step;
    assert (es + [e])[..|es|] == es;
  }

  lemma CallsOf(c: Setup, v: View, e: Event)
    requires Proper(c, v)
    ensures |Step(c, v, e).1| <= 1
    ensures forall call :: Step(c, v, e).1 == [call] <==>
              e.Release? && v.down && v.own == SELECTED && call.menu == v.deepest && Callable(c, call)
  {
    hide Find, Moved;
  }

  // ----- Where items are -----

  /** The point is in the label of item `m`, on the pane of its parent. */
  ghost predicate OnLabel(c: Setup, m: Id, p: Point)
    requires m in c.info && c.info[m].parent in c.info
  {
    var level := c.info[c.info[m].parent];
    var at := Place(c.info, c.root, c.info[m].parent);
    match level.orientation
    case HORIZONTAL =>
      at.x + c.info[m].labelX <= p.x < at.x + c.info[m].labelX + c.info[m].labelWidth && at.y + 1 <= p.y < at.y + level.paneHeight - 2
    case VERTICAL =>
      at.x + 1 <= p.x < at.x + level.paneWidth - 2 && at.y + c.info[m].labelY <= p.y < at.y + c.info[m].labelY + c.info[m].labelHeight
  }

  /** `m` is among the siblings from `first` on. */
  ghost predicate Among(info: Table, first: Id, m: Id)
    decreases first
  {
    first == m || (first in info && info[first].sibling < first && Among(info, info[first].sibling, m))
  }

  /** Item `m` hangs below its parent, and of the items beside it the point is in no other label. */
  ghost predicate AloneAt(c: Setup, m: Id, p: Point) {
    && m in c.info && m != c.root && c.info[m].parent in c.info
    && Among(c.info, c.info[c.info[m].parent].child, m) && OnLabel(c, m, p)
    && forall s | s in c.info && s != m && s != c.root && c.info[s].parent == c.info[m].parent :: !OnLabel(c, s, p)
  }

  lemma {:induction false} FoundAmong(c: Setup, first: Id, m: Id, p: Point)
    requires Layout(c.info, c.root) && AloneAt(c, m, p) && Among(c.info, first, m)
    requires first in c.info && first != c.root && c.info[first].parent == c.info[m].parent
    ensures var level := c.info[m].parent;
            var at := Place(c.info, c.root, level);
            ItemAt(c.info, level, first, p.x - at.x, p.y - at.y) == m
    decreases first
  {
    hide Layout, Place;
    Node(c.info, c.root, first);
    if first != m {
      Node(c.info, c.root, c.root);
      FoundAmong(c, c.info[first].sibling, m, p);
    }
  }

  /** What the item under the point should become: on the bar it opens if it has a menu of its own
      and is not for help; in a pane it is selected left of the mark for opening, and right of it
      it opens if it has a menu to open. */
  function WhatFor(c: Setup, m: Id, p: Point): Status
    requires m in c.info && c.info[m].parent in c.info
  {
    var level, i := c.info[c.info[m].parent], c.info[m];
    if level.orientation == HORIZONTAL then (if i.child != NULL && i.paneType != HELP then OPENED else SELECTED)
    else if p.x < Place(c.info, c.root, c.info[m].parent).x + level.paneOpenX then SELECTED
    else if i.child != NULL && (i.paneType == HELP ==> c.showHelp) then OPENED
    else CLOSED
  }

  lemma FoundAtLevel(c: Setup, m: Id, p: Point)
    requires Layout(c.info, c.root) && AloneAt(c, m, p)
    ensures AtLevel(c.info, c.root, c.showHelp, c.info[m].parent, p) == Item(m, WhatFor(c, m, p))
  {
    hide *;
    InTree(c, m, p);
    FirstBeside(c, m);
    var level := c.info[m].parent;
    WantedIs(c, m, p);
    FoundAmong(c, c.info[level].child, m, p);
    AtLevelIs(c, level, p);
  }

  lemma FirstBeside(c: Setup, m: Id)
    requires Layout(c.info, c.root) && m in c.info && m != c.root && c.info[m].parent in c.info
    ensures var first := c.info[c.info[m].parent].child;
            m != NULL && first in c.info && first != c.root && c.info[first].parent == c.info[m].parent
  {
    hide Layout;
    Node(c.info, c.root, m);
    Node(c.info, c.root, c.info[m].parent);
  }

  lemma WantedIs(c: Setup, m: Id, p: Point)
    requires m in c.info && c.info[m].parent in c.info
    ensures var level := c.info[m].parent;
            Wanted(c.info[level], c.info[m], p.x - Place(c.info, c.root, level).x, c.showHelp) == WhatFor(c, m, p)
  {
    hide Place;
  }

  /** The point is in no open pane below `level`. */
  ghost predicate NothingDeeper(c: Setup, v: View, level: Id, p: Point) {
    forall k | k in c.info && k != level && Above(c.info, level, k) && Above(c.info, k, v.deepest) && IsOpen(v, k) ::
      AtLevel(c.info, c.root, c.showHelp, k, p) == Nowhere
  }

  lemma {:induction false} FoundFrom(c: Setup, v: View, start: Id, m: Id, p: Point)
    requires Layout(c.info, c.root) && AloneAt(c, m, p) && start in c.info
    requires Above(c.info, c.info[m].parent, start) && Above(c.info, start, v.deepest) && IsOpen(v, c.info[m].parent)
    requires NothingDeeper(c, v, c.info[m].parent, p)
    ensures FindFrom(c.info, c.root, c.showHelp, v, start, p) == Item(m, WhatFor(c, m, p))
    decreases start
  {
    hide Layout, Place, AtLevel, AloneAt, WhatFor, IsOpen;
    FoundAtLevel(c, m, p);
    Node(c.info, c.root, start);
    InTree(c, m, p);
    var level := c.info[m].parent;
    if start != level {
      var up := c.info[start].parent;
      assert Above(c.info, up, up) && Above(c.info, up, start);
      AboveTransitive(c.info, up, start, v.deepest);
      FoundFrom(c, v, up, m, p);
    }
  }

  lemma InTree(c: Setup, m: Id, p: Point)
    requires AloneAt(c, m, p)
    ensures m in c.info && m != c.root && c.info[m].parent in c.info && Among(c.info, c.info[c.info[m].parent].child, m)
  {
  }

  /** Moving the pointer with the button down over an item of an open menu makes it the deepest: it
      stays open if it is above what was the deepest, and otherwise becomes what its place says. */
  lemma Hover(c: Setup, v: View, m: Id, p: Point)
    requires Layout(c.info, c.root) && Proper(c, v) && v.down && AloneAt(c, m, p)
    requires Above(c.info, c.info[m].parent, v.deepest) && IsOpen(v, c.info[m].parent) && NothingDeeper(c, v, c.info[m].parent, p)
    ensures Step(c, v, Motion(Some(p))) ==
            (v.(deepest := m, own := if m != v.deepest && Above(c.info, m, v.deepest) then OPENED else WhatFor(c, m, p),
                inside := true, same := false), [])
  {
    hide Layout, Place, WhatFor, AloneAt, NothingDeeper;
    AboveItself(c.info, v.deepest);
    FoundFrom(c, v, v.deepest, m, p);
  }

  lemma DeepestOnly(c: Setup, v: View, p: Point)
    requires Layout(c.info, c.root)
    ensures NothingDeeper(c, v, v.deepest, p) && Above(c.info, v.deepest, v.deepest)
  {
    hide Layout, Place, AtLevel;
    forall k | k in c.info && k != v.deepest && Above(c.info, v.deepest, k) && Above(c.info, k, v.deepest)
      ensures false
    {
      AboveSmaller(c.info, v.deepest, k);
      AboveSmaller(c.info, k, v.deepest);
    }
  }

  // ----- Pulling a menu down -----

  /** Item `k` of a horizontal bar has a vertical menu of its own, and `m` is an item of it. */
  ghost predicate PullsDown(c: Setup, k: Id, m: Id) {
    && c.root in c.info && k in c.info && m in c.info && k != c.root && m != c.root
    && c.info[k].parent == c.root && c.info[m].parent == k
    && c.info[c.root].orientation == HORIZONTAL && c.info[k].orientation == VERTICAL && c.info[k].paneType != HELP
  }

  /** The pane of an item of the bar is below the bar, from the left edge of its label on. */
  lemma PaneBelowBar(c: Setup, k: Id, m: Id)
    requires Layout(c.info, c.root) && PullsDown(c, k, m)
    ensures Place(c.info, c.root, c.root) == Point(0, 0)
    ensures Place(c.info, c.root, k) == Point(c.info[k].labelX, c.info[c.root].paneHeight)
    ensures c.info[k].child != NULL
  {
    hide Layout;
    Node(c.info, c.root, k);
    Node(c.info, c.root, m);
    PlaceStep(c.info, c.root, k);
  }

  /** Press the button over an item of the bar, move to an item of the menu that opens, left of the
      mark for opening deeper ones: that item is selected, whatever the sizes and places. */
  lemma PulledDown(c: Setup, k: Id, m: Id, down: Point, over: Point)
    requires Layout(c.info, c.root) && PullsDown(c, k, m) && AloneAt(c, k, down) && AloneAt(c, m, over)
    requires over.x < c.info[k].labelX + c.info[k].paneOpenX
    ensures Run(c, Initial(c), [Press(false, Some(down)), Motion(Some(over))]) ==
            (View(m, SELECTED, true, false, true, c.rude), [])
  {
    hide *;
    Opened(c, k, m, down);
    var v := View(k, OPENED, true, false, true, c.rude);
    Selected(c, k, m, over);
    Two(c, Press(false, Some(down)), Motion(Some(over)), v, View(m, SELECTED, true, false, true, c.rude));
  }

  lemma Opened(c: Setup, k: Id, m: Id, down: Point)
    requires Layout(c.info, c.root) && PullsDown(c, k, m) && AloneAt(c, k, down)
    ensures Step(c, Initial(c), Press(false, Some(down))) == (View(k, OPENED, true, false, true, c.rude), [])
  {
    var v := Initial(c).(down := true, grabbed := c.rude);
    PaneBelowBar(c, k, m);
    DeepestOnly(c, v, down);
    NotAbove(c, k, c.root);
    assert WhatFor(c, k, down) == OPENED;
    hide Layout, Place, AloneAt, NothingDeeper, WhatFor, Above;
    assert Proper(c, v);
    Hover(c, v, k, down);
    hide Find;
  }

  lemma Selected(c: Setup, k: Id, m: Id, over: Point)
    requires Layout(c.info, c.root) && PullsDown(c, k, m) && AloneAt(c, m, over)
    requires over.x < c.info[k].labelX + c.info[k].paneOpenX
    ensures Step(c, View(k, OPENED, true, false, true, c.rude), Motion(Some(over))) ==
            (View(m, SELECTED, true, false, true, c.rude), [])
  {
    var v := View(k, OPENED, true, false, true, c.rude);
    PaneBelowBar(c, k, m);
    DeepestOnly(c, v, over);
    NotAbove(c, m, k);
    assert WhatFor(c, m, over) == SELECTED;
    hide Layout, Place, AloneAt, NothingDeeper, WhatFor, Above;
    assert Proper(c, v);
    Hover(c, v, m, over);
  }

  lemma Two(c: Setup, e: Event, f: Event, v: View, u: View)
    requires Step(c, Initial(c), e) == (v, []) && Step(c, v, f) == (u, [])
    ensures Run(c, Initial(c), [e, f]) == (u, [])
  {
    assert Run(c, Initial(c), []) == (Initial(c), []);
    hide *;
    RunNext(c, [], e);
    RunNext(c, [e], f);
    assert [] + [e] == [e] && [e] + [f] == [e, f];
  }

  /** Releasing the button then, wherever the pointer is, calls the item's procedure, if it is
      supported and has one, and closes everything. */
  lemma PullDownAndRelease(c: Setup, k: Id, m: Id, down: Point, over: Point, at: Option<Point>)
    requires Layout(c.info, c.root) && PullsDown(c, k, m) && AloneAt(c, k, down) && AloneAt(c, m, over)
    requires over.x < c.info[k].labelX + c.info[k].paneOpenX
    ensures var r := Run(c, Initial(c), [Press(false, Some(down)), Motion(Some(over)), Release(at)]);
            && r.0 == Initial(c)
            && r.1 == if c.info[m].supported && c.info[m].activates
                      then [if c.verifies && c.info[m].verify then Verify(m) else Activate(m)] else []
  {
    hide *;
    PulledDown(c, k, m, down, over);
    var es := [Press(false, Some(down)), Motion(Some(over))];
    RunNext(c, es, Release(at));
    ReleaseOver(c, k, m, at);
    assert es + [Release(at)] == [Press(false, Some(down)), Motion(Some(over)), Release(at)];
  }

  lemma ReleaseOver(c: Setup, k: Id, m: Id, at: Option<Point>)
    requires PullsDown(c, k, m)
    ensures Step(c, View(m, SELECTED, true, false, true, c.rude), Release(at)) ==
            (Initial(c), if c.info[m].supported && c.info[m].activates
                         then [if c.verifies && c.info[m].verify then Verify(m) else Activate(m)] else [])
  {
    hide Find;
  }

  /** Moving away from all menus first calls nothing. */
  lemma PullDownAndLeave(c: Setup, k: Id, m: Id, down: Point, over: Point)
    requires Layout(c.info, c.root) && PullsDown(c, k, m) && AloneAt(c, k, down) && AloneAt(c, m, over)
    requires over.x < c.info[k].labelX + c.info[k].paneOpenX
    ensures Run(c, Initial(c), [Press(false, Some(down)), Motion(Some(over)), Motion(None), Release(None)]) == (Initial(c), [])
  {
    hide *;
    PulledDown(c, k, m, down, over);
    var es := [Press(false, Some(down)), Motion(Some(over))];
    LeaveItem(c, k, m);
    RunNext(c, es, Motion(None));
    assert Run(c, Initial(c), es + [Motion(None)]).1 == [];
    RunNext(c, es + [Motion(None)], Release(None));
    assert es + [Motion(None)] + [Release(None)] == [Press(false, Some(down)), Motion(Some(over)), Motion(None), Release(None)];
  }

  lemma LeaveItem(c: Setup, k: Id, m: Id)
    requires PullsDown(c, k, m)
    ensures Step(c, View(m, SELECTED, true, false, true, c.rude), Motion(None)) == (View(k, OPENED, false, false, true, c.rude), [])
    ensures Step(c, View(k, OPENED, false, false, true, c.rude), Release(None)) == (Initial(c), [])
  {
  }
}
