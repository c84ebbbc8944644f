/** The menu bar of the Xj library (athena/lib/Xj/Menu.c): which menus are open while the pointer
    is pressed, moved and released.  X calls are left out, except that a pane is known to exist
    whenever the program draws on it. */
module MenuBar {
  import opened Wrappers

  type Id = nat
  const NULL: Id := 0
  const BORDER := 1
  const SHADOW := 1

  datatype Status = CLOSED | SELECTED | OPENED
  datatype Orientation = HORIZONTAL | VERTICAL
  datatype PaneType = NORMAL | HELP
  datatype Point = Point(x: int, y: int)

  /** What is fixed once the menus were built. */
  datatype Info = Info(
    parent: Id, sibling: Id, child: Id,
    labelX: int, labelY: int, labelWidth: int, labelHeight: int,
    paneWidth: int, paneHeight: int, paneOpenX: int,
    paneType: PaneType, orientation: Orientation,
    supported: bool, activates: bool, verify: bool)

  /** What events change. */
  datatype Menu = Menu(status: Status, pane: bool, pos: Point)

  type Table = map<Id, Info>

  /** A finite tree, its records numbered so that children come after their parents and before
      their elder siblings. */
  ghost predicate Layout(info: Table, root: Id) {
    && NULL !in info && root in info && info[root].parent == NULL
    && (forall m | m in info :: m != root ==> info[m].parent in info && info[m].parent < m)
    && (forall m | m in info :: m != root ==> info[info[m].parent].child != NULL)
    && (forall m | m in info :: info[m].child != NULL ==> info[m].child in info && info[info[m].child].parent == m)
    && (forall m | m in info :: info[m].sibling != NULL ==>
          info[m].sibling in info && info[m].sibling < m && info[info[m].sibling].parent == info[m].parent)
  }

  /** What the layout says of one menu. */
  lemma Node(info: Table, root: Id, m: Id)
    requires Layout(info, root) && m in info
    ensures NULL !in info && root in info && info[root].parent == NULL
    ensures m != root ==> info[m].parent in info && info[m].parent < m && info[info[m].parent].child != NULL
    ensures info[m].child != NULL ==> info[m].child in info && info[info[m].child].parent == m
    ensures info[m].sibling != NULL ==>
              info[m].sibling in info && info[m].sibling < m && info[info[m].sibling].parent == info[m].parent
  {
  }

  /** `a` is `m` or one of its ancestors. */
  ghost predicate Above(info: Table, a: Id, m: Id)
    decreases m
  {
    a == m || (m in info && info[m].parent in info && info[m].parent < m && Above(info, a, info[m].parent))
  }

  lemma {:induction false} AboveSmaller(info: Table, a: Id, m: Id)
    requires Above(info, a, m)
    ensures a <= m
    decreases m
  {
    if a != m { AboveSmaller(info, a, info[m].parent); }
  }

  lemma {:induction false} AboveTransitive(info: Table, a: Id, b: Id, c: Id)
    requires Above(info, a, b) && Above(info, b, c)
    ensures Above(info, a, c)
    decreases c
  {
    if b != c { AboveTransitive(info, a, b, info[c].parent); }
  }

  lemma {:induction false} RootAbove(info: Table, root: Id, m: Id)
    requires Layout(info, root) && m in info
    ensures Above(info, root, m)
    decreases m
  {
    hide Layout;
    Node(info, root, m);
    if m != root { RootAbove(info, root, info[m].parent); }
  }

  // ----- Where panes are and what the pointer is in -----

  /** The place of an open pane relative to the bar. */
  function Place(info: Table, root: Id, m: Id): Point
    decreases m
  {
    if m == root || m !in info || info[m].parent !in info || info[m].parent >= m then Point(0, 0)
    else
      var up, p := Place(info, root, info[m].parent), info[info[m].parent];
      match p.orientation
      case HORIZONTAL => Point(up.x + info[m].labelX, up.y + p.paneHeight)
      case VERTICAL => Point(up.x + p.paneWidth, up.y + info[m].labelY)
  }

  /** The point, relative to the pane of `level`, is in the label of its child `m`. */
  predicate InLabel(level: Info, m: Info, x: int, y: int) {
    match level.orientation
    case HORIZONTAL =>
      m.labelX <= x < m.labelX + m.labelWidth && BORDER <= y < level.paneHeight - BORDER - SHADOW
    case VERTICAL =>
      BORDER <= x < level.paneWidth - BORDER - SHADOW && m.labelY <= y < m.labelY + m.labelHeight
  }

  /** What a label that the pointer is in should become. */
  function Wanted(level: Info, m: Info, x: int, showHelp: bool): Status {
    match level.orientation
    case HORIZONTAL => if m.paneType == HELP || m.child == NULL then SELECTED else OPENED
    case VERTICAL =>
      if x < level.paneOpenX then SELECTED
      else if m.child != NULL && (m.paneType != HELP || showHelp) then OPENED
      else CLOSED
  }

  datatype Found = Nowhere | Same | Item(who: Id, what: Status)

  /** The first of the siblings from `m` on whose label the point is in. */
  ghost function ItemAt(info: Table, level: Id, m: Id, x: int, y: int): Id
    requires level in info
    decreases m
  {
    if m !in info then NULL
    else if InLabel(info[level], info[m], x, y) then m
    else if info[m].sibling < m then ItemAt(info, level, info[m].sibling, x, y)
    else NULL
  }

  /** What of the state matters to the user: the deepest menu and its status, since its strict
      ancestors are open and everything else is closed. */
  datatype View = View(deepest: Id, own: Status, inside: bool, same: bool, down: bool, grabbed: bool)

  predicate IsOpen(v: View, level: Id) { level != v.deepest || v.own == OPENED }

  /** What the point is in at one level. */
  ghost function AtLevel(info: Table, root: Id, showHelp: bool, level: Id, p: Point): Found
    requires level in info
  {
    var at := Place(info, root, level);
    var x, y := p.x - at.x, p.y - at.y;
    var m := ItemAt(info, level, info[level].child, x, y);
    if m in info then Item(m, Wanted(info[level], info[m], x, showHelp))
    else if 0 <= x < info[level].paneWidth && 0 <= y < info[level].paneHeight then Same
    else Nowhere
  }

  /** The deepest open level from `level` on upwards that the point is in decides. */
  ghost function FindFrom(info: Table, root: Id, showHelp: bool, v: View, level: Id, p: Point): Found
    decreases level
  {
    if level !in info then Nowhere
    else
      var here := if IsOpen(v, level) then AtLevel(info, root, showHelp, level, p) else Nowhere;
      if here != Nowhere then here
      else if info[level].parent < level then FindFrom(info, root, showHelp, v, info[level].parent, p)
      else Nowhere
  }

  ghost function Find(info: Table, root: Id, showHelp: bool, v: View, at: Option<Point>): Found {
    match at
    case None => Nowhere
    case Some(p) => FindFrom(info, root, showHelp, v, v.deepest, p)
  }

  lemma {:induction false} ItemAtMeaning(info: Table, root: Id, level: Id, m: Id, x: int, y: int)
    requires Layout(info, root) && level in info
    requires m != NULL ==> m in info && info[m].parent == level
    ensures var r := ItemAt(info, level, m, x, y);
            r == NULL || (r in info && r != root && info[r].parent == level && InLabel(info[level], info[r], x, y))
    decreases m
  {
    hide Layout;
    Node(info, root, level);
    if m in info { Node(info, root, m); }
    if m in info && !InLabel(info[level], info[m], x, y) && info[m].sibling != NULL {
      ItemAtMeaning(info, root, level, info[m].sibling, x, y);
    }
  }

  lemma AtLevelShape(info: Table, root: Id, showHelp: bool, level: Id, p: Point)
    requires Layout(info, root) && level in info
    ensures var f := AtLevel(info, root, showHelp, level, p);
            f.Item? ==> && f.who in info && f.who != root && info[f.who].parent == level
                        && (f.what == OPENED ==> info[f.who].child != NULL)
  {
    hide Layout, ItemAt, InLabel, Place;
    Node(info, root, level);
    var at := Place(info, root, level);
    ItemAtMeaning(info, root, level, info[level].child, p.x - at.x, p.y - at.y);
  }

  /** An item that is found hangs below an open level on the chain, the deepest one the point is
      in; nothing is found only if the point is in no open level. */
  lemma {:induction false} FindFromMeaning(info: Table, root: Id, showHelp: bool, v: View, level: Id, p: Point)
    requires Layout(info, root) && level in info
    ensures var f := FindFrom(info, root, showHelp, v, level, p);
            && (f.Nowhere? ==> forall l | l in info && Above(info, l, level) ::
                  IsOpen(v, l) ==> AtLevel(info, root, showHelp, l, p) == Nowhere)
            && (!f.Nowhere? ==> exists l | l in info && Above(info, l, level) ::
                  && IsOpen(v, l) && AtLevel(info, root, showHelp, l, p) == f
                  && forall k | k in info && Above(info, k, level) && Above(info, l, k) && k != l ::
                       IsOpen(v, k) ==> AtLevel(info, root, showHelp, k, p) == Nowhere)
    decreases level
  {
    var f := FindFrom(info, root, showHelp, v, level, p);
    hide AtLevel, Layout;
    Node(info, root, level);
    if IsOpen(v, level) && AtLevel(info, root, showHelp, level, p) != Nowhere {
      forall k | k in info && Above(info, k, level) && Above(info, level, k)
        ensures k == level
      {
        AboveSmaller(info, k, level);
        AboveSmaller(info, level, k);
      }
    } else if level != root {
      var up := info[level].parent;
      FindFromMeaning(info, root, showHelp, v, up, p);
    }
  }

  /** The shape of the answer. */
  lemma FindShape(info: Table, root: Id, showHelp: bool, v: View, at: Option<Point>)
    requires Layout(info, root) && v.deepest in info
    ensures var f := Find(info, root, showHelp, v, at);
            f.Item? ==> && f.who in info && f.who != root
                        && Above(info, info[f.who].parent, v.deepest) && IsOpen(v, info[f.who].parent)
                        && (f.what == OPENED ==> info[f.who].child != NULL)
  {
    var f := Find(info, root, showHelp, v, at);
    if f.Item? {
      FindFromMeaning(info, root, showHelp, v, v.deepest, at.value);
      var l :| l in info && Above(info, l, v.deepest) && IsOpen(v, l) && AtLevel(info, root, showHelp, l, at.value) == f;
      AtLevelShape(info, root, showHelp, l, at.value);
    }
  }

  // ----- The machine as a user sees it -----

  /** The pointer was found at `f` with the button down. */
  ghost function Moved(info: Table, v: View, f: Found): View {
    match f
    case Same => v.(same := true)
    case Nowhere =>
      if !v.inside || v.deepest !in info then v.(same := false)
      else v.(same := false, deepest := info[v.deepest].parent, own := OPENED, inside := false)
    case Item(m, what) =>
      var own := if m != v.deepest && Above(info, m, v.deepest) then OPENED else what;
      v.(same := false, deepest := m, own := own, inside := true)
  }

  datatype Call = Verify(menu: Id) | Activate(menu: Id)

  /** What releasing the button over a selected item calls. */
  ghost function CallFor(info: Table, v: View, verifies: bool): seq<Call> {
    if v.deepest !in info || v.own != SELECTED then []
    else
      var m := info[v.deepest];
      if m.parent in info && info[m.parent].paneType == HELP then []
      else if !(m.supported && m.activates) then []
      else if verifies && m.verify then [Verify(v.deepest)]
      else [Activate(v.deepest)]
  }

  datatype Event = Press(consumed: bool, at: Option<Point>) | Motion(at: Option<Point>) | Release(at: Option<Point>)

  datatype Setup = Setup(info: Table, root: Id, showHelp: bool, rude: bool, verifies: bool)

  ghost function Step(c: Setup, v: View, e: Event): (View, seq<Call>) {
    match e
    case Press(consumed, at) =>
      if consumed then (v, [])
      else
        var v1 := v.(down := true, grabbed := v.grabbed || (c.rude && !v.down));
        (Moved(c.info, v1, Find(c.info, c.root, c.showHelp, v1, at)), [])
    case Motion(at) =>
      (if v.down then Moved(c.info, v, Find(c.info, c.root, c.showHelp, v, at)) else v, [])
    case Release(at) =>
      if !v.down then (v, [])
      else if v.own == SELECTED || Find(c.info, c.root, c.showHelp, v, at) == Nowhere then
        (View(c.root, OPENED, false, v.same, false, v.grabbed && !c.rude), CallFor(c.info, v, c.verifies))
      else (v.(down := false), [])
  }

  ghost predicate Proper(c: Setup, v: View) {
    && v.deepest in c.info
    && (v.deepest == c.root ==> v.own == OPENED && !v.inside)
    && (!v.inside ==> v.own == OPENED)
    && (v.own == OPENED && v.deepest != c.root ==> c.info[v.deepest].child != NULL)
    && (v.down && c.rude ==> v.grabbed)
    && (v.grabbed ==> c.rude)
  }

  lemma MovedKeeps(c: Setup, v: View, at: Option<Point>)
    requires Layout(c.info, c.root) && Proper(c, v) && v.down
    ensures Proper(c, Moved(c.info, v, Find(c.info, c.root, c.showHelp, v, at)))
  {
    hide Find, Layout, Above, IsOpen;
    var f := Find(c.info, c.root, c.showHelp, v, at);
    FindShape(c.info, c.root, c.showHelp, v, at);
    Node(c.info, c.root, v.deepest);
    match f
    case Same =>
    case Nowhere =>
      if v.inside { UpKeeps(c, v); }
    case Item(m, what) =>
      if m != v.deepest && Above(c.info, m, v.deepest) {
        HasChild(c.info, c.root, m, v.deepest);
      }
  }

  lemma UpKeeps(c: Setup, v: View)
    requires Layout(c.info, c.root) && Proper(c, v) && v.inside
    ensures var up := c.info[v.deepest].parent; up in c.info && (up == c.root || c.info[up].child != NULL)
  {
    hide Layout;
    Node(c.info, c.root, v.deepest);
  }

  lemma {:induction false} HasChild(info: Table, root: Id, a: Id, m: Id)
    requires Layout(info, root) && m in info && Above(info, a, m) && a != m
    ensures a in info && info[a].child != NULL
    decreases m
  {
    hide Layout;
    Node(info, root, m);
    assert info[m].parent != m;
    if info[m].parent != a {
      HasChild(info, root, a, info[m].parent);
    }
  }

  lemma StepKeeps(c: Setup, v: View, e: Event)
    requires Layout(c.info, c.root) && Proper(c, v)
    ensures Proper(c, Step(c, v, e).0)
  {
    hide Moved, Find, CallFor, Layout;
    match e
    case Press(consumed, at) =>
      var v1 := v.(down := true, grabbed := v.grabbed || (c.rude && !v.down));
      MovedKeeps(c, v1, at);
    case Motion(at) =>
      if v.down { MovedKeeps(c, v, at); }
    case Release(at) =>
      RootIn(c);
  }

  lemma RootIn(c: Setup)
    requires Layout(c.info, c.root)
    ensures c.root in c.info
  {
  }

  ghost function Run(c: Setup, v: View, es: seq<Event>): (View, seq<Call>) {
    if es == [] then (v, [])
    else
      var n := |es| - 1;
      var before := Run(c, v, es[..n]);
      var step := Step(c, before.0, es[n]);
      (step.0, before.1 + step.1)
  }

  function Initial(c: Setup): View { View(c.root, OPENED, false, false, false, false) }

  lemma {:induction false} RunKeeps(c: Setup, es: seq<Event>)
    requires Layout(c.info, c.root)
    ensures Proper(c, Run(c, Initial(c), es).0)
    decreases |es|
  {
    if es == [] {
      RootIn(c);
    } else {
      RunKeeps(c, es[..|es| - 1]);
      StepKeeps(c, Run(c, Initial(c), es[..|es| - 1]).0, es[|es| - 1]);
    }
  }

  ghost predicate Callable(c: Setup, call: Call) {
    && call.menu in c.info && call.menu != c.root
    && c.info[call.menu].supported && c.info[call.menu].activates
    && (c.info[call.menu].parent in c.info ==> c.info[c.info[call.menu].parent].paneType != HELP)
    && (call.Verify? <==> c.verifies && c.info[call.menu].verify)
  }

  /** Over every run, only supported items outside help panes are called, and those that ask to be
      verified are never called directly. */
  lemma {:induction false} OnlyCallable(c: Setup, es: seq<Event>)
    requires Layout(c.info, c.root)
    ensures forall k | k in Run(c, Initial(c), es).1 :: Callable(c, k)
    decreases |es|
  {
    if es != [] {
      var n := |es| - 1;
      var before := Run(c, Initial(c), es[..n]);
      OnlyCallable(c, es[..n]);
      RunKeeps(c, es[..n]);
      CallsOfStep(c, before.0, es[n]);
      hide Layout, Step, Callable, Proper;
    }
  }

  lemma CallsOfStep(c: Setup, v: View, e: Event)
    requires Proper(c, v)
    ensures forall k | k in Step(c, v, e).1 :: Callable(c, k)
  {
    hide Find, Moved;
  }

  /** A button released outside of all menus, or over a selected item, leaves the bar as it was
      realized, but for the memory of the last motion. */
  lemma ReleaseCloses(c: Setup, es: seq<Event>, at: Option<Point>)
    requires Layout(c.info, c.root)
    requires var v := Run(c, Initial(c), es).0;
             v.down && (v.own == SELECTED || Find(c.info, c.root, c.showHelp, v, at) == Nowhere)
    ensures var v := Run(c, Initial(c), es + [Release(at)]).0;
            v == Initial(c).(same := v.same)
  {
    hide Find, Layout, Moved, CallFor;
    RunKeeps(c, es);
    RunSnoc(c, es, Release(at));
    hide Run;
  }

  lemma RunSnoc(c: Setup, es: seq<Event>, e: Event)
    ensures Run(c, Initial(c), es + [e]).0 == Step(c, Run(c, Initial(c), es).0, e).0
  {
    hide Step;
    assert (es + [e])[..|es|] == es;
  }

  // ----- The records as events leave them -----

  /** The records show the view whose deepest menu is `d`: a pane exists exactly where a menu is
      open, and it is in its place. */
  ghost predicate Shows(c: Setup, menus: map<Id, Menu>, d: Id) {
    && menus.Keys == c.info.Keys
    && forall m | m in menus :: MenuShows(c, menus[m], m, d)
  }

  ghost predicate MenuShows(c: Setup, menu: Menu, m: Id, d: Id) {
    && (m != d && Above(c.info, m, d) ==> menu.status == OPENED)
    && (!Above(c.info, m, d) ==> menu.status == CLOSED)
    && (menu.pane <==> menu.status == OPENED)
    && (menu.pane ==> menu.pos == Place(c.info, c.root, m))
  }

  /** Closing the deepest menu leaves its parent as the deepest. */
  lemma CloseShows(c: Setup, menus: map<Id, Menu>, d: Id, closed: Menu)
    requires Layout(c.info, c.root) && Shows(c, menus, d) && d in c.info && d != c.root
    requires closed.status == CLOSED && !closed.pane
    ensures c.info[d].parent in c.info && c.info[d].parent < d
    ensures Shows(c, menus[d := closed], c.info[d].parent)
    ensures menus[d := closed][c.info[d].parent].status == OPENED
  {
    hide Layout, Place;
    Node(c.info, c.root, d);
    var up := c.info[d].parent;
    assert Above(c.info, up, up) && Above(c.info, up, d);
    var menus' := menus[d := closed];
    assert MenuShows(c, menus[up], up, d);
    forall m | m in menus'
      ensures MenuShows(c, menus'[m], m, up)
    {
      assert m in menus ==> MenuShows(c, menus[m], m, d);
      if m == d && Above(c.info, d, up) {
        AboveSmaller(c.info, d, up);
      }
    }
  }

  /** Changing the status of the deepest menu. */
  lemma ChangeShows(c: Setup, menus: map<Id, Menu>, d: Id, menu: Menu)
    requires Shows(c, menus, d) && d in c.info
    requires MenuShows(c, menu, d, d)
    ensures Shows(c, menus[d := menu], d)
  {
    hide MenuShows;
    var menus' := menus[d := menu];
    forall m | m in menus'
      ensures MenuShows(c, menus'[m], m, d)
    {
      assert m in menus ==> MenuShows(c, menus[m], m, d);
    }
  }

  /** A child of the deepest menu, which is open, becomes the deepest. */
  lemma DeeperShows(c: Setup, menus: map<Id, Menu>, d: Id, m: Id)
    requires Layout(c.info, c.root) && Shows(c, menus, d)
    requires m in c.info && m != c.root && c.info[m].parent == d && d in menus && menus[d].status == OPENED
    ensures m in menus && menus[m].status == CLOSED && Shows(c, menus, m)
  {
    hide Layout, Place;
    Node(c.info, c.root, m);
    if Above(c.info, m, d) { AboveSmaller(c.info, m, d); }
    assert MenuShows(c, menus[m], m, d);
    forall k | k in menus
      ensures MenuShows(c, menus[k], k, m)
    {
      assert MenuShows(c, menus[k], k, d);
    }
  }

  /** Where closing menus from `start` up to the level of `end` stops. */
  ghost function Stop(c: Setup, start: Id, end: Id): Id
    requires end in c.info
  {
    if Above(c.info, end, start) then end else c.info[end].parent
  }

  class Bar {
    const c: Setup
    var menus: map<Id, Menu>
    var deepestOpened: Id
    var inside: bool
    var same: bool
    var buttonDown: bool
    var grabbed: bool

    ghost predicate Valid()
      reads this
    {
      && Layout(c.info, c.root) && deepestOpened in c.info
      && Shows(c, menus, deepestOpened)
      && Proper(c, Now())
    }

    ghost function Now(): View
      requires deepestOpened in menus
      reads this
    {
      View(deepestOpened, menus[deepestOpened].status, inside, same, buttonDown, grabbed)
    }

    /** A bar that was just realized. */
    constructor (setup: Setup)
      requires Layout(setup.info, setup.root)
      ensures Valid() && c == setup && Now() == Initial(setup)
    {
      hide Layout;
      RootIn(setup);
      c := setup;
      menus := (map m | m in setup.info :: Menu(CLOSED, false, Point(0, 0)))[setup.root := Menu(OPENED, true, Point(0, 0))];
      deepestOpened := setup.root;
      inside, same, buttonDown, grabbed := false, false, false, false;
      new;
      InitiallyShows(c, menus);
      hide Shows, Above;
    }

    method CloseMenu(m: Id)
      requires m in menus
      modifies this`menus
      ensures menus == old(menus)[m := old(menus)[m].(pane := false)]
    {
      if menus[m].pane {
        menus := menus[m := menus[m].(pane := false)];
      }
    }

    /** The pane appears beside or beneath that of the parent, which must exist. */
    method OpenMenu(m: Id)
      requires Layout(c.info, c.root) && m in c.info && m != c.root
      requires m in menus && c.info[m].parent in menus
      requires menus[c.info[m].parent].pane && menus[c.info[m].parent].pos == Place(c.info, c.root, c.info[m].parent)
      requires c.info[m].child != NULL && !menus[m].pane
      modifies this`menus
      ensures menus == old(menus)[m := old(menus)[m].(pane := true, pos := Place(c.info, c.root, m))]
    {
      hide Layout, Place;
      PlaceStep(c.info, c.root, m);
      var parent := c.info[m].parent;
      var up, p := menus[parent].pos, c.info[parent];
      match p.orientation {
        case HORIZONTAL =>
          menus := menus[m := menus[m].(pane := true, pos := Point(up.x + c.info[m].labelX, up.y + p.paneHeight))];
        case VERTICAL =>
          menus := menus[m := menus[m].(pane := true, pos := Point(up.x + p.paneWidth, up.y + c.info[m].labelY))];
      }
    }

    /** A menu is highlighted on its parent's pane, which must exist, and opened or closed. */
    method SetMenu(m: Id, newState: Status)
      requires Layout(c.info, c.root) && m in c.info && m != c.root
      requires m in menus && c.info[m].parent in menus
      requires menus[c.info[m].parent].pane && menus[c.info[m].parent].pos == Place(c.info, c.root, c.info[m].parent)
      requires MenuShows(c, menus[m], m, m)
      requires newState == OPENED ==> c.info[m].child != NULL
      modifies this`menus
      ensures m in menus && menus == old(menus)[m := menus[m]]
      ensures menus[m].status == newState && MenuShows(c, menus[m], m, m)
    {
      hide Layout, Place;
      match newState {
        case CLOSED =>
          if menus[m].status == OPENED { CloseMenu(m); }
          menus := menus[m := menus[m].(status := CLOSED)];
        case SELECTED =>
          if menus[m].status == OPENED { CloseMenu(m); }
          menus := menus[m := menus[m].(status := SELECTED)];
        case OPENED =>
          if menus[m].status != OPENED { OpenMenu(m); }
          menus := menus[m := menus[m].(status := OPENED)];
      }
    }

    /** Every menu from `start` up to the level of `end` is closed: the walk upwards ends. */
    method CloseMenuAndAncestorsToLevel(start: Id, end: Id)
      requires Layout(c.info, c.root) && Shows(c, menus, start) && start in c.info && end in c.info
      requires end == c.root || Above(c.info, c.info[end].parent, start)
      modifies this`menus
      ensures Stop(c, start, end) in menus && Shows(c, menus, Stop(c, start, end))
      ensures Stop(c, start, end) == start ==> menus == old(menus)
      ensures Stop(c, start, end) != start ==> menus[Stop(c, start, end)].status == OPENED
    {
      hide Layout, Place, Shows, MenuShows, Above, Stop;
      ghost var stop := Stop(c, start, end);
      StopAbove(c, start, end);
      AboveItself(c.info, start);
      Keys(c, menus, start);
      var ptr := start;
      while ptr != end && ptr != c.info[end].parent
        invariant ptr in c.info && menus.Keys == c.info.Keys && Shows(c, menus, ptr)
        invariant Above(c.info, stop, ptr) && Above(c.info, ptr, start)
        invariant ptr == start ==> menus == old(menus)
        invariant ptr != start ==> ptr < start && menus[ptr].status == OPENED
        decreases ptr
      {
        NotYet(c, start, end, ptr);
        Readable(c, menus, ptr);
        ghost var before := menus;
        SetMenu(ptr, CLOSED);
        Unpaned(c, menus[ptr], ptr);
        CloseShows(c, before, ptr, menus[ptr]);
        ptr := c.info[ptr].parent;
      }
      AtStop(c, start, end, ptr);
    }

    /** The first child of `level` whose label the point is in. */
    method FirstItem(level: Id, x: int, y: int) returns (ptr: Id)
      requires Layout(c.info, c.root) && level in c.info
      ensures ptr == ItemAt(c.info, level, c.info[level].child, x, y)
    {
      hide Layout, InLabel;
      Node(c.info, c.root, level);
      ptr := c.info[level].child;
      while ptr != NULL && !InLabel(c.info[level], c.info[ptr], x, y)
        invariant ptr == NULL || ptr in c.info
        invariant ItemAt(c.info, level, ptr, x, y) == ItemAt(c.info, level, c.info[level].child, x, y)
        decreases ptr
      {
        Node(c.info, c.root, ptr);
        ptr := c.info[ptr].sibling;
      }
    }

    /** What the pointer is in. */
    method FindMenu(at: Option<Point>) returns (f: Found)
      requires Valid()
      ensures f == Find(c.info, c.root, c.showHelp, Now(), at)
    {
      hide Layout, Place, ItemAt, Shows, MenuShows, AtLevel, Proper, Above, IsOpen, FindFrom, Wanted;
      Keys(c, menus, deepestOpened);
      if at == None { return Nowhere; }
      ghost var v, d := Now(), deepestOpened;
      var level := deepestOpened;
      AboveItself(c.info, d);
      while level != NULL
        invariant level != NULL ==> level in c.info && Above(c.info, level, d)
        invariant FindFrom(c.info, c.root, c.showHelp, v, level, at.value) == Find(c.info, c.root, c.showHelp, v, at)
        decreases level
      {
        LevelShows(c, menus, v, level);
        ParentAbove(c, level, d);
        FindStep(c, v, level, at.value);
        if menus[level].status == OPENED {
          var x, y := at.value.x - menus[level].pos.x, at.value.y - menus[level].pos.y;
          var ptr := FirstItem(level, x, y);
          AtLevelIs(c, level, at.value);
          if ptr != NULL {
            return Item(ptr, Wanted(c.info[level], c.info[ptr], x, c.showHelp));
          }
          if 0 <= x < c.info[level].paneWidth && 0 <= y < c.info[level].paneHeight {
            return Same;
          }
        }
        level := c.info[level].parent;
      }
      FindNull(c, v, at.value);
      return Nowhere;
    }

    /** The pointer moved while the button is down. */
    method MotionNotify(at: Option<Point>)
      requires Valid() && buttonDown
      modifies this
      ensures Valid() && Now() == Moved(c.info, old(Now()), Find(c.info, c.root, c.showHelp, old(Now()), at))
    {
      hide Layout, Place, Shows, MenuShows, Above, Find;
      Keys(c, menus, deepestOpened);
      ghost var v := Now();
      var f := FindMenu(at);
      FindShape(c.info, c.root, c.showHelp, v, at);
      MovedKeeps(c, v, at);
      if f == Same {
        same := true;
        return;
      }
      same := false;
      if f == Nowhere {
        if !inside { return; }
        Readable(c, menus, deepestOpened);
        ghost var before := menus;
        SetMenu(deepestOpened, CLOSED);
        Unpaned(c, menus[deepestOpened], deepestOpened);
        CloseShows(c, before, deepestOpened, menus[deepestOpened]);
        deepestOpened := c.info[deepestOpened].parent;
        inside := false;
        return;
      }
      var m, newState := f.who, f.what;
      if !inside {
        if m == deepestOpened {
          if menus[m].status != newState { SetDeepest(newState); }
          inside := true;
          return;
        }
        inside := true;
      }
      if m == deepestOpened {
        if menus[m].status != newState { SetDeepest(newState); }
        return;
      }
      if c.info[m].parent == deepestOpened {
        DeeperShows(c, menus, deepestOpened, m);
        NotAbove(c, m, deepestOpened);
        deepestOpened := m;
        SetDeepest(newState);
        return;
      }
      ghost var d := deepestOpened;
      CloseMenuAndAncestorsToLevel(deepestOpened, m);
      Stopped(c, menus, d, m);
      if !menus[m].pane {
        deepestOpened := m;
        SetDeepest(newState);
      }
      deepestOpened := m;
    }

    /** The procedure of the deepest menu, which had status `state` before it was closed. */
    method CallItem(state: Status) returns (calls: seq<Call>)
      requires deepestOpened in c.info
      ensures forall v: View | v.deepest == deepestOpened && v.own == state :: calls == CallFor(c.info, v, c.verifies)
    {
      calls := [];
      var m := c.info[deepestOpened];
      if (m.parent in c.info && c.info[m.parent].paneType == HELP) || state != SELECTED {
      } else if m.supported && m.activates {
        calls := if c.verifies && m.verify then [Verify(deepestOpened)] else [Activate(deepestOpened)];
      }
    }

    /** The button is released: over a selected item or outside of all menus, every menu is closed,
        and then the item's procedure is called. */
    method ButtonRelease(at: Option<Point>) returns (calls: seq<Call>)
      requires Valid()
      modifies this
      ensures Valid() && (Now(), calls) == Step(c, old(Now()), Release(at))
    {
      hide Layout, Place, Shows, MenuShows, Above, Find, Moved, CallFor;
      calls := [];
      Keys(c, menus, deepestOpened);
      RootIn(c);
      ghost var v := Now();
      NoCall(c, v);
      StepKeeps(c, v, Release(at));
      var f := FindMenu(at);
      if buttonDown && (menus[deepestOpened].status == SELECTED || f == Nowhere) {
        var state := menus[deepestOpened].status;
        CloseMenuAndAncestorsToLevel(deepestOpened, c.root);
        StopAtRoot(c, v.deepest);
        if inside || same {
          calls := CallItem(state);
        }
        deepestOpened := c.root;
        inside := false;
        buttonDown := false;
        if c.rude { grabbed := false; }
      } else if buttonDown {
        buttonDown := false;
      }
    }

    /** A press, unless the jet beside the bar took it, counts as a motion too. */
    method ButtonPress(consumed: bool, at: Option<Point>)
      requires Valid()
      modifies this
      ensures Valid() && Now() == Step(c, old(Now()), Press(consumed, at)).0
    {
      hide Layout, Place, Shows, MenuShows, Above, Find, Moved;
      if consumed { return; }
      Keys(c, menus, deepestOpened);
      if !buttonDown {
        if c.rude && !grabbed { grabbed := true; }
        buttonDown := true;
      }
      MotionNotify(at);
    }

    method EventHandler(e: Event) returns (calls: seq<Call>)
      requires Valid()
      modifies this
      ensures Valid() && (Now(), calls) == Step(c, old(Now()), e)
    {
      hide Layout, Place, Shows, MenuShows, Above, Find, Moved, CallFor, Proper;
      calls := [];
      match e {
        case Press(consumed, at) => ButtonPress(consumed, at);
        case Motion(at) => if buttonDown { MotionNotify(at); }
        case Release(at) => calls := ButtonRelease(at);
      }
    }

    /** Any sequence of events: the records follow the user's view of the machine throughout. */
    method Play(es: seq<Event>) returns (calls: seq<Call>)
      requires Valid()
      modifies this
      ensures Valid() && (Now(), calls) == Run(c, old(Now()), es)
    {
      hide Layout, MenuShows, Step, Proper;
      ghost var v := Now();
      calls := [];
      for i := 0 to |es|
        invariant Valid() && (Now(), calls) == Run(c, v, es[..i])
      {
        var more := EventHandler(es[i]);
        calls := calls + more;
        assert es[..i + 1][..i] == es[..i];
      }
      assert es[..|es|] == es;
    }

    method SetDeepest(newState: Status)
      requires Layout(c.info, c.root) && Shows(c, menus, deepestOpened) && deepestOpened in c.info
      requires deepestOpened != c.root
      requires newState == OPENED ==> c.info[deepestOpened].child != NULL
      modifies this`menus
      ensures Shows(c, menus, deepestOpened) && deepestOpened in menus && menus[deepestOpened].status == newState
    {
      hide Layout, Place, Shows, MenuShows, Above;
      Readable(c, menus, deepestOpened);
      ghost var before := menus;
      SetMenu(deepestOpened, newState);
      ChangeShows(c, before, deepestOpened, menus[deepestOpened]);
      Keys(c, menus, deepestOpened);
    }
  }

  lemma NoCall(c: Setup, v: View)
    ensures v.own != SELECTED ==> CallFor(c.info, v, c.verifies) == []
  {
  }

  lemma ParentAbove(c: Setup, m: Id, d: Id)
    requires Layout(c.info, c.root) && m in c.info && Above(c.info, m, d)
    ensures c.info[m].parent != NULL ==> c.info[m].parent in c.info && Above(c.info, c.info[m].parent, d)
  {
    hide Layout;
    Node(c.info, c.root, m);
    if m != c.root {
      var up := c.info[m].parent;
      assert Above(c.info, up, up) && Above(c.info, up, m);
      AboveTransitive(c.info, up, m, d);
    }
  }

  lemma FindStep(c: Setup, v: View, level: Id, p: Point)
    requires Layout(c.info, c.root) && level in c.info
    ensures c.info[level].parent == NULL || c.info[level].parent in c.info
    ensures c.info[level].parent < level
    ensures FindFrom(c.info, c.root, c.showHelp, v, level, p)
         == if IsOpen(v, level) && AtLevel(c.info, c.root, c.showHelp, level, p) != Nowhere
            then AtLevel(c.info, c.root, c.showHelp, level, p)
            else FindFrom(c.info, c.root, c.showHelp, v, c.info[level].parent, p)
  {
    hide Layout, AtLevel;
    Node(c.info, c.root, level);
  }

  lemma FindNull(c: Setup, v: View, p: Point)
    requires Layout(c.info, c.root)
    ensures FindFrom(c.info, c.root, c.showHelp, v, NULL, p) == Nowhere
  {
    RootIn(c);
    hide Layout;
    Node(c.info, c.root, c.root);
  }

  lemma AtLevelIs(c: Setup, level: Id, p: Point)
    requires Layout(c.info, c.root) && level in c.info
    ensures var at := Place(c.info, c.root, level);
            var x, y := p.x - at.x, p.y - at.y;
            var m := ItemAt(c.info, level, c.info[level].child, x, y);
            var f := AtLevel(c.info, c.root, c.showHelp, level, p);
            var on := 0 <= x < c.info[level].paneWidth && 0 <= y < c.info[level].paneHeight;
            && (m != NULL ==> m in c.info && f == Item(m, Wanted(c.info[level], c.info[m], x, c.showHelp)))
            && (m == NULL ==> f == if on then Same else Nowhere)
  {
    hide Layout, Place, ItemAt, InLabel;
    Node(c.info, c.root, level);
    var at := Place(c.info, c.root, level);
    ItemAtMeaning(c.info, c.root, level, c.info[level].child, p.x - at.x, p.y - at.y);
  }

  /** The record of a level on the chain says whether it is open, and where. */
  lemma LevelShows(c: Setup, menus: map<Id, Menu>, v: View, level: Id)
    requires Shows(c, menus, v.deepest) && level in c.info && Above(c.info, level, v.deepest)
    requires v.deepest in menus && menus[v.deepest].status == v.own
    ensures level in menus
    ensures menus[level].status == OPENED <==> IsOpen(v, level)
    ensures menus[level].status == OPENED ==> menus[level].pos == Place(c.info, c.root, level)
  {
    assert MenuShows(c, menus[level], level, v.deepest);
  }

  lemma NotAbove(c: Setup, m: Id, d: Id)
    requires Layout(c.info, c.root) && m in c.info && m != c.root && c.info[m].parent == d
    ensures !Above(c.info, m, d)
  {
    hide Layout;
    Node(c.info, c.root, m);
    if Above(c.info, m, d) { AboveSmaller(c.info, m, d); }
  }

  /** After closing up to the level of `m`: an ancestor is still open, with its pane; any other
      item is closed, below an open menu. */
  lemma Stopped(c: Setup, menus: map<Id, Menu>, d: Id, m: Id)
    requires Layout(c.info, c.root) && d in c.info && m in c.info && m != c.root && m != d
    requires Shows(c, menus, Stop(c, d, m)) && Stop(c, d, m) in menus && menus[Stop(c, d, m)].status == OPENED
    ensures m in menus
    ensures menus[m].pane <==> Above(c.info, m, d)
    ensures menus[m].pane ==> Shows(c, menus, m) && menus[m].status == OPENED
    ensures !menus[m].pane ==> Shows(c, menus, m)
  {
    hide Layout, Place;
    var stop := Stop(c, d, m);
    Node(c.info, c.root, m);
    if !Above(c.info, m, d) {
      DeeperShows(c, menus, stop, m);
      NotAbove(c, m, stop);
    }
    assert MenuShows(c, menus[m], m, stop);
  }

  lemma InitiallyShows(c: Setup, menus: map<Id, Menu>)
    requires Layout(c.info, c.root) && menus.Keys == c.info.Keys
    requires menus[c.root] == Menu(OPENED, true, Point(0, 0))
    requires forall m | m in menus && m != c.root :: menus[m] == Menu(CLOSED, false, Point(0, 0))
    ensures Shows(c, menus, c.root)
  {
    Node(c.info, c.root, c.root);
    hide Layout;
  }

  lemma Unpaned(c: Setup, menu: Menu, m: Id)
    requires MenuShows(c, menu, m, m) && menu.status == CLOSED
    ensures !menu.pane
  {
  }

  lemma Keys(c: Setup, menus: map<Id, Menu>, d: Id)
    requires Shows(c, menus, d)
    ensures menus.Keys == c.info.Keys
  {
  }

  lemma PlaceStep(info: Table, root: Id, m: Id)
    requires Layout(info, root) && m in info && m != root
    ensures info[m].parent in info
    ensures var up, p := Place(info, root, info[m].parent), info[info[m].parent];
            Place(info, root, m) == match p.orientation
                                    case HORIZONTAL => Point(up.x + info[m].labelX, up.y + p.paneHeight)
                                    case VERTICAL => Point(up.x + p.paneWidth, up.y + info[m].labelY)
  {
    hide Layout;
    Node(info, root, m);
  }

  lemma AboveItself(info: Table, m: Id)
    ensures Above(info, m, m)
  {
  }

  lemma StopAbove(c: Setup, start: Id, end: Id)
    requires Layout(c.info, c.root) && start in c.info && end in c.info
    requires end == c.root || Above(c.info, c.info[end].parent, start)
    ensures Stop(c, start, end) in c.info && Above(c.info, Stop(c, start, end), start)
  {
    hide Layout;
    Node(c.info, c.root, end);
    RootAbove(c.info, c.root, start);
  }

  /** Between its start and its stop the walk has a parent to go to. */
  lemma NotYet(c: Setup, start: Id, end: Id, ptr: Id)
    requires Layout(c.info, c.root) && start in c.info && end in c.info && ptr in c.info
    requires Above(c.info, Stop(c, start, end), ptr) && Above(c.info, ptr, start)
    requires Stop(c, start, end) in c.info
    requires ptr != end && ptr != c.info[end].parent
    ensures ptr != c.root && c.info[ptr].parent < ptr <= start
    ensures Above(c.info, Stop(c, start, end), c.info[ptr].parent) && Above(c.info, c.info[ptr].parent, start)
  {
    hide Layout;
    var stop, up := Stop(c, start, end), c.info[ptr].parent;
    assert stop != ptr;
    AboveSmaller(c.info, stop, ptr);
    AboveSmaller(c.info, ptr, start);
    Node(c.info, c.root, ptr);
    assert Above(c.info, stop, up);
    assert Above(c.info, up, up);
    assert Above(c.info, up, ptr);
    AboveTransitive(c.info, up, ptr, start);
  }

  lemma StopAtRoot(c: Setup, start: Id)
    requires Layout(c.info, c.root) && start in c.info && c.root in c.info
    ensures Stop(c, start, c.root) == c.root
  {
    RootAbove(c.info, c.root, start);
  }

  lemma AtStop(c: Setup, start: Id, end: Id, ptr: Id)
    requires Layout(c.info, c.root) && start in c.info && end in c.info && ptr in c.info
    requires Above(c.info, Stop(c, start, end), ptr) && Above(c.info, ptr, start)
    requires ptr == end || ptr == c.info[end].parent
    ensures ptr == Stop(c, start, end)
  {
    hide Layout;
    Node(c.info, c.root, end);
    AboveSmaller(c.info, Stop(c, start, end), ptr);
  }

  /** Exactly the strict ancestors of the deepest menu, and perhaps itself, are open; a pane other
      than the root's exists exactly when its menu is open and has a child. */
  ghost predicate RecordOk(c: Setup, menus: map<Id, Menu>, v: View, m: Id) {
    && m in menus && m in c.info
    && (m != v.deepest && Above(c.info, m, v.deepest) ==> menus[m].status == OPENED)
    && (!Above(c.info, m, v.deepest) ==> menus[m].status == CLOSED)
    && (m != c.root ==> (menus[m].pane <==> menus[m].status == OPENED && c.info[m].child != NULL))
    && (m == c.root ==> menus[m].pane && menus[m].status == OPENED)
  }

  lemma ShownRecord(c: Setup, menus: map<Id, Menu>, v: View, m: Id)
    requires Layout(c.info, c.root) && m in c.info && Proper(c, v)
    requires Shows(c, menus, v.deepest) && v.deepest in menus && menus[v.deepest].status == v.own
    ensures RecordOk(c, menus, v, m)
  {
    hide Layout, Place;
    assert MenuShows(c, menus[m], m, v.deepest);
    if m != v.deepest && Above(c.info, m, v.deepest) {
      HasChild(c.info, c.root, m, v.deepest);
    }
    RootIn(c);
    RootAbove(c.info, c.root, v.deepest);
  }

  /** A bar from its realization on: whatever events arrive, the records are in order after them,
      `inside` implies that the deepest menu is not the root, and no call was made to an item that
      may not be called. */
  method Session(setup: Setup, es: seq<Event>) returns (bar: Bar, calls: seq<Call>)
    requires Layout(setup.info, setup.root)
    ensures bar.c == setup && bar.Valid() && (bar.Now(), calls) == Run(setup, Initial(setup), es)
    ensures forall m | m in setup.info :: RecordOk(setup, bar.menus, bar.Now(), m)
    ensures bar.inside ==> bar.deepestOpened != setup.root
    ensures forall k | k in calls :: Callable(setup, k)
  {
    hide Layout, Shows, RecordOk, Callable, Run;
    bar := new Bar(setup);
    calls := bar.Play(es);
    OnlyCallable(setup, es);
    Keys(setup, bar.menus, bar.deepestOpened);
    forall m | m in setup.info
      ensures RecordOk(setup, bar.menus, bar.Now(), m)
    {
      ShownRecord(setup, bar.menus, bar.Now(), m);
    }
  }

  /** Around the deepest menu: its own record is in order and the pane of its parent exists. */
  lemma Readable(c: Setup, menus: map<Id, Menu>, d: Id)
    requires Layout(c.info, c.root) && Shows(c, menus, d) && d in c.info && d != c.root
    ensures menus.Keys == c.info.Keys && c.info[d].parent in menus
    ensures MenuShows(c, menus[d], d, d)
    ensures var up := c.info[d].parent; menus[up].pane && menus[up].pos == Place(c.info, c.root, up)
  {
    Node(c.info, c.root, d);
    hide Layout, Place;
    var up := c.info[d].parent;
    assert Above(c.info, up, up) && Above(c.info, up, d);
    assert MenuShows(c, menus[up], up, d);
  }
}
