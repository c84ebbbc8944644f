/** do_match of athena/bin/delete/pattern.c: a directory search for a path pattern, written with
    gotos over the shared byte stack, against a plain recursive definition. */
module PathSearch {
  import opened Wrappers
  import opened Glob
  import opened Paths
  import opened ByteStack
  import opened StringArray

  /** What the search may ask of the file system -- the names in a directory in the order
      readdir() gives them, `None` if the path cannot be opened as one -- and what to return. */
  datatype Query = Query(fs: string -> Option<seq<string>>, undeleted: bool, deleted: bool)

  /** stat() and Opendir() of a path below the starting directory; stat("") fails. */
  function Open(q: Query, path: string): Option<seq<string>> {
    if path == "" then None else q.fs(path)
  }

  /** Does a directory entry match a pattern component, directly or as a deleted file? */
  function Accept(q: Query, first: string, name: string): Cmp {
    var r := RegCmp(first, name);
    if r != NoMatch then r
    else if IsDeleted(name) && q.deleted then RegCmp(first, name[2..])
    else NoMatch
  }

  predicate Wanted(q: Query, path: string) {
    if IsDeleted(LastPart(path)) then q.deleted else q.undeleted
  }

  // ----- The recursive definition -----

  /** All matches among the entries `names` of directory `base`, depth first.  A bad pattern
      component ends the directory. */
  function Scan(q: Query, names: seq<string>, base: string, first: string, rest: string): seq<string>
    decreases |rest|, |names|, 1
  {
    if names == [] then []
    else
      var r := Accept(q, first, names[0]);
      if r.Bad() then []
      else (if r == Match then Enter(q, names[0], base, rest) else []) + Scan(q, names[1..], base, first, rest)
  }

  /** All matches of `rest` at entry `name` of directory `base`. */
  function Enter(q: Query, name: string, base: string, rest: string): seq<string>
    decreases |rest|, 0, 0
  {
    var path := Append(base, name);
    var (first', rest') := FirstPart(rest);
    if first' == "" then (if Wanted(q, path) then [path] else [])
    else
      match Open(q, path)
      case None => []
      case Some(names) => Scan(q, names, path, first', rest')
  }

  /** do_match as a whole. */
  function Matches(q: Query, name: string): Option<seq<string>> {
    var base := if "/" <= name then "/" else "";
    var (first, rest) := FirstPart(if "/" <= name then name[1..] else name);
    match q.fs(base)
    case None => None
    case Some(names) =>
      Some(if first == "" && q.undeleted then [base] else Scan(q, names, base, first, rest))
  }

  // ----- The amount of work left, which bounds the loop -----

  ghost function ScanCost(q: Query, names: seq<string>, base: string, first: string, rest: string): nat
    decreases |rest|, |names|, 1
  {
    if names == [] then 1
    else
      var r := Accept(q, first, names[0]);
      1 + if r.Bad() then 1
          else (if r == Match then EnterCost(q, names[0], base, rest) else 0) + ScanCost(q, names[1..], base, first, rest)
  }

  ghost function EnterCost(q: Query, name: string, base: string, rest: string): nat
    decreases |rest|, 0, 0
  {
    var path := Append(base, name);
    var (first', rest') := FirstPart(rest);
    if first' == "" then 0
    else
      match Open(q, path)
      case None => 0
      case Some(names) => ScanCost(q, names, path, first', rest')
  }

  /** What the entries of a directory give, one by one. */
  lemma ScanStep(q: Query, names: seq<string>, base: string, first: string, rest: string)
    ensures names == [] ==> Scan(q, names, base, first, rest) == [] && ScanCost(q, names, base, first, rest) == 1
    ensures names != [] && Accept(q, first, names[0]).Bad() ==>
      Scan(q, names, base, first, rest) == [] && ScanCost(q, names, base, first, rest) == 2
    ensures names != [] && Accept(q, first, names[0]) == NoMatch ==>
      && Scan(q, names, base, first, rest) == Scan(q, names[1..], base, first, rest)
      && ScanCost(q, names, base, first, rest) == 1 + ScanCost(q, names[1..], base, first, rest)
    ensures names != [] && Accept(q, first, names[0]) == Match ==>
      && Scan(q, names, base, first, rest) == Enter(q, names[0], base, rest) + Scan(q, names[1..], base, first, rest)
      && ScanCost(q, names, base, first, rest) == 1 + EnterCost(q, names[0], base, rest) + ScanCost(q, names[1..], base, first, rest)
  {
    hide Accept, Enter, EnterCost;
  }

  // ----- The stack of suspended directories -----

  /** What one suspended directory leaves on the stack. */
  datatype Frame = Frame(dirp: nat, first: string, rest: string, base: string)

  function OnTop(below: seq<Cell>, f: Frame): seq<Cell> {
    below + Image(f.dirp, PTR_SIZE) + Pushed(f.first) + Pushed(f.rest) + Pushed(f.base)
  }

  function Cells(frames: seq<Frame>): seq<Cell> {
    if frames == [] then [] else OnTop(Cells(frames[..|frames| - 1]), frames[|frames| - 1])
  }

  /** Directory streams: the names not yet read from each open one. */
  type Streams = map<nat, seq<string>>

  ghost predicate Handles(frames: seq<Frame>, dirp: nat, open: Streams) {
    && dirp in open
    && (forall i | 0 <= i < |frames| :: frames[i].dirp in open && frames[i].dirp < dirp)
    && (forall i, j | 0 <= i < j < |frames| :: frames[i].dirp < frames[j].dirp)
  }

  /** What the suspended directories still have to give. */
  ghost function Unwind(q: Query, frames: seq<Frame>, open: Streams): seq<string>
    requires forall i | 0 <= i < |frames| :: frames[i].dirp in open
  {
    if frames == [] then []
    else
      var f := frames[|frames| - 1];
      Scan(q, open[f.dirp], f.base, f.first, f.rest) + Unwind(q, frames[..|frames| - 1], open)
  }

  ghost function UnwindCost(q: Query, frames: seq<Frame>, open: Streams): nat
    requires forall i | 0 <= i < |frames| :: frames[i].dirp in open
  {
    if frames == [] then 0
    else
      var f := frames[|frames| - 1];
      ScanCost(q, open[f.dirp], f.base, f.first, f.rest) + UnwindCost(q, frames[..|frames| - 1], open)
  }

  /** Only the streams of suspended directories matter to them. */
  lemma {:induction false} UnwindDependsOn(q: Query, frames: seq<Frame>, open: Streams, open': Streams)
    requires forall i | 0 <= i < |frames| :: frames[i].dirp in open
    requires forall i | 0 <= i < |frames| :: frames[i].dirp in open' && open'[frames[i].dirp] == open[frames[i].dirp]
    ensures Unwind(q, frames, open) == Unwind(q, frames, open')
    ensures UnwindCost(q, frames, open) == UnwindCost(q, frames, open')
  {
    if frames != [] {
      UnwindDependsOn(q, frames[..|frames| - 1], open, open');
    }
  }

  lemma CellsTop(frames: seq<Frame>)
    ensures frames == [] ==> Cells(frames) == []
    ensures frames != [] ==>
              var f := frames[|frames| - 1];
              Cells(frames) == Cells(frames[..|frames| - 1]) + Image(f.dirp, PTR_SIZE) + Pushed(f.first) + Pushed(f.rest) + Pushed(f.base)
  {
    hide Pushed, Image;
  }

  class Search {
    const q: Query
    const stack: Stack
    const found: Strings
    var base: string
    var first: string
    var rest: string
    var dirp: nat
    var open: Streams
    var nextDir: nat
    ghost var frames: seq<Frame>

    ghost predicate Valid()
      reads this, stack, found
    {
      && stack.Valid() && found.Valid()
      && stack.Contents() == Cells(frames)
      && Handles(frames, dirp, open) && (forall k | k in open :: k < nextDir)
    }

    /** What is left to do in the directories open now. */
    ghost function Ahead(): seq<string>
      requires Valid()
      reads this, stack, found
    {
      Scan(q, open[dirp], base, first, rest) + Unwind(q, frames, open)
    }

    /** What has been found and what the rest of the search will find. */
    ghost function Total(): seq<string>
      requires Valid()
      reads this, stack, found
    {
      found.Names() + Ahead()
    }

    ghost function Work(): nat
      requires Valid()
      reads this, stack, found
    {
      ScanCost(q, open[dirp], base, first, rest) + UnwindCost(q, frames, open)
    }

    /** Everything but the current directory and the stack position. */
    ghost predicate At(f: Frame)
      reads this
    {
      dirp == f.dirp && base == f.base && first == f.first && rest == f.rest
    }

    constructor (q: Query, stack: Stack, base: string, first: string, rest: string, names: seq<string>)
      requires stack.Valid() && stack.Contents() == []
      ensures Valid() && this.q == q && this.stack == stack && fresh(found)
      ensures Total() == Scan(q, names, base, first, rest)
    {
      this.q, this.stack, this.base, this.first, this.rest := q, stack, base, first, rest;
      dirp, open, nextDir := 0, map[0 := names], 1;
      frames := [];
      found := new Strings();
      new;
      assert found.Names() == [];
    }

    /** The pushes at label downdir. */
    method Suspend()
      requires stack.Valid() && stack.Contents() == Cells(frames)
      modifies stack, this`frames
      ensures stack.Valid() && stack.Contents() == Cells(frames)
      ensures frames == old(frames) + [Frame(dirp, first, rest, base)]
    {
      hide Pushed;
      hide Image;
      stack.PushPointer(dirp);
      stack.StringPush(first);
      stack.StringPush(rest);
      stack.StringPush(base);
      ghost var f := Frame(dirp, first, rest, base);
      ghost var frames' := frames + [f];
      assert frames'[..|frames'| - 1] == frames;
      assert stack.Contents() == OnTop(Cells(frames), f);
      frames := frames';
    }

    /** The pops that bring back the directory suspended last; nothing to pop ends the search. */
    method Resume() returns (status: Status)
      requires stack.Valid() && stack.Contents() == Cells(frames)
      modifies stack, this`frames, this`dirp, this`first, this`rest, this`base
      ensures stack.Valid() && stack.Contents() == Cells(frames)
      ensures status == StackEmpty <==> old(frames) == []
      ensures status == StackEmpty ==> frames == []
      ensures status == Ok ==> frames == old(frames)[..|old(frames)| - 1] && At(old(frames)[|old(frames)| - 1])
    {
      CellsTop(frames);
      hide Pushed, Image, Cells, OnTop;
      ghost var f := if frames == [] then Frame(0, "", "", "") else frames[|frames| - 1];
      ghost var below := if frames == [] then [] else Cells(frames[..|frames| - 1]);
      ghost var c1 := below + Image(f.dirp, PTR_SIZE);
      ghost var c2 := c1 + Pushed(f.first);
      ghost var c3 := c2 + Pushed(f.rest);
      var s;
      status, s := stack.StringPop(c3, f.base);
      if status == StackEmpty {
        return;
      }
      base := s;
      status, s := stack.StringPop(c2, f.rest);
      rest := s;
      status, s := stack.StringPop(c1, f.first);
      first := s;
      dirp := stack.PopPointer(below, f.dirp);
      frames := frames[..|frames| - 1];
    }

    /** Label downdir: entry `name` of the current directory matches. */
    method Down(name: string)
      requires Valid()
      modifies this, stack, found
      ensures Valid()
      ensures Total() == old(found.Names()) + (Enter(q, name, old(base), old(rest)) + old(Ahead()))
      ensures Work() <= EnterCost(q, name, old(base), old(rest)) + old(Work())
    {
      hide Scan;
      hide ScanCost;
      hide Cells;
      hide Append;
      hide FirstPart;
      hide Wanted;
      hide Unwind;
      hide UnwindCost;
      Suspend();
      assert frames[..|frames| - 1] == old(frames);
      base := Append(base, name);
      var parts := FirstPart(rest);
      first, rest := parts.0, parts.1;
      if first == "" {
        if Wanted(q, base) {
          found.Add(base);
        }
        var _ := Resume();
        assert found.Names() == old(found.Names()) + Enter(q, name, old(base), old(rest));
        return;
      }
      var names := Open(q, base);
      if names.None? {
        var _ := Resume();
        assert Enter(q, name, old(base), old(rest)) + old(Ahead()) == old(Ahead());
      } else {
        Descend(names.value);
      }
    }

    /** Opens the directory just entered; its parent is the frame suspended last. */
    method Descend(names: seq<string>)
      requires stack.Valid() && found.Valid() && stack.Contents() == Cells(frames)
      requires frames != [] && Handles(frames[..|frames| - 1], dirp, open)
      requires forall k | k in open :: k < nextDir
      requires frames[|frames| - 1].dirp == dirp
      modifies this`dirp, this`open, this`nextDir
      ensures Valid()
      ensures var f := frames[|frames| - 1];
        Ahead() == Scan(q, names, base, first, rest) +
          (Scan(q, old(open[dirp]), f.base, f.first, f.rest) + Unwind(q, frames[..|frames| - 1], old(open)))
      ensures var f := frames[|frames| - 1];
        Work() == ScanCost(q, names, base, first, rest) +
          ScanCost(q, old(open[dirp]), f.base, f.first, f.rest) + UnwindCost(q, frames[..|frames| - 1], old(open))
    {
      hide Scan;
      hide ScanCost;
      hide Cells;
      ghost var open' := open[nextDir := names];
      UnwindDependsOn(q, frames[..|frames| - 1], open, open');
      dirp := nextDir;
      open := open[dirp := names];
      nextDir := nextDir + 1;
    }

    /** Label updir: the current directory is done with. */
    method Up() returns (done: bool)
      requires Valid()
      modifies this, stack
      ensures done ==> old(frames) == [] && stack.Valid() && stack.Contents() == []
      ensures !done ==> Valid() && old(Unwind(q, frames, open)) == Ahead()
      ensures !done ==> old(UnwindCost(q, frames, open)) == Work()
    {
      hide Scan;
      hide ScanCost;
      hide Cells;
      ghost var open' := open - {dirp};
      UnwindDependsOn(q, frames, open, open');
      open := open - {dirp};
      var status := Resume();
      done := status == StackEmpty;
      assert done ==> stack.Contents() == [] by { EmptyCells(); }
    }

    lemma EmptyCells()
      ensures Cells([]) == []
    {
    }

    /** The two comparisons of an entry with the current component. */
    method Compare(name: string) returns (r: Cmp)
      ensures r == Accept(q, first, name)
    {
      r := RegCmpLoop(first, name);
      if r.Bad() || r == Match {
        return;
      }
      if IsDeleted(name) && q.deleted {
        r := RegCmpLoop(first, name[2..]);
      }
    }

    /** Reads the next entry of the current directory. */
    method NextName() returns (name: string)
      requires Valid() && open[dirp] != []
      modifies this`open
      ensures Valid() && name == old(open[dirp])[0]
      ensures Accept(q, first, name).Bad() ==> old(Ahead()) == Unwind(q, frames, open) && UnwindCost(q, frames, open) < old(Work())
      ensures Accept(q, first, name) == NoMatch ==> Ahead() == old(Ahead()) && Work() < old(Work())
      ensures Accept(q, first, name) == Match ==>
        old(Ahead()) == Enter(q, name, base, rest) + Ahead() && EnterCost(q, name, base, rest) + Work() < old(Work())
    {
      hide Cells, Enter, EnterCost, Accept, Scan, ScanCost, Unwind, UnwindCost;
      var names := open[dirp];
      name := names[0];
      ScanStep(q, names, base, first, rest);
      UnwindDependsOn(q, frames, open, open[dirp := names[1..]]);
      open := open[dirp := names[1..]];
    }

    lemma AtEnd()
      requires Valid()
      ensures open[dirp] == [] ==> Ahead() == Unwind(q, frames, open) && UnwindCost(q, frames, open) < Work()
      ensures frames == [] ==> Unwind(q, frames, open) == []
    {
      hide Cells, Accept, Enter, EnterCost;
    }

    /** One turn of the while loop. */
    method Turn() returns (done: bool)
      requires Valid()
      modifies this, stack, found
      ensures done ==> stack.Valid() && stack.Contents() == [] && found.Valid() && found.Names() == old(Total())
      ensures !done ==> Valid() && Total() == old(Total()) && Work() < old(Work())
    {
      hide Cells, Enter, EnterCost, Accept, Scan, ScanCost, Unwind, UnwindCost, Ahead, Work;
      AtEnd();
      if open[dirp] == [] {
        done := Up();
        return;
      }
      var name := NextName();
      var r := Compare(name);
      AtEnd();
      if r.Bad() {
        done := Up();
      } else {
        done := false;
        if r == Match {
          Down(name);
        }
      }
    }
  }

  method RegCmpLoop(p: string, f: string) returns (r: Cmp)
    ensures r == RegCmp(p, f)
  {
    if f != [] && f[0] == '.' && (p == [] || p[0] != '.') {
      return NoMatch;
    }
    r := RealCmpLoop(p, f);
  }

  /** do_match: terminates on every pattern and every file system, returns exactly what the
      recursive definition gives, in that order, and leaves the stack empty as it found it. */
  method DoMatch(q: Query, name: string, stack: Stack) returns (r: Option<Strings>)
    requires stack.Valid() && stack.Contents() == []
    modifies stack
    ensures stack.Valid() && stack.Contents() == []
    ensures r.None? <==> Matches(q, name).None?
    ensures r.Some? ==> fresh(r.value) && r.value.Valid() && r.value.Names() == Matches(q, name).value
  {
    hide Scan;
    var base, pattern := "", name;
    if "/" <= name {
      base, pattern := "/", name[1..];
    }
    var names := q.fs(base);
    if names.None? {
      return None;
    }
    var parts := FirstPart(pattern);
    if parts.0 == "" && q.undeleted {
      var only := new Strings();
      only.Add(base);
      return Some(only);
    }
    var search := new Search(q, stack, base, parts.0, parts.1, names.value);
    RunToEnd(search);
    r := Some(search.found);
  }

  method RunToEnd(search: Search)
    requires search.Valid()
    modifies search, search.stack, search.found
    ensures search.stack.Valid() && search.stack.Contents() == []
    ensures search.found.Valid() && search.found.Names() == old(search.Total())
  {
    var done := false;
    while !done
      invariant !done ==> search.Valid() && search.Total() == old(search.Total())
      invariant done ==> search.stack.Valid() && search.stack.Contents() == []
      invariant done ==> search.found.Valid() && search.found.Names() == old(search.Total())
      decreases if done then 0 else 1 + search.Work()
    {
      done := search.Turn();
    }
  }

  // ----- What the recursive definition means -----

  /** The components of a pattern up to the first empty one. */
  function Components(s: string): (r: seq<string>)
    ensures "" !in r
    decreases |s|
  {
    var (first, rest) := FirstPart(s);
    if first == "" then [] else [first] + Components(rest)
  }

  /** The components that a search is for: the first one, which may be empty, and those after it. */
  function Sought(pattern: string): (r: seq<string>)
    ensures r != [] && (r[0] != "" ==> r == Components(pattern))
  {
    var (first, rest) := FirstPart(pattern);
    [first] + Components(rest)
  }

  /** Names with slashes between them are the components of that text, also with a slash behind
      them, and whatever follows two slashes is ignored. */
  lemma {:induction false} ComponentsOfText(names: seq<string>, ignored: string)
    requires names != [] && forall n | n in names :: Plain(n)
    ensures Sought(Slashed(names)) == names
    ensures Sought(Slashed(names) + "/") == names
    ensures Sought(Slashed(names) + "//" + ignored) == names
  {
    hide FirstPart, Plain, Sought;
    SoughtText(names, "");
    SoughtText(names, "/");
    SoughtText(names, "//" + ignored);
    assert Slashed(names) + "" == Slashed(names);
    assert Slashed(names) + "//" + ignored == Slashed(names) + ("//" + ignored);
  }

  lemma FirstOfText(name: string, rest: string)
    requires '/' !in name
    ensures FirstPart(name + "/" + rest) == (name, rest)
    ensures FirstPart(name) == (name, "")
  {
    SlashAfter(name, "");
    SlashAfter(name, "/" + rest);
    assert name + "" == name && name + "/" + rest == name + ("/" + rest);
  }

  lemma {:induction false} SlashAfter(name: string, rest: string)
    requires '/' !in name && (rest == "" || rest[0] == '/')
    ensures Slash(name + rest) == |name|
  {
    if name != "" {
      assert (name + rest)[1..] == name[1..] + rest;
      assert name[0] in name;
      SlashAfter(name[1..], rest);
    } else {
      assert name + rest == rest;
    }
  }

  lemma {:induction false} SoughtText(names: seq<string>, after: string)
    requires names != [] && (forall n | n in names :: Plain(n)) && (after == "" || after == "/" || "//" <= after)
    ensures Sought(Slashed(names) + after) == names
  {
    hide FirstPart;
    var name, more := names[0], names[1..];
    assert name in names && names == [name] + more;
    if more == [] {
      OnlyName(name, after);
    } else {
      assert Slashed(names) + after == name + "/" + (Slashed(more) + after);
      FirstOfText(name, Slashed(more) + after);
      SoughtText(more, after);
      assert more[0] in names;
    }
  }

  lemma OnlyName(name: string, after: string)
    requires Plain(name) && (after == "" || after == "/" || "//" <= after)
    ensures Sought(name + after) == [name]
  {
    hide FirstPart;
    FirstOfText("", after[if |after| < 2 then |after| else 2..]);
    if after == "" {
      FirstOfText(name, "");
      assert name + after == name;
    } else {
      var rest := after[1..];
      assert name + after == name + "/" + rest;
      FirstOfText(name, rest);
      assert rest == "" || rest == "" + "/" + after[2..];
    }
  }

  /** Component `c` of a pattern takes the directory entry `k`: it names it, or names what a
      deleted file was called before. */
  ghost predicate Takes(q: Query, c: string, k: string) {
    Names(c, k) || (q.deleted && exists n :: k == ".#" + n && Names(c, n))
  }

  /** `steps` picks one matching entry per component, each inside the directory picked before. */
  ghost predicate Walk(q: Query, names: seq<string>, base: string, comps: seq<string>, steps: seq<string>)
    decreases |comps|
  {
    && comps != [] && |steps| == |comps|
    && steps[0] in names
    && Takes(q, comps[0], steps[0])
    && (|comps| > 1 ==>
          var path := Append(base, steps[0]);
          Open(q, path).Some? && Walk(q, Open(q, path).value, path, comps[1..], steps[1..]))
  }

  function Path(base: string, steps: seq<string>): string
    decreases |steps|
  {
    if steps == [] then base else Path(Append(base, steps[0]), steps[1..])
  }

  ghost predicate Found(q: Query, names: seq<string>, base: string, comps: seq<string>, p: string) {
    Wanted(q, p) && exists steps :: Walk(q, names, base, comps, steps) && Path(base, steps) == p
  }

  /** The two comparisons of the search together. */
  lemma AcceptMeaning(q: Query, first: string, name: string)
    requires WellFormed(first)
    ensures !Accept(q, first, name).Bad()
    ensures Accept(q, first, name) == Match <==> Takes(q, first, name)
  {
    hide RegCmp, Names;
    RegCmpMeaning(first, name);
    if IsDeleted(name) {
      RegCmpMeaning(first, name[2..]);
      assert name == ".#" + name[2..];
    }
    if n :| name == ".#" + n && Names(first, n) {
      assert name[2..] == n;
    }
  }

  /** For well-formed components, a path is returned exactly when some walk leads to it and its
      last part has the wanted deletion status. */
  lemma {:induction false} ScanFinds(q: Query, names: seq<string>, base: string, first: string, rest: string, p: string)
    requires forall c | c in [first] + Components(rest) :: WellFormed(c)
    ensures p in Scan(q, names, base, first, rest) <==> Found(q, names, base, [first] + Components(rest), p)
    decreases |rest|, |names|, 1
  {
    hide Accept;
    hide Takes;
    hide Wanted;
    hide RealCmp;
    var comps := [first] + Components(rest);
    if names != [] {
      assert first in comps;
      AcceptMeaning(q, first, names[0]);
      ScanFinds(q, names[1..], base, first, rest, p);
      EnterFinds(q, names[0], base, first, rest, p);
      if Found(q, names, base, comps, p) {
        var steps :| Walk(q, names, base, comps, steps) && Path(base, steps) == p;
        if steps[0] == names[0] {
          assert EnterWalk(q, names[0], base, comps, steps);
        } else {
          assert Walk(q, names[1..], base, comps, steps);
        }
      }
      if Found(q, names[1..], base, comps, p) {
        var steps :| Walk(q, names[1..], base, comps, steps) && Path(base, steps) == p;
        assert Walk(q, names, base, comps, steps);
      }
      if Accept(q, first, names[0]) == Match && p in Enter(q, names[0], base, rest) {
        var steps :| EnterWalk(q, names[0], base, comps, steps) && Path(base, steps) == p;
        assert Walk(q, names, base, comps, steps);
      }
    }
  }

  /** A walk whose first step is `name`, given that `name` matches the first component. */
  ghost predicate EnterWalk(q: Query, name: string, base: string, comps: seq<string>, steps: seq<string>) {
    && comps != [] && |steps| == |comps| && steps[0] == name
    && (|comps| > 1 ==>
          var path := Append(base, name);
          Open(q, path).Some? && Walk(q, Open(q, path).value, path, comps[1..], steps[1..]))
  }

  lemma {:induction false} EnterFinds(q: Query, name: string, base: string, first: string, rest: string, p: string)
    requires forall c | c in Components(rest) :: WellFormed(c)
    ensures p in Enter(q, name, base, rest) <==>
      Wanted(q, p) && exists steps :: EnterWalk(q, name, base, [first] + Components(rest), steps) && Path(base, steps) == p
    decreases |rest|, 0, 0
  {
    hide Wanted;
    hide Append;
    hide WellFormed;
    var comps := [first] + Components(rest);
    var path := Append(base, name);
    var (first', rest') := FirstPart(rest);
    if first' == "" {
      assert EnterWalk(q, name, base, comps, [name]) && Path(base, [name]) == path;
    } else {
      var more := [first'] + Components(rest');
      assert comps[1..] == more == Components(rest);
      if Open(q, path).Some? {
        var names := Open(q, path).value;
        ScanFinds(q, names, path, first', rest', p);
        if steps :| EnterWalk(q, name, base, comps, steps) && Path(base, steps) == p {
          assert Walk(q, names, path, more, steps[1..]);
        }
        if tail :| Walk(q, names, path, more, tail) && Path(path, tail) == p {
          var steps := [name] + tail;
          assert steps[1..] == tail;
          assert EnterWalk(q, name, base, comps, steps) && Path(base, steps) == p;
        }
      }
    }
  }

  /** The directory search as a whole, for patterns of well-formed components. */
  lemma MatchesFinds(q: Query, name: string, p: string)
    requires forall c | c in Sought(if "/" <= name then name[1..] else name) :: WellFormed(c)
    requires Matches(q, name).Some?
    ensures var base, comps := if "/" <= name then "/" else "", Sought(if "/" <= name then name[1..] else name);
      if comps[0] == "" && q.undeleted then Matches(q, name).value == [base]
      else p in Matches(q, name).value <==> Found(q, q.fs(base).value, base, comps, p)
  {
    var base, pattern := if "/" <= name then "/" else "", if "/" <= name then name[1..] else name;
    var (first, rest) := FirstPart(pattern);
    ScanFinds(q, q.fs(base).value, base, first, rest, p);
  }
}
