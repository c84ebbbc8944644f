/** do_recurs and find_matches of athena/bin/delete/pattern.c: the listing of whole directory
    trees below the matches of a pattern, over the same byte stack. */
module TreeListing {
  import opened Wrappers
  import opened Paths
  import opened ByteStack
  import opened StringArray
  import P = PathSearch

  datatype Options = Options(
    findDeleted: bool, findUndeleted: bool,
    recursFindDeleted: bool, recursFindUndeleted: bool, recursDeleted: bool,
    findDotfiles: bool, findContents: bool)
  {
    /** The RECURS options imply the FIND options that they need. */
    function Implied(): Options {
      this.(findDeleted := findDeleted || recursFindDeleted || recursDeleted,
            findUndeleted := findUndeleted || recursFindUndeleted)
    }

    predicate Recursive() { recursFindDeleted || recursFindUndeleted || recursDeleted || findContents }
  }

  /** The path that a listing starts from: unreadable, not a directory, or a directory. */
  datatype Start = Unreadable | Leaf | Directory(names: seq<string>)

  /** The file system as the listing sees it: what it starts from, the directories it is willing
      to enter (which depends on the options about links and mount points), and a bound on how
      deep they are nested. */
  datatype Tree = Tree(start: string -> Start, enter: string -> Option<seq<string>>, depth: string -> nat)

  function Open(t: Tree, path: string): Option<seq<string>> {
    if path == "" then None else t.enter(path)
  }

  /** Directories listed in `base`, other than itself and its parent, are nested less deep. */
  ghost predicate Below(t: Tree, names: seq<string>, base: string) {
    forall n | n in names && !IsDotfile(n) && Open(t, Append(base, n)).Some? ::
      t.depth(Append(base, n)) < t.depth(base)
  }

  ghost predicate Finite(t: Tree) {
    && (forall p {:trigger t.enter(p)} :: t.enter(p).Some? ==> Below(t, t.enter(p).value, p))
    && (forall p {:trigger t.start(p)} :: t.start(p).Directory? ==> Below(t, t.start(p).names, p))
  }

  // ----- The recursive definition -----

  predicate Listed(o: Options, name: string) {
    if IsDeleted(name) then o.findDeleted else o.findUndeleted && !IsDotfile(name)
  }

  predicate Entered(o: Options, name: string) {
    if IsDeleted(name) then o.findDeleted && o.recursDeleted
    else !IsDotfile(name) && (o.recursFindDeleted || o.recursFindUndeleted)
  }

  /** Preorder: each entry, if listed, before everything beneath it, if entered. */
  ghost function List(t: Tree, o: Options, names: seq<string>, base: string): seq<string>
    requires Finite(t) && Below(t, names, base)
    decreases t.depth(base), |names|
  {
    if names == [] then []
    else
      var path := Append(base, names[0]);
      (if Listed(o, names[0]) then [path] else []) +
      (if Entered(o, names[0]) && Open(t, path).Some? then List(t, o, Open(t, path).value, path) else []) +
      List(t, o, names[1..], base)
  }

  ghost function ListCost(t: Tree, o: Options, names: seq<string>, base: string): nat
    requires Finite(t) && Below(t, names, base)
    decreases t.depth(base), |names|
  {
    1 +
    if names == [] then 0
    else
      var path := Append(base, names[0]);
      (if Entered(o, names[0]) && Open(t, path).Some? then ListCost(t, o, Open(t, path).value, path) else 0) +
      ListCost(t, o, names[1..], base)
  }

  /** `steps` leads from an entry of `base` down through entered directories to a listed entry. */
  ghost predicate Leads(t: Tree, o: Options, names: seq<string>, base: string, steps: seq<string>)
    decreases |steps|, 1
  {
    steps != [] && steps[0] in names && Passes(t, o, base, steps)
  }

  ghost predicate Passes(t: Tree, o: Options, base: string, steps: seq<string>)
    requires steps != []
    decreases |steps|, 0
  {
    if |steps| == 1 then Listed(o, steps[0])
    else
      var path := Append(base, steps[0]);
      Entered(o, steps[0]) && Open(t, path).Some? && Leads(t, o, Open(t, path).value, path, steps[1..])
  }

  ghost predicate Reached(t: Tree, o: Options, names: seq<string>, base: string, p: string) {
    exists steps :: Leads(t, o, names, base, steps) && P.Path(base, steps) == p
  }

  lemma ReachedSplit(t: Tree, o: Options, names: seq<string>, base: string, p: string)
    requires names != []
    ensures Reached(t, o, names, base, p) <==> Reached(t, o, [names[0]], base, p) || Reached(t, o, names[1..], base, p)
  {
    hide Passes;
    if steps :| Leads(t, o, names, base, steps) && P.Path(base, steps) == p {
      assert Leads(t, o, [names[0]], base, steps) || Leads(t, o, names[1..], base, steps);
    }
    if steps :| Leads(t, o, [names[0]], base, steps) && P.Path(base, steps) == p {
      assert Leads(t, o, names, base, steps);
    }
    if steps :| Leads(t, o, names[1..], base, steps) && P.Path(base, steps) == p {
      assert Leads(t, o, names, base, steps);
    }
  }

  lemma PathCons(base: string, name: string, tail: seq<string>)
    ensures P.Path(base, [name] + tail) == P.Path(Append(base, name), tail)
  {
    assert ([name] + tail)[1..] == tail;
  }

  /** An entry leads to itself when it is listed, and to what its directory leads to when it is entered. */
  lemma EntryReached(t: Tree, o: Options, name: string, base: string, p: string)
    ensures var path := Append(base, name);
            Reached(t, o, [name], base, p) <==>
            (Listed(o, name) && p == path)
            || (Entered(o, name) && Open(t, path).Some? && Reached(t, o, Open(t, path).value, path, p))
  {
    hide Append, Listed, Entered, Open;
    var path := Append(base, name);
    if Listed(o, name) && p == path {
      OneStep(t, o, name, base);
    }
    if Entered(o, name) && Open(t, path).Some? && Reached(t, o, Open(t, path).value, path, p) {
      var tail :| Leads(t, o, Open(t, path).value, path, tail) && P.Path(path, tail) == p;
      StepDown(t, o, name, base, tail);
    }
    if steps :| Leads(t, o, [name], base, steps) && P.Path(base, steps) == p {
      FirstStep(t, o, name, base, steps);
      hide Leads;
    }
  }

  lemma OneStep(t: Tree, o: Options, name: string, base: string)
    requires Listed(o, name)
    ensures Leads(t, o, [name], base, [name]) && P.Path(base, [name]) == Append(base, name)
  {
    hide Append, Listed;
    PathCons(base, name, []);
    assert [name] + [] == [name];
  }

  lemma StepDown(t: Tree, o: Options, name: string, base: string, tail: seq<string>)
    requires var path := Append(base, name);
             Entered(o, name) && Open(t, path).Some? && Leads(t, o, Open(t, path).value, path, tail)
    ensures Leads(t, o, [name], base, [name] + tail) && P.Path(base, [name] + tail) == P.Path(Append(base, name), tail)
  {
    hide Append, Listed, Entered, Open;
    PathCons(base, name, tail);
    assert ([name] + tail)[1..] == tail;
  }

  lemma FirstStep(t: Tree, o: Options, name: string, base: string, steps: seq<string>)
    requires Leads(t, o, [name], base, steps)
    ensures var path := Append(base, name);
            && P.Path(base, steps) == P.Path(path, steps[1..])
            && if |steps| == 1 then Listed(o, name) && P.Path(base, steps) == path
               else Entered(o, name) && Open(t, path).Some? && Leads(t, o, Open(t, path).value, path, steps[1..])
  {
    hide Append, Listed, Entered, Open;
    assert steps[0] == name;
    assert steps == [name] + steps[1..];
    PathCons(base, name, steps[1..]);
  }

  lemma {:induction false} EntryMeaning(t: Tree, o: Options, name: string, base: string, p: string)
    requires Finite(t) && Below(t, [name], base)
    ensures (Listed(o, name) && p == Append(base, name)) || p in Inside(t, o, name, base) <==> Reached(t, o, [name], base, p)
    decreases t.depth(base), 0, 0
  {
    hide Append, Listed, Reached;
    var path := Append(base, name);
    EntryReached(t, o, name, base, p);
    assert name in [name];
    if Entered(o, name) && Open(t, path).Some? {
      ListMeaning(t, o, Open(t, path).value, path, p);
    }
  }

  /** A path is listed exactly when it can be reached through directories that the options enter
      and its last name is one that they list. */
  lemma {:induction false} ListMeaning(t: Tree, o: Options, names: seq<string>, base: string, p: string)
    requires Finite(t) && Below(t, names, base)
    ensures p in List(t, o, names, base) <==> Reached(t, o, names, base, p)
    decreases t.depth(base), 1, |names|
  {
    hide Append;
    hide Inside;
    hide Finite;
    if names != [] {
      BelowSplit(t, names, base);
      ListStep(t, o, names, base);
      ListMeaning(t, o, names[1..], base, p);
      EntryMeaning(t, o, names[0], base, p);
      ReachedSplit(t, o, names, base, p);
      hide List;
      hide Reached;
    }
  }

  /** do_recurs as a whole. */
  ghost function Contents(t: Tree, o: Options, name: string): Option<seq<string>>
    requires Finite(t)
  {
    match t.start(name)
    case Unreadable => None
    case Leaf => Some([])
    case Directory(names) => Some(List(t, o.Implied(), names, name))
  }

  // ----- The stack of suspended directories -----

  datatype Frame = Frame(dirp: nat, base: string)

  function OnTop(below: seq<Cell>, f: Frame): seq<Cell> {
    below + Image(f.dirp, PTR_SIZE) + Pushed(f.base)
  }

  function Cells(frames: seq<Frame>): seq<Cell> {
    if frames == [] then [] else OnTop(Cells(frames[..|frames| - 1]), frames[|frames| - 1])
  }

  type Streams = P.Streams

  ghost predicate Readable(t: Tree, f: Frame, open: Streams) {
    f.dirp in open && Below(t, open[f.dirp], f.base)
  }

  ghost predicate Handles(t: Tree, frames: seq<Frame>, open: Streams) {
    && (forall i | 0 <= i < |frames| :: Readable(t, frames[i], open))
    && (forall i, j | 0 <= i < j < |frames| :: frames[i].dirp < frames[j].dirp)
  }

  ghost function Unwind(t: Tree, o: Options, frames: seq<Frame>, open: Streams): seq<string>
    requires Finite(t) && Handles(t, frames, open)
  {
    if frames == [] then []
    else
      var f := frames[|frames| - 1];
      List(t, o, open[f.dirp], f.base) + Unwind(t, o, frames[..|frames| - 1], open)
  }

  ghost function UnwindCost(t: Tree, o: Options, frames: seq<Frame>, open: Streams): nat
    requires Finite(t) && Handles(t, frames, open)
  {
    if frames == [] then 0
    else
      var f := frames[|frames| - 1];
      ListCost(t, o, open[f.dirp], f.base) + UnwindCost(t, o, frames[..|frames| - 1], open)
  }

  lemma {:induction false} UnwindDependsOn(t: Tree, o: Options, frames: seq<Frame>, open: Streams, open': Streams)
    requires Finite(t) && Handles(t, frames, open)
    requires forall i | 0 <= i < |frames| :: frames[i].dirp in open' && open'[frames[i].dirp] == open[frames[i].dirp]
    ensures Handles(t, frames, open')
    ensures Unwind(t, o, frames, open) == Unwind(t, o, frames, open')
    ensures UnwindCost(t, o, frames, open) == UnwindCost(t, o, frames, open')
  {
    hide Below;
    hide Finite;
    if frames != [] {
      UnwindDependsOn(t, o, frames[..|frames| - 1], open, open');
    }
  }

  class Lister {
    const t: Tree
    const o: Options
    const stack: Stack
    const found: Strings
    var base: string
    var dirp: nat
    var open: Streams
    var nextDir: nat
    ghost var frames: seq<Frame>

    ghost predicate Valid()
      reads this, stack, found
    {
      && Finite(t) && stack.Valid() && found.Valid()
      && stack.Contents() == Cells(frames)
      && Handles(t, frames + [Frame(dirp, base)], open) && Readable(t, Frame(dirp, base), open)
      && (forall k | k in open :: k < nextDir)
    }

    /** What the directories open now still have to give, the current one included. */
    ghost function Ahead(): seq<string>
      requires Valid()
      reads this, stack, found
    {
      Unwind(t, o, frames + [Frame(dirp, base)], open)
    }

    ghost function Work(): nat
      requires Valid()
      reads this, stack, found
    {
      UnwindCost(t, o, frames + [Frame(dirp, base)], open)
    }

    constructor (t: Tree, o: Options, stack: Stack, base: string, names: seq<string>)
      ensures this.t == t && this.o == o && this.stack == stack && fresh(found)
      ensures this.base == base && dirp == 0 && open == map[0 := names] && nextDir == 1 && frames == []
      ensures found.Valid() && found.Names() == []
    {
      this.t, this.o, this.stack, this.base := t, o, stack, base;
      dirp, open, nextDir := 0, map[0 := names], 1;
      frames := [];
      found := new Strings();
    }

    lemma Initially(names: seq<string>)
      requires Finite(t) && Below(t, names, base) && stack.Valid() && stack.Contents() == []
      requires dirp == 0 && open == map[0 := names] && nextDir == 1 && frames == []
      requires found.Valid() && found.Names() == []
      ensures Valid() && Ahead() == List(t, o, names, base)
    {
      hide Finite;
      hide Below;
      hide List;
      hide Cells;
      hide Unwind;
      NoCells();
      var f := Frame(dirp, base);
      assert Readable(t, f, open);
      assert forall i | 0 <= i < |frames + [f]| :: (frames + [f])[i] == f;
      assert Handles(t, frames + [f], open);
      Single(t, o, frames, f, open);
    }

    /** Label downdir, the pushes: the directory at the top of the frames is now also on the stack. */
    method Suspend()
      requires stack.Valid() && stack.Contents() == Cells(frames)
      modifies stack, this`frames
      ensures stack.Valid() && stack.Contents() == Cells(frames)
      ensures frames == old(frames) + [Frame(dirp, base)]
    {
      hide Pushed;
      hide Image;
      stack.PushPointer(dirp);
      stack.StringPush(base);
      ghost var frames' := frames + [Frame(dirp, base)];
      assert frames'[..|frames'| - 1] == frames;
      frames := frames';
    }

    method Resume() returns (status: Status)
      requires stack.Valid() && stack.Contents() == Cells(frames)
      modifies stack, this`frames, this`dirp, this`base
      ensures stack.Valid() && stack.Contents() == Cells(frames)
      ensures status == StackEmpty <==> old(frames) == []
      ensures status == StackEmpty ==> frames == []
      ensures status == Ok ==> frames == old(frames)[..|old(frames)| - 1] && Frame(dirp, base) == old(frames)[|old(frames)| - 1]
      ensures status == Ok ==> frames + [Frame(dirp, base)] == old(frames)
    {
      hide Pushed;
      hide Image;
      ghost var f := if frames == [] then Frame(0, "") else frames[|frames| - 1];
      ghost var below := if frames == [] then [] else Cells(frames[..|frames| - 1]);
      ghost var c1 := below + Image(f.dirp, PTR_SIZE);
      assert frames != [] ==> Cells(frames) == c1 + Pushed(f.base);
      var s;
      status, s := stack.StringPop(c1, f.base);
      if status == StackEmpty {
        return;
      }
      base := s;
      dirp := stack.PopPointer(below, f.dirp);
      frames := frames[..|frames| - 1];
    }

    /** Label downdir: enters `name` if it is a directory that may be entered. */
    method Down(name: string)
      requires Valid() && Entered(o, name)
      requires Below(t, [name], base)
      modifies this`base, this`dirp, this`open, this`nextDir, this`frames, stack
      ensures Valid()
      ensures var path := Append(old(base), name);
        Ahead() == (if Open(t, path).Some? then List(t, o, Open(t, path).value, path) else []) + old(Ahead())
      ensures var path := Append(old(base), name);
        Work() == (if Open(t, path).Some? then ListCost(t, o, Open(t, path).value, path) else 0) + old(Work())
    {
      hide Cells;
      hide List;
      hide ListCost;
      hide Unwind;
      hide UnwindCost;
      hide Append;
      ghost var all := frames + [Frame(dirp, base)];
      Suspend();
      base := Append(base, name);
      var names := Open(t, base);
      if names.None? {
        var _ := Resume();
        assert [] + old(Ahead()) == old(Ahead());
      } else {
        UnwindDependsOn(t, o, all, open, open[nextDir := names.value]);
        dirp := nextDir;
        open := open[dirp := names.value];
        nextDir := nextDir + 1;
        OneMore(t, o, all, Frame(dirp, base), open);
      }
    }

    /** Label updir. */
    method Up() returns (done: bool)
      requires Valid() && open[dirp] == []
      modifies this`base, this`dirp, this`open, this`frames, stack
      ensures done ==> stack.Valid() && stack.Contents() == [] && old(Ahead()) == []
      ensures !done ==> Valid() && Ahead() == old(Ahead()) && Work() < old(Work())
    {
      hide Cells, Below, Finite, Unwind, UnwindCost, List, ListCost;
      ghost var all := frames + [Frame(dirp, base)];
      assert all[..|frames|] == frames && all[|frames|] == Frame(dirp, base);
      assert forall i | 0 <= i < |frames| :: all[i] == frames[i];
      OneMore(t, o, frames, Frame(dirp, base), open);
      UnwindDependsOn(t, o, frames, open, open - {dirp});
      NothingAhead(t, o, base, open);
      open := open - {dirp};
      var status := Resume();
      done := status == StackEmpty;
      if done { NoCells(); }
    }

    /** One turn of the while loop. */
    method Turn() returns (done: bool)
      requires Valid()
      modifies this`base, this`dirp, this`open, this`nextDir, this`frames, stack, found
      ensures found.Valid()
      ensures done ==> stack.Valid() && stack.Contents() == [] && found.Names() == old(found.Names() + Ahead())
      ensures !done ==> Valid() && found.Names() + Ahead() == old(found.Names() + Ahead()) && Work() < old(Work())
    {
      hide Cells;
      hide List;
      hide ListCost;
      hide Unwind;
      hide UnwindCost;
      hide Append;
      hide Below;
      hide Finite;
      done := false;
      var names := open[dirp];
      if names == [] {
        done := Up();
        return;
      }
      var name := names[0];
      NextEntry(t, o, frames, Frame(dirp, base), open);
      open := open[dirp := names[1..]];
      ghost var later := Ahead();
      ghost var inside := Inside(t, o, name, base);
      assert old(Ahead()) == (if Listed(o, name) then [Append(base, name)] else []) + (inside + later);
      if Listed(o, name) {
        assert old(found.Names()) + ([Append(base, name)] + (inside + later))
            == old(found.Names()) + [Append(base, name)] + (inside + later);
      }
      if IsDeleted(name) {
        if o.findDeleted {
          found.Add(Append(base, name));
          if o.recursDeleted {
            Down(name);
          }
        }
        return;
      }
      if o.findUndeleted {
        if IsDotfile(name) {
          if o.findDotfiles {
            found.Store(Append(base, name));
          }
          return;
        } else {
          found.Add(Append(base, name));
        }
      }
      if !IsDotfile(name) {
        if o.recursFindDeleted {
          Down(name);
          return;
        }
        if o.recursFindUndeleted {
          Down(name);
          return;
        }
      }
    }
  }

  /** What entering `name` contributes. */
  ghost function Inside(t: Tree, o: Options, name: string, base: string): seq<string>
    requires Finite(t) && Below(t, [name], base)
  {
    var path := Append(base, name);
    if Entered(o, name) && Open(t, path).Some? then List(t, o, Open(t, path).value, path) else []
  }

  ghost function InsideCost(t: Tree, o: Options, name: string, base: string): nat
    requires Finite(t) && Below(t, [name], base)
  {
    var path := Append(base, name);
    if Entered(o, name) && Open(t, path).Some? then ListCost(t, o, Open(t, path).value, path) else 0
  }

  lemma BelowSplit(t: Tree, names: seq<string>, base: string)
    requires Below(t, names, base) && names != []
    ensures Below(t, [names[0]], base) && Below(t, names[1..], base)
  {
    hide Append;
    assert names[0] in names;
  }

  lemma NextEntry(t: Tree, o: Options, frames: seq<Frame>, f: Frame, open: Streams)
    requires Finite(t) && Handles(t, frames + [f], open) && Readable(t, f, open) && open[f.dirp] != []
    ensures Below(t, [open[f.dirp][0]], f.base)
    ensures var open' := open[f.dirp := open[f.dirp][1..]]; var name := open[f.dirp][0];
      && Handles(t, frames + [f], open') && Readable(t, f, open')
      && Unwind(t, o, frames + [f], open) ==
           (if Listed(o, name) then [Append(f.base, name)] else []) +
           (Inside(t, o, name, f.base) + Unwind(t, o, frames + [f], open'))
      && UnwindCost(t, o, frames + [f], open) ==
           1 + InsideCost(t, o, name, f.base) + UnwindCost(t, o, frames + [f], open')
  {
    hide List;
    hide ListCost;
    hide Below;
    hide Finite;
    hide Append;
    hide Unwind;
    hide UnwindCost;
    hide Inside;
    hide InsideCost;
    var names := open[f.dirp];
    var open' := open[f.dirp := names[1..]];
    BelowSplit(t, names, f.base);
    OneMore(t, o, frames, f, open);
    StillReadable(t, frames, f, open);
    UnwindDependsOn(t, o, frames, open, open');
    ListStep(t, o, names, f.base);
    OneMore(t, o, frames, f, open');
    var a := if Listed(o, names[0]) then [Append(f.base, names[0])] else [];
    var b, c, d := Inside(t, o, names[0], f.base), List(t, o, names[1..], f.base), Unwind(t, o, frames, open');
    assert (a + b + c) + d == a + (b + (c + d));
  }

  lemma StillReadable(t: Tree, frames: seq<Frame>, f: Frame, open: Streams)
    requires Handles(t, frames + [f], open) && Readable(t, f, open) && open[f.dirp] != []
    requires Below(t, open[f.dirp][1..], f.base)
    ensures var open' := open[f.dirp := open[f.dirp][1..]];
      && Handles(t, frames + [f], open') && Readable(t, f, open')
      && forall i | 0 <= i < |frames| :: frames[i].dirp in open' && open'[frames[i].dirp] == open[frames[i].dirp]
  {
    hide Below;
    var all := frames + [f];
    assert all[|frames|] == f;
    forall i | 0 <= i < |frames| ensures frames[i] == all[i] && frames[i].dirp < f.dirp && Readable(t, frames[i], open) {
    }
  }

  lemma ListStep(t: Tree, o: Options, names: seq<string>, base: string)
    requires Finite(t) && Below(t, names, base) && names != []
    requires Below(t, [names[0]], base) && Below(t, names[1..], base)
    ensures List(t, o, names, base) ==
      (if Listed(o, names[0]) then [Append(base, names[0])] else []) + Inside(t, o, names[0], base) + List(t, o, names[1..], base)
    ensures ListCost(t, o, names, base) == 1 + InsideCost(t, o, names[0], base) + ListCost(t, o, names[1..], base)
  {
  }

  lemma NoCells()
    ensures Cells([]) == []
  {
  }

  lemma Single(t: Tree, o: Options, frames: seq<Frame>, f: Frame, open: Streams)
    requires Finite(t) && Readable(t, f, open) && frames == [] && Handles(t, frames + [f], open)
    ensures Unwind(t, o, frames + [f], open) == List(t, o, open[f.dirp], f.base)
  {
    hide List;
    hide Below;
    hide Finite;
    OneMore(t, o, frames, f, open);
  }

  lemma OneMore(t: Tree, o: Options, frames: seq<Frame>, f: Frame, open: Streams)
    requires Finite(t) && Handles(t, frames + [f], open) && Readable(t, f, open)
    ensures Handles(t, frames, open)
    ensures Unwind(t, o, frames + [f], open) == List(t, o, open[f.dirp], f.base) + Unwind(t, o, frames, open)
    ensures UnwindCost(t, o, frames + [f], open) == ListCost(t, o, open[f.dirp], f.base) + UnwindCost(t, o, frames, open)
  {
    hide Below;
    hide Finite;
    assert (frames + [f])[..|frames|] == frames;
    assert forall i | 0 <= i < |frames| :: (frames + [f])[i] == frames[i];
  }

  lemma NothingAhead(t: Tree, o: Options, base: string, open: Streams)
    requires Finite(t)
    ensures Below(t, [], base) && List(t, o, [], base) == [] && ListCost(t, o, [], base) > 0
    ensures Handles(t, [], open) && Unwind(t, o, [], open) == []
  {
    hide Finite;
  }

  datatype Outcome = Failed | NoFilesRequested | Listing(files: Strings)

  /** do_recurs: ends with exactly the preorder listing of the options, and an empty stack. */
  method DoRecurs(t: Tree, o: Options, name: string, stack: Stack) returns (r: Outcome)
    requires Finite(t) && stack.Valid() && stack.Contents() == []
    modifies stack
    ensures stack.Valid() && stack.Contents() == []
    ensures if Contents(t, o, name).None? then r == Failed
            else r.Listing? && fresh(r.files) && r.files.Valid() && r.files.Names() == Contents(t, o, name).value
  {
    hide List;
    hide Below;
    match t.start(name)
    case Unreadable =>
      r := Failed;
    case Leaf =>
      var none := new Strings();
      r := Listing(none);
    case Directory(names) =>
      var lister := new Lister(t, o.Implied(), stack, name, names);
      lister.Initially(names);
      RunToEnd(lister);
      r := Listing(lister.found);
  }

  method RunToEnd(l: Lister)
    requires l.Valid()
    modifies l`base, l`dirp, l`open, l`nextDir, l`frames, l.stack, l.found
    ensures l.stack.Valid() && l.stack.Contents() == []
    ensures l.found.Valid() && l.found.Names() == old(l.found.Names() + l.Ahead())
  {
    hide Finite;
    var done := false;
    while !done
      invariant l.found.Valid()
      invariant !done ==> l.Valid() && l.found.Names() + l.Ahead() == old(l.found.Names() + l.Ahead())
      invariant done ==> l.stack.Valid() && l.stack.Contents() == []
      invariant done ==> l.found.Names() == old(l.found.Names() + l.Ahead())
      decreases if done then 0 else 1 + l.Work()
    {
      done := l.Turn();
    }
  }

  // ----- find_matches -----

  /** The contents of one match, then the match itself when it is wanted. */
  ghost function Group(t: Tree, o: Options, m: string): Option<seq<string>>
    requires Finite(t)
  {
    if Contents(t, o, m).None? then None
    else
      var wanted := if IsDeleted(LastPart(m)) then o.findDeleted else o.findUndeleted;
      Some(Contents(t, o, m).value + if wanted then [m] else [])
  }

  ghost function Groups(t: Tree, o: Options, ms: seq<string>): Option<seq<string>>
    requires Finite(t)
  {
    if ms == [] then Some([])
    else
      var init, last := Groups(t, o, ms[..|ms| - 1]), Group(t, o, ms[|ms| - 1]);
      if init.None? || last.None? then None else Some(init.value + last.value)
  }

  function MatchQuery(fs: string -> Option<seq<string>>, o: Options): P.Query {
    P.Query(fs, o.findUndeleted || o.recursFindDeleted || o.recursFindUndeleted || o.findContents, o.findDeleted)
  }

  /** find_matches as a whole. */
  ghost function FindAll(fs: string -> Option<seq<string>>, t: Tree, o: Options, name: string): Option<seq<string>>
    requires Finite(t)
  {
    var ms := P.Matches(MatchQuery(fs, o), name);
    if ms.None? then None
    else if o.Recursive() then Groups(t, o, ms.value)
    else ms
  }

  /** find_matches: for every pattern and option set that asks for something, the concatenation
      over the matches of the listing below each, followed by the match itself when wanted. */
  method FindMatches(fs: string -> Option<seq<string>>, t: Tree, o: Options, name: string, stack: Stack) returns (r: Outcome)
    requires Finite(t) && stack.Valid() && stack.Contents() == []
    modifies stack
    ensures stack.Valid() && stack.Contents() == []
    ensures r == NoFilesRequested <==> !(o.findDeleted || MatchQuery(fs, o).undeleted)
    ensures r != NoFilesRequested ==>
      if FindAll(fs, t, o, name).None? then r == Failed
      else r.Listing? && r.files.Valid() && r.files.Names() == FindAll(fs, t, o, name).value
  {
    hide Finite;
    hide P.Matches;
    hide Contents;
    var q := MatchQuery(fs, o);
    if !q.undeleted && !q.deleted {
      return NoFilesRequested;
    }
    var matched := P.DoMatch(q, name, stack);
    if matched.None? {
      return Failed;
    }
    if !o.Recursive() || matched.value.num == 0 {
      return Listing(matched.value);
    }
    r := ExpandAll(t, o, matched.value.block[..matched.value.num], stack);
  }

  method ExpandAll(t: Tree, o: Options, ms: seq<string>, stack: Stack) returns (r: Outcome)
    requires Finite(t) && stack.Valid() && stack.Contents() == []
    modifies stack
    ensures stack.Valid() && stack.Contents() == []
    ensures if Groups(t, o, ms).None? then r == Failed
            else r.Listing? && fresh(r.files) && r.files.Valid() && r.files.Names() == Groups(t, o, ms).value
  {
    hide Finite;
    hide Group;
    var all := new Strings();
    for i := 0 to |ms|
      invariant stack.Valid() && stack.Contents() == [] && all.Valid() && fresh(all)
      invariant Groups(t, o, ms[..i]).Some? && all.Names() == Groups(t, o, ms[..i]).value
    {
      assert ms[..i + 1][..i] == ms[..i];
      var ok := Expand(t, o, ms[i], stack, all);
      if !ok {
        GroupsFail(t, o, ms, i);
        return Failed;
      }
    }
    assert ms[..|ms|] == ms;
    r := Listing(all);
  }

  lemma {:induction false} GroupsFail(t: Tree, o: Options, ms: seq<string>, i: nat)
    requires Finite(t) && i < |ms| && Group(t, o, ms[i]).None?
    ensures Groups(t, o, ms).None?
  {
    hide Group;
    if i < |ms| - 1 {
      GroupsFail(t, o, ms[..|ms| - 1], i);
    }
  }

  /** The body of the loop over the matches. */
  method Expand(t: Tree, o: Options, m: string, stack: Stack, all: Strings) returns (ok: bool)
    requires Finite(t) && stack.Valid() && stack.Contents() == [] && all.Valid()
    modifies stack, all
    ensures stack.Valid() && stack.Contents() == [] && all.Valid()
    ensures ok <==> Group(t, o, m).Some?
    ensures ok ==> all.Names() == old(all.Names()) + Group(t, o, m).value
  {
    hide Finite;
    hide Contents;
    var below := DoRecurs(t, o, m, stack);
    if below.Failed? {
      return false;
    }
    if below.files.num > 0 {
      all.AddAll(below.files);
    }
    if IsDeleted(LastPart(m)) {
      if o.findDeleted {
        all.Add(m);
      }
    } else if o.findUndeleted {
      all.Add(m);
    }
    ok := true;
  }
}
