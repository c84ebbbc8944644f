/** What do_match and do_recurs of athena/bin/delete/pattern.c return, said in texts and directories
    alone: which names must be in which directories for a path to be found, and what the path then
    looks like. */
module SearchResults {
  import opened Wrappers
  import opened Glob
  import opened Paths
  import P = PathSearch
  import T = TreeListing

  /** Directories hold names that are not empty and have no slash. */
  ghost predicate PlainNames(fs: string -> Option<seq<string>>) {
    forall d, n | fs(d).Some? && n in fs(d).value :: Plain(n)
  }

  ghost predicate AllPlain(steps: seq<string>) { forall s | s in steps :: Plain(s) }

  /** The path along `steps` is short enough to be put together.  (A name on its own is not joined
      to anything.) */
  predicate Fits(base: string, steps: seq<string>) {
    |PathText(base, steps)| < MAXPATHLEN || (base == "" && |steps| == 1)
  }

  /** What is returned for the path along `steps`: one that is too long is replaced by nothing. */
  function Returned(base: string, steps: seq<string>): string {
    if Fits(base, steps) then PathText(base, steps) else ""
  }

  /** All the directories on the way have paths that can be put together. */
  ghost predicate WayFits(base: string, steps: seq<string>) {
    forall k | 0 < k < |steps| :: Fits(base, steps[..k])
  }

  /** One step further is one name appended. */
  lemma FirstAppend(base: string, name: string)
    requires Plain(name)
    ensures Append(base, name) == Returned(base, [name])
    ensures Append(base, name) != "" <==> Fits(base, [name])
    ensures PathText(base, [name]) != "" && PathText(base, [name])[|PathText(base, [name])| - 1] != '/'
  {
    if base != "" { AppendText(base, name); }
    assert Slashed([name]) == name;
    assert name[|name| - 1] in name;
    var start := base + if base == "" || base[|base| - 1] == '/' then "" else "/";
    assert PathText(base, [name]) == start + name;
    assert (start + name)[|start| + |name| - 1] == name[|name| - 1];
  }

  /** Prefixes of a path, from its first directory on. */
  lemma RestOfWay(base: string, steps: seq<string>, k: nat)
    requires AllPlain(steps) && 0 < k <= |steps|
    ensures var base' := PathText(base, steps[..1]);
            && steps[..1] == [steps[0]]
            && PathText(base', steps[1..][..k - 1]) == PathText(base, steps[..k])
            && (k > 1 ==> (Fits(base', steps[1..][..k - 1]) <==> Fits(base, steps[..k])))
  {
    assert steps[0] in steps;
    assert steps[..1] == [steps[0]];
    var more := steps[1..][..k - 1];
    assert steps[..k] == [steps[0]] + more;
    if more != [] {
      PathTextCons(base, steps[0], more);
    }
  }

  lemma {:induction false} PathIsText(base: string, steps: seq<string>)
    requires AllPlain(steps) && steps != [] && WayFits(base, steps)
    ensures P.Path(base, steps) == Returned(base, steps)
    decreases |steps|
  {
    hide PathText, Slashed, Append, Plain;
    assert steps[0] in steps;
    FirstAppend(base, steps[0]);
    RestOfWay(base, steps, 1);
    assert steps[..|steps|] == steps;
    if |steps| == 1 {
      assert steps == [steps[0]] && steps[1..] == [];
    } else {
      var base', more := PathText(base, steps[..1]), steps[1..];
      assert Fits(base, steps[..1]);
      forall k | 0 < k < |more|
        ensures Fits(base', more[..k])
      {
        RestOfWay(base, steps, k + 1);
      }
      RestOfWay(base, steps, |steps|);
      assert more[..|more|] == more;
      PathIsText(base', more);
    }
  }

  lemma TailPlain(steps: seq<string>)
    requires AllPlain(steps) && steps != []
    ensures AllPlain(steps[1..]) && Plain(steps[0])
  {
  }

  // ----- The search for a pattern -----

  /** Step `i` is in the directory that the steps before it lead to, and component `i` takes it. */
  ghost predicate Step(q: P.Query, base: string, comps: seq<string>, steps: seq<string>, i: nat)
    requires i < |steps| && i < |comps|
  {
    var dir := PathText(base, steps[..i]);
    && (i > 0 ==> Fits(base, steps[..i]))
    && q.fs(dir).Some? && steps[i] in q.fs(dir).value
    && P.Takes(q, comps[i], steps[i])
  }

  ghost predicate Chain(q: P.Query, base: string, comps: seq<string>, steps: seq<string>) {
    |steps| == |comps| > 0 && forall i | 0 <= i < |steps| :: Step(q, base, comps, steps, i)
  }

  /** A chain is a step and a chain from the directory that it leads to. */
  lemma ChainCons(q: P.Query, base: string, comps: seq<string>, steps: seq<string>)
    requires AllPlain(steps) && |steps| == |comps| > 1
    ensures Chain(q, base, comps, steps) <==>
            && Step(q, base, comps, steps, 0) && Fits(base, steps[..1])
            && Chain(q, PathText(base, steps[..1]), comps[1..], steps[1..])
  {
    hide PathText, P.Takes, Fits, Plain;
    var base', more, rest := PathText(base, steps[..1]), steps[1..], comps[1..];
    forall i | 0 <= i < |more|
      ensures Fits(base, steps[..1]) ==> (Step(q, base', rest, more, i) <==> Step(q, base, comps, steps, i + 1))
    {
      RestOfWay(base, steps, i + 1);
    }
    if Chain(q, base, comps, steps) {
      assert Step(q, base, comps, steps, 1);
    }
    if Fits(base, steps[..1]) && Step(q, base, comps, steps, 0) && Chain(q, base', rest, more) {
      forall i | 0 <= i < |steps|
        ensures Step(q, base, comps, steps, i)
      {
        if i > 0 { assert Step(q, base', rest, more, i - 1); }
      }
    }
    hide Step;
  }

  lemma {:induction false} StepsPlain(q: P.Query, base: string, comps: seq<string>, steps: seq<string>)
    requires PlainNames(q.fs) && Chain(q, base, comps, steps)
    ensures AllPlain(steps)
  {
    hide Plain, P.Takes, PathText, Fits;
    forall s | s in steps
      ensures Plain(s)
    {
      var i :| 0 <= i < |steps| && steps[i] == s;
      assert Step(q, base, comps, steps, i);
    }
  }

  lemma {:induction false} WalkPlain(q: P.Query, names: seq<string>, base: string, comps: seq<string>, steps: seq<string>)
    requires PlainNames(q.fs) && (forall n | n in names :: Plain(n)) && P.Walk(q, names, base, comps, steps)
    ensures AllPlain(steps)
    decreases |comps|
  {
    hide Plain, P.Takes, Append;
    assert steps == [steps[0]] + steps[1..];
    if |comps| > 1 {
      var path := Append(base, steps[0]);
      WalkPlain(q, P.Open(q, path).value, path, comps[1..], steps[1..]);
    }
  }

  lemma {:induction false} WalkIsChain(q: P.Query, base: string, comps: seq<string>, steps: seq<string>)
    requires PlainNames(q.fs) && q.fs(base).Some? && AllPlain(steps)
    ensures P.Walk(q, q.fs(base).value, base, comps, steps) <==> Chain(q, base, comps, steps)
    decreases |comps|
  {
    hide Plain, P.Takes, Append, PathText, Fits, Returned, AllPlain, PlainNames;
    if |steps| == |comps| && comps != [] {
      NoStepsText(base, steps);
      assert Step(q, base, comps, steps, 0) <==> steps[0] in q.fs(base).value && P.Takes(q, comps[0], steps[0]);
      if |comps| > 1 {
        TailPlain(steps);
        FirstDirectory(base, steps);
        ChainCons(q, base, comps, steps);
        if Chain(q, base, comps, steps) { SecondDirectory(q, base, comps, steps); }
        var path := Append(base, steps[0]);
        if P.Open(q, path).Some? {
          WalkIsChain(q, path, comps[1..], steps[1..]);
        }
      }
    }
  }

  lemma SecondDirectory(q: P.Query, base: string, comps: seq<string>, steps: seq<string>)
    requires Chain(q, base, comps, steps) && |steps| > 1
    ensures Fits(base, steps[..1]) && q.fs(PathText(base, steps[..1])).Some?
  {
    assert Step(q, base, comps, steps, 1);
  }

  lemma NoStepsText(base: string, steps: seq<string>)
    ensures PathText(base, steps[..0]) == base
  {
    assert steps[..0] == [];
  }

  lemma FirstDirectory(base: string, steps: seq<string>)
    requires AllPlain(steps) && steps != []
    ensures Append(base, steps[0]) != "" <==> Fits(base, steps[..1])
    ensures Fits(base, steps[..1]) ==> Append(base, steps[0]) == PathText(base, steps[..1])
  {
    hide PathText, Append;
    assert steps[0] in steps;
    assert steps[..1] == [steps[0]];
    FirstAppend(base, steps[0]);
  }

  /** Files are wanted by whether their own name is that of a deleted file. */
  ghost predicate WantedLast(q: P.Query, base: string, steps: seq<string>)
    requires steps != []
  {
    if Fits(base, steps) && MarkedDeleted(steps[|steps| - 1]) then q.deleted else q.undeleted
  }

  lemma {:induction false} LastOfText(base: string, steps: seq<string>)
    requires AllPlain(steps) && steps != []
    ensures LastPart(PathText(base, steps)) == steps[|steps| - 1]
    decreases |steps|
  {
    hide *;
    TailPlain(steps);
    assert steps == [steps[0]] + steps[1..];
    if |steps| == 1 {
      assert steps == [steps[0]];
      LastOfOne(base, steps[0]);
    } else {
      PathTextCons(base, steps[0], steps[1..]);
      LastOfText(PathText(base, [steps[0]]), steps[1..]);
    }
  }

  lemma LastOfOne(base: string, name: string)
    requires Plain(name)
    ensures LastPart(PathText(base, [name])) == name
  {
    hide LastPart;
    var start := base + if base == "" || base[|base| - 1] == '/' then "" else "/";
    assert PathText(base, [name]) == start + name;
    LastPartAfterSlash(start, name);
  }

  lemma WantedIsLast(q: P.Query, base: string, steps: seq<string>)
    requires AllPlain(steps) && steps != []
    ensures P.Wanted(q, Returned(base, steps)) <==> WantedLast(q, base, steps)
  {
    hide *;
    var p, last := Returned(base, steps), steps[|steps| - 1];
    LastOfText(base, steps);
    MarkedName(last);
    MarkedName(LastPart(p));
    if Fits(base, steps) { WhenFitting(base, steps); } else { WhenTooLong(base, steps); }
    WantedByName(q, p);
    WantedByLast(q, base, steps);
  }

  lemma WhenFitting(base: string, steps: seq<string>)
    requires Fits(base, steps)
    ensures Returned(base, steps) == PathText(base, steps)
  {
    hide PathText, Fits;
  }

  lemma WhenTooLong(base: string, steps: seq<string>)
    requires !Fits(base, steps)
    ensures !MarkedDeleted(LastPart(Returned(base, steps)))
  {
    hide PathText, Fits;
    assert |LastPart("")| == 0;
  }

  lemma WantedByName(q: P.Query, p: string)
    ensures P.Wanted(q, p) <==> if IsDeleted(LastPart(p)) then q.deleted else q.undeleted
  {
    hide IsDeleted, LastPart;
  }

  lemma WantedByLast(q: P.Query, base: string, steps: seq<string>)
    requires steps != []
    ensures WantedLast(q, base, steps) <==>
            if Fits(base, steps) && MarkedDeleted(steps[|steps| - 1]) then q.deleted else q.undeleted
  {
    hide Fits, MarkedDeleted;
  }

  lemma MarkedName(name: string)
    ensures IsDeleted(name) <==> MarkedDeleted(name)
  {
    if IsDeleted(name) { assert name[..2] == ".#"; }
  }

  /** Where a search starts, and what it is for. */
  function Base(name: string): string { if "/" <= name then "/" else "" }

  function Parts(name: string): (r: seq<string>)
    ensures r != []
  {
    P.Sought(if "/" <= name then name[1..] else name)
  }

  ghost predicate IsMatch(q: P.Query, name: string, p: string) {
    if Parts(name)[0] == "" && q.undeleted then p == Base(name)
    else exists steps :: Chain(q, Base(name), Parts(name), steps) && WantedLast(q, Base(name), steps) && p == Returned(Base(name), steps)
  }

  /** The whole search in these terms: for a pattern of well-formed components, in a file system
      whose directories hold plain names, a path is found exactly if it is that of names, one for
      each component and taken by it, each in the directory that the names before it lead to, and
      the last one is of a kind that is wanted.  A pattern whose first component is empty finds the
      directory that the search starts from, when files that are not deleted are wanted. */
  lemma FoundPaths(q: P.Query, name: string, p: string)
    requires PlainNames(q.fs) && forall c | c in Parts(name) :: WellFormed(c)
    ensures P.Matches(q, name).None? <==> q.fs(Base(name)).None?
    ensures P.Matches(q, name).Some? ==> (p in P.Matches(q, name).value <==> IsMatch(q, name, p))
  {
    var base, comps := Base(name), Parts(name);
    if P.Matches(q, name).Some? {
      P.MatchesFinds(q, name, p);
      var names := q.fs(base).value;
      hide P.Matches, P.Components, P.Sought, P.Walk, P.Path, P.Wanted, Chain, Returned, WantedLast, Parts;
      if P.Found(q, names, base, comps, p) {
        var steps :| P.Walk(q, names, base, comps, steps) && P.Path(base, steps) == p;
        WalkPlain(q, names, base, comps, steps);
        WalkResult(q, base, comps, steps);
      }
      if steps :| Chain(q, base, comps, steps) && WantedLast(q, base, steps) && p == Returned(base, steps) {
        StepsPlain(q, base, comps, steps);
        WalkResult(q, base, comps, steps);
      }
    }
  }

  lemma WalkResult(q: P.Query, base: string, comps: seq<string>, steps: seq<string>)
    requires PlainNames(q.fs) && q.fs(base).Some? && AllPlain(steps) && comps != []
    ensures P.Walk(q, q.fs(base).value, base, comps, steps) <==> Chain(q, base, comps, steps)
    ensures Chain(q, base, comps, steps) ==>
            steps != [] && P.Path(base, steps) == Returned(base, steps) && (P.Wanted(q, P.Path(base, steps)) <==> WantedLast(q, base, steps))
  {
    WalkIsChain(q, base, comps, steps);
    if Chain(q, base, comps, steps) {
      forall k | 0 < k < |steps|
        ensures Fits(base, steps[..k])
      {
        assert Step(q, base, comps, steps, k);
      }
      hide Chain, Returned, P.Wanted, P.Path, WantedLast;
      PathIsText(base, steps);
      WantedIsLast(q, base, steps);
    }
  }

  // ----- The listing of a tree -----

  /** The name of a deleted file. */
  predicate MarkedDeleted(n: string) { ".#" <= n }

  /** A directory's entry for itself or for its parent. */
  predicate SelfOrParent(n: string) { n == "." || n == ".." }

  /** The options ask for the name: deleted files if any option is about them, others if any option
      is about those, but never a directory itself or its parent. */
  ghost predicate AsksFor(o: T.Options, n: string) {
    if MarkedDeleted(n) then o.findDeleted || o.recursFindDeleted || o.recursDeleted
    else (o.findUndeleted || o.recursFindUndeleted) && !SelfOrParent(n)
  }

  /** The options go into a directory of that name: a deleted one if the contents of deleted
      directories are asked for, another one if any kind of file is looked for recursively. */
  ghost predicate GoesInto(o: T.Options, n: string) {
    if MarkedDeleted(n) then o.recursDeleted
    else (o.recursFindDeleted || o.recursFindUndeleted) && !SelfOrParent(n)
  }

  lemma OptionsMeaning(o: T.Options, n: string)
    ensures T.Listed(o.Implied(), n) <==> AsksFor(o, n)
    ensures T.Entered(o.Implied(), n) <==> GoesInto(o, n)
  {
    hide *;
    NameKinds(n);
    OptionsFor(o, n);
    Asked(o, n);
  }

  lemma NameKinds(n: string)
    ensures IsDeleted(n) <==> MarkedDeleted(n)
    ensures IsDotfile(n) <==> SelfOrParent(n)
  {
    hide *;
    MarkedName(n);
    Dotfiles(n);
  }

  lemma Dotfiles(n: string)
    ensures IsDotfile(n) <==> SelfOrParent(n)
  {
  }

  lemma OptionsFor(o: T.Options, n: string)
    ensures T.Listed(o.Implied(), n) <==>
            if IsDeleted(n) then o.findDeleted || o.recursFindDeleted || o.recursDeleted
            else (o.findUndeleted || o.recursFindUndeleted) && !IsDotfile(n)
    ensures T.Entered(o.Implied(), n) <==>
            if IsDeleted(n) then o.recursDeleted
            else (o.recursFindDeleted || o.recursFindUndeleted) && !IsDotfile(n)
  {
    hide IsDeleted, IsDotfile;
  }

  lemma Asked(o: T.Options, n: string)
    ensures AsksFor(o, n) <==>
            if MarkedDeleted(n) then o.findDeleted || o.recursFindDeleted || o.recursDeleted
            else (o.findUndeleted || o.recursFindUndeleted) && !SelfOrParent(n)
    ensures GoesInto(o, n) <==>
            if MarkedDeleted(n) then o.recursDeleted
            else (o.recursFindDeleted || o.recursFindUndeleted) && !SelfOrParent(n)
  {
    hide MarkedDeleted, SelfOrParent;
  }

  ghost predicate PlainTree(t: T.Tree) {
    && PlainNames(t.enter)
    && forall d, n | t.start(d).Directory? && n in t.start(d).names :: Plain(n)
  }

  /** Step `i` is in the directory that the steps before it lead to, which is gone into. */
  ghost predicate Deeper(t: T.Tree, o: T.Options, base: string, steps: seq<string>, i: nat)
    requires 0 < i < |steps|
  {
    var dir := PathText(base, steps[..i]);
    && GoesInto(o, steps[i - 1]) && Fits(base, steps[..i])
    && t.enter(dir).Some? && steps[i] in t.enter(dir).value
  }

  ghost predicate ListChain(t: T.Tree, o: T.Options, names: seq<string>, base: string, steps: seq<string>) {
    && steps != [] && steps[0] in names && AsksFor(o, steps[|steps| - 1])
    && forall i | 0 < i < |steps| :: Deeper(t, o, base, steps, i)
  }

  lemma ListChainCons(t: T.Tree, o: T.Options, names: seq<string>, base: string, steps: seq<string>)
    requires AllPlain(steps) && |steps| > 1
    ensures var dir := PathText(base, steps[..1]);
            ListChain(t, o, names, base, steps) <==>
            && steps[0] in names && GoesInto(o, steps[0]) && Fits(base, steps[..1])
            && t.enter(dir).Some? && ListChain(t, o, t.enter(dir).value, dir, steps[1..])
  {
    hide PathText, GoesInto, AsksFor, Fits, Plain;
    var dir, more := PathText(base, steps[..1]), steps[1..];
    forall i | 0 < i < |more|
      ensures Deeper(t, o, dir, more, i) <==> Deeper(t, o, base, steps, i + 1)
    {
      RestOfWay(base, steps, i + 1);
    }
    if ListChain(t, o, names, base, steps) {
      assert Deeper(t, o, base, steps, 1);
    }
    if t.enter(dir).Some? && Fits(base, steps[..1]) && GoesInto(o, steps[0]) && ListChain(t, o, t.enter(dir).value, dir, more) {
      forall i | 0 < i < |steps|
        ensures Deeper(t, o, base, steps, i)
      {
        if i > 1 { assert Deeper(t, o, dir, more, i - 1); }
      }
    }
    hide Deeper;
  }

  lemma {:induction false} LeadsIsChain(t: T.Tree, o: T.Options, names: seq<string>, base: string, steps: seq<string>)
    requires AllPlain(steps)
    ensures T.Leads(t, o.Implied(), names, base, steps) <==> ListChain(t, o, names, base, steps)
    decreases |steps|
  {
    hide AsksFor, GoesInto, T.Listed, T.Entered, PathText, Fits, Append, AllPlain;
    if steps != [] {
      OptionsMeaning(o, steps[0]);
      if |steps| > 1 {
        TailPlain(steps);
        FirstDirectory(base, steps);
        ListChainCons(t, o, names, base, steps);
        hide ListChain;
        var path := Append(base, steps[0]);
        if T.Open(t, path).Some? {
          LeadsIsChain(t, o, T.Open(t, path).value, path, steps[1..]);
        }
      }
    }
  }

  lemma {:induction false} LeadsPlain(t: T.Tree, o: T.Options, names: seq<string>, base: string, steps: seq<string>)
    requires PlainNames(t.enter) && (forall n | n in names :: Plain(n)) && T.Leads(t, o, names, base, steps)
    ensures AllPlain(steps)
    decreases |steps|
  {
    hide T.Listed, T.Entered, Append, Plain;
    assert steps == [steps[0]] + steps[1..];
    if |steps| > 1 {
      var path := Append(base, steps[0]);
      LeadsPlain(t, o, T.Open(t, path).value, path, steps[1..]);
    }
  }

  lemma ListChainPlain(t: T.Tree, o: T.Options, names: seq<string>, base: string, steps: seq<string>)
    requires PlainNames(t.enter) && (forall n | n in names :: Plain(n)) && ListChain(t, o, names, base, steps)
    ensures AllPlain(steps)
  {
    hide AsksFor, GoesInto, Plain, PathText, Fits;
    forall s | s in steps
      ensures Plain(s)
    {
      var i :| 0 <= i < |steps| && steps[i] == s;
      if i > 0 { assert Deeper(t, o, base, steps, i); }
    }
  }

  lemma ListChainFits(t: T.Tree, o: T.Options, names: seq<string>, base: string, steps: seq<string>)
    requires ListChain(t, o, names, base, steps)
    ensures WayFits(base, steps)
  {
    forall k | 0 < k < |steps|
      ensures Fits(base, steps[..k])
    {
      assert Deeper(t, o, base, steps, k);
    }
  }

  /** The listing of a directory in these terms: a path is listed exactly if it is that of names,
      the first one in the directory and each other in the directory that the names before it lead
      to, all of these directories ones that the options go into, and the last name one that they
      ask for. */
  lemma ListedPaths(t: T.Tree, o: T.Options, name: string, p: string)
    requires T.Finite(t) && PlainTree(t)
    ensures T.Contents(t, o, name).None? <==> t.start(name).Unreadable?
    ensures t.start(name).Leaf? ==> T.Contents(t, o, name) == Some([])
    ensures t.start(name).Directory? ==>
            (p in T.Contents(t, o, name).value <==>
               exists steps :: ListChain(t, o, t.start(name).names, name, steps) && p == Returned(name, steps))
  {
    if t.start(name).Directory? {
      var names := t.start(name).names;
      ListedInside(t, o, names, name, p);
      hide T.List, ListChain, Returned, PlainTree;
    }
  }

  lemma ListedInside(t: T.Tree, o: T.Options, names: seq<string>, base: string, p: string)
    requires T.Finite(t) && T.Below(t, names, base) && PlainNames(t.enter) && forall n | n in names :: Plain(n)
    ensures p in T.List(t, o.Implied(), names, base) <==>
            exists steps :: ListChain(t, o, names, base, steps) && p == Returned(base, steps)
  {
    T.ListMeaning(t, o.Implied(), names, base, p);
    hide T.List, T.Leads, ListChain, Returned, T.Finite, T.Below, P.Path, Plain;
    if T.Reached(t, o.Implied(), names, base, p) {
      var steps :| T.Leads(t, o.Implied(), names, base, steps) && P.Path(base, steps) == p;
      LeadsPlain(t, o.Implied(), names, base, steps);
      LeadsIsChain(t, o, names, base, steps);
      ListChainText(t, o, names, base, steps);
    }
    if steps :| ListChain(t, o, names, base, steps) && p == Returned(base, steps) {
      ListChainPlain(t, o, names, base, steps);
      LeadsIsChain(t, o, names, base, steps);
      ListChainText(t, o, names, base, steps);
    }
  }

  lemma ListChainText(t: T.Tree, o: T.Options, names: seq<string>, base: string, steps: seq<string>)
    requires ListChain(t, o, names, base, steps) && AllPlain(steps)
    ensures P.Path(base, steps) == Returned(base, steps)
  {
    ListChainFits(t, o, names, base, steps);
    PathIsText(base, steps);
  }

  // ----- Both together -----

  /** What is looked for among the files that match: deleted ones only if asked for themselves,
      others also as places to look in. */
  function MatchesFor(fs: string -> Option<seq<string>>, o: T.Options): P.Query {
    P.Query(fs, o.findUndeleted || o.recursFindUndeleted || o.recursFindDeleted || o.findContents, o.findDeleted)
  }

  predicate LooksBelow(o: T.Options) { o.recursFindUndeleted || o.recursFindDeleted || o.recursDeleted || o.findContents }

  ghost predicate IsBelow(t: T.Tree, o: T.Options, m: string, p: string) {
    t.start(m).Directory? && exists steps :: ListChain(t, o, t.start(m).names, m, steps) && p == Returned(m, steps)
  }

  ghost predicate FromMatch(t: T.Tree, o: T.Options, m: string, p: string) {
    IsBelow(t, o, m, p) || (p == m && if MarkedDeleted(LastPart(m)) then o.findDeleted else o.findUndeleted)
  }

  lemma GroupMeaning(t: T.Tree, o: T.Options, m: string, p: string)
    requires T.Finite(t) && PlainTree(t)
    ensures T.Group(t, o, m).None? <==> t.start(m).Unreadable?
    ensures T.Group(t, o, m).Some? ==> (p in T.Group(t, o, m).value <==> FromMatch(t, o, m, p))
  {
    hide *;
    ListedPaths(t, o, m, p);
    MarkedName(LastPart(m));
    OneGroup(t, o, m, p);
    FromOne(t, o, m, p);
  }

  lemma OneGroup(t: T.Tree, o: T.Options, m: string, p: string)
    requires T.Finite(t)
    ensures T.Group(t, o, m).None? <==> T.Contents(t, o, m).None?
    ensures T.Group(t, o, m).Some? ==>
            (p in T.Group(t, o, m).value <==>
               p in T.Contents(t, o, m).value || (p == m && if IsDeleted(LastPart(m)) then o.findDeleted else o.findUndeleted))
  {
    hide T.Contents, T.Finite, IsDeleted, LastPart;
  }

  lemma FromOne(t: T.Tree, o: T.Options, m: string, p: string)
    ensures t.start(m).Directory? ==>
            (IsBelow(t, o, m, p) <==> exists steps :: ListChain(t, o, t.start(m).names, m, steps) && p == Returned(m, steps))
    ensures !t.start(m).Directory? ==> !IsBelow(t, o, m, p)
    ensures FromMatch(t, o, m, p) <==>
            IsBelow(t, o, m, p) || (p == m && if MarkedDeleted(LastPart(m)) then o.findDeleted else o.findUndeleted)
  {
    hide ListChain, Returned, LastPart, MarkedDeleted;
  }

  lemma {:induction false} GroupsMeaning(t: T.Tree, o: T.Options, ms: seq<string>, p: string)
    requires T.Finite(t) && PlainTree(t)
    ensures T.Groups(t, o, ms).None? <==> exists m :: m in ms && t.start(m).Unreadable?
    ensures T.Groups(t, o, ms).Some? ==> (p in T.Groups(t, o, ms).value <==> exists m :: m in ms && FromMatch(t, o, m, p))
    decreases |ms|
  {
    hide T.Finite, PlainTree, T.Group, FromMatch;
    if ms != [] {
      var init, last := ms[..|ms| - 1], ms[|ms| - 1];
      assert ms == init + [last];
      GroupsMeaning(t, o, init, p);
      GroupMeaning(t, o, last, p);
    }
  }

  lemma AllMatches(fs: string -> Option<seq<string>>, o: T.Options, q: P.Query, name: string)
    requires q == MatchesFor(fs, o) && PlainNames(fs) && forall c | c in Parts(name) :: WellFormed(c)
    ensures P.Matches(q, name).None? <==> fs(Base(name)).None?
    ensures P.Matches(q, name).Some? ==> forall m :: m in P.Matches(q, name).value <==> IsMatch(q, name, m)
  {
    hide P.Matches, IsMatch, PlainNames, Parts;
    forall m
      ensures P.Matches(q, name).None? <==> fs(Base(name)).None?
      ensures P.Matches(q, name).Some? ==> (m in P.Matches(q, name).value <==> IsMatch(q, name, m))
    {
      FoundPaths(q, name, m);
    }
    FoundPaths(q, name, "");
  }

  lemma AllTogether(fs: string -> Option<seq<string>>, t: T.Tree, o: T.Options, q: P.Query, name: string)
    requires T.Finite(t) && q == MatchesFor(fs, o)
    ensures T.FindAll(fs, t, o, name) ==
            if P.Matches(q, name).None? then None
            else if LooksBelow(o) then T.Groups(t, o, P.Matches(q, name).value) else P.Matches(q, name)
  {
    hide T.Finite, T.Groups, P.Matches;
    assert q == T.MatchQuery(fs, o);
  }

  /** find_matches as a whole in these terms.  It fails exactly if the directory it starts from
      cannot be read, or what lies below a match is wanted and the match cannot be examined; else a
      path is found exactly if it is a match, or what the options ask for of a match and of what
      lies below it. */
  lemma FoundFiles(fs: string -> Option<seq<string>>, t: T.Tree, o: T.Options, name: string, p: string)
    requires T.Finite(t) && PlainTree(t) && PlainNames(fs) && forall c | c in Parts(name) :: WellFormed(c)
    ensures T.FindAll(fs, t, o, name).None? <==>
            fs(Base(name)).None? || (LooksBelow(o) && exists m :: IsMatch(MatchesFor(fs, o), name, m) && t.start(m).Unreadable?)
    ensures T.FindAll(fs, t, o, name).Some? ==>
            (p in T.FindAll(fs, t, o, name).value <==>
               if LooksBelow(o) then exists m :: IsMatch(MatchesFor(fs, o), name, m) && FromMatch(t, o, m, p)
               else IsMatch(MatchesFor(fs, o), name, p))
  {
    hide *;
    var q := MatchesFor(fs, o);
    AllMatches(fs, o, q, name);
    AllTogether(fs, t, o, q, name);
    if P.Matches(q, name).Some? {
      GroupsMeaning(t, o, P.Matches(q, name).value, p);
    }
  }
}
