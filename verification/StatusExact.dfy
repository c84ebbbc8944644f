/** Exactly which configurations survive the status files of StatusReport. */
module StatusExact {
  import opened StatusText
  import opened StatusReport

  // ----- Lines with missing fields -----

  /** The words that are there. */
  function Present(ws: seq<string>): seq<string> {
    if ws == [] then [] else (if ws[0] == "" then [] else [ws[0]]) + Present(ws[1..])
  }

  ghost predicate Loose(ws: seq<string>) { forall w | w in ws :: w == "" || Field(w) }

  /** A field that is missing leaves no trace on its line. */
  lemma {:induction false} WordsOfLoose(ws: seq<string>)
    requires Loose(ws)
    ensures Words(Unwords(ws)) == Present(ws)
    decreases |ws|
  {
    if ws == [] {
      NoWords();
    } else {
      var w, rest := ws[0], ws[1..];
      assert w in ws;
      WordsOfLoose(rest);
      UnwordsCons(ws);
      hide Words, Unwords, Spaces, WordEnd;
      NoWords();
      if rest == [] {
        FirstWordOnly(w);
        assert ws == [w];
      } else if w == "" {
        LeadingSpace(Unwords(rest));
        assert w + (" " + Unwords(rest)) == " " + Unwords(rest);
      } else {
        FirstWord(w, " " + Unwords(rest));
        LeadingSpace(Unwords(rest));
      }
    }
  }

  lemma FirstWordOnly(w: string)
    requires w == "" || Field(w)
    ensures Words(w) == if w == "" then [] else [w]
  {
    NoWords();
    hide Words;
    if w != "" {
      FirstWord(w, "");
      assert w + "" == w;
    }
  }

  lemma {:induction false} PresentAppend(a: seq<string>, b: seq<string>)
    ensures Present(a + b) == Present(a) + Present(b)
  {
    if a == [] {
      assert a + b == b;
    } else {
      assert (a + b)[1..] == a[1..] + b;
      PresentAppend(a[1..], b);
    }
  }

  lemma {:induction false} PresentFields(ws: seq<string>)
    requires Fields(ws)
    ensures Present(ws) == ws
  {
    if ws != [] {
      assert ws[0] in ws;
      PresentFields(ws[1..]);
    }
  }

  lemma {:induction false} LooseLine(ws: seq<string>)
    requires Loose(ws)
    ensures '\n' !in Unwords(ws)
  {
    if ws != [] {
      assert ws[0] in ws;
      LooseLine(ws[1..]);
    }
  }

  // ----- Columns -----

  ghost predicate PlainName(n: string) { Field(n) && !Hyphen(n) }

  lemma OneWord(n: string)
    requires n != ""
    ensures Nth(Words(n), 0) == n <==> Field(n)
  {
    WordsAreFields(n);
    if Field(n) { FirstWordOnly(n); }
    hide Words;
    if Words(n) != [] { assert Words(n)[0] in Words(n); }
  }

  /** The names come back if and only if each is one word that does not begin like the divider. */
  lemma {:induction false} HeadingIff(names: seq<string>, rest: seq<string>)
    requires forall n | n in names :: n != ""
    ensures Heading(names + ["---"] + rest) == names <==> forall n | n in names :: PlainName(n)
  {
    var all := names + ["---"] + rest;
    if names != [] {
      var n, tail := names[0], names[1..];
      assert n in names && names == [n] + tail;
      assert all[1..] == tail + ["---"] + rest && all[0] == n;
      assert forall x | x in tail :: x in names;
      HeadingIff(tail, rest);
      HeadingCons(all);
      OneWord(n);
      hide Heading, Words, Field;
      if !Hyphen(n) && Heading(all) == names {
        assert Heading(all)[0] == n && Heading(all)[1..] == tail;
      }
    }
  }

  lemma {:induction false} PastHeadingIs(names: seq<string>, rest: seq<string>)
    requires forall n | n in names :: !Hyphen(n)
    ensures PastHeading(names + ["---"] + rest) == rest
  {
    var all := names + ["---"] + rest;
    if names == [] {
      assert all[1..] == rest;
    } else {
      assert names[0] in names && all[1..] == names[1..] + ["---"] + rest;
      PastHeadingIs(names[1..], rest);
    }
  }

  // ----- What an accepted configuration is sure to have -----

  ghost predicate Written(c: Config) {
    && Indexed(c)
    && (forall n | n in Columns(c) :: n != "" && '\n' !in n)
    && (forall k | k in c.clusters :: Field(k.name) && (k.phone == "" || Field(k.phone)))
    && (forall g | g in c.cgroups :: Field(g.name))
    && (forall p | p in c.printers :: Field(p.name) && Field(p.location))
  }

  ghost predicate Grouped(c: Config, k: Cluster) { 0 <= k.cgroup < |c.cgroups| }

  // ----- The cluster file -----

  function Entry(c: Config, i: nat, stats: seq<OutOf>): ClusterEntry
    requires i < |c.clusters|
  {
    ClusterEntry(c.clusters[i].name, c.clusters[i].cgroup != -1, c.clusters[i].phone, stats)
  }

  lemma ClusterLoose(c: Config, i: nat)
    requires Written(c) && i < |c.clusters|
    ensures Loose(ClusterWords(c, i))
  {
    var k := c.clusters[i];
    assert k in c.clusters;
    hide Stats, StatWords, Lower, Field, Fields;
    Literals();
    StatWordsFields(Stats(c, i));
    hide Written;
    LooseThree(k.name, if k.cgroup == -1 then "private" else "public", k.phone, StatWords(Stats(c, i)));
  }

  lemma LooseThree(a: string, b: string, p: string, ws: seq<string>)
    requires Field(a) && Field(b) && (p == "" || Field(p)) && Fields(ws)
    ensures Loose([a, b, p] + ws)
    ensures Present([a, b, p] + ws) == if p == "" then [a, b] + ws else [a, b, p] + ws
  {
    PresentAppend([a, b, p], ws);
    PresentFields(ws);
    assert Present([a, b, p]) == if p == "" then [a, b] else [a, b, p] by {
      assert [a, b, p][1..] == [b, p] && [b, p][1..] == [p] && [p][1..] == [];
      assert Present([p]) == if p == "" then [] else [p];
    }
    hide Field;
  }

  /** The line of a cluster gives it back if and only if it has a phone or there are no columns. */
  lemma ClusterIff(c: Config, i: nat)
    requires Written(c) && i < |c.clusters|
    ensures ClusterOf(Unwords(ClusterWords(c, i)), |Columns(c)|) == Entry(c, i, Stats(c, i))
       <==> c.clusters[i].phone != "" || Columns(c) == []
  {
    hide ClusterOf, Unwords, Columns, Stats, StatWords, Field, Lower;
    var k, stats := c.clusters[i], Stats(c, i);
    assert k in c.clusters;
    Literals();
    LineBack(k.name, if k.cgroup == -1 then "private" else "public", k.phone, stats);
    assert "public" != "private";
  }

  /** What is read from a line of a cluster: all of it if there is a phone; without a phone or
      counts, the rest; without a phone, the first count for a phone. */
  lemma LineBack(a: string, pub: string, p: string, stats: seq<OutOf>)
    requires Field(a) && Field(pub) && (p == "" || Field(p))
    ensures var r := ClusterOf(Unwords([a, pub, p] + StatWords(stats)), |stats|);
            && (p != "" || stats == [] ==> r == ClusterEntry(a, Lower(pub) == "public", p, stats))
            && (p == "" && stats != [] ==> r.phone != "")
  {
    hide Unwords, Words, Show, Lower, Atoi, StatWords, StatsOf, Fields, Field;
    var w := [a, pub, p] + StatWords(stats);
    StatWordsFields(stats);
    LooseThree(a, pub, p, StatWords(stats));
    WordsOfLoose(w);
    hide Present, Loose;
    if p != "" {
      StatsBack([a, pub, p], stats, |stats|);
      assert stats[..|stats|] == stats;
    } else if stats == [] {
      NoStats();
      NoStatsRead([a, pub] + []);
    } else {
      StatWordAt(stats, 0);
      ShowRoundTrip(stats[0].free);
      NotEmpty(Show(stats[0].free));
      assert ([a, pub] + StatWords(stats))[2] == StatWords(stats)[0];
    }
  }

  lemma NotEmpty(w: string)
    requires Field(w)
    ensures w != ""
  {
  }

  lemma NoStatsRead(w: seq<string>)
    ensures StatsOf(w, 0) == []
  {
  }

  /** What is read about the clusters is what was reported. */
  ghost predicate ClustersAre(c: Config, names: seq<string>, r: seq<ClusterEntry>) {
    && names == Columns(c) && |r| == |c.clusters|
    && forall i | 0 <= i < |r| :: r[i] == Entry(c, i, Stats(c, i))
  }

  ghost predicate ClustersIntact(c: Config) {
    var lines := Lines(Unlines(Columns(c) + ["---"] + ClusterLines(c, |c.clusters|)));
    ClustersAre(c, Heading(lines), ClustersOf(PastHeading(lines), |Heading(lines)|))
  }

  ghost predicate PhonesForColumns(c: Config) { forall k | k in c.clusters :: k.phone != "" || Columns(c) == [] }

  lemma ClustersIff(c: Config)
    requires Written(c)
    ensures ClustersIntact(c) <==> (forall n | n in Columns(c) :: PlainName(n)) && PhonesForColumns(c)
  {
    var names, rows := Columns(c), ClusterLines(c, |c.clusters|);
    var lines := names + ["---"] + rows;
    LinesThere(c);
    HeadingIff(names, rows);
    if forall n | n in names :: PlainName(n) {
      PastHeadingIs(names, rows);
      ClusterLinesAt(c, |c.clusters|);
      ClustersOfAt(rows, |names|);
      hide Columns, ClusterLines, ClustersOf, ClusterOf, Unwords, ClusterWords, Stats, Heading, PastHeading, Lines, Unlines;
      hide Written, PlainName;
      var r := ClustersOf(rows, |names|);
      forall i | 0 <= i < |rows|
        ensures r[i] == Entry(c, i, Stats(c, i)) <==> c.clusters[i].phone != "" || names == []
      {
        ClusterIff(c, i);
      }
      EveryCluster(c, r);
    }
  }

  lemma EveryCluster(c: Config, r: seq<ClusterEntry>)
    requires |r| == |c.clusters|
    requires forall i | 0 <= i < |r| :: r[i] == Entry(c, i, Stats(c, i)) <==> c.clusters[i].phone != "" || Columns(c) == []
    ensures (forall i | 0 <= i < |r| :: r[i] == Entry(c, i, Stats(c, i))) <==> PhonesForColumns(c)
  {
    hide Columns, Stats;
    forall k | k in c.clusters
      ensures exists i :: 0 <= i < |r| && c.clusters[i] == k
    {
    }
    assert forall i | 0 <= i < |c.clusters| :: c.clusters[i] in c.clusters;
  }

  lemma LinesThere(c: Config)
    requires Written(c)
    ensures var lines := Columns(c) + ["---"] + ClusterLines(c, |c.clusters|); Lines(Unlines(lines)) == lines
  {
    var rows := ClusterLines(c, |c.clusters|);
    ClusterLinesAt(c, |c.clusters|);
    hide ClusterLines, Unwords, ClusterWords, Columns, Stats, Lines, Unlines;
    forall l | l in rows
      ensures '\n' !in l
    {
      var i :| 0 <= i < |rows| && rows[i] == l;
      ClusterLoose(c, i);
      LooseLine(ClusterWords(c, i));
    }
    LinesOfUnlines(Columns(c) + ["---"] + rows);
  }

  // ----- The group file -----

  lemma {:induction false} DialupWordsLoose(ds: seq<Dialup>)
    requires forall d | d in ds :: Field(d.name) && (d.phone == "" || Field(d.phone))
    ensures Loose(DialupWords(ds))
  {
    if ds != [] {
      var n := |ds| - 1;
      assert ds[n] in ds;
      DialupWordsLoose(ds[..n]);
      hide Field;
    }
  }

  /** The clusters of a group come back if and only if each has a phone and a plain name. */
  lemma {:induction false} DialupsIff(ds: seq<Dialup>, ps: seq<string>)
    requires forall d | d in ds :: Field(d.name) && (d.phone == "" || Field(d.phone))
    ensures Dialups(Present(DialupWords(ds)) + ["---"] + ps) == ds
       <==> forall d | d in ds :: !Hyphen(d.name) && d.phone != ""
    decreases |ds|
  {
    hide Dialups, DialupWords, Present, Field, Hyphen;
    if ds == [] {
      NoDialups(ps);
    } else {
      var d, rest := ds[0], ds[1..];
      assert d in ds && ds == [d] + rest;
      assert forall x | x in rest :: x in ds;
      NotEmpty(d.name);
      DialupsIff(rest, ps);
      DialupWordsCons(ds);
      PresentPair(d.name, d.phone, DialupWords(rest));
      var more := Present(DialupWords(rest)) + ["---"] + ps;
      PresentNotEmpty(more, DialupWords(rest), ps);
      var pair := if d.phone == "" then [d.name] else [d.name, d.phone];
      assert pair + Present(DialupWords(rest)) + ["---"] + ps == pair + more;
      PairIff(d, rest, pair + more, more);
    }
  }

  lemma NoDialups(ps: seq<string>)
    ensures Dialups(Present(DialupWords([])) + ["---"] + ps) == []
  {
    assert Present([]) == [] && DialupWords([]) == [];
    assert [] + ["---"] + ps == ["---"] + ps;
  }

  /** The first cluster of a group, before whatever follows on its line. */
  lemma PairIff(d: Dialup, rest: seq<Dialup>, all: seq<string>, more: seq<string>)
    requires d.name != "" && more != [] && more[0] != ""
    requires all == (if d.phone == "" then [d.name] else [d.name, d.phone]) + more
    ensures Dialups(all) == [d] + rest <==> !Hyphen(d.name) && d.phone != "" && Dialups(more) == rest
  {
    FirstPair(all);
    hide Dialups, Hyphen;
    if d.phone == "" {
      assert all[1] == more[0];
    } else {
      assert Drop(all, 2) == more;
    }
    var found := Dialups(all);
    if found == [d] + rest {
      assert found[0] == d && found[1..] == rest;
    }
  }

  lemma FirstPair(all: seq<string>)
    requires all != []
    ensures Dialups(all) == if Hyphen(all[0]) then [] else [Dialup(all[0], Nth(all, 1))] + Dialups(Drop(all, 2))
  {
  }

  lemma PresentPair(a: string, b: string, ws: seq<string>)
    requires a != ""
    ensures Present([a, b] + ws) == (if b == "" then [a] else [a, b]) + Present(ws)
  {
    PresentAppend([a, b], ws);
    assert [a, b][1..] == [b] && [b][1..] == [];
    assert Present([b]) == if b == "" then [] else [b];
  }

  lemma {:induction false} PresentHolds(ws: seq<string>)
    ensures forall w | w in Present(ws) :: w != ""
  {
    if ws != [] { PresentHolds(ws[1..]); }
  }

  lemma PresentNotEmpty(more: seq<string>, ws: seq<string>, ps: seq<string>)
    requires more == Present(ws) + ["---"] + ps
    ensures more != [] && more[0] != ""
  {
    PresentHolds(ws);
    if Present(ws) != [] { assert more[0] == Present(ws)[0] && Present(ws)[0] in Present(ws); }
  }

  lemma {:induction false} DialupsInAre(c: Config, g: nat, n: nat)
    requires n <= |c.clusters|
    ensures forall d :: d in DialupsIn(c, g, n) <==>
              exists i :: 0 <= i < n && c.clusters[i].cgroup == g && d == Dialup(c.clusters[i].name, c.clusters[i].phone)
  {
    if n > 0 { DialupsInAre(c, g, n - 1); }
  }

  ghost predicate GroupsPlain(c: Config) {
    forall k | k in c.clusters && Grouped(c, k) :: !Hyphen(k.name) && k.phone != ""
  }

  ghost predicate GroupPlain(c: Config, g: nat) {
    forall d | d in DialupsIn(c, g, |c.clusters|) :: !Hyphen(d.name) && d.phone != ""
  }

  lemma GroupsPlainIff(c: Config)
    ensures GroupsPlain(c) <==> forall g: nat | g < |c.cgroups| :: GroupPlain(c, g)
  {
    forall g: nat | g < |c.cgroups|
      ensures GroupPlain(c, g) <==> forall k | k in c.clusters && k.cgroup == g :: !Hyphen(k.name) && k.phone != ""
    {
      DialupsInAre(c, g, |c.clusters|);
      hide DialupsIn, Hyphen;
      forall k | k in c.clusters && k.cgroup == g
        ensures Dialup(k.name, k.phone) in DialupsIn(c, g, |c.clusters|)
      {
        var i :| 0 <= i < |c.clusters| && c.clusters[i] == k;
      }
    }
    hide GroupPlain;
    if forall g: nat | g < |c.cgroups| :: GroupPlain(c, g) {
      forall k | k in c.clusters && Grouped(c, k)
        ensures !Hyphen(k.name) && k.phone != ""
      {
        var g: nat := k.cgroup;
        assert GroupPlain(c, g);
      }
    }
  }

  lemma DialupsWritten(c: Config, g: nat)
    requires Written(c)
    ensures forall d | d in DialupsIn(c, g, |c.clusters|) :: Field(d.name) && (d.phone == "" || Field(d.phone))
  {
    DialupsInAre(c, g, |c.clusters|);
    hide DialupsIn, Field;
  }

  lemma PrintersWritten(c: Config, g: nat, n: nat)
    requires Written(c) && n <= |c.printers|
    ensures Fields(PrintersIn(c, g, n))
    decreases n
  {
    if n > 0 {
      PrintersWritten(c, g, n - 1);
      assert c.printers[n - 1] in c.printers;
      hide Field;
    }
  }

  /** The words of a group's line that are there. */
  lemma CgroupPresent(c: Config, g: nat)
    requires Written(c) && g < |c.cgroups|
    ensures var k := c.cgroups[g];
            && Loose(CgroupWords(c, g))
            && Present(CgroupWords(c, g)) == [k.name, Show(k.x), Show(k.y)]
               + (Present(DialupWords(DialupsIn(c, g, |c.clusters|))) + ["---"] + PrintersIn(c, g, |c.printers|))
  {
    var k, ds, ps := c.cgroups[g], DialupsIn(c, g, |c.clusters|), PrintersIn(c, g, |c.printers|);
    assert k in c.cgroups;
    assert Field("---") && Field(k.name);
    DialupsWritten(c, g);
    PrintersWritten(c, g, |c.printers|);
    hide Written, DialupsIn, PrintersIn;
    DialupWordsLoose(ds);
    ShowRoundTrip(k.x);
    ShowRoundTrip(k.y);
    hide Show, DialupWords, Field, Atoi, Present, Loose, Fields;
    ThreeFields(k.name, Show(k.x), Show(k.y));
    OneField("---");
    GroupParts([k.name, Show(k.x), Show(k.y)], DialupWords(ds), ps);
  }

  lemma GroupParts(head: seq<string>, dw: seq<string>, ps: seq<string>)
    requires Fields(head) && Loose(dw) && Fields(ps) && Fields(["---"])
    ensures Loose(head + dw + ["---"] + ps)
    ensures Present(head + dw + ["---"] + ps) == head + (Present(dw) + ["---"] + ps)
  {
    hide Present, Field, Loose, Fields;
    PresentAppend(head + dw + ["---"], ps);
    PresentAppend(head + dw, ["---"]);
    PresentAppend(head, dw);
    PresentFields(head);
    PresentFields(["---"]);
    PresentFields(ps);
    LooseAppend(head, dw);
    LooseAppend(head + dw, ["---"]);
    LooseAppend(head + dw + ["---"], ps);
  }

  lemma LooseAppend(a: seq<string>, b: seq<string>)
    requires Loose(a) || Fields(a)
    requires Loose(b) || Fields(b)
    ensures Loose(a + b)
  {
    hide Field;
  }

  /** The line of a group gives it back if and only if each of its clusters has a phone and a name
      that does not begin with a hyphen. */
  lemma CgroupIff(c: Config, g: nat)
    requires Written(c) && g < |c.cgroups|
    ensures '\n' !in Unwords(CgroupWords(c, g))
    ensures CgroupOf(Unwords(CgroupWords(c, g))) == GroupEntry(c, g) <==> GroupPlain(c, g)
  {
    assert Indexed(c);
    CgroupPresent(c, g);
    DialupsWritten(c, g);
    hide Written, CgroupWords, DialupsIn, PrintersIn, DialupWords, Present, Field, Loose, Unwords, Words, Show, Atoi;
    hide Dialups, PastDialups;
    var k, w := c.cgroups[g], CgroupWords(c, g);
    var ds, ps := DialupsIn(c, g, |c.clusters|), PrintersIn(c, g, |c.printers|);
    var head, tail := [k.name, Show(k.x), Show(k.y)], Present(DialupWords(ds)) + ["---"] + ps;
    LooseLine(w);
    WordsOfLoose(w);
    ShowRoundTrip(k.x);
    ShowRoundTrip(k.y);
    assert Drop(head + tail, 3) == tail;
    DialupsIff(ds, ps);
    if GroupPlain(c, g) {
      PlainPast(ds, ps);
    }
  }

  lemma PlainPast(ds: seq<Dialup>, ps: seq<string>)
    requires forall d | d in ds :: Field(d.name) && (d.phone == "" || Field(d.phone))
    requires forall d | d in ds :: !Hyphen(d.name) && d.phone != ""
    ensures PastDialups(Present(DialupWords(ds)) + ["---"] + ps) == ps
  {
    DialupsBack(ds, ps);
    hide Field, Dialups, PastDialups, DialupWords;
    PresentFields(DialupWords(ds));
  }

  /** What is read about the groups is what was reported. */
  ghost predicate CgroupsAre(c: Config, r: seq<CgroupEntry>)
    requires Indexed(c)
  {
    |r| == |c.cgroups| && forall g: nat | g < |r| :: r[g] == GroupEntry(c, g)
  }

  ghost predicate CgroupsIntact(c: Config)
    requires Indexed(c)
  {
    CgroupsAre(c, CgroupsOf(Lines(Unlines(CgroupLines(c, |c.cgroups|)))))
  }

  lemma CgroupsIff(c: Config)
    requires Written(c)
    ensures CgroupsIntact(c) <==> GroupsPlain(c)
  {
    assert Indexed(c);
    hide CgroupLines, CgroupsOf, CgroupOf, Unwords, CgroupWords, GroupEntry, Lines, Unlines, Written, Indexed, GroupPlain, GroupsPlain;
    var lines := CgroupLines(c, |c.cgroups|);
    CgroupLinesAt(c, |c.cgroups|);
    CgroupsOfAt(lines);
    GroupLinesThere(c);
    var r := CgroupsOf(lines);
    forall g: nat | g < |c.cgroups|
      ensures r[g] == GroupEntry(c, g) <==> GroupPlain(c, g)
    {
      CgroupIff(c, g);
    }
    EveryGroup(c, r);
    GroupsPlainIff(c);
  }

  lemma EveryGroup(c: Config, r: seq<CgroupEntry>)
    requires Indexed(c) && |r| == |c.cgroups|
    requires forall g: nat | g < |r| :: r[g] == GroupEntry(c, g) <==> GroupPlain(c, g)
    ensures (forall g: nat | g < |r| :: r[g] == GroupEntry(c, g)) <==> forall g: nat | g < |c.cgroups| :: GroupPlain(c, g)
  {
    hide GroupEntry, GroupPlain, Indexed;
  }

  lemma GroupLinesThere(c: Config)
    requires Written(c)
    ensures var lines := CgroupLines(c, |c.cgroups|); Lines(Unlines(lines)) == lines
  {
    assert Indexed(c);
    var lines := CgroupLines(c, |c.cgroups|);
    CgroupLinesAt(c, |c.cgroups|);
    hide CgroupLines, CgroupOf, Unwords, CgroupWords, GroupEntry, Lines, Unlines, Written, Indexed, GroupPlain;
    forall l | l in lines
      ensures '\n' !in l
    {
      var g :| 0 <= g < |lines| && lines[g] == l;
      CgroupIff(c, g);
    }
    LinesOfUnlines(lines);
  }

  /** What is read about the printers is what was reported. */
  ghost predicate PrintersAre(c: Config, r: seq<PrinterEntry>) {
    && |r| == |c.printers|
    && forall i | 0 <= i < |r| :: var p := c.printers[i]; r[i] == PrinterEntry(p.name, p.location, p.up, p.jobs)
  }

  ghost predicate PrintersIntact(c: Config) { PrintersAre(c, PrintersOf(Lines(Unlines(PrinterLines(c.printers))))) }

  // ----- All three files -----

  /** Columns that are single words and do not begin with a hyphen; a phone for every cluster,
      unless there are no columns and the cluster is in no group; and no hyphen at the start of the
      name of a cluster in a group. */
  ghost predicate Plain(c: Config) {
    && (forall n | n in Columns(c) :: PlainName(n))
    && (forall k | k in c.clusters :: k.phone != "" || (Columns(c) == [] && !Grouped(c, k)))
    && (forall k | k in c.clusters && Grouped(c, k) :: !Hyphen(k.name))
  }

  /** The exact condition for a configuration to survive the three files; the printer file never
      loses anything. */
  lemma SurvivesIff(c: Config)
    requires Written(c)
    ensures ClustersIntact(c) && CgroupsIntact(c) && PrintersIntact(c) <==> Plain(c)
    ensures PrintersIntact(c)
  {
    assert Indexed(c);
    PrintersRoundTrip(c);
    hide ClustersIntact, CgroupsIntact, Columns, Written, PlainName, Hyphen, Indexed, PrintersIntact;
    ClustersIff(c);
    CgroupsIff(c);
  }

  /** One round of reports and of reading them: for any configuration as accepted the printers are
      read as they were, and the rest is if and only if the configuration is plain. */
  method ReportAndRead(c: Config, bufsize: nat)
    returns (archnames: seq<string>, clusters: seq<ClusterEntry>, printers: seq<PrinterEntry>, cgroups: seq<CgroupEntry>)
    requires Written(c) && bufsize >= 2
    ensures PrintersAre(c, printers)
    ensures ClustersAre(c, archnames, clusters) && CgroupsAre(c, cgroups) <==> Plain(c)
  {
    hide Columns, Stats, GroupEntry, Lines, Unlines, PrintersOf, ClustersOf, CgroupsOf, Heading, PastHeading,
      PrinterLines, ClusterLines, CgroupLines, ClustersAre, CgroupsAre, PrintersAre, Plain;
    var text := ReportCgroups(c);
    cgroups := ReadCgroups(text, bufsize);
    text := ReportClusters(c);
    archnames, clusters := ReadClusters(text, bufsize);
    text := ReportPrinters(c);
    printers := ReadPrinters(text, bufsize);
    SurvivesIff(c);
  }
}
