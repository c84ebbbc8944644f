/** The status files: what larvnetd reports (athena/etc/larvnetd/report.c) and what cviewd reads
    back (athena/etc/cviewd/cviewd.c). */
module StatusReport {
  import opened Wrappers
  import opened StatusText
  import opened Machines

  // ----- What the reporter knows -----

  datatype Arch = Arch(netnames: seq<string>, reportname: string)
  datatype Cgroup = Cgroup(name: string, x: int, y: int)
  datatype Cluster = Cluster(name: string, phone: string, cgroup: int)
  datatype Printer = Printer(name: string, cluster: nat, location: string, up: bool, jobs: int)
  datatype Config = Config(
    arches: seq<Arch>, reportOther: Option<string>, reportUnknown: Option<string>,
    cgroups: seq<Cgroup>, clusters: seq<Cluster>, machines: seq<Machine>, printers: seq<Printer>)

  /** Indices that are in range; a cluster outside of all groups has group -1. */
  ghost predicate Indexed(c: Config) {
    && (forall m | m in c.machines :: m.cluster < |c.clusters|)
    && (forall p | p in c.printers :: p.cluster < |c.clusters|)
  }

  // ----- What the reader gets -----

  datatype OutOf = OutOf(free: int, total: int)
  datatype ClusterEntry = ClusterEntry(name: string, public: bool, phone: string, stats: seq<OutOf>)
  datatype PrinterEntry = PrinterEntry(name: string, cluster: string, up: bool, jobs: int)
  datatype Dialup = Dialup(name: string, phone: string)
  datatype CgroupEntry = CgroupEntry(name: string, x: int, y: int, clusters: seq<Dialup>, printers: seq<string>)

  // ----- Counting machines -----

  /** The first architecture from `i` on that has the name. */
  ghost function ArchFrom(arches: seq<Arch>, name: string, i: nat): nat
    requires i <= |arches|
    decreases |arches| - i
  {
    if i == |arches| then i
    else if name in arches[i].netnames then i
    else ArchFrom(arches, name, i + 1)
  }

  /** The column of an architecture: the one past the last is for others, the next for unknown. */
  ghost function Column(c: Config, arch: Option<string>): nat {
    if arch.None? || arch.value == "" then |c.arches| + 1 else ArchFrom(c.arches, arch.value, 0)
  }

  lemma {:induction false} ArchFromRange(arches: seq<Arch>, name: string, i: nat)
    requires i <= |arches|
    ensures i <= ArchFrom(arches, name, i) <= |arches|
    decreases |arches| - i
  {
    if i < |arches| { ArchFromRange(arches, name, i + 1); }
  }

  ghost function Tally(c: Config, ms: seq<Machine>, i: nat, j: nat): OutOf {
    if ms == [] then OutOf(0, 0)
    else
      var n := |ms| - 1;
      var t, m := Tally(c, ms[..n], i, j), ms[n];
      if m.cluster == i && Column(c, m.arch) == j
      then OutOf(if m.busy == FREE then t.free + 1 else t.free, t.total + 1)
      else t
  }

  /** The machine is of cluster `i` and its architecture is in column `j`. */
  ghost predicate InCell(c: Config, m: Machine, i: nat, j: nat) { m.cluster == i && Column(c, m.arch) == j }

  ghost function Cell(c: Config, ms: seq<Machine>, i: nat, j: nat): set<nat> {
    set k: nat | k < |ms| && InCell(c, ms[k], i, j)
  }

  /** Those machines that are free: neither busy nor in an unknown state. */
  ghost function FreeCell(c: Config, ms: seq<Machine>, i: nat, j: nat): set<nat> {
    set k: nat | k < |ms| && InCell(c, ms[k], i, j) && ms[k].busy != BUSY && ms[k].busy != UNKNOWN_BUSYSTATE
  }

  /** An entry of the matrix is how many machines there are, and how many of them are free. */
  lemma {:induction false} TallyCounts(c: Config, ms: seq<Machine>, i: nat, j: nat)
    ensures Tally(c, ms, i, j) == OutOf(|FreeCell(c, ms, i, j)|, |Cell(c, ms, i, j)|)
    decreases |ms|
  {
    hide Column, Cell, FreeCell;
    if ms != [] {
      TallyCounts(c, ms[..|ms| - 1], i, j);
      CellGrows(c, ms, i, j);
      FreeCellGrows(c, ms, i, j);
    } else {
      NoneInCell(c, i, j);
    }
  }

  lemma NoneInCell(c: Config, i: nat, j: nat)
    ensures Cell(c, [], i, j) == {} && FreeCell(c, [], i, j) == {}
  {
  }

  lemma CellGrows(c: Config, ms: seq<Machine>, i: nat, j: nat)
    requires ms != []
    ensures var n := |ms| - 1;
            |Cell(c, ms, i, j)| == |Cell(c, ms[..n], i, j)| + (if InCell(c, ms[n], i, j) then 1 else 0)
  {
    hide InCell;
    var n := |ms| - 1;
    assert Cell(c, ms, i, j) == Cell(c, ms[..n], i, j) + if InCell(c, ms[n], i, j) then {n} else {};
  }

  lemma FreeCellGrows(c: Config, ms: seq<Machine>, i: nat, j: nat)
    requires ms != []
    ensures var n := |ms| - 1;
            |FreeCell(c, ms, i, j)| == |FreeCell(c, ms[..n], i, j)| + (if InCell(c, ms[n], i, j) && ms[n].busy == FREE then 1 else 0)
  {
    hide InCell;
    var n := |ms| - 1;
    assert FreeCell(c, ms, i, j) == FreeCell(c, ms[..n], i, j) + if InCell(c, ms[n], i, j) && ms[n].busy == FREE then {n} else {};
  }

  /** The column of an architecture is that of the first one with the name among its net names, the
      one behind the last if there is none, and the next one if no architecture is known. */
  lemma {:induction false} ColumnMeaning(c: Config, arch: Option<string>)
    ensures arch == None || arch == Some("") ==> Column(c, arch) == |c.arches| + 1
    ensures arch.Some? && arch.value != "" ==>
            var j := Column(c, arch);
            && j <= |c.arches| && (forall k | 0 <= k < j :: arch.value !in c.arches[k].netnames)
            && (j < |c.arches| ==> arch.value in c.arches[j].netnames)
  {
    if arch.Some? && arch.value != "" { FirstArch(c.arches, arch.value, 0); }
  }

  lemma {:induction false} FirstArch(arches: seq<Arch>, name: string, i: nat)
    requires i <= |arches|
    ensures var j := ArchFrom(arches, name, i);
            && i <= j <= |arches| && (forall k | i <= k < j :: name !in arches[k].netnames)
            && (j < |arches| ==> name in arches[j].netnames)
    decreases |arches| - i
  {
    if i < |arches| && name !in arches[i].netnames { FirstArch(arches, name, i + 1); }
  }

  ghost function RowTotal(c: Config, ms: seq<Machine>, i: nat, n: nat): int {
    if n == 0 then 0 else RowTotal(c, ms, i, n - 1) + Tally(c, ms, i, n - 1).total
  }

  ghost function Members(ms: seq<Machine>, i: nat): nat {
    if ms == [] then 0
    else Members(ms[..|ms| - 1], i) + if ms[|ms| - 1].cluster == i then 1 else 0
  }

  lemma {:induction false} RowGrows(c: Config, ms: seq<Machine>, i: nat, n: nat)
    requires ms != []
    ensures var k := |ms| - 1;
            RowTotal(c, ms, i, n) == RowTotal(c, ms[..k], i, n)
                                   + if ms[k].cluster == i && Column(c, ms[k].arch) < n then 1 else 0
    decreases n
  {
    if n > 0 { RowGrows(c, ms, i, n - 1); }
  }

  /** The columns of a cluster's row, other and unknown included, account for each of its machines
      exactly once. */
  lemma {:induction false} RowSum(c: Config, ms: seq<Machine>, i: nat)
    ensures RowTotal(c, ms, i, |c.arches| + 2) == Members(ms, i)
    decreases |ms|
  {
    if ms == [] {
      EmptyRow(c, i, |c.arches| + 2);
    } else {
      var k := |ms| - 1;
      RowSum(c, ms[..k], i);
      RowGrows(c, ms, i, |c.arches| + 2);
      if ms[k].arch.Some? { ArchFromRange(c.arches, ms[k].arch.value, 0); }
    }
  }

  lemma {:induction false} EmptyRow(c: Config, i: nat, n: nat)
    ensures RowTotal(c, [], i, n) == 0
  {
    if n > 0 { EmptyRow(c, i, n - 1); }
  }

  lemma {:induction false} FreeWithinTotal(c: Config, ms: seq<Machine>, i: nat, j: nat)
    ensures 0 <= Tally(c, ms, i, j).free <= Tally(c, ms, i, j).total
    decreases |ms|
  {
    if ms != [] { FreeWithinTotal(c, ms[..|ms| - 1], i, j); }
  }

  method FindArch(c: Config, archname: Option<string>) returns (r: nat)
    ensures r == Column(c, archname) && r < |c.arches| + 2
  {
    if archname.None? || archname.value == "" {
      return |c.arches| + 1;
    }
    var i := 0;
    while i < |c.arches|
      invariant i <= |c.arches| && ArchFrom(c.arches, archname.value, i) == Column(c, archname)
    {
      var arch, j := c.arches[i], 0;
      while j < |arch.netnames|
        invariant j <= |arch.netnames| && archname.value !in arch.netnames[..j]
      {
        if arch.netnames[j] == archname.value {
          return i;
        }
        j := j + 1;
      }
      assert arch.netnames[..j] == arch.netnames;
      i := i + 1;
    }
    return |c.arches|;
  }

  /** The matrix of free and total machines. */
  method CountMachines(c: Config) returns (entries: array2<OutOf>)
    requires Indexed(c)
    ensures entries.Length0 == |c.clusters| && entries.Length1 == |c.arches| + 2
    ensures forall i, j | 0 <= i < |c.clusters| && 0 <= j < |c.arches| + 2 :: entries[i, j] == Tally(c, c.machines, i, j)
  {
    entries := new OutOf[|c.clusters|, |c.arches| + 2]((i, j) => OutOf(0, 0));
    var k := 0;
    while k < |c.machines|
      invariant k <= |c.machines|
      invariant forall i, j | 0 <= i < |c.clusters| && 0 <= j < |c.arches| + 2 ::
                  entries[i, j] == Tally(c, c.machines[..k], i, j)
    {
      var machine := c.machines[k];
      var col := FindArch(c, machine.arch);
      ghost var done := c.machines[..k + 1];
      assert done[..k] == c.machines[..k] && machine in c.machines;
      var ent := entries[machine.cluster, col];
      entries[machine.cluster, col] := OutOf(if machine.busy == FREE then ent.free + 1 else ent.free, ent.total + 1);
      k := k + 1;
    }
    assert c.machines[..k] == c.machines;
  }

  // ----- The reader -----

  ghost function PrinterOf(line: string): PrinterEntry {
    var w := Words(line);
    PrinterEntry(Nth(w, 0), Nth(w, 1), Lower(Nth(w, 2)) == "up", Atoi(Nth(w, 3)))
  }

  ghost function PrintersOf(lines: seq<string>): seq<PrinterEntry> {
    if lines == [] then [] else [PrinterOf(lines[0])] + PrintersOf(lines[1..])
  }

  ghost function StatsOf(w: seq<string>, n: nat): seq<OutOf> {
    if n == 0 then [] else StatsOf(w, n - 1) + [OutOf(Atoi(Nth(w, 2 * n + 1)), Atoi(Nth(w, 2 * n + 2)))]
  }

  ghost function ClusterOf(line: string, narch: nat): ClusterEntry {
    var w := Words(line);
    ClusterEntry(Nth(w, 0), Lower(Nth(w, 1)) == "public", Nth(w, 2), StatsOf(w, narch))
  }

  ghost function ClustersOf(lines: seq<string>, narch: nat): seq<ClusterEntry> {
    if lines == [] then [] else [ClusterOf(lines[0], narch)] + ClustersOf(lines[1..], narch)
  }

  predicate Hyphen(w: string) { w != "" && w[0] == '-' }

  /** The first words of the lines before the divider. */
  ghost function Heading(lines: seq<string>): seq<string> {
    if lines == [] || Hyphen(lines[0]) then [] else [Nth(Words(lines[0]), 0)] + Heading(lines[1..])
  }

  ghost function PastHeading(lines: seq<string>): seq<string> {
    if lines == [] then [] else if Hyphen(lines[0]) then lines[1..] else PastHeading(lines[1..])
  }

  /** The pairs of words before the divider. */
  ghost function Dialups(ws: seq<string>): seq<Dialup>
    decreases |ws|
  {
    if ws == [] || Hyphen(ws[0]) then [] else [Dialup(ws[0], Nth(ws, 1))] + Dialups(Drop(ws, 2))
  }

  ghost function PastDialups(ws: seq<string>): seq<string>
    decreases |ws|
  {
    if ws == [] then [] else if Hyphen(ws[0]) then ws[1..] else PastDialups(Drop(ws, 2))
  }

  ghost function CgroupOf(line: string): CgroupEntry {
    var w := Words(line);
    CgroupEntry(Nth(w, 0), Atoi(Nth(w, 1)), Atoi(Nth(w, 2)), Dialups(Drop(w, 3)), PastDialups(Drop(w, 3)))
  }

  ghost function CgroupsOf(lines: seq<string>): seq<CgroupEntry> {
    if lines == [] then [] else [CgroupOf(lines[0])] + CgroupsOf(lines[1..])
  }

  method ReadPrinter(line: string) returns (r: PrinterEntry)
    ensures r == PrinterOf(line)
  {
    hide Words, Atoi, Lower, FirstFieldMatches;
    assert line[0..] == line;
    var p, q := NextWord(line, 0);
    var name := line[p..q];
    p, q := NextWord(line, q);
    var cluster := line[p..q];
    p, q := NextWord(line, q);
    Literals();
    var up := FirstFieldMatches(line[p..], "up");
    p, q := NextWord(line, q);
    var jobs := Atoi(line[p..]);
    r := PrinterEntry(name, cluster, up, jobs);
  }

  lemma LowerCase(s: string)
    requires forall ch | ch in s :: 'a' <= ch <= 'z'
    ensures Lower(s) == s && Unspaced(s)
  {
    forall i | 0 <= i < |s|
      ensures Lower(s)[i] == s[i]
    {
      assert s[i] in s;
    }
  }

  lemma Literals()
    ensures Field("up") && Lower("up") == "up" && Field("public") && Lower("public") == "public"
    ensures Field("down") && Lower("down") == "down" && Field("private") && Lower("private") == "private"
  {
    hide Lower;
    LowerCase("up");
    LowerCase("down");
    LowerCase("public");
    LowerCase("private");
  }

  /** One line more has been read. */
  lemma LineStep(rest: string)
    requires rest != ""
    ensures Lines(rest) == [rest[..LineEnd(rest)]] + Lines(After(rest))
    ensures |After(rest)| < |rest|
  {
    hide LineEnd;
  }

  lemma PrintersStep(done: seq<PrinterEntry>, line: string, lines: seq<string>)
    ensures done + PrintersOf([line] + lines) == done + [PrinterOf(line)] + PrintersOf(lines)
  {
    assert ([line] + lines)[1..] == lines;
    hide PrinterOf;
  }

  method ReadPrinters(text: string, bufsize: nat) returns (printers: seq<PrinterEntry>)
    requires bufsize >= 2
    ensures printers == PrintersOf(Lines(text))
  {
    hide Lines, LineEnd, After, PrinterOf, PrintersOf;
    var r := new LineReader(text, bufsize);
    printers := [];
    NoLines();
    while true
      invariant r.Valid() && printers + PrintersOf(Lines(r.Rest())) == PrintersOf(Lines(text))
      decreases |r.Rest()|
    {
      ghost var rest := r.Rest();
      var ended := r.ReadLine();
      if ended { return; }
      LineStep(rest);
      PrintersStep(printers, r.buf, Lines(r.Rest()));
      var entry := ReadPrinter(r.buf);
      printers := printers + [entry];
    }
  }

  lemma NoLines()
    ensures Lines("") == [] && PrintersOf([]) == [] && CgroupsOf([]) == [] && Heading([]) == [] && PastHeading([]) == []
    ensures forall n :: ClustersOf([], n) == []
  {
  }

  method ReadCluster(line: string, narch: nat) returns (r: ClusterEntry)
    ensures r == ClusterOf(line, narch)
  {
    hide Words, Atoi, Lower, FirstFieldMatches;
    assert line[0..] == line;
    ghost var w := Words(line);
    var p, q := NextWord(line, 0);
    var name := line[p..q];
    p, q := NextWord(line, q);
    Literals();
    var public := FirstFieldMatches(line[p..], "public");
    p, q := NextWord(line, q);
    var phone := line[p..q];
    var stats := ReadStats(line, q, narch, w);
    r := ClusterEntry(name, public, phone, stats);
  }

  lemma DropNext(w: seq<string>, k: nat)
    ensures Nth(Drop(w, k), 0) == Nth(w, k) && Drop(Drop(w, k), 1) == Drop(w, k + 1)
  {
  }

  method ReadStats(line: string, q0: nat, narch: nat, ghost w: seq<string>) returns (stats: seq<OutOf>)
    requires q0 <= |line| && Words(line[q0..]) == Drop(w, 3)
    ensures stats == StatsOf(w, narch)
  {
    hide Words, Atoi, Lower, FirstFieldMatches, Nth, Drop, Unspaced;
    var p: nat, q: nat, i := q0, q0, 0;
    stats := [];
    while i < narch
      invariant i <= narch && q <= |line| && Words(line[q..]) == Drop(w, 2 * i + 3)
      invariant stats == StatsOf(w, i)
    {
      DropNext(w, 2 * i + 3);
      DropNext(w, 2 * i + 4);
      p, q := NextWord(line, q);
      var free := Atoi(line[p..]);
      p, q := NextWord(line, q);
      var total := Atoi(line[p..]);
      i := i + 1;
      stats := stats + [OutOf(free, total)];
    }
  }

  /** The names of the columns, up to the divider or the end. */
  method ReadHeading(r: LineReader) returns (archnames: seq<string>)
    requires r.Valid()
    modifies r
    ensures r.Valid() && archnames == Heading(Lines(old(r.Rest())))
    ensures Lines(r.Rest()) == PastHeading(Lines(old(r.Rest())))
  {
    hide Words, Lines, LineEnd, After, Heading, PastHeading, Hyphen;
    archnames := [];
    ghost var lines := Lines(r.Rest());
    NoLines();
    while true
      invariant r.Valid() && archnames + Heading(Lines(r.Rest())) == Heading(lines)
      invariant PastHeading(Lines(r.Rest())) == PastHeading(lines)
      decreases |r.Rest()|
    {
      ghost var rest := r.Rest();
      var ended := r.ReadLine();
      if ended { return; }
      LineStep(rest);
      HeadingStep(archnames, r.buf, Lines(r.Rest()));
      if Hyphen(r.buf) { return; }
      assert r.buf[0..] == r.buf;
      var p, q := NextWord(r.buf, 0);
      archnames := archnames + [r.buf[p..q]];
    }
  }

  lemma HeadingStep(done: seq<string>, line: string, lines: seq<string>)
    ensures done + Heading([line] + lines)
         == if Hyphen(line) then done else done + [Nth(Words(line), 0)] + Heading(lines)
    ensures PastHeading([line] + lines) == if Hyphen(line) then lines else PastHeading(lines)
  {
    hide Words, Hyphen;
    var all := [line] + lines;
    assert all[1..] == lines;
    HeadingCons(all);
    hide Heading, PastHeading;
  }

  lemma HeadingCons(all: seq<string>)
    requires all != []
    ensures Heading(all) == if Hyphen(all[0]) then [] else [Nth(Words(all[0]), 0)] + Heading(all[1..])
    ensures PastHeading(all) == if Hyphen(all[0]) then all[1..] else PastHeading(all[1..])
  {
    hide Words, Hyphen;
  }

  lemma ClustersStep(done: seq<ClusterEntry>, line: string, lines: seq<string>, n: nat)
    ensures done + ClustersOf([line] + lines, n) == done + [ClusterOf(line, n)] + ClustersOf(lines, n)
  {
    assert ([line] + lines)[1..] == lines;
    hide ClusterOf;
  }

  method ReadClusters(text: string, bufsize: nat) returns (archnames: seq<string>, clusters: seq<ClusterEntry>)
    requires bufsize >= 2
    ensures archnames == Heading(Lines(text))
    ensures clusters == ClustersOf(PastHeading(Lines(text)), |archnames|)
  {
    hide Lines, LineEnd, After, Heading, PastHeading, ClustersOf, ClusterOf;
    NoLines();
    var r := new LineReader(text, bufsize);
    archnames := ReadHeading(r);
    clusters := [];
    ghost var rows, n := Lines(r.Rest()), |archnames|;
    while true
      invariant r.Valid() && clusters + ClustersOf(Lines(r.Rest()), n) == ClustersOf(rows, n)
      decreases |r.Rest()|
    {
      ghost var rest := r.Rest();
      var ended := r.ReadLine();
      if ended { return; }
      LineStep(rest);
      ClustersStep(clusters, r.buf, Lines(r.Rest()), n);
      var entry := ReadCluster(r.buf, |archnames|);
      clusters := clusters + [entry];
    }
  }

  method ReadCgroup(line: string) returns (r: CgroupEntry)
    ensures r == CgroupOf(line)
  {
    hide Words, Atoi, Lower, FirstFieldMatches, Spaces, WordEnd, Unspaced;
    assert line[0..] == line;
    ghost var w := Words(line);
    var p, q := NextWord(line, 0);
    var name := line[p..q];
    p, q := NextWord(line, q);
    var x := Atoi(line[p..]);
    p, q := NextWord(line, q);
    var y := Atoi(line[p..]);
    var clusters: seq<Dialup> := [];
    while true
      invariant q <= |line| && clusters + Dialups(Words(line[q..])) == Dialups(Drop(w, 3))
      invariant PastDialups(Words(line[q..])) == PastDialups(Drop(w, 3))
      decreases |line| - q
    {
      ghost var ws := Words(line[q..]);
      p, q := NextWord(line, q);
      if p == |line| || line[p] == '-' { break; }
      var cluster := line[p..q];
      p, q := NextWord(line, q);
      clusters := clusters + [Dialup(cluster, line[p..q])];
    }
    var printers := ReadNames(line, q);
    r := CgroupEntry(name, x, y, clusters, printers);
  }

  /** All words that are left. */
  method ReadNames(line: string, q0: nat) returns (names: seq<string>)
    requires q0 <= |line|
    ensures names == Words(line[q0..])
  {
    hide Words, Spaces, WordEnd;
    names := [];
    var q: nat := q0;
    var p := SkipSpaces(line, q);
    while p < |line|
      invariant q <= p <= |line| && names + Words(line[q..]) == Words(line[q0..])
      invariant p == q + Spaces(line[q..])
      decreases |line| - p
    {
      ghost var q1 := q;
      q := SkipNonspaces(line, p);
      WordStep(line, q1);
      names := names + [line[p..q]];
      p := SkipSpaces(line, q);
    }
    WordStep(line, q);
  }

  lemma WordStep(line: string, q: nat)
    requires q <= |line|
    ensures var p := q + Spaces(line[q..]);
            && (p >= |line| ==> Words(line[q..]) == [])
            && (p < |line| ==>
                  var n := p + WordEnd(line[p..]);
                  p < n <= |line| && Words(line[q..]) == [line[p..n]] + Words(line[n..]))
  {
    hide *;
    var s := line[q..];
    var n := Spaces(s);
    var t := s[n..];
    var k := WordEnd(t);
    WordsOf(s, n, t);
    Suffix(line, q, n);
    Suffix(line, q + n, k);
    assert t[..k] == line[q + n..q + n + k];
  }

  lemma Suffix(line: string, q: nat, n: nat)
    requires q <= |line| && n <= |line[q..]|
    ensures line[q..][n..] == line[q + n..]
  {
  }

  lemma WordsOf(s: string, n: nat, t: string)
    requires n == Spaces(s) && t == s[n..]
    ensures Words(s) == if t == "" then [] else [t[..WordEnd(t)]] + Words(t[WordEnd(t)..])
    ensures t != "" ==> WordEnd(t) > 0
  {
    hide Spaces, WordEnd, Unspaced;
  }

  method ReadCgroups(text: string, bufsize: nat) returns (cgroups: seq<CgroupEntry>)
    requires bufsize >= 2
    ensures cgroups == CgroupsOf(Lines(text))
  {
    hide Lines, LineEnd, After, CgroupOf, CgroupsOf;
    NoLines();
    var r := new LineReader(text, bufsize);
    cgroups := [];
    while true
      invariant r.Valid() && cgroups + CgroupsOf(Lines(r.Rest())) == CgroupsOf(Lines(text))
      decreases |r.Rest()|
    {
      ghost var rest := r.Rest();
      var ended := r.ReadLine();
      if ended { return; }
      LineStep(rest);
      CgroupsStep(cgroups, r.buf, Lines(r.Rest()));
      var entry := ReadCgroup(r.buf);
      cgroups := cgroups + [entry];
    }
  }

  lemma CgroupsStep(done: seq<CgroupEntry>, line: string, lines: seq<string>)
    ensures done + CgroupsOf([line] + lines) == done + [CgroupOf(line)] + CgroupsOf(lines)
  {
    assert ([line] + lines)[1..] == lines;
    hide CgroupOf;
  }

  // ----- The reporter -----

  function PrinterWords(p: Printer): seq<string> {
    [p.name, p.location, if p.up then "up" else "down", Show(p.jobs)]
  }

  ghost function PrinterLines(ps: seq<Printer>): seq<string> {
    if ps == [] then [] else PrinterLines(ps[..|ps| - 1]) + [Unwords(PrinterWords(ps[|ps| - 1]))]
  }

  method ReportPrinters(c: Config) returns (text: string)
    ensures text == Unlines(PrinterLines(c.printers))
  {
    hide Unwords, Unlines, Show;
    text := "";
    EmptyText();
    var i := 0;
    while i < |c.printers|
      invariant i <= |c.printers| && text == Unlines(PrinterLines(c.printers[..i]))
    {
      var p := c.printers[i];
      Four(p.name, p.location, if p.up then "up" else "down", Show(p.jobs));
      assert c.printers[..i + 1][..i] == c.printers[..i];
      UnlinesSnoc(PrinterLines(c.printers[..i]), Unwords(PrinterWords(p)));
      text := text + (p.name + " " + p.location + " " + (if p.up then "up" else "down") + " " + Show(p.jobs)) + "\n";
      i := i + 1;
    }
    assert c.printers[..i] == c.printers;
  }

  lemma EmptyText()
    ensures Unlines([]) == ""
  {
  }

  lemma Three(a: string, b: string, c: string)
    ensures Unwords([a, b, c]) == a + " " + b + " " + c
  {
    hide Unwords;
    UnwordsSnoc([a, b], c);
    assert [a, b] + [c] == [a, b, c];
    UnwordsSnoc([a], b);
    assert [a] + [b] == [a, b];
    One(a);
  }

  lemma One(a: string)
    ensures Unwords([a]) == a
  {
  }

  lemma Four(a: string, b: string, c: string, d: string)
    ensures Unwords([a, b, c, d]) == a + " " + b + " " + c + " " + d
  {
    hide Unwords;
    UnwordsSnoc([a, b, c], d);
    assert [a, b, c] + [d] == [a, b, c, d];
    Three(a, b, c);
  }

  /** The names of the columns. */
  function Columns(c: Config): seq<string> {
    Reportnames(c.arches)
    + (if c.reportOther.Some? then [c.reportOther.value] else [])
    + (if c.reportUnknown.Some? then [c.reportUnknown.value] else [])
  }

  function Reportnames(arches: seq<Arch>): (r: seq<string>)
    ensures |r| == |arches|
  {
    if arches == [] then [] else Reportnames(arches[..|arches| - 1]) + [arches[|arches| - 1].reportname]
  }

  ghost function RowFor(c: Config, i: nat, n: nat): (r: seq<OutOf>)
    ensures |r| == n
  {
    if n == 0 then [] else RowFor(c, i, n - 1) + [Tally(c, c.machines, i, n - 1)]
  }

  /** The counts of a cluster, one for each column. */
  ghost function Stats(c: Config, i: nat): (r: seq<OutOf>)
    ensures |r| == |Columns(c)|
  {
    RowFor(c, i, |c.arches|)
    + (if c.reportOther.Some? then [Tally(c, c.machines, i, |c.arches|)] else [])
    + (if c.reportUnknown.Some? then [Tally(c, c.machines, i, |c.arches| + 1)] else [])
  }

  ghost function StatWords(stats: seq<OutOf>): seq<string> {
    if stats == [] then []
    else
      var n := |stats| - 1;
      StatWords(stats[..n]) + [Show(stats[n].free), Show(stats[n].total)]
  }

  ghost function ClusterWords(c: Config, i: nat): seq<string>
    requires i < |c.clusters|
  {
    [c.clusters[i].name, if c.clusters[i].cgroup == -1 then "private" else "public", c.clusters[i].phone]
    + StatWords(Stats(c, i))
  }

  ghost function ClusterLines(c: Config, n: nat): seq<string>
    requires n <= |c.clusters|
  {
    if n == 0 then [] else ClusterLines(c, n - 1) + [Unwords(ClusterWords(c, n - 1))]
  }

  method ReportColumns(c: Config) returns (text: string)
    ensures text == Unlines(Columns(c))
  {
    hide Unlines;
    text := "";
    EmptyText();
    ghost var lines: seq<string> := [];
    var i := 0;
    while i < |c.arches|
      invariant i <= |c.arches| && text == Unlines(Reportnames(c.arches[..i]))
    {
      assert c.arches[..i + 1][..i] == c.arches[..i];
      UnlinesSnoc(Reportnames(c.arches[..i]), c.arches[i].reportname);
      text := text + c.arches[i].reportname + "\n";
      i := i + 1;
    }
    assert c.arches[..i] == c.arches;
    lines := Reportnames(c.arches);
    if c.reportOther.Some? {
      UnlinesSnoc(lines, c.reportOther.value);
      lines := lines + [c.reportOther.value];
      text := text + c.reportOther.value + "\n";
    }
    if c.reportUnknown.Some? {
      UnlinesSnoc(lines, c.reportUnknown.value);
      lines := lines + [c.reportUnknown.value];
      text := text + c.reportUnknown.value + "\n";
    }
    assert lines == Columns(c);
  }

  /** One more pair of counts on a line. */
  method AddPair(line: string, e: OutOf, ghost ws: seq<string>, ghost stats: seq<OutOf>) returns (r: string)
    requires ws != [] && line == Unwords(ws + StatWords(stats))
    ensures r == Unwords(ws + StatWords(stats + [e]))
  {
    hide Unwords, Show;
    assert (stats + [e])[..|stats|] == stats;
    ghost var before := ws + StatWords(stats);
    UnwordsSnoc(before, Show(e.free));
    UnwordsSnoc(before + [Show(e.free)], Show(e.total));
    assert before + [Show(e.free)] + [Show(e.total)] == ws + StatWords(stats + [e]);
    r := line + " " + Show(e.free) + " " + Show(e.total);
  }

  method ReportCluster(c: Config, entries: array2<OutOf>, i: nat) returns (line: string)
    requires i < |c.clusters| && entries.Length0 == |c.clusters| && entries.Length1 == |c.arches| + 2
    requires forall j | 0 <= j < |c.arches| + 2 :: entries[i, j] == Tally(c, c.machines, i, j)
    ensures line == Unwords(ClusterWords(c, i))
  {
    hide Unwords, StatWords, Tally;
    var cluster := c.clusters[i];
    var public := if cluster.cgroup == -1 then "private" else "public";
    line := cluster.name + " " + public + " " + cluster.phone;
    Three(cluster.name, public, cluster.phone);
    ghost var ws := [cluster.name, public, cluster.phone];
    NoStats();
    assert ws + StatWords([]) == ws;
    var j := 0;
    while j < |c.arches|
      invariant j <= |c.arches| && line == Unwords(ws + StatWords(RowFor(c, i, j)))
    {
      line := AddPair(line, entries[i, j], ws, RowFor(c, i, j));
      j := j + 1;
    }
    ghost var stats := RowFor(c, i, |c.arches|);
    if c.reportOther.Some? {
      line := AddPair(line, entries[i, |c.arches|], ws, stats);
      stats := stats + [entries[i, |c.arches|]];
    }
    if c.reportUnknown.Some? {
      line := AddPair(line, entries[i, |c.arches| + 1], ws, stats);
      stats := stats + [entries[i, |c.arches| + 1]];
    }
    assert stats == Stats(c, i);
  }

  lemma NoStats()
    ensures StatWords([]) == []
  {
  }

  method ReportClusters(c: Config) returns (text: string)
    requires Indexed(c)
    ensures text == Unlines(Columns(c) + ["---"] + ClusterLines(c, |c.clusters|))
  {
    hide Unlines, Unwords, ClusterWords;
    var entries := CountMachines(c);
    text := ReportColumns(c);
    text := text + "---" + "\n";
    UnlinesSnoc(Columns(c), "---");
    ghost var head := Columns(c) + ["---"];
    assert head + ClusterLines(c, 0) == head;
    var i := 0;
    while i < |c.clusters|
      invariant i <= |c.clusters| && text == Unlines(head + ClusterLines(c, i))
      modifies {}
    {
      var line := ReportCluster(c, entries, i);
      UnlinesSnoc(head + ClusterLines(c, i), line);
      assert head + ClusterLines(c, i) + [line] == head + ClusterLines(c, i + 1);
      text := text + line + "\n";
      i := i + 1;
    }
  }

  /** Names and phones of the first `n` clusters, those in group `g`. */
  ghost function DialupsIn(c: Config, g: nat, n: nat): seq<Dialup>
    requires n <= |c.clusters|
  {
    if n == 0 then []
    else DialupsIn(c, g, n - 1)
         + if c.clusters[n - 1].cgroup == g then [Dialup(c.clusters[n - 1].name, c.clusters[n - 1].phone)] else []
  }

  ghost function DialupWords(ds: seq<Dialup>): seq<string> {
    if ds == [] then [] else DialupWords(ds[..|ds| - 1]) + [ds[|ds| - 1].name, ds[|ds| - 1].phone]
  }

  /** Names of the first `n` printers, those whose cluster is in group `g`. */
  ghost function PrintersIn(c: Config, g: nat, n: nat): seq<string>
    requires n <= |c.printers| && Indexed(c)
  {
    if n == 0 then []
    else
      assert c.printers[n - 1] in c.printers;
      PrintersIn(c, g, n - 1)
      + if c.clusters[c.printers[n - 1].cluster].cgroup == g then [c.printers[n - 1].name] else []
  }

  ghost function CgroupWords(c: Config, g: nat): seq<string>
    requires g < |c.cgroups| && Indexed(c)
  {
    [c.cgroups[g].name, Show(c.cgroups[g].x), Show(c.cgroups[g].y)]
    + DialupWords(DialupsIn(c, g, |c.clusters|)) + ["---"] + PrintersIn(c, g, |c.printers|)
  }

  ghost function CgroupLines(c: Config, n: nat): seq<string>
    requires n <= |c.cgroups| && Indexed(c)
  {
    if n == 0 then [] else CgroupLines(c, n - 1) + [Unwords(CgroupWords(c, n - 1))]
  }

  method ReportCgroup(c: Config, g: nat) returns (line: string)
    requires g < |c.cgroups| && Indexed(c)
    ensures line == Unwords(CgroupWords(c, g))
  {
    hide Unwords, Show, DialupWords, DialupsIn, PrintersIn;
    var cgroup := c.cgroups[g];
    line := cgroup.name + " " + Show(cgroup.x) + " " + Show(cgroup.y);
    Three(cgroup.name, Show(cgroup.x), Show(cgroup.y));
    ghost var words := [cgroup.name, Show(cgroup.x), Show(cgroup.y)];
    line := AddDialups(c, g, line, words);
    words := words + DialupWords(DialupsIn(c, g, |c.clusters|));
    UnwordsSnoc(words, "---");
    line := line + " " + "---";
    line := AddPrinters(c, g, line, words + ["---"]);
  }

  method AddDialups(c: Config, g: nat, line0: string, ghost ws: seq<string>) returns (line: string)
    requires ws != [] && line0 == Unwords(ws)
    ensures line == Unwords(ws + DialupWords(DialupsIn(c, g, |c.clusters|)))
  {
    line := line0;
    assert ws + DialupWords(DialupsIn(c, g, 0)) == ws;
    hide Unwords, DialupWords;
    var j := 0;
    while j < |c.clusters|
      invariant j <= |c.clusters| && line == Unwords(ws + DialupWords(DialupsIn(c, g, j)))
    {
      var cluster := c.clusters[j];
      if cluster.cgroup == g {
        ghost var ds, d := DialupsIn(c, g, j), Dialup(cluster.name, cluster.phone);
        assert DialupsIn(c, g, j + 1) == ds + [d];
        OneDialup(ws, ds, d);
        line := line + " " + cluster.name + " " + cluster.phone;
      } else {
        assert DialupsIn(c, g, j + 1) == DialupsIn(c, g, j);
      }
      j := j + 1;
    }
  }

  lemma OneDialup(ws: seq<string>, ds: seq<Dialup>, d: Dialup)
    requires ws != []
    ensures Unwords(ws + DialupWords(ds + [d])) == Unwords(ws + DialupWords(ds)) + " " + d.name + " " + d.phone
  {
    hide Unwords;
    assert (ds + [d])[..|ds|] == ds;
    var words := ws + DialupWords(ds);
    assert ws + DialupWords(ds + [d]) == words + [d.name] + [d.phone];
    hide DialupWords;
    UnwordsSnoc(words, d.name);
    UnwordsSnoc(words + [d.name], d.phone);
  }

  method AddPrinters(c: Config, g: nat, line0: string, ghost ws: seq<string>) returns (line: string)
    requires ws != [] && line0 == Unwords(ws) && Indexed(c)
    ensures line == Unwords(ws + PrintersIn(c, g, |c.printers|))
  {
    hide Unwords;
    line := line0;
    var j := 0;
    assert ws + PrintersIn(c, g, 0) == ws;
    while j < |c.printers|
      invariant j <= |c.printers| && line == Unwords(ws + PrintersIn(c, g, j))
    {
      var printer := c.printers[j];
      assert printer in c.printers;
      if c.clusters[printer.cluster].cgroup == g {
        UnwordsSnoc(ws + PrintersIn(c, g, j), printer.name);
        assert ws + PrintersIn(c, g, j) + [printer.name] == ws + PrintersIn(c, g, j + 1);
        line := line + " " + printer.name;
      } else {
        assert PrintersIn(c, g, j + 1) == PrintersIn(c, g, j);
      }
      j := j + 1;
    }
  }

  method ReportCgroups(c: Config) returns (text: string)
    requires Indexed(c)
    ensures text == Unlines(CgroupLines(c, |c.cgroups|))
  {
    hide Unwords, Unlines, CgroupWords;
    text := "";
    EmptyText();
    var i := 0;
    while i < |c.cgroups|
      invariant i <= |c.cgroups| && text == Unlines(CgroupLines(c, i))
    {
      var line := ReportCgroup(c, i);
      UnlinesSnoc(CgroupLines(c, i), line);
      text := text + line + "\n";
      i := i + 1;
    }
  }

  // ----- Round trips -----

  /** Fields without white space; names that could be taken for the divider do not begin like it. */
  ghost predicate Reportable(c: Config) {
    && Indexed(c)
    && (forall n | n in Columns(c) :: Field(n) && !Hyphen(n))
    && (forall k | k in c.clusters :: Field(k.name) && !Hyphen(k.name) && Field(k.phone))
    && (forall g | g in c.cgroups :: Field(g.name))
    && (forall p | p in c.printers :: Field(p.name) && Field(p.location))
  }

  ghost predicate Fields(ws: seq<string>) { forall w | w in ws :: Field(w) }

  lemma {:induction false} NoNewline(ws: seq<string>)
    requires Fields(ws)
    ensures '\n' !in Unwords(ws)
  {
    if ws != [] {
      assert ws[0] in ws && Field(ws[0]);
      NoNewline(ws[1..]);
    }
  }

  lemma {:induction false} PrintersOfAt(lines: seq<string>)
    ensures |PrintersOf(lines)| == |lines|
    ensures forall i | 0 <= i < |lines| :: PrintersOf(lines)[i] == PrinterOf(lines[i])
  {
    hide PrinterOf;
    if lines != [] { PrintersOfAt(lines[1..]); }
  }

  lemma {:induction false} PrinterLinesAt(ps: seq<Printer>)
    ensures |PrinterLines(ps)| == |ps|
    ensures forall i | 0 <= i < |ps| :: PrinterLines(ps)[i] == Unwords(PrinterWords(ps[i]))
  {
    if ps != [] { PrinterLinesAt(ps[..|ps| - 1]); }
  }

  lemma PrinterBack(p: Printer)
    requires Field(p.name) && Field(p.location)
    ensures '\n' !in Unwords(PrinterWords(p))
    ensures PrinterOf(Unwords(PrinterWords(p))) == PrinterEntry(p.name, p.location, p.up, p.jobs)
  {
    hide Unwords, Words, Show, Lower;
    Literals();
    ShowRoundTrip(p.jobs);
    assert Fields(PrinterWords(p));
    NoNewline(PrinterWords(p));
    WordsOfUnwords(PrinterWords(p));
    assert "up" != "down";
  }

  /** Reading the printer file gives every printer as it was reported. */
  lemma PrintersRoundTrip(c: Config)
    requires forall p | p in c.printers :: Field(p.name) && Field(p.location)
    ensures var r := PrintersOf(Lines(Unlines(PrinterLines(c.printers))));
            && |r| == |c.printers|
            && forall i | 0 <= i < |r| ::
                 var p := c.printers[i]; r[i] == PrinterEntry(p.name, p.location, p.up, p.jobs)
  {
    var lines := PrinterLines(c.printers);
    PrinterLinesAt(c.printers);
    PrintersOfAt(lines);
    hide PrinterLines, PrintersOf, PrinterOf, Unwords, PrinterWords;
    forall i | 0 <= i < |lines|
      ensures '\n' !in lines[i]
      ensures var p := c.printers[i]; PrinterOf(lines[i]) == PrinterEntry(p.name, p.location, p.up, p.jobs)
    {
      assert c.printers[i] in c.printers;
      PrinterBack(c.printers[i]);
    }
    LinesOfUnlines(lines);
  }

  lemma {:induction false} StatWordsFields(stats: seq<OutOf>)
    ensures |StatWords(stats)| == 2 * |stats| && Fields(StatWords(stats))
  {
    if stats != [] {
      var n := |stats| - 1;
      StatWordsFields(stats[..n]);
      ShowRoundTrip(stats[n].free);
      ShowRoundTrip(stats[n].total);
      hide Show, Field;
    }
  }

  lemma {:induction false} StatWordAt(stats: seq<OutOf>, i: nat)
    requires i < |stats|
    ensures |StatWords(stats)| == 2 * |stats|
    ensures StatWords(stats)[2 * i] == Show(stats[i].free) && StatWords(stats)[2 * i + 1] == Show(stats[i].total)
    decreases |stats|
  {
    hide Show;
    StatWordsFields(stats);
    var n := |stats| - 1;
    StatWordsFields(stats[..n]);
    if i < n { StatWordAt(stats[..n], i); }
  }

  lemma {:induction false} StatsBack(head: seq<string>, stats: seq<OutOf>, n: nat)
    requires n <= |stats| && |head| == 3
    ensures StatsOf(head + StatWords(stats), n) == stats[..n]
  {
    hide Show, Atoi, StatWords;
    if n > 0 {
      StatsBack(head, stats, n - 1);
      StatWordAt(stats, n - 1);
      ShowRoundTrip(stats[n - 1].free);
      ShowRoundTrip(stats[n - 1].total);
      assert stats[..n] == stats[..n - 1] + [stats[n - 1]];
    }
  }

  lemma ClusterFields(c: Config, i: nat)
    requires Reportable(c) && i < |c.clusters|
    ensures Fields(ClusterWords(c, i))
  {
    var k := c.clusters[i];
    assert k in c.clusters;
    hide Stats, StatWords, Lower, Field, Fields;
    Literals();
    StatWordsFields(Stats(c, i));
    hide Reportable;
    ThreeFields(k.name, if k.cgroup == -1 then "private" else "public", k.phone);
    FieldsAppend([k.name, if k.cgroup == -1 then "private" else "public", k.phone], StatWords(Stats(c, i)));
  }

  lemma ThreeFields(a: string, b: string, c: string)
    requires Field(a) && Field(b) && Field(c)
    ensures Fields([a, b, c])
  {
    hide Field;
  }

  lemma FieldsAppend(a: seq<string>, b: seq<string>)
    requires Fields(a) && Fields(b)
    ensures Fields(a + b)
  {
    hide Field;
  }

  lemma ClusterBack(c: Config, i: nat)
    requires Reportable(c) && i < |c.clusters|
    ensures '\n' !in Unwords(ClusterWords(c, i))
    ensures var k := c.clusters[i];
            ClusterOf(Unwords(ClusterWords(c, i)), |Columns(c)|)
            == ClusterEntry(k.name, k.cgroup != -1, k.phone, Stats(c, i))
  {
    hide Unwords, Words, Show, Lower, Atoi, Columns, Stats, StatWords, StatsOf, Reportable, Fields, Field;
    var k, w, stats := c.clusters[i], ClusterWords(c, i), Stats(c, i);
    Literals();
    ClusterFields(c, i);
    NoNewline(w);
    WordsOfFields(w);
    StatsBack(w[..3], stats, |stats|);
    assert w == w[..3] + StatWords(stats);
    assert stats[..|stats|] == stats && "public" != "private";
  }

  lemma WordsOfFields(ws: seq<string>)
    requires Fields(ws)
    ensures Words(Unwords(ws)) == ws
  {
    WordsOfUnwords(ws);
  }

  lemma {:induction false} ClusterLinesAt(c: Config, n: nat)
    requires n <= |c.clusters|
    ensures |ClusterLines(c, n)| == n
    ensures forall i | 0 <= i < n :: ClusterLines(c, n)[i] == Unwords(ClusterWords(c, i))
  {
    hide ClusterWords, Unwords;
    if n > 0 { ClusterLinesAt(c, n - 1); }
  }

  lemma {:induction false} ClustersOfAt(lines: seq<string>, narch: nat)
    ensures |ClustersOf(lines, narch)| == |lines|
    ensures forall i | 0 <= i < |lines| :: ClustersOf(lines, narch)[i] == ClusterOf(lines[i], narch)
  {
    hide ClusterOf;
    if lines != [] { ClustersOfAt(lines[1..], narch); }
  }

  lemma {:induction false} HeadingBack(names: seq<string>, rest: seq<string>)
    requires forall n | n in names :: Field(n) && !Hyphen(n)
    ensures Heading(names + ["---"] + rest) == names && PastHeading(names + ["---"] + rest) == rest
  {
    var all := names + ["---"] + rest;
    if names == [] {
      assert all[1..] == rest;
    } else {
      var n := names[0];
      assert n in names;
      assert all[1..] == names[1..] + ["---"] + rest;
      HeadingBack(names[1..], rest);
      hide Words, Unwords;
      WordsOfUnwords([n]);
      One(n);
    }
  }

  lemma NoNewlineField(w: string)
    requires Field(w)
    ensures '\n' !in w
  {
  }

  /** Reading the cluster file gives the columns, and for each cluster its name, whether it is
      public, its phone and the counts of its machines. */
  lemma ClustersRoundTrip(c: Config)
    requires Reportable(c)
    ensures var lines := Lines(Unlines(Columns(c) + ["---"] + ClusterLines(c, |c.clusters|)));
            var r := ClustersOf(PastHeading(lines), |Heading(lines)|);
            && Heading(lines) == Columns(c) && |r| == |c.clusters|
            && forall i | 0 <= i < |r| ::
                 var k := c.clusters[i]; r[i] == ClusterEntry(k.name, k.cgroup != -1, k.phone, Stats(c, i))
  {
    var names, rows := Columns(c), ClusterLines(c, |c.clusters|);
    ClusterLinesAt(c, |c.clusters|);
    ClustersOfAt(rows, |names|);
    HeadingBack(names, rows);
    ClusterFileLines(c);
    hide ClusterLines, ClustersOf, ClusterOf, Unwords, ClusterWords, Columns, Stats, Heading, PastHeading, Reportable;
    forall i | 0 <= i < |rows|
      ensures var k := c.clusters[i];
              ClusterOf(rows[i], |names|) == ClusterEntry(k.name, k.cgroup != -1, k.phone, Stats(c, i))
    {
      ClusterBack(c, i);
    }
  }

  lemma ClusterFileLines(c: Config)
    requires Reportable(c)
    ensures var lines := Columns(c) + ["---"] + ClusterLines(c, |c.clusters|); Lines(Unlines(lines)) == lines
  {
    var rows := ClusterLines(c, |c.clusters|);
    ClusterLinesAt(c, |c.clusters|);
    hide ClusterLines, Unwords, ClusterWords, Columns, Stats, Lines, Unlines, ClusterOf;
    forall n | n in Columns(c)
      ensures '\n' !in n
    {
      NoNewlineField(n);
    }
    hide Reportable;
    forall l | l in rows
      ensures '\n' !in l
    {
      var i :| 0 <= i < |rows| && rows[i] == l;
      ClusterBack(c, i);
    }
    LinesOfUnlines(Columns(c) + ["---"] + rows);
  }

  lemma {:induction false} DialupWordsCons(ds: seq<Dialup>)
    requires ds != []
    ensures DialupWords(ds) == [ds[0].name, ds[0].phone] + DialupWords(ds[1..])
  {
    var n := |ds| - 1;
    if n == 0 {
      assert DialupWords(ds[..0]) == [] && ds[1..] == [];
    } else {
      DialupWordsCons(ds[..n]);
      assert ds[..n][1..] == ds[1..][..n - 1];
    }
  }

  lemma {:induction false} DialupsBack(ds: seq<Dialup>, rest: seq<string>)
    requires forall d | d in ds :: Field(d.name) && !Hyphen(d.name) && Field(d.phone)
    ensures Dialups(DialupWords(ds) + ["---"] + rest) == ds
    ensures PastDialups(DialupWords(ds) + ["---"] + rest) == rest
    ensures Fields(DialupWords(ds))
    decreases |ds|
  {
    var all := DialupWords(ds) + ["---"] + rest;
    if ds == [] {
      assert all == ["---"] + rest;
    } else {
      var d := ds[0];
      assert d in ds;
      DialupWordsCons(ds);
      var words := DialupWords(ds[1..]);
      assert all == [d.name, d.phone] + (words + ["---"] + rest);
      DialupsBack(ds[1..], rest);
      hide DialupWords;
      assert all[2..] == words + ["---"] + rest;
      assert all[0] == d.name && all[1] == d.phone;
    }
  }

  lemma {:induction false} DialupsInFields(c: Config, g: nat, n: nat)
    requires Reportable(c) && n <= |c.clusters|
    ensures forall d | d in DialupsIn(c, g, n) :: Field(d.name) && !Hyphen(d.name) && Field(d.phone)
  {
    if n > 0 {
      DialupsInFields(c, g, n - 1);
      assert c.clusters[n - 1] in c.clusters;
      hide Reportable, Field;
    }
  }

  lemma {:induction false} PrintersInFields(c: Config, g: nat, n: nat)
    requires Reportable(c) && n <= |c.printers|
    ensures Fields(PrintersIn(c, g, n))
  {
    if n > 0 {
      PrintersInFields(c, g, n - 1);
      assert c.printers[n - 1] in c.printers;
    }
  }

  /** A group as reported. */
  ghost function GroupEntry(c: Config, g: nat): CgroupEntry
    requires g < |c.cgroups| && Indexed(c)
  {
    CgroupEntry(c.cgroups[g].name, c.cgroups[g].x, c.cgroups[g].y,
                DialupsIn(c, g, |c.clusters|), PrintersIn(c, g, |c.printers|))
  }

  lemma CgroupBack(c: Config, g: nat)
    requires Reportable(c) && g < |c.cgroups|
    ensures '\n' !in Unwords(CgroupWords(c, g))
    ensures CgroupOf(Unwords(CgroupWords(c, g))) == GroupEntry(c, g)
  {
    assert Indexed(c);
    hide Unwords, Words, Show, Atoi, DialupWords, DialupsIn, PrintersIn, Reportable, Dialups, PastDialups, Fields;
    var k, w := c.cgroups[g], CgroupWords(c, g);
    var ds, ps := DialupsIn(c, g, |c.clusters|), PrintersIn(c, g, |c.printers|);
    var head, tail := [k.name, Show(k.x), Show(k.y)], DialupWords(ds) + ["---"] + ps;
    assert w == head + tail;
    DialupsInFields(c, g, |c.clusters|);
    DialupsBack(ds, ps);
    CgroupFields(c, g);
    NoNewline(w);
    WordsOfFields(w);
    hide CgroupWords, Field;
    ShowRoundTrip(k.x);
    ShowRoundTrip(k.y);
    assert Drop(w, 3) == tail;
  }

  lemma CgroupFields(c: Config, g: nat)
    requires Reportable(c) && g < |c.cgroups|
    ensures Fields(CgroupWords(c, g))
  {
    hide Show, DialupWords, DialupsIn, PrintersIn, Dialups, PastDialups, Fields;
    var k := c.cgroups[g];
    var ds, ps := DialupsIn(c, g, |c.clusters|), PrintersIn(c, g, |c.printers|);
    assert k in c.cgroups;
    assert Field("---");
    hide Field;
    DialupsInFields(c, g, |c.clusters|);
    PrintersInFields(c, g, |c.printers|);
    DialupsBack(ds, ps);
    hide Reportable;
    ShowRoundTrip(k.x);
    ShowRoundTrip(k.y);
    ThreeFields(k.name, Show(k.x), Show(k.y));
    OneField("---");
    FieldsAppend([k.name, Show(k.x), Show(k.y)], DialupWords(ds));
    FieldsAppend([k.name, Show(k.x), Show(k.y)] + DialupWords(ds), ["---"]);
    FieldsAppend([k.name, Show(k.x), Show(k.y)] + DialupWords(ds) + ["---"], ps);
  }

  lemma OneField(a: string)
    requires Field(a)
    ensures Fields([a])
  {
    hide Field;
  }

  lemma {:induction false} CgroupLinesAt(c: Config, n: nat)
    requires n <= |c.cgroups| && Indexed(c)
    ensures |CgroupLines(c, n)| == n
    ensures forall i | 0 <= i < n :: CgroupLines(c, n)[i] == Unwords(CgroupWords(c, i))
  {
    hide CgroupWords, Unwords, Indexed;
    if n > 0 { CgroupLinesAt(c, n - 1); }
  }

  lemma {:induction false} CgroupsOfAt(lines: seq<string>)
    ensures |CgroupsOf(lines)| == |lines|
    ensures forall i | 0 <= i < |lines| :: CgroupsOf(lines)[i] == CgroupOf(lines[i])
  {
    hide CgroupOf;
    if lines != [] { CgroupsOfAt(lines[1..]); }
  }

  /** Reading the group file gives each group with its place, its clusters and its printers. */
  lemma CgroupsRoundTrip(c: Config)
    requires Reportable(c)
    ensures var r := CgroupsOf(Lines(Unlines(CgroupLines(c, |c.cgroups|))));
            && |r| == |c.cgroups|
            && forall g | 0 <= g < |r| ::
                 r[g] == GroupEntry(c, g)
  {
    var lines := CgroupLines(c, |c.cgroups|);
    CgroupLinesAt(c, |c.cgroups|);
    CgroupsOfAt(lines);
    hide CgroupLines, CgroupsOf, CgroupOf, Unwords, CgroupWords, GroupEntry, Lines, Unlines, Reportable, Indexed;
    CgroupFileLines(c);
    forall g | 0 <= g < |lines|
      ensures CgroupOf(lines[g]) == GroupEntry(c, g)
    {
      CgroupBack(c, g);
    }
  }

  lemma CgroupFileLines(c: Config)
    requires Reportable(c)
    ensures var lines := CgroupLines(c, |c.cgroups|); Lines(Unlines(lines)) == lines
  {
    var lines := CgroupLines(c, |c.cgroups|);
    CgroupLinesAt(c, |c.cgroups|);
    hide CgroupLines, Unwords, CgroupWords, CgroupOf, Lines, Unlines, GroupEntry;
    forall l | l in lines
      ensures '\n' !in l
    {
      var g :| 0 <= g < |lines| && lines[g] == l;
      CgroupBack(c, g);
    }
    LinesOfUnlines(lines);
  }

  // ----- Why hyphens matter -----

  lemma {:induction false} HeadingStops(names: seq<string>, rest: seq<string>)
    requires exists n | n in names :: Hyphen(n)
    ensures |Heading(names + ["---"] + rest)| < |names|
  {
    var all := names + ["---"] + rest;
    if !Hyphen(names[0]) {
      var n :| n in names && Hyphen(n);
      assert n in names[1..];
      assert all[1..] == names[1..] + ["---"] + rest;
      HeadingStops(names[1..], rest);
    }
  }

  /** The columns come back exactly if none of their names begins with a hyphen. */
  lemma HeadingExact(names: seq<string>, rest: seq<string>)
    requires Fields(names)
    ensures Heading(names + ["---"] + rest) == names <==> forall n | n in names :: !Hyphen(n)
  {
    if n :| n in names && Hyphen(n) {
      HeadingStops(names, rest);
    } else {
      HeadingBack(names, rest);
    }
  }

  lemma {:induction false} DialupsStop(ds: seq<Dialup>, rest: seq<string>)
    requires exists d | d in ds :: Hyphen(d.name)
    ensures |Dialups(DialupWords(ds) + ["---"] + rest)| < |ds|
    decreases |ds|
  {
    var all := DialupWords(ds) + ["---"] + rest;
    DialupWordsCons(ds);
    var words := DialupWords(ds[1..]);
    assert all == [ds[0].name, ds[0].phone] + (words + ["---"] + rest);
    hide DialupWords;
    if !Hyphen(ds[0].name) {
      var d :| d in ds && Hyphen(d.name);
      assert d in ds[1..];
      DialupsStop(ds[1..], rest);
      assert Drop(all, 2) == words + ["---"] + rest;
      assert all[0] == ds[0].name;
    }
  }

  /** The clusters of a group come back exactly if none of their names begins with a hyphen. */
  lemma DialupsExact(ds: seq<Dialup>, rest: seq<string>)
    requires forall d | d in ds :: Field(d.name) && Field(d.phone)
    ensures Dialups(DialupWords(ds) + ["---"] + rest) == ds <==> forall d | d in ds :: !Hyphen(d.name)
  {
    if d :| d in ds && Hyphen(d.name) {
      DialupsStop(ds, rest);
    } else {
      DialupsBack(ds, rest);
    }
  }

  // ----- What the entries hold -----

  /** `at` lists, in order, exactly those numbers below `n` that are chosen. */
  ghost predicate Chosen(at: seq<nat>, n: nat, chosen: set<nat>) {
    && (forall i, j | 0 <= i < j < |at| :: at[i] < at[j])
    && forall k: nat :: k in at <==> k < n && k in chosen
  }

  lemma ChosenNext(at: seq<nat>, n: nat, chosen: set<nat>)
    requires Chosen(at, n, chosen)
    ensures Chosen(if n in chosen then at + [n] else at, n + 1, chosen)
  {
    assert forall i | 0 <= i < |at| :: at[i] in at;
  }

  /** The clusters of a group. */
  ghost function ClustersOfGroup(c: Config, g: nat): set<nat> {
    set k: nat | k < |c.clusters| && c.clusters[k].cgroup == g
  }

  /** The printers in clusters of a group. */
  ghost function PrintersOfGroup(c: Config, g: nat): set<nat> {
    set k: nat | k < |c.printers| && 0 <= c.printers[k].cluster < |c.clusters| && c.clusters[c.printers[k].cluster].cgroup == g
  }

  ghost predicate AreDialups(c: Config, g: nat, n: nat, ds: seq<Dialup>, at: seq<nat>) {
    && Chosen(at, n, ClustersOfGroup(c, g)) && |at| == |ds|
    && forall j | 0 <= j < |ds| :: at[j] < |c.clusters| && ds[j] == Dialup(c.clusters[at[j]].name, c.clusters[at[j]].phone)
  }

  ghost predicate ArePrinters(c: Config, g: nat, n: nat, ps: seq<string>, at: seq<nat>) {
    && Chosen(at, n, PrintersOfGroup(c, g)) && |at| == |ps|
    && forall j | 0 <= j < |ps| :: at[j] < |c.printers| && ps[j] == c.printers[at[j]].name
  }

  lemma NextDialup(c: Config, g: nat, n: nat, ds: seq<Dialup>, at: seq<nat>)
    requires n < |c.clusters| && AreDialups(c, g, n, ds, at)
    ensures c.clusters[n].cgroup == g ==> AreDialups(c, g, n + 1, ds + [Dialup(c.clusters[n].name, c.clusters[n].phone)], at + [n])
    ensures c.clusters[n].cgroup != g ==> AreDialups(c, g, n + 1, ds, at)
  {
    assert n in ClustersOfGroup(c, g) <==> c.clusters[n].cgroup == g;
    hide Chosen, ClustersOfGroup;
    ChosenNext(at, n, ClustersOfGroup(c, g));
  }

  lemma OneMoreCluster(c: Config, g: nat, n: nat)
    requires n < |c.clusters|
    ensures c.clusters[n].cgroup == g ==> DialupsIn(c, g, n + 1) == DialupsIn(c, g, n) + [Dialup(c.clusters[n].name, c.clusters[n].phone)]
    ensures c.clusters[n].cgroup != g ==> DialupsIn(c, g, n + 1) == DialupsIn(c, g, n)
  {
  }

  lemma NoDialups(c: Config, g: nat)
    ensures DialupsIn(c, g, 0) == [] && AreDialups(c, g, 0, [], [])
  {
  }

  lemma {:induction false} DialupsMeaning(c: Config, g: nat, n: nat)
    requires n <= |c.clusters|
    ensures exists at: seq<nat> :: AreDialups(c, g, n, DialupsIn(c, g, n), at)
  {
    hide *;
    var next: seq<nat> := [];
    if n == 0 {
      NoDialups(c, g);
    } else {
      var k := n - 1;
      DialupsMeaning(c, g, k);
      var at: seq<nat> :| AreDialups(c, g, k, DialupsIn(c, g, k), at);
      NextDialup(c, g, k, DialupsIn(c, g, k), at);
      OneMoreCluster(c, g, k);
      next := if c.clusters[k].cgroup == g then at + [k] else at;
    }
    assert AreDialups(c, g, n, DialupsIn(c, g, n), next);
  }

  lemma NextPrinter(c: Config, g: nat, n: nat, ps: seq<string>, at: seq<nat>)
    requires n < |c.printers| && 0 <= c.printers[n].cluster < |c.clusters| && ArePrinters(c, g, n, ps, at)
    ensures c.clusters[c.printers[n].cluster].cgroup == g ==> ArePrinters(c, g, n + 1, ps + [c.printers[n].name], at + [n])
    ensures c.clusters[c.printers[n].cluster].cgroup != g ==> ArePrinters(c, g, n + 1, ps, at)
  {
    assert n in PrintersOfGroup(c, g) <==> c.clusters[c.printers[n].cluster].cgroup == g;
    hide Chosen, PrintersOfGroup;
    ChosenNext(at, n, PrintersOfGroup(c, g));
  }

  lemma OneMorePrinter(c: Config, g: nat, n: nat)
    requires n < |c.printers| && Indexed(c)
    ensures 0 <= c.printers[n].cluster < |c.clusters|
    ensures c.clusters[c.printers[n].cluster].cgroup == g ==> PrintersIn(c, g, n + 1) == PrintersIn(c, g, n) + [c.printers[n].name]
    ensures c.clusters[c.printers[n].cluster].cgroup != g ==> PrintersIn(c, g, n + 1) == PrintersIn(c, g, n)
  {
    assert c.printers[n] in c.printers;
  }

  lemma NoPrinters(c: Config, g: nat)
    requires Indexed(c)
    ensures PrintersIn(c, g, 0) == [] && ArePrinters(c, g, 0, [], [])
  {
  }

  lemma {:induction false} PrintersMeaning(c: Config, g: nat, n: nat)
    requires n <= |c.printers| && Indexed(c)
    ensures exists at: seq<nat> :: ArePrinters(c, g, n, PrintersIn(c, g, n), at)
  {
    hide *;
    var next: seq<nat> := [];
    if n == 0 {
      NoPrinters(c, g);
    } else {
      var k := n - 1;
      PrintersMeaning(c, g, k);
      var at: seq<nat> :| ArePrinters(c, g, k, PrintersIn(c, g, k), at);
      OneMorePrinter(c, g, k);
      NextPrinter(c, g, k, PrintersIn(c, g, k), at);
      next := if c.clusters[c.printers[k].cluster].cgroup == g then at + [k] else at;
    }
    assert ArePrinters(c, g, n, PrintersIn(c, g, n), next);
  }

  /** The entry of a group names exactly its clusters and the printers in them, in the order of the
      configuration. */
  lemma GroupMeaning(c: Config, g: nat)
    requires g < |c.cgroups| && Indexed(c)
    ensures var e := GroupEntry(c, g);
            && e.name == c.cgroups[g].name && e.x == c.cgroups[g].x && e.y == c.cgroups[g].y
            && (exists at: seq<nat> :: AreDialups(c, g, |c.clusters|, e.clusters, at))
            && (exists at: seq<nat> :: ArePrinters(c, g, |c.printers|, e.printers, at))
  {
    DialupsMeaning(c, g, |c.clusters|);
    PrintersMeaning(c, g, |c.printers|);
  }

  /** The numbers in a column are those of the architecture that the column is for; there are
      columns for other and for unknown ones only if the configuration names them. */
  lemma StatsMeaning(c: Config, i: nat)
    ensures var n, others := |c.arches|, if c.reportOther.Some? then 1 else 0;
            && |Stats(c, i)| == |Columns(c)| == n + others + (if c.reportUnknown.Some? then 1 else 0)
            && (forall j | 0 <= j < n :: Columns(c)[j] == c.arches[j].reportname && Stats(c, i)[j] == Count(c, i, j))
            && (c.reportOther.Some? ==> Columns(c)[n] == c.reportOther.value && Stats(c, i)[n] == Count(c, i, n))
            && (c.reportUnknown.Some? ==>
                  Columns(c)[n + others] == c.reportUnknown.value && Stats(c, i)[n + others] == Count(c, i, n + 1))
  {
    forall j: nat
      ensures j < |c.arches| ==> Reportnames(c.arches)[j] == c.arches[j].reportname && RowFor(c, i, |c.arches|)[j] == Count(c, i, j)
      ensures Tally(c, c.machines, i, j) == Count(c, i, j)
    {
      if j < |c.arches| {
        ReportnameAt(c.arches, j);
        RowAt(c, i, |c.arches|, j);
      }
      TallyCounts(c, c.machines, i, j);
    }
    hide Reportnames, RowFor, Tally, Count;
  }

  /** How many machines of cluster `i` are in column `j`, and how many of them are free. */
  ghost function Count(c: Config, i: nat, j: nat): OutOf { OutOf(|FreeCell(c, c.machines, i, j)|, |Cell(c, c.machines, i, j)|) }

  lemma {:induction false} ReportnameAt(arches: seq<Arch>, j: nat)
    requires j < |arches|
    ensures Reportnames(arches)[j] == arches[j].reportname
    decreases |arches|
  {
    if j < |arches| - 1 { ReportnameAt(arches[..|arches| - 1], j); }
  }

  lemma {:induction false} RowAt(c: Config, i: nat, n: nat, j: nat)
    requires j < n
    ensures RowFor(c, i, n)[j] == Tally(c, c.machines, i, j)
  {
    if j < n - 1 { RowAt(c, i, n - 1, j); }
  }
}
