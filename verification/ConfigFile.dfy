/** How larvnetd reads its configuration (athena/etc/larvnetd/config.c): a list of architectures,
    then clusters with their printers and workstations, and groups of clusters. */
module ConfigFile {
  import opened Wrappers
  import opened StatusText
  import opened StatusReport
  import opened StatusExact
  import opened Machines

  /** What has been read so far. */
  datatype Draft = Draft(config: Config, clusterIndex: int)

  const NOTHING := Draft(Config([], None, None, [], [], [], []), -1)

  // ----- One line -----

  function BeforeHash(s: string): (r: string)
    ensures r <= s && '#' !in r && (r == s || s[|r|] == '#')
  {
    if s == "" || s[0] == '#' then "" else [s[0]] + BeforeHash(s[1..])
  }

  function TrimRight(s: string): (r: string)
    ensures r <= s && (r != "" ==> !IsSpace(r[|r| - 1]))
    ensures forall i | |r| <= i < |s| :: IsSpace(s[i])
  {
    if s != "" && IsSpace(s[|s| - 1]) then TrimRight(s[..|s| - 1]) else s
  }

  /** A line without its comment and the white space around it. */
  function Body(line: string): string {
    var s := BeforeHash(line);
    TrimRight(s[Spaces(s)..])
  }

  /** Neither begins nor ends with white space. */
  predicate Trimmed(p: string) { p != "" ==> !IsSpace(p[0]) && !IsSpace(p[|p| - 1]) }

  lemma BodyIsTrimmed(line: string)
    ensures Trimmed(Body(line))
  {
    var s := BeforeHash(line);
    var t := s[Spaces(s)..];
    hide BeforeHash, Spaces, TrimRight;
    if Body(line) != "" { assert Body(line)[0] == t[0]; }
  }

  lemma BodyIsOneLine(line: string)
    requires '\n' !in line
    ensures '\n' !in Body(line)
  {
    BeforeHashIn(line);
    var s := BeforeHash(line);
    var t := s[Spaces(s)..];
    assert forall ch | ch in t :: ch in s;
    hide BeforeHash, Spaces, TrimRight;
  }

  lemma {:induction false} BeforeHashIn(s: string)
    ensures forall ch | ch in BeforeHash(s) :: ch in s
  {
    if s != "" && s[0] != '#' {
      BeforeHashIn(s[1..]);
      assert forall ch | ch in s[1..] :: ch in s;
    }
  }

  predicate HasKeyword(p: string, kw: string) { kw <= p && |kw| < |p| && IsSpace(p[|kw|]) }

  lemma {:induction false} SomeWord(s: string)
    requires s != "" && !IsSpace(s[|s| - 1])
    ensures Words(s) != []
  {
    var t := s[Spaces(s)..];
    hide WordEnd;
    SpacesStop(s);
  }

  lemma {:induction false} SpacesStop(s: string)
    requires s != "" && !IsSpace(s[|s| - 1])
    ensures Spaces(s) < |s|
  {
    if IsSpace(s[0]) { SpacesStop(s[1..]); }
  }

  /** A keyword is recognised exactly if it is the first of several words. */
  lemma KeywordIsFirstWord(p: string, kw: string)
    requires Trimmed(p) && Field(kw)
    ensures HasKeyword(p, kw) <==> |Words(p)| >= 2 && Words(p)[0] == kw
    ensures HasKeyword(p, kw) ==> Words(p[|kw|..]) == Words(p)[1..]
  {
    if HasKeyword(p, kw) {
      var tail := p[|kw|..];
      assert p == kw + tail;
      hide Words;
      FirstWord(kw, tail);
      SomeWord(tail);
    }
    if p != "" && |Words(p)| >= 2 && Words(p)[0] == kw {
      var k := WordEnd(p);
      assert Spaces(p) == 0;
      assert p[0..] == p;
      assert Words(p) == [p[..k]] + Words(p[k..]);
      hide Words, WordEnd, Spaces;
      NoWords();
      assert p[..k] == kw && k == |kw|;
    }
  }

  // ----- Numeric ranges in workstation names -----

  function Digit(ch: char): nat {
    if '0' <= ch <= '9' then ch as int - '0' as int
    else if 'a' <= ch <= 'f' then ch as int - 'a' as int + 10
    else if 'A' <= ch <= 'F' then ch as int - 'A' as int + 10
    else 16
  }

  /** The number in base `base` at `i`, after `acc`, and where it ends. */
  function Number(s: string, i: nat, base: nat, acc: nat): (r: (nat, nat))
    requires i <= |s|
    ensures i <= r.1 <= |s|
    decreases |s| - i
  {
    if i == |s| || Digit(s[i]) >= base then (acc, i) else Number(s, i + 1, base, base * acc + Digit(s[i]))
  }

  /** strtol with base 0. */
  function Strtol(s: string, i: nat): (r: (nat, nat))
    requires i <= |s|
    ensures i <= r.1 <= |s|
  {
    if i + 2 < |s| && s[i] == '0' && (s[i + 1] == 'x' || s[i + 1] == 'X') && Digit(s[i + 2]) < 16
    then Number(s, i + 2, 16, 0)
    else if i < |s| && s[i] == '0' then Number(s, i, 8, 0)
    else Number(s, i, 10, 0)
  }

  datatype Range = Range(prefix: string, first: nat, last: nat, suffix: string)

  function Bracket(s: string): (i: nat)
    ensures i <= |s| && (i < |s| ==> s[i] == '[') && '[' !in s[..i]
  {
    if s == "" || s[0] == '[' then 0
    else
      var i := Bracket(s[1..]);
      assert s[..i + 1] == [s[0]] + s[1..][..i];
      i + 1
  }

  function NumericRange(name: string): Option<Range> {
    var start := Bracket(name);
    if start + 1 >= |name| || !IsDigit(name[start + 1]) then None
    else
      var (first, p) := Strtol(name, start + 1);
      if p + 1 >= |name| || name[p] != '-' || !IsDigit(name[p + 1]) then None
      else
        var (last, q) := Strtol(name, p + 1);
        if q == |name| || name[q] != ']' then None
        else Some(Range(name[..start], first, last, name[q + 1..]))
  }

  /** The workstations of one name: one for each number of a range. */
  function Expanded(name: string, cluster: nat): seq<Machine> {
    match NumericRange(name)
    case None => [NewMachine(name, cluster)]
    case Some(r) => Numbered(r, r.first, cluster)
  }

  function Numbered(r: Range, i: nat, cluster: nat): (s: seq<Machine>)
    ensures |s| == if i <= r.last then r.last + 1 - i else 0
    ensures forall k | 0 <= k < |s| :: s[k] == NewMachine(r.prefix + Show(i + k) + r.suffix, cluster)
    decreases r.last + 1 - i
  {
    if i > r.last then [] else [NewMachine(r.prefix + Show(i) + r.suffix, cluster)] + Numbered(r, i + 1, cluster)
  }

  lemma NumberedCons(r: Range, i: nat, cluster: nat)
    requires i <= r.last
    ensures Numbered(r, i, cluster) == [NewMachine(r.prefix + Show(i) + r.suffix, cluster)] + Numbered(r, i + 1, cluster)
  {
    hide Show;
  }

  // ----- Groups -----

  /** The first cluster of that name. */
  function FirstNamed(cs: seq<Cluster>, name: string): (i: nat)
    ensures i <= |cs| && (i < |cs| ==> cs[i].name == name) && forall j | 0 <= j < i :: cs[j].name != name
  {
    if cs == [] || cs[0].name == name then 0 else 1 + FirstNamed(cs[1..], name)
  }

  /** The clusters named are put into group `g` one after another; unknown ones and those that are
      in a group are refused. */
  function Join(cs: seq<Cluster>, names: seq<string>, g: nat): Option<seq<Cluster>>
    decreases |names|
  {
    if names == [] then Some(cs)
    else
      var i := FirstNamed(cs, names[0]);
      if i == |cs| || cs[i].cgroup != -1 then None else Join(cs[i := cs[i].(cgroup := g)], names[1..], g)
  }

  ghost predicate Joinable(cs: seq<Cluster>, names: seq<string>) {
    && (forall k | 0 <= k < |names| :: FirstNamed(cs, names[k]) < |cs| && cs[FirstNamed(cs, names[k])].cgroup == -1)
    && (forall j, k | 0 <= j < k < |names| :: FirstNamed(cs, names[j]) != FirstNamed(cs, names[k]))
  }

  ghost predicate IsNamed(cs: seq<Cluster>, names: seq<string>, i: nat) { exists w | w in names :: FirstNamed(cs, w) == i }

  lemma {:induction false} SameNames(cs: seq<Cluster>, cs': seq<Cluster>, name: string)
    requires |cs'| == |cs| && forall i | 0 <= i < |cs| :: cs'[i].name == cs[i].name
    ensures FirstNamed(cs', name) == FirstNamed(cs, name)
  {
    if cs != [] && cs[0].name != name { SameNames(cs[1..], cs'[1..], name); }
  }

  /** A group line is accepted if and only if its names denote different clusters, all known and in
      no group yet; then exactly those clusters are in the new group. */
  lemma {:induction false} JoinMeaning(cs: seq<Cluster>, names: seq<string>, g: nat)
    ensures Join(cs, names, g).Some? <==> Joinable(cs, names)
    ensures Join(cs, names, g).Some? ==>
              var cs' := Join(cs, names, g).value;
              && |cs'| == |cs|
              && forall i | 0 <= i < |cs| :: cs'[i] == if IsNamed(cs, names, i) then cs[i].(cgroup := g) else cs[i]
    decreases |names|
  {
    if names != [] {
      var w, rest := names[0], names[1..];
      var i := FirstNamed(cs, w);
      assert w in names && names == [w] + rest;
      if i < |cs| && cs[i].cgroup == -1 {
        var cs1 := cs[i := cs[i].(cgroup := g)];
        JoinMeaning(cs1, rest, g);
        forall x: string
          ensures FirstNamed(cs1, x) == FirstNamed(cs, x)
        {
          SameNames(cs, cs1, x);
        }
        hide FirstNamed;
        JoinableStep(cs, cs1, names, i, g);
        NamedStep(cs, cs1, names);
      }
    }
  }

  lemma JoinableStep(cs: seq<Cluster>, cs1: seq<Cluster>, names: seq<string>, i: nat, g: nat)
    requires names != [] && i < |cs| && i == FirstNamed(cs, names[0]) && cs[i].cgroup == -1
    requires cs1 == cs[i := cs[i].(cgroup := g)]
    requires forall x :: FirstNamed(cs1, x) == FirstNamed(cs, x)
    ensures Joinable(cs, names) <==> Joinable(cs1, names[1..])
  {
    hide FirstNamed;
    var rest := names[1..];
    assert forall k | 0 <= k < |rest| :: rest[k] == names[k + 1];
    if Joinable(cs1, rest) {
      forall k | 0 <= k < |names|
        ensures FirstNamed(cs, names[k]) < |cs| && cs[FirstNamed(cs, names[k])].cgroup == -1
        ensures k > 0 ==> FirstNamed(cs, names[k]) != i
      {
        if k > 0 { assert names[k] == rest[k - 1]; }
      }
      forall j, k | 0 <= j < k < |names|
        ensures FirstNamed(cs, names[j]) != FirstNamed(cs, names[k])
      {
        if j > 0 { assert names[j] == rest[j - 1] && names[k] == rest[k - 1]; }
      }
    }
  }

  lemma NamedStep(cs: seq<Cluster>, cs1: seq<Cluster>, names: seq<string>)
    requires names != [] && |cs1| == |cs| && forall x :: FirstNamed(cs1, x) == FirstNamed(cs, x)
    ensures forall j: nat :: IsNamed(cs, names, j) <==> FirstNamed(cs, names[0]) == j || IsNamed(cs1, names[1..], j)
  {
    hide FirstNamed;
    var rest := names[1..];
    assert names == [names[0]] + rest;
    forall j: nat
      ensures IsNamed(cs, names, j) <==> FirstNamed(cs, names[0]) == j || IsNamed(cs1, rest, j)
    {
      if FirstNamed(cs, names[0]) == j { assert names[0] in names; }
      if w :| w in rest && FirstNamed(cs1, w) == j { assert w in names && FirstNamed(cs, w) == j; }
      if w :| w in names && FirstNamed(cs, w) == j { assert w == names[0] || (w in rest && FirstNamed(cs1, w) == j); }
    }
  }

  // ----- The whole file -----

  function DropSpaces(s: string): string { s[Spaces(s)..] }

  function WithOption(c: Config, p: string): Option<Config> {
    if HasKeyword(p, "report-other") then Some(c.(reportOther := Some(DropSpaces(p[12..]))))
    else if HasKeyword(p, "report-unknown") then Some(c.(reportUnknown := Some(DropSpaces(p[14..]))))
    else None
  }

  /** What a line does to what was read before, or that it is refused. */
  function Apply(d: Draft, p: string): Option<Draft> {
    var w, c := Words(p), d.config;
    if w == [] then Some(d)
    else if |w| == 1 then None
    else if w[0] == "cluster" then
      Some(d.(config := c.(clusters := c.clusters + [Cluster(w[1], Nth(w, 2), -1)]), clusterIndex := |c.clusters|))
    else if w[0] == "printer" then
      if d.clusterIndex < 0 || d.clusterIndex >= |c.clusters| then None
      else
        var location := if |w| > 2 then w[2] else c.clusters[d.clusterIndex].name;
        Some(d.(config := c.(printers := c.printers + [Printer(w[1], d.clusterIndex, location, false, 0)])))
    else if w[0] == "ws" then
      if d.clusterIndex < 0 then None else Some(d.(config := c.(machines := c.machines + Expanded(w[1], d.clusterIndex))))
    else if w[0] == "cgroup" then
      match Join(c.clusters, Drop(w, 4), |c.cgroups|)
      case None => None
      case Some(cs) =>
        Some(d.(config := c.(clusters := cs, cgroups := c.cgroups + [Cgroup(w[1], Atoi(Nth(w, 2)), Atoi(Nth(w, 3)))])))
    else if w[0] == "option" && |p| > 6 then
      match WithOption(c, DropSpaces(p[6..]))
      case None => None
      case Some(c') => Some(d.(config := c'))
    else None
  }

  function ApplyAll(d: Draft, lines: seq<string>): Option<Draft>
    decreases |lines|
  {
    if lines == [] then Some(d)
    else
      match Apply(d, Body(lines[0]))
      case None => None
      case Some(d') => ApplyAll(d', lines[1..])
  }

  /** A report name and its net names, which default to it. */
  function ArchOf(w: seq<string>): Arch
    requires w != []
  {
    Arch(if |w| == 1 then [w[0]] else w[1..], w[0])
  }

  predicate Skipped(w: seq<string>) { w == [] || "#" <= w[0] }

  function Arches(lines: seq<string>): seq<Arch> {
    if lines == [] then []
    else
      var w := Words(lines[0]);
      if Skipped(w) then Arches(lines[1..])
      else if Hyphen(w[0]) then []
      else [ArchOf(w)] + Arches(lines[1..])
  }

  function PastArches(lines: seq<string>): seq<string> {
    if lines == [] then []
    else
      var w := Words(lines[0]);
      if !Skipped(w) && Hyphen(w[0]) then lines[1..] else PastArches(lines[1..])
  }

  function Parsed(text: string): Option<Draft> {
    var lines := Lines(text);
    ApplyAll(NOTHING.(config := NOTHING.config.(arches := Arches(lines))), PastArches(lines))
  }

  // ----- What an accepted file guarantees -----

  ghost predicate OneLine(s: string) { s != "" && '\n' !in s }

  ghost predicate Sound(d: Draft) {
    var c := d.config;
    && -1 <= d.clusterIndex < |c.clusters|
    && (forall p | p in c.printers :: p.cluster < |c.clusters| && Field(p.name) && Field(p.location))
    && (forall m | m in c.machines :: m.cluster < |c.clusters| && m == NewMachine(m.name, m.cluster))
    && (forall k | k in c.clusters :: -1 <= k.cgroup < |c.cgroups| && Field(k.name) && (k.phone == "" || Field(k.phone)))
    && (c.reportOther.Some? ==> OneLine(c.reportOther.value))
    && (c.reportUnknown.Some? ==> OneLine(c.reportUnknown.value))
    && (forall g | g in c.cgroups :: Field(g.name))
    && (forall a | a in c.arches :: Field(a.reportname) && !Hyphen(a.reportname))
  }

  lemma {:induction false} JoinKeeps(cs: seq<Cluster>, names: seq<string>, g: nat)
    requires Join(cs, names, g).Some?
    ensures var cs' := Join(cs, names, g).value;
            |cs'| == |cs| && forall i | 0 <= i < |cs| :: cs'[i] == cs[i].(cgroup := cs'[i].cgroup) && (cs'[i].cgroup == g || cs'[i] == cs[i])
    decreases |names|
  {
    if names != [] {
      var i := FirstNamed(cs, names[0]);
      JoinKeeps(cs[i := cs[i].(cgroup := g)], names[1..], g);
    }
  }

  /** The value of an option is not empty and on one line. */
  lemma OptionKeeps(c: Config, p: string)
    requires Trimmed(p) && |p| > 6 && '\n' !in p && WithOption(c, DropSpaces(p[6..])).Some?
    ensures var c' := WithOption(c, DropSpaces(p[6..])).value;
            && c' == c.(reportOther := c'.reportOther, reportUnknown := c'.reportUnknown)
            && (c'.reportOther == c.reportOther || (c'.reportOther.Some? && OneLine(c'.reportOther.value)))
            && (c'.reportUnknown == c.reportUnknown || (c'.reportUnknown.Some? && OneLine(c'.reportUnknown.value)))
  {
    var o := DropSpaces(p[6..]);
    SuffixKept(p, 6);
    if HasKeyword(o, "report-other") {
      SuffixKept(o, 12);
    } else if HasKeyword(o, "report-unknown") {
      SuffixKept(o, 14);
    }
    hide Spaces;
  }

  /** What is left of a trimmed line, behind some of its characters and the spaces there. */
  lemma SuffixKept(p: string, n: nat)
    requires n < |p| && !IsSpace(p[|p| - 1]) && '\n' !in p
    ensures var s := DropSpaces(p[n..]); OneLine(s) && s[|s| - 1] == p[|p| - 1]
  {
    var t := p[n..];
    assert t[|t| - 1] == p[|p| - 1];
    SpacesStop(t);
    hide Spaces;
    assert forall ch | ch in DropSpaces(t) :: ch in p;
  }

  lemma ApplyKeeps(d: Draft, p: string)
    requires Sound(d) && Apply(d, p).Some? && Trimmed(p) && '\n' !in p
    ensures Sound(Apply(d, p).value)
  {
    var w, c := Words(p), d.config;
    WordsAreFields(p);
    hide Words, Field, Hyphen, Atoi, OneLine, WithOption, Trimmed, Sound, Join, Expanded;
    if |w| >= 2 {
      assert w[0] in w && w[1] in w && (|w| > 2 ==> w[2] in w);
      if w[0] == "cluster" {
        ClusterKeeps(d, w[1], Nth(w, 2));
      } else if w[0] == "printer" {
        PrinterKeeps(d, w[1], if |w| > 2 then Some(w[2]) else None);
      } else if w[0] == "ws" {
        StationKeeps(d, w[1]);
      } else if w[0] == "cgroup" {
        GroupKeeps(d, Cgroup(w[1], Atoi(Nth(w, 2)), Atoi(Nth(w, 3))), Drop(w, 4));
      } else {
        OptionKeeps(c, p);
        OptionSound(d, WithOption(c, DropSpaces(p[6..])).value);
      }
    }
  }

  lemma ClusterKeeps(d: Draft, name: string, phone: string)
    requires Sound(d) && Field(name) && (phone == "" || Field(phone))
    ensures var c := d.config;
            Sound(d.(config := c.(clusters := c.clusters + [Cluster(name, phone, -1)]), clusterIndex := |c.clusters|))
  {
    hide Field, Hyphen, OneLine;
  }

  lemma PrinterKeeps(d: Draft, name: string, place: Option<string>)
    requires Sound(d) && d.clusterIndex >= 0 && Field(name) && (place.Some? ==> Field(place.value))
    ensures d.clusterIndex < |d.config.clusters|
    ensures var c := d.config;
            var location := if place.Some? then place.value else c.clusters[d.clusterIndex].name;
            Sound(d.(config := c.(printers := c.printers + [Printer(name, d.clusterIndex, location, false, 0)])))
  {
    hide Field, Hyphen, OneLine;
    assert d.config.clusters[d.clusterIndex] in d.config.clusters;
  }

  lemma StationKeeps(d: Draft, name: string)
    requires Sound(d) && d.clusterIndex >= 0
    ensures var c := d.config; Sound(d.(config := c.(machines := c.machines + Expanded(name, d.clusterIndex))))
  {
    hide Field, Hyphen, OneLine, Expanded;
    ExpandedIn(name, d.clusterIndex);
  }

  lemma GroupKeeps(d: Draft, g: Cgroup, names: seq<string>)
    requires Sound(d) && Field(g.name) && Join(d.config.clusters, names, |d.config.cgroups|).Some?
    ensures var c := d.config;
            Sound(d.(config := c.(clusters := Join(c.clusters, names, |c.cgroups|).value, cgroups := c.cgroups + [g])))
  {
    hide Field, Hyphen, OneLine, Join;
    var c := d.config;
    JoinKeeps(c.clusters, names, |c.cgroups|);
    var cs := Join(c.clusters, names, |c.cgroups|).value;
    forall k | k in cs
      ensures -1 <= k.cgroup < |c.cgroups| + 1 && Field(k.name) && (k.phone == "" || Field(k.phone))
    {
      var i :| 0 <= i < |cs| && cs[i] == k;
      assert c.clusters[i] in c.clusters;
    }
  }

  lemma OptionSound(d: Draft, c': Config)
    requires Sound(d) && c' == d.config.(reportOther := c'.reportOther, reportUnknown := c'.reportUnknown)
    requires c'.reportOther == d.config.reportOther || (c'.reportOther.Some? && OneLine(c'.reportOther.value))
    requires c'.reportUnknown == d.config.reportUnknown || (c'.reportUnknown.Some? && OneLine(c'.reportUnknown.value))
    ensures Sound(d.(config := c'))
  {
    hide Field, Hyphen, OneLine;
  }

  lemma ExpandedIn(name: string, cluster: nat)
    ensures forall m | m in Expanded(name, cluster) :: m == NewMachine(m.name, cluster)
  {
    hide NumericRange, Show;
  }

  lemma {:induction false} ApplyAllKeeps(d: Draft, lines: seq<string>)
    requires Sound(d) && ApplyAll(d, lines).Some? && forall l | l in lines :: '\n' !in l
    ensures Sound(ApplyAll(d, lines).value)
    decreases |lines|
  {
    hide Sound, Apply, Body, Trimmed;
    if lines != [] {
      assert lines[0] in lines;
      BodyIsTrimmed(lines[0]);
      BodyIsOneLine(lines[0]);
      ApplyKeeps(d, Body(lines[0]));
      ApplyAllKeeps(Apply(d, Body(lines[0])).value, lines[1..]);
    }
  }

  lemma {:induction false} ArchesAreFields(lines: seq<string>)
    ensures forall a | a in Arches(lines) :: Field(a.reportname) && !Hyphen(a.reportname)
  {
    if lines != [] {
      WordsAreFields(lines[0]);
      hide Words, Field;
      ArchesAreFields(lines[1..]);
    }
  }

  /** Every accepted file has valid indices: each printer and workstation belongs to a cluster, and
      each cluster to one group or none. */
  lemma AcceptedIsSound(text: string)
    requires Parsed(text).Some?
    ensures Sound(Parsed(text).value) && Indexed(Parsed(text).value.config)
  {
    var lines := Lines(text);
    var d0 := NOTHING.(config := NOTHING.config.(arches := Arches(lines)));
    ArchesAreFields(lines);
    hide Arches, Field, Hyphen, Lines, PastArches, OneLine;
    assert Sound(d0);
    hide ApplyAll;
    NoNewlines(text);
    PastArchesIn(lines);
    ApplyAllKeeps(d0, PastArches(lines));
    SoundIsIndexed(Parsed(text).value);
  }

  lemma {:induction false} NoNewlines(s: string)
    ensures forall l | l in Lines(s) :: '\n' !in l
    decreases |s|
  {
    if s != "" {
      NoNewlines(After(s));
      BeforeEnd(s);
      hide LineEnd;
    }
  }

  lemma {:induction false} BeforeEnd(s: string)
    ensures '\n' !in s[..LineEnd(s)]
  {
    if s != "" && s[0] != '\n' {
      BeforeEnd(s[1..]);
      assert s[..LineEnd(s)] == [s[0]] + s[1..][..LineEnd(s[1..])];
    }
  }

  lemma {:induction false} PastArchesIn(lines: seq<string>)
    ensures forall l | l in PastArches(lines) :: l in lines
  {
    hide Words, Hyphen, Skipped;
    if lines != [] {
      PastArchesIn(lines[1..]);
      assert forall l | l in lines[1..] :: l in lines;
    }
  }

  /** What an accepted configuration is sure to have when it is written, in whatever order its
      workstations are. */
  lemma SoundIsWritten(d: Draft, ms: seq<Machine>)
    requires Sound(d) && Indexed(d.config.(machines := ms))
    ensures Written(d.config.(machines := ms))
  {
    var c := d.config.(machines := ms);
    ColumnsAre(c);
    hide Columns;
    forall n | n in Columns(c)
      ensures n != "" && '\n' !in n
    {
      if a :| a in c.arches && a.reportname == n { NoNewlineField(n); }
    }
    hide Field, Hyphen, Indexed;
  }

  lemma SoundIsIndexed(d: Draft)
    requires Sound(d)
    ensures Indexed(d.config)
  {
    hide Field, Hyphen;
  }

  /** An accepted file can be reported and read back exactly if phones are given, cluster names do
      not begin with a hyphen, and the two options are single words that do not either. */
  lemma AcceptedIsReportable(text: string)
    requires Parsed(text).Some?
    ensures var c := Parsed(text).value.config;
            Reportable(c) <==>
            && (forall k | k in c.clusters :: !Hyphen(k.name) && Field(k.phone))
            && (c.reportOther.Some? ==> Field(c.reportOther.value) && !Hyphen(c.reportOther.value))
            && (c.reportUnknown.Some? ==> Field(c.reportUnknown.value) && !Hyphen(c.reportUnknown.value))
  {
    AcceptedIsSound(text);
    var d := Parsed(text).value;
    hide Parsed;
    ColumnsAre(d.config);
    hide Columns, Field, Hyphen, Indexed;
  }

  lemma ColumnsAre(c: Config)
    ensures forall n :: n in Columns(c) <==>
              || (exists a | a in c.arches :: a.reportname == n)
              || c.reportOther == Some(n) || c.reportUnknown == Some(n)
  {
    ReportnamesAre(c.arches);
    hide Reportnames;
  }

  lemma {:induction false} ReportnamesAre(arches: seq<Arch>)
    ensures forall n :: n in Reportnames(arches) <==> exists a | a in arches :: a.reportname == n
  {
    if arches != [] {
      var init, last := arches[..|arches| - 1], arches[|arches| - 1];
      ReportnamesAre(init);
      assert arches == init + [last];
    }
  }

  // ----- The program -----

  /** Chops off the comment and the white space around the line. */
  method TrimLine(line: string) returns (p: string)
    ensures p == Body(line)
  {
    hide BeforeHash, Spaces;
    var s := BeforeHash(line);
    assert s[0..] == s;
    var i := SkipSpaces(s, 0);
    p := s[i..];
    ghost var t := p;
    while |p| > 1 && IsSpace(p[|p| - 1])
      invariant TrimRight(p) == TrimRight(t)
      invariant t != "" ==> p != "" && p[0] == t[0]
    {
      p := p[..|p| - 1];
    }
  }

  method NumberedMachines(r: Range, cluster: nat) returns (ms: seq<Machine>)
    ensures ms == Numbered(r, r.first, cluster)
  {
    hide Show, Numbered;
    ms := [];
    var i := r.first;
    while i <= r.last
      invariant ms + Numbered(r, i, cluster) == Numbered(r, r.first, cluster)
      decreases r.last + 1 - i
    {
      NumberedCons(r, i, cluster);
      ghost var one, rest := NewMachine(r.prefix + Show(i) + r.suffix, cluster), Numbered(r, i + 1, cluster);
      assert ms + ([one] + rest) == ms + [one] + rest;
      ms := ms + [NewMachine(r.prefix + Show(i) + r.suffix, cluster)];
      i := i + 1;
    }
    assert Numbered(r, i, cluster) == [];
  }

  /** The two options, with the rest of the line as their value. */
  method ReadOption(c: Config, o: string) returns (r: Option<Config>)
    ensures r == WithOption(c, o)
  {
    hide Spaces;
    if HasKeyword(o, "report-other") {
      var v := ReadValue(o, 12);
      r := Some(c.(reportOther := Some(v)));
    } else if HasKeyword(o, "report-unknown") {
      var v := ReadValue(o, 14);
      r := Some(c.(reportUnknown := Some(v)));
    } else {
      r := None;
    }
  }

  method ReadValue(o: string, n: nat) returns (v: string)
    requires n <= |o|
    ensures v == DropSpaces(o[n..])
  {
    var j := SkipSpaces(o, n);
    Suffix(o, n, Spaces(o[n..]));
    v := o[j..];
  }

  class Builder {
    var config: Config
    var clusterIndex: int

    ghost function Now(): Draft
      reads this
    {
      Draft(config, clusterIndex)
    }

    constructor (arches: seq<Arch>)
      ensures Now() == NOTHING.(config := NOTHING.config.(arches := arches))
    {
      config := Config(arches, None, None, [], [], [], []);
      clusterIndex := -1;
    }

    method AddMachines(name: string)
      requires clusterIndex >= 0
      modifies this`config
      ensures config == old(config).(machines := old(config.machines) + Expanded(name, clusterIndex))
    {
      match NumericRange(name) {
        case None =>
          config := config.(machines := config.machines + [NewMachine(name, clusterIndex)]);
        case Some(r) =>
          var ms := NumberedMachines(r, clusterIndex);
          config := config.(machines := config.machines + ms);
      }
    }

    method FindCluster(name: string) returns (i: nat)
      ensures i == FirstNamed(config.clusters, name)
    {
      i := 0;
      while i < |config.clusters| && config.clusters[i].name != name
        invariant i <= |config.clusters|
        invariant i + FirstNamed(config.clusters[i..], name) == FirstNamed(config.clusters, name)
      {
        assert config.clusters[i..][1..] == config.clusters[i + 1..];
        i := i + 1;
      }
    }

    /** The clusters of a group line, from `q` on. */
    method JoinClusters(p: string, q0: nat, g: nat) returns (ok: bool)
      requires Trimmed(p) && q0 <= |p|
      modifies this`config
      ensures ok <==> Join(old(config.clusters), Words(p[q0..]), g).Some?
      ensures ok ==> config == old(config).(clusters := Join(old(config.clusters), Words(p[q0..]), g).value)
    {
      hide Words, FirstNamed, Atoi, Lower, FirstFieldMatches, Unspaced;
      var q := q0;
      ghost var goal := Join(config.clusters, Words(p[q0..]), g);
      NoWords();
      while q < |p|
        invariant q <= |p| && goal == Join(config.clusters, Words(p[q..]), g)
        invariant config == old(config).(clusters := config.clusters)
        decreases |p| - q
      {
        ghost var ws := Words(p[q..]);
        SomeWord(p[q..]);
        var from, to := NextWord(p, q);
        assert ws[0] == p[from..to] && Drop(ws, 1) == ws[1..];
        q := to;
        var i := FindCluster(p[from..to]);
        if i == |config.clusters| {
          return false;
        }
        if config.clusters[i].cgroup != -1 {
          return false;
        }
        config := config.(clusters := config.clusters[i := config.clusters[i].(cgroup := g)]);
      }
      assert p[q..] == "";
      return true;
    }

    ghost predicate Did(before: Draft, p: string, ok: bool)
      reads this
    {
      (ok <==> Apply(before, p).Some?) && (ok ==> Apply(before, p) == Some(Now()))
    }

    method AddCluster(p: string)
      requires |Words(p)| >= 2 && Words(p)[0] == "cluster" && |p| > 7 && Words(p[7..]) == Words(p)[1..]
      modifies this
      ensures Did(old(Now()), p, true)
    {
      hide Words, Atoi, Lower, FirstFieldMatches, Unspaced, Join, Expanded, WithOption;
      var from, q := NextWord(p, 7);
      var name := p[from..q];
      from, q := NextWord(p, q);
      var phone := p[from..q];
      clusterIndex := |config.clusters|;
      config := config.(clusters := config.clusters + [Cluster(name, phone, -1)]);
    }

    method AddPrinter(p: string) returns (ok: bool)
      requires |Words(p)| >= 2 && Words(p)[0] == "printer" && |p| > 7 && Words(p[7..]) == Words(p)[1..]
      requires -1 <= clusterIndex < |config.clusters|
      modifies this
      ensures Did(old(Now()), p, ok)
    {
      hide Words, Atoi, Lower, FirstFieldMatches, Unspaced, Join, Expanded, WithOption;
      if clusterIndex == -1 {
        return false;
      }
      var from, q := NextWord(p, 7);
      var name := p[from..q];
      from, q := NextWord(p, q);
      var location := if from < |p| then p[from..q] else config.clusters[clusterIndex].name;
      config := config.(printers := config.printers + [Printer(name, clusterIndex, location, false, 0)]);
      return true;
    }

    method AddStation(p: string) returns (ok: bool)
      requires |Words(p)| >= 2 && Words(p)[0] == "ws" && |p| > 2 && Words(p[2..]) == Words(p)[1..]
      requires -1 <= clusterIndex
      modifies this
      ensures Did(old(Now()), p, ok)
    {
      hide Words, Atoi, Lower, FirstFieldMatches, Unspaced, Join, Expanded, WithOption;
      if clusterIndex == -1 {
        return false;
      }
      var from, q := NextWord(p, 2);
      AddMachines(p[from..q]);
      return true;
    }

    method AddGroup(p: string) returns (ok: bool)
      requires |Words(p)| >= 2 && Words(p)[0] == "cgroup" && |p| > 6 && Words(p[6..]) == Words(p)[1..] && Trimmed(p)
      modifies this
      ensures Did(old(Now()), p, ok)
    {
      hide Words, Atoi, Lower, FirstFieldMatches, Unspaced, Join, Expanded, WithOption;
      ghost var w := Words(p);
      var from, q := NextWord(p, 6);
      var name := p[from..q];
      from, q := NextWord(p, q);
      var x := Atoi(p[from..]);
      from, q := NextWord(p, q);
      var y := Atoi(p[from..]);
      assert Words(p[q..]) == Drop(w, 4);
      config := config.(cgroups := config.cgroups + [Cgroup(name, x, y)]);
      ok := JoinClusters(p, q, |config.cgroups| - 1);
    }

    method AddOption(p: string) returns (ok: bool)
      requires |Words(p)| >= 2 && Words(p)[0] == "option" && |p| > 6
      modifies this
      ensures Did(old(Now()), p, ok)
    {
      OptionIs(Now(), p);
      hide Words, Atoi, Join, Expanded, Spaces, Apply, WithOption;
      var i := SkipSpaces(p, 6);
      Suffix(p, 6, Spaces(p[6..]));
      var c := ReadOption(config, p[i..]);
      if c.None? {
        return false;
      }
      config := c.value;
      return true;
    }

    /** One line of the second part. */
    method HandleLine(line: string) returns (ok: bool)
      requires -1 <= clusterIndex < |config.clusters|
      modifies this
      ensures Did(old(Now()), Body(line), ok)
    {
      hide Words, Body, HasKeyword, Join, Expanded, WithOption, Atoi, Trimmed, Apply;
      var p := TrimLine(line);
      BodyIsTrimmed(line);
      EmptyLine(Now());
      if p == "" {
        return true;
      }
      Keywords(p);
      if HasKeyword(p, "cluster") {
        AddCluster(p);
        ok := true;
      } else if HasKeyword(p, "printer") {
        ok := AddPrinter(p);
      } else if HasKeyword(p, "ws") {
        ok := AddStation(p);
      } else if HasKeyword(p, "cgroup") {
        ok := AddGroup(p);
      } else if HasKeyword(p, "option") {
        ok := AddOption(p);
      } else {
        Unrecognised(Now(), p);
        ok := false;
      }
    }
  }

  lemma OptionIs(d: Draft, p: string)
    requires |Words(p)| >= 2 && Words(p)[0] == "option" && |p| > 6
    ensures Apply(d, p) == match WithOption(d.config, DropSpaces(p[6..]))
                           case None => None
                           case Some(c) => Some(d.(config := c))
  {
    hide Words, WithOption, Join, Expanded, Atoi;
  }

  lemma EmptyLine(d: Draft)
    ensures Apply(d, "") == Some(d)
  {
    NoWords();
    hide Words;
  }

  /** A line that begins with none of the keywords, or has nothing behind it, is refused. */
  lemma Unrecognised(d: Draft, p: string)
    requires Words(p) != []
    requires |Words(p)| >= 2 ==>
               var w := Words(p)[0]; w != "cluster" && w != "printer" && w != "ws" && w != "cgroup" && w != "option"
    ensures Apply(d, p).None?
  {
    hide Words, WithOption, Join, Expanded, Atoi;
  }

  ghost predicate Recognised(p: string, kw: string) {
    && (HasKeyword(p, kw) <==> |Words(p)| >= 2 && Words(p)[0] == kw)
    && (HasKeyword(p, kw) ==> |p| > |kw| && Words(p[|kw|..]) == Words(p)[1..])
  }

  lemma KeywordRecognised(p: string, kw: string)
    requires Trimmed(p) && kw != "" && forall ch | ch in kw :: 'a' <= ch <= 'z'
    ensures Recognised(p, kw)
  {
    hide Words;
    LowerCase(kw);
    KeywordIsFirstWord(p, kw);
  }

  lemma Keywords(p: string)
    requires Trimmed(p) && p != ""
    ensures Words(p) != []
    ensures Recognised(p, "cluster") && Recognised(p, "printer") && Recognised(p, "ws")
    ensures Recognised(p, "cgroup") && Recognised(p, "option")
  {
    SomeWord(p);
    hide Words, Recognised;
    KeywordRecognised(p, "cluster");
    KeywordRecognised(p, "printer");
    KeywordRecognised(p, "ws");
    KeywordRecognised(p, "cgroup");
    KeywordRecognised(p, "option");
  }

  /** The architectures, up to a line that begins with a hyphen. */
  method ReadArches(r: LineReader) returns (arches: seq<Arch>)
    requires r.Valid()
    modifies r
    ensures r.Valid() && arches == Arches(Lines(old(r.Rest()))) && Lines(r.Rest()) == PastArches(Lines(old(r.Rest())))
  {
    hide Words, Lines, LineEnd, After, Arches, PastArches, Hyphen, Skipped, ArchOf;
    arches := [];
    ghost var lines := Lines(r.Rest());
    NoArches();
    while true
      invariant r.Valid() && arches + Arches(Lines(r.Rest())) == Arches(lines)
      invariant PastArches(Lines(r.Rest())) == PastArches(lines)
      decreases |r.Rest()|
    {
      ghost var rest := r.Rest();
      var ended := r.ReadLine();
      if ended { return; }
      LineStep(rest);
      ArchStep(arches, r.buf, Lines(r.Rest()));
      assert r.buf[0..] == r.buf;
      var w := ReadNames(r.buf, 0);
      if Skipped(w) { continue; }
      WordsNotEmpty(w);
      if Hyphen(w[0]) { return; }
      arches := arches + [ArchOf(w)];
    }
  }

  lemma WordsNotEmpty(w: seq<string>)
    requires !Skipped(w)
    ensures w != []
  {
  }

  lemma NoArches()
    ensures Lines("") == [] && Arches([]) == [] && PastArches([]) == []
  {
  }

  lemma ArchStep(done: seq<Arch>, line: string, lines: seq<string>)
    ensures var w, all := Words(line), [line] + lines;
            && (Skipped(w) ==> Arches(all) == Arches(lines) && PastArches(all) == PastArches(lines))
            && (!Skipped(w) ==> w != [])
            && (!Skipped(w) && Hyphen(w[0]) ==> Arches(all) == [] && PastArches(all) == lines)
            && (!Skipped(w) && !Hyphen(w[0]) ==>
                  done + Arches(all) == done + [ArchOf(w)] + Arches(lines) && PastArches(all) == PastArches(lines))
  {
    hide Words, Hyphen, ArchOf;
    var all := [line] + lines;
    assert all[1..] == lines;
    ArchCons(all);
    hide Arches, PastArches;
  }

  lemma ArchCons(all: seq<string>)
    requires all != []
    ensures var w := Words(all[0]);
            && Arches(all) == (if Skipped(w) then Arches(all[1..])
                               else if Hyphen(w[0]) then []
                               else [ArchOf(w)] + Arches(all[1..]))
            && PastArches(all) == (if !Skipped(w) && Hyphen(w[0]) then all[1..] else PastArches(all[1..]))
  {
    hide Words, Hyphen, ArchOf;
  }

  /** The whole file: the configuration, its workstations in the order of their names, or that it is
      refused. */
  method ReadConfig(text: string, bufsize: nat) returns (c: Option<Config>)
    requires bufsize >= 2
    ensures c.Some? <==> Parsed(text).Some?
    ensures c.Some? ==>
              && c.value == Parsed(text).value.config.(machines := c.value.machines)
              && multiset(c.value.machines) == multiset(Parsed(text).value.config.machines)
              && InOrder(c.value.machines) && (forall m | m in c.value.machines :: m == NewMachine(m.name, m.cluster))
              && Sound(Parsed(text).value) && Indexed(c.value) && Written(c.value)
  {
    hide Parsed, Sound, Indexed, InOrder, Written;
    var d := ReadDraft(text, bufsize);
    if d.None? {
      return None;
    }
    var ms := WsSort(d.value.config.machines);
    AcceptedIsSound(text);
    SortedIsIndexed(d.value, ms);
    SoundIsWritten(d.value, ms);
    c := Some(d.value.config.(machines := ms));
  }

  lemma SortedIsIndexed(d: Draft, ms: seq<Machine>)
    requires Sound(d) && multiset(ms) == multiset(d.config.machines)
    ensures Indexed(d.config.(machines := ms)) && forall m | m in ms :: m == NewMachine(m.name, m.cluster)
  {
    hide Field, Hyphen;
    assert forall m | m in ms :: m in multiset(d.config.machines);
    assert forall p | p in d.config.printers :: p.cluster < |d.config.clusters|;
  }

  method ReadDraft(text: string, bufsize: nat) returns (d: Option<Draft>)
    requires bufsize >= 2
    ensures d == Parsed(text)
  {
    hide Lines, LineEnd, After, Arches, PastArches, Apply, Body, Sound, Indexed, Parsed, Trimmed;
    var r := new LineReader(text, bufsize);
    var arches := ReadArches(r);
    var b := new Builder(arches);
    FreshDraft(text, b.Now());
    NoArches();
    while true
      invariant r.Valid() && ApplyAll(b.Now(), Lines(r.Rest())) == Parsed(text)
      invariant Sound(b.Now())
      decreases |r.Rest()|
    {
      ghost var rest := r.Rest();
      var ended := r.ReadLine();
      if ended {
        return Some(Draft(b.config, b.clusterIndex));
      }
      LineStep(rest);
      ApplyCons(b.Now(), r.buf, Lines(r.Rest()));
      IndexInRange(b.Now());
      ghost var before := b.Now();
      var ok := b.HandleLine(r.buf);
      if !ok { return None; }
      BodyIsTrimmed(r.buf);
      FirstLineClean(rest);
      BodyIsOneLine(r.buf);
      ApplyKeeps(before, Body(r.buf));
    }
  }

  lemma FirstLineClean(s: string)
    ensures '\n' !in s[..LineEnd(s)]
  {
    BeforeEnd(s);
  }

  lemma ApplyCons(d: Draft, line: string, lines: seq<string>)
    ensures ApplyAll(d, [line] + lines) == match Apply(d, Body(line)) case None => None case Some(d') => ApplyAll(d', lines)
  {
    hide Apply, Body;
    assert ([line] + lines)[1..] == lines;
  }

  lemma FreshDraft(text: string, d: Draft)
    requires d == NOTHING.(config := NOTHING.config.(arches := Arches(Lines(text))))
    ensures Sound(d) && ApplyAll(d, PastArches(Lines(text))) == Parsed(text)
  {
    ArchesAreFields(Lines(text));
    hide Arches, Lines, ApplyAll, Field, Hyphen, PastArches, OneLine;
  }

  lemma IndexInRange(d: Draft)
    requires Sound(d)
    ensures -1 <= d.clusterIndex < |d.config.clusters|
  {
  }
}
