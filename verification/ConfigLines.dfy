/** What the lines of larvnetd's configuration file mean (athena/etc/larvnetd/config.c): each kind of
    line as it may be written, with what it adds to the configuration. */
module ConfigLines {
  import opened Wrappers
  import opened StatusText
  import opened StatusReport
  import opened StatusExact
  import opened Machines
  import opened ConfigFile

  // ----- Ranges -----

  lemma {:induction false} NumberIs(s: string, i: nat, d: string, acc: nat)
    requires i + |d| <= |s| && s[i..i + |d|] == d && (forall ch | ch in d :: IsDigit(ch))
    requires i + |d| < |s| ==> !IsDigit(s[i + |d|])
    ensures Number(s, i, 10, acc) == (Digits(d, acc), i + |d|)
    decreases |d|
  {
    if d != "" {
      assert s[i] == d[0] && d[0] in d;
      assert s[i + 1..i + 1 + |d[1..]|] == d[1..];
      NumberIs(s, i + 1, d[1..], 10 * acc + Digit(s[i]));
    }
  }

  lemma {:induction false} DecimalHead(n: nat)
    ensures n > 0 ==> Decimal(n)[0] != '0'
    ensures n == 0 ==> Decimal(n) == "0"
  {
    if n >= 10 { DecimalHead(n / 10); }
  }

  /** A number as it is printed is read back by strtol, if what follows is a hyphen or a bracket. */
  lemma StrtolIs(s: string, i: nat, n: nat)
    requires var d := Decimal(n); i + |d| < |s| && s[i..i + |d|] == d && (s[i + |d|] == '-' || s[i + |d|] == ']')
    ensures Strtol(s, i) == (n, i + |Decimal(n)|)
  {
    var d := Decimal(n);
    DecimalValue(n);
    DecimalHead(n);
    assert s[i] == d[0] && d[0] in d;
    hide Decimal;
    if n == 0 {
      assert s[i + 1] == s[i + |d|];
      hide Digits;
      assert Number(s, i + 1, 8, 0) == (0, i + 1);
    } else {
      NumberIs(s, i, d, 0);
    }
  }

  lemma {:induction false} BracketIs(prefix: string, rest: string)
    requires '[' !in prefix
    ensures Bracket(prefix + "[" + rest) == |prefix|
  {
    var s := prefix + "[" + rest;
    if prefix != "" {
      assert prefix[0] in prefix && s[1..] == prefix[1..] + "[" + rest;
      BracketIs(prefix[1..], rest);
    }
  }

  lemma RangeParts(prefix: string, first: string, last: string, suffix: string)
    ensures var s := prefix + "[" + first + "-" + last + "]" + suffix; var i := |prefix| + 1; var j := i + |first| + 1;
            && j + |last| < |s|
            && s[i..i + |first|] == first && s[i + |first|] == '-'
            && s[j..j + |last|] == last && s[j + |last|] == ']'
            && s[..|prefix|] == prefix && s[j + |last| + 1..] == suffix
            && s == prefix + "[" + (first + "-" + last + "]" + suffix)
  {
  }

  /** A name with a range in brackets stands for one workstation for each number of it. */
  lemma RangeMeaning(prefix: string, first: nat, last: nat, suffix: string, cluster: nat)
    requires '[' !in prefix
    ensures var ms := Expanded(prefix + "[" + Show(first) + "-" + Show(last) + "]" + suffix, cluster);
            && |ms| == (if first <= last then last + 1 - first else 0)
            && forall k | 0 <= k < |ms| :: ms[k] == NewMachine(prefix + Show(first + k) + suffix, cluster)
  {
    var s := prefix + "[" + Decimal(first) + "-" + Decimal(last) + "]" + suffix;
    RangeIs(prefix, first, last, suffix);
    hide Decimal, NumericRange;
    assert Expanded(s, cluster) == Numbered(Range(prefix, first, last, suffix), first, cluster);
    hide Expanded;
  }

  lemma RangeIs(prefix: string, first: nat, last: nat, suffix: string)
    requires '[' !in prefix
    ensures NumericRange(prefix + "[" + Decimal(first) + "-" + Decimal(last) + "]" + suffix) == Some(Range(prefix, first, last, suffix))
  {
    hide *;
    var a, b := Decimal(first), Decimal(last);
    var s := prefix + "[" + a + "-" + b + "]" + suffix;
    RangeParts(prefix, a, b, suffix);
    BracketIs(prefix, a + "-" + b + "]" + suffix);
    var p := |prefix| + 1 + |a|;
    StrtolIs(s, |prefix| + 1, first);
    BeginsWithDigit(s, |prefix| + 1, first);
    StrtolIs(s, p + 1, last);
    BeginsWithDigit(s, p + 1, last);
    NumericRangeIs(s, |prefix|, first, p, last, p + 1 + |b|);
  }

  lemma NumericRangeIs(s: string, start: nat, first: nat, p: nat, last: nat, q: nat)
    requires start + 1 < |s| && p + 1 < |s| && q < |s| && Bracket(s) == start
    requires IsDigit(s[start + 1]) && Strtol(s, start + 1) == (first, p)
    requires s[p] == '-' && IsDigit(s[p + 1]) && Strtol(s, p + 1) == (last, q) && s[q] == ']'
    ensures NumericRange(s) == Some(Range(s[..start], first, last, s[q + 1..]))
  {
    hide Bracket, Strtol, IsDigit;
  }

  lemma BeginsWithDigit(s: string, i: nat, n: nat)
    requires i + |Decimal(n)| < |s| && s[i..i + |Decimal(n)|] == Decimal(n)
    ensures IsDigit(s[i])
  {
    DecimalValue(n);
    assert s[i] == Decimal(n)[0] && Decimal(n)[0] in Decimal(n);
  }

  lemma {:induction false} NoBracket(s: string)
    requires '[' !in s
    ensures Bracket(s) == |s|
  {
    if s != "" { NoBracket(s[1..]); }
  }

  /** Any other name without a bracket stands for itself. */
  lemma PlainNameMeaning(name: string, cluster: nat)
    requires '[' !in name
    ensures Expanded(name, cluster) == [NewMachine(name, cluster)]
  {
    NoBracket(name);
  }

  // ----- Comments and white space -----

  ghost predicate Blank(s: string) { forall ch | ch in s :: IsSpace(ch) }

  ghost predicate Comment(s: string) { s == "" || s[0] == '#' }

  lemma {:induction false} SpacesIs(lead: string, t: string)
    requires Blank(lead) && (t == "" || !IsSpace(t[0]))
    ensures Spaces(lead + t) == |lead|
  {
    if lead != "" {
      assert lead[0] in lead && (lead + t)[1..] == lead[1..] + t;
      SpacesIs(lead[1..], t);
    } else {
      assert lead + t == t;
    }
  }

  lemma TrimRightIs(t: string, trail: string)
    requires Blank(trail) && (t == "" || !IsSpace(t[|t| - 1]))
    ensures TrimRight(t + trail) == t
  {
    var s := t + trail;
    var r := TrimRight(s);
    hide TrimRight;
    assert forall k | |t| <= k < |s| :: s[k] == trail[k - |t|] && trail[k - |t|] in trail;
    assert t != "" ==> s[|t| - 1] == t[|t| - 1];
    assert |r| == |t|;
    assert r == s[..|t|] == t;
  }

  lemma {:induction false} HashIs(s: string, comment: string)
    requires '#' !in s && Comment(comment)
    ensures BeforeHash(s + comment) == s
  {
    if s == "" {
      assert s + comment == comment;
    } else {
      assert s[0] in s && (s + comment)[1..] == s[1..] + comment;
      HashIs(s[1..], comment);
      assert s == [s[0]] + s[1..];
    }
  }

  /** White space around a line and a comment behind it do not matter. */
  lemma BodyIs(lead: string, t: string, trail: string, comment: string)
    requires Blank(lead) && Blank(trail) && Comment(comment) && Trimmed(t) && '#' !in t
    ensures Body(lead + t + trail + comment) == t
  {
    var s := lead + t + trail;
    assert '#' !in lead && '#' !in trail;
    HashIs(s, comment);
    if t == "" {
      assert s == lead + trail;
      SpacesIs(s, "");
      assert s + "" == s;
    } else {
      assert s == lead + (t + trail) && (t + trail)[0] == t[0];
      SpacesIs(lead, t + trail);
      assert s[|lead|..] == t + trail;
      TrimRightIs(t, trail);
    }
  }

  // ----- The kinds of lines -----

  datatype Line =
    | ClusterLine(name: string, phone: string)
    | PrinterLine(name: string, location: string)
    | WsLine(name: string)
    | CgroupLine(name: string, x: int, y: int, members: seq<string>)
    | OtherLine(column: string)
    | UnknownLine(column: string)

  function Optional(w: string): seq<string> { if w == "" then [] else [w] }

  function LineText(l: Line): string {
    match l
    case ClusterLine(name, phone) => Unwords(["cluster", name] + Optional(phone))
    case PrinterLine(name, location) => Unwords(["printer", name] + Optional(location))
    case WsLine(name) => Unwords(["ws", name])
    case CgroupLine(name, x, y, members) => Unwords(["cgroup", name, Show(x), Show(y)] + members)
    case OtherLine(column) => "option" + (" " + ("report-other" + (" " + column)))
    case UnknownLine(column) => "option" + (" " + ("report-unknown" + (" " + column)))
  }

  ghost predicate Word(w: string) { Field(w) && '#' !in w }

  ghost predicate WellMade(l: Line) {
    match l
    case ClusterLine(name, phone) => Word(name) && (phone == "" || Word(phone))
    case PrinterLine(name, location) => Word(name) && (location == "" || Word(location))
    case WsLine(name) => Word(name)
    case CgroupLine(name, _, _, members) => Word(name) && forall w | w in members :: Word(w)
    case OtherLine(column) => column != "" && Trimmed(column) && '#' !in column
    case UnknownLine(column) => column != "" && Trimmed(column) && '#' !in column
  }

  /** What a line adds.  A cluster line begins a cluster, which the printers and workstations on the
      lines after it belong to; a printer is at its cluster unless its line says where it is. */
  function Means(d: Draft, l: Line): Option<Draft> {
    var c := d.config;
    match l
    case ClusterLine(name, phone) =>
      Some(Draft(c.(clusters := c.clusters + [Cluster(name, phone, -1)]), |c.clusters|))
    case PrinterLine(name, location) =>
      if d.clusterIndex < 0 || d.clusterIndex >= |c.clusters| then None
      else
        var at := if location == "" then c.clusters[d.clusterIndex].name else location;
        Some(d.(config := c.(printers := c.printers + [Printer(name, d.clusterIndex, at, false, 0)])))
    case WsLine(name) =>
      if d.clusterIndex < 0 then None else Some(d.(config := c.(machines := c.machines + Expanded(name, d.clusterIndex))))
    case CgroupLine(name, x, y, members) =>
      var joined := Join(c.clusters, members, |c.cgroups|);
      if joined.None? then None
      else Some(d.(config := c.(clusters := joined.value, cgroups := c.cgroups + [Cgroup(name, x, y)])))
    case OtherLine(column) => Some(d.(config := c.(reportOther := Some(column))))
    case UnknownLine(column) => Some(d.(config := c.(reportUnknown := Some(column))))
  }

  lemma Keywords()
    ensures Word("cluster") && Word("printer") && Word("ws") && Word("cgroup") && Word("option")
    ensures Word("report-other") && Word("report-unknown")
  {
  }

  lemma TwoWords(a: string, b: string, more: seq<string>)
    requires Word(a) && Word(b) && forall w | w in more :: Word(w)
    ensures var t := Unwords([a, b] + more); Words(t) == [a, b] + more && t != "" && Trimmed(t) && '#' !in t
  {
    var ws := [a, b] + more;
    forall w | w in ws
      ensures Word(w)
    {
    }
    WordsOfUnwords(ws);
    hide Field;
    UnwordsEnds(ws);
  }

  lemma {:induction false} UnwordsEnds(ws: seq<string>)
    requires ws != [] && forall w | w in ws :: Word(w)
    ensures Unwords(ws) != "" && Trimmed(Unwords(ws)) && '#' !in Unwords(ws)
  {
    var w, rest := ws[0], ws[1..];
    assert w in ws && w[0] in w && w[|w| - 1] in w;
    UnwordsCons(ws);
    if rest != [] { UnwordsEnds(rest); }
    hide Unwords;
    assert rest != [] ==> Unwords(ws)[|Unwords(ws)| - 1] == Unwords(rest)[|Unwords(rest)| - 1];
  }

  lemma OneWord(w: string)
    requires Word(w)
    ensures Optional(w) == [w] && forall x | x in Optional(w) :: Word(x)
  {
  }

  lemma ShowIsWord(n: int)
    ensures Word(Show(n))
  {
    ShowRoundTrip(n);
    DecimalValue(if n < 0 then -n else n);
    hide Decimal;
  }

  /** A line of the second part is read as what it says. */
  lemma LineMeaning(d: Draft, l: Line)
    requires WellMade(l)
    ensures LineText(l) != "" && Trimmed(LineText(l)) && '#' !in LineText(l)
    ensures Apply(d, LineText(l)) == Means(d, l)
  {
    Keywords();
    hide Words, Unwords, Field, Expanded, Join, Show, Atoi, Trimmed, WithOption;
    match l
    case ClusterLine(name, phone) => TwoWords("cluster", name, Optional(phone));
    case PrinterLine(name, location) => TwoWords("printer", name, Optional(location));
    case WsLine(name) =>
      TwoWords("ws", name, []);
      assert ["ws", name] + [] == ["ws", name];
    case CgroupLine(name, x, y, members) => CgroupMeaning(d, l);
    case OtherLine(column) => OptionMeaning(d, l, "report-other", column);
    case UnknownLine(column) => OptionMeaning(d, l, "report-unknown", column);
  }

  lemma CgroupMeaning(d: Draft, l: Line)
    requires WellMade(l) && l.CgroupLine?
    ensures LineText(l) != "" && Trimmed(LineText(l)) && '#' !in LineText(l)
    ensures Apply(d, LineText(l)) == Means(d, l)
  {
    Keywords();
    ShowIsWord(l.x);
    ShowIsWord(l.y);
    ShowRoundTrip(l.x);
    ShowRoundTrip(l.y);
    hide Words, Unwords, Field, Join, Show, Atoi, Trimmed, Apply;
    TwoWords("cgroup", l.name, [Show(l.x), Show(l.y)] + l.members);
    var w := ["cgroup", l.name] + ([Show(l.x), Show(l.y)] + l.members);
    assert w == ["cgroup", l.name, Show(l.x), Show(l.y)] + l.members;
    assert Drop(w, 4) == l.members;
    ApplyCgroup(d, LineText(l));
  }

  lemma ApplyCgroup(d: Draft, p: string)
    requires |Words(p)| >= 2 && Words(p)[0] == "cgroup"
    ensures var w, c := Words(p), d.config;
            var joined := Join(c.clusters, Drop(w, 4), |c.cgroups|);
            Apply(d, p) ==
              if joined.None? then None
              else Some(d.(config := c.(clusters := joined.value, cgroups := c.cgroups + [Cgroup(w[1], Atoi(Nth(w, 2)), Atoi(Nth(w, 3)))])))
  {
    hide Words, WithOption, DropSpaces, Expanded, Join, Atoi;
  }

  lemma OptionMeaning(d: Draft, l: Line, key: string, column: string)
    requires WellMade(l) && ((l.OtherLine? && key == "report-other") || (l.UnknownLine? && key == "report-unknown"))
    requires column == l.column
    ensures LineText(l) != "" && Trimmed(LineText(l)) && '#' !in LineText(l)
    ensures Apply(d, LineText(l)) == Means(d, l)
  {
    hide *;
    OptionForms(d, l, key, column);
    OptionText(key, column);
    ApplyOption(d, LineText(l));
    WithOptionIs(d.config, key + (" " + column), key, column);
  }

  lemma OptionForms(d: Draft, l: Line, key: string, column: string)
    requires WellMade(l) && ((l.OtherLine? && key == "report-other") || (l.UnknownLine? && key == "report-unknown"))
    requires column == l.column
    ensures Word(key) && column != "" && Trimmed(column) && '#' !in column
    ensures LineText(l) == "option" + (" " + (key + (" " + column)))
    ensures Means(d, l) == Some(d.(config := if key == "report-other" then d.config.(reportOther := Some(column))
                                             else d.config.(reportUnknown := Some(column))))
  {
    Keywords();
    hide Field, Trimmed;
  }

  lemma OptionText(key: string, column: string)
    requires Word(key) && column != "" && Trimmed(column) && '#' !in column
    ensures var o := key + (" " + column); var p := "option" + (" " + o);
            && |p| > |"option"| && Trimmed(p) && '#' !in p && |Words(p)| >= 2 && Words(p)[0] == "option"
            && DropSpaces(p[6..]) == o && DropSpaces(o[|key|..]) == column
  {
    hide *;
    Keywords();
    Behind(key, column);
    Behind("option", key + (" " + column));
  }

  /** A word, a space and a text. */
  lemma Behind(w: string, t: string)
    requires Word(w) && t != "" && Trimmed(t) && '#' !in t
    ensures var s := w + (" " + t);
            && |s| > |w| && Trimmed(s) && '#' !in s && DropSpaces(s[|w|..]) == t
            && |Words(s)| >= 2 && Words(s)[0] == w
  {
    var s, rest := w + (" " + t), " " + t;
    assert w[0] in w && s[0] == w[0] && s[|s| - 1] == t[|t| - 1];
    assert s[|w|..] == rest && rest[1..] == t && rest[|rest| - 1] == t[|t| - 1];
    SpacesIs(" ", t);
    hide Words, Spaces;
    FirstWord(w, rest);
    SomeWord(rest);
  }

  lemma ApplyOption(d: Draft, p: string)
    requires |p| > 6 && |Words(p)| >= 2 && Words(p)[0] == "option"
    ensures var c := WithOption(d.config, DropSpaces(p[6..]));
            Apply(d, p) == if c.None? then None else Some(d.(config := c.value))
  {
    hide Words, WithOption, DropSpaces, Expanded, Join;
  }

  lemma WithOptionIs(c: Config, o: string, key: string, column: string)
    requires key == "report-other" || key == "report-unknown"
    requires o == key + (" " + column) && DropSpaces(o[|key|..]) == column
    ensures WithOption(c, o) ==
            Some(if key == "report-other" then c.(reportOther := Some(column)) else c.(reportUnknown := Some(column)))
  {
    hide DropSpaces;
    assert o[..|key|] == key && o[|key|] == ' ';
    if key == "report-unknown" { assert o[7] == 'u' && "report-other"[7] == 'o'; }
  }

  /** A line that does not begin with one of the keywords, or is nothing but a keyword, is refused. */
  lemma OthersRefused(d: Draft, p: string)
    requires Trimmed(p) && p != ""
    requires forall kw | kw in ["cluster", "printer", "ws", "cgroup", "option"] :: !HasKeyword(p, kw)
    ensures Apply(d, p) == None
  {
    Keywords();
    SomeWord(p);
    var kws := ["cluster", "printer", "ws", "cgroup", "option"];
    forall kw | kw in kws
      ensures !(|Words(p)| >= 2 && Words(p)[0] == kw)
    {
      KeywordIsFirstWord(p, kw);
    }
    assert kws[0] in kws && kws[1] in kws && kws[2] in kws && kws[3] in kws && kws[4] in kws;
    hide *;
    NoKeyword(d, p);
  }

  lemma NoKeyword(d: Draft, p: string)
    requires Words(p) != []
    requires |Words(p)| < 2 || Words(p)[0] !in {"cluster", "printer", "ws", "cgroup", "option"}
    ensures Apply(d, p) == None
  {
    hide Words, HasKeyword, Expanded, Join, WithOption, DropSpaces, Word, Field, Trimmed, Drop, Atoi, Nth;
  }

  // ----- Whole files -----

  /** A line of the second part as it is written: white space, what it says if anything, and perhaps
      a comment. */
  datatype Row = Row(lead: string, line: Option<Line>, trail: string, comment: string)

  function RowText(r: Row): string {
    r.lead + (if r.line.None? then "" else LineText(r.line.value)) + r.trail + r.comment
  }

  ghost predicate RowWellMade(r: Row) {
    && Blank(r.lead) && Blank(r.trail) && Comment(r.comment) && '\n' !in r.lead + r.trail + r.comment
    && (r.line.Some? ==> WellMade(r.line.value) && '\n' !in LineText(r.line.value))
  }

  /** The lines of the second part, one after another; the first that is refused ends it. */
  function AllMean(d: Draft, rows: seq<Row>): Option<Draft>
    decreases |rows|
  {
    if rows == [] then Some(d)
    else if rows[0].line.None? then AllMean(d, rows[1..])
    else
      var next := Means(d, rows[0].line.value);
      if next.None? then None else AllMean(next.value, rows[1..])
  }

  function RowTexts(rows: seq<Row>): seq<string> {
    if rows == [] then [] else [RowText(rows[0])] + RowTexts(rows[1..])
  }

  lemma RowIs(d: Draft, r: Row)
    requires RowWellMade(r)
    ensures Apply(d, Body(RowText(r))) == if r.line.None? then Some(d) else Means(d, r.line.value)
    ensures '\n' !in RowText(r)
  {
    var t := if r.line.None? then "" else LineText(r.line.value);
    if r.line.Some? {
      LineMeaning(d, r.line.value);
    }
    hide Apply, Means, LineText, WellMade, Body;
    BodyIs(r.lead, t, r.trail, r.comment);
    if r.line.None? { NothingApplied(d); }
  }

  lemma NothingApplied(d: Draft)
    ensures Apply(d, "") == Some(d)
  {
    NoWords();
    hide Words;
  }

  lemma {:induction false} RowsAre(d: Draft, rows: seq<Row>)
    requires forall r | r in rows :: RowWellMade(r)
    ensures ApplyAll(d, RowTexts(rows)) == AllMean(d, rows)
    ensures forall l | l in RowTexts(rows) :: '\n' !in l
    decreases |rows|
  {
    hide Apply, Means, RowText, RowWellMade, Body;
    if rows != [] {
      assert rows[0] in rows;
      RowIs(d, rows[0]);
      var next := if rows[0].line.None? then Some(d) else Means(d, rows[0].line.value);
      assert RowTexts(rows)[1..] == RowTexts(rows[1..]);
      RowsAre(if next.None? then d else next.value, rows[1..]);
    }
  }

  /** The first part: a line for each architecture, its report name and its net names. */
  function ArchTexts(arches: seq<Arch>): seq<string> {
    if arches == [] then [] else [Unwords([arches[0].reportname] + arches[0].netnames)] + ArchTexts(arches[1..])
  }

  ghost predicate ArchWellMade(a: Arch) {
    && Field(a.reportname) && !Hyphen(a.reportname) && a.reportname[0] != '#'
    && a.netnames != [] && forall n | n in a.netnames :: Field(n)
  }

  lemma {:induction false} ArchesAre(arches: seq<Arch>, divider: string, rest: seq<string>)
    requires (forall a | a in arches :: ArchWellMade(a)) && Hyphen(divider) && Field(divider)
    ensures Arches(ArchTexts(arches) + [divider] + rest) == arches
    ensures PastArches(ArchTexts(arches) + [divider] + rest) == rest
    decreases |arches|
  {
    var lines := ArchTexts(arches) + [divider] + rest;
    hide ArchWellMade, Words, Unwords, Arches, PastArches, Field;
    if arches == [] {
      assert lines == [divider] + rest;
      DividerStep(divider, rest);
    } else {
      var line := Unwords([arches[0].reportname] + arches[0].netnames);
      assert arches[0] in arches;
      ArchesAre(arches[1..], divider, rest);
      assert lines == [line] + (ArchTexts(arches[1..]) + [divider] + rest);
      hide ArchTexts;
      ArchStep(arches[0], ArchTexts(arches[1..]) + [divider] + rest);
      assert arches == [arches[0]] + arches[1..];
    }
  }

  lemma DividerStep(divider: string, rest: seq<string>)
    requires Hyphen(divider) && Field(divider)
    ensures Arches([divider] + rest) == [] && PastArches([divider] + rest) == rest
  {
    var lines := [divider] + rest;
    assert lines[1..] == rest;
    FirstWord(divider, "");
    assert divider + "" == divider;
    NoWords();
    hide Words;
  }

  lemma ArchStep(a: Arch, more: seq<string>)
    requires ArchWellMade(a)
    ensures var line := Unwords([a.reportname] + a.netnames);
            Arches([line] + more) == [a] + Arches(more) && PastArches([line] + more) == PastArches(more)
  {
    var ws := [a.reportname] + a.netnames;
    var lines := [Unwords(ws)] + more;
    assert lines[1..] == more && ws[1..] == a.netnames;
    assert forall w | w in ws :: Field(w);
    WordsOfUnwords(ws);
    assert !("#" <= ws[0]);
    hide Words, Unwords, Field;
  }

  lemma {:induction false} ArchLines(arches: seq<Arch>)
    requires forall a | a in arches :: ArchWellMade(a)
    ensures forall l | l in ArchTexts(arches) :: '\n' !in l
    decreases |arches|
  {
    if arches != [] {
      var ws := [arches[0].reportname] + arches[0].netnames;
      assert ArchWellMade(arches[0]);
      assert forall w | w in ws :: Field(w);
      NoNewline(ws);
      ArchLines(arches[1..]);
    }
  }

  /** A configuration file that is written as it should be is read as what it says, refusals included:
      the architectures, and then what the lines of the second part add. */
  lemma FileMeaning(arches: seq<Arch>, divider: string, rows: seq<Row>)
    requires (forall a | a in arches :: ArchWellMade(a)) && Hyphen(divider) && Field(divider)
    requires forall r | r in rows :: RowWellMade(r)
    ensures Parsed(Unlines(ArchTexts(arches) + [divider] + RowTexts(rows))) ==
            AllMean(Draft(Config(arches, None, None, [], [], [], []), -1), rows)
  {
    hide ArchWellMade, RowWellMade, AllMean, RowTexts, ArchTexts, Arches, PastArches, ApplyAll, Lines, Unlines;
    var lines := ArchTexts(arches) + [divider] + RowTexts(rows);
    ArchLines(arches);
    RowsAre(Draft(Config(arches, None, None, [], [], [], []), -1), rows);
    forall l | l in lines
      ensures '\n' !in l
    {
    }
    LinesOfUnlines(lines);
    ArchesAre(arches, divider, RowTexts(rows));
  }
}
