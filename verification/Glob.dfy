/** The shell pattern matcher of the delete suite (athena/bin/delete/shell_regexp.c), and
    no_wildcards from athena/bin/delete/pattern.c. */
module Glob {
  import opened Wrappers

  datatype Cmp = Match | NoMatch | MissingQuotedChar | MissingBrace | EmptyBraces
  {
    /** The C function returns -1 and sets an error. */
    predicate Bad() { !Match? && !NoMatch? }
  }

  /** Offset of the first ']' of `s`, or its length. */
  function Close(s: string): (i: nat)
    ensures i <= |s| && ']' !in s[..i]
    ensures i < |s| ==> s[i] == ']'
  {
    if s == [] || s[0] == ']' then 0 else 1 + Close(s[1..])
  }

  /** Does the text between brackets admit `c`?  A range is written lo-hi. */
  predicate InClass(body: string, c: char) {
    if body == [] then false
    else if |body| >= 3 && body[1] == '-' then (body[0] <= c <= body[2]) || InClass(body[3..], c)
    else body[0] == c || InClass(body[1..], c)
  }

  /** real_cmp as a recursive function. */
  function RealCmp(p: string, f: string): Cmp
    decreases |p|, 0, 0
  {
    if p == [] then (if f == [] then Match else NoMatch)
    else if p[0] == '*' then
      if |p| == 1 then Match else FirstHit(p[1..], f)
    else if f == [] then NoMatch
    else if p[0] == '?' then RealCmp(p[1..], f[1..])
    else if p[0] == '\\' then
      if |p| == 1 then MissingQuotedChar
      else if p[1] == f[0] then RealCmp(p[2..], f[1..]) else NoMatch
    else if p[0] == '[' then
      var n := Close(p[1..]);
      if n == |p| - 1 then MissingBrace
      else if n == 0 then EmptyBraces
      else if InClass(p[1..n + 1], f[0]) then RealCmp(p[n + 2..], f[1..])
      else NoMatch
    else if p[0] == f[0] then RealCmp(p[1..], f[1..])
    else NoMatch
  }

  /** The star loop: the first nonempty suffix of `f` on which `p` does not fail decides. */
  function FirstHit(p: string, f: string): Cmp
    decreases |p|, 1, |f|
  {
    if f == [] then NoMatch
    else
      var r := RealCmp(p, f);
      if r != NoMatch then r else FirstHit(p, f[1..])
  }

  /** reg_cmp: a leading dot must be matched by a leading dot. */
  function RegCmp(p: string, f: string): Cmp {
    if f != [] && f[0] == '.' && (p == [] || p[0] != '.') then NoMatch else RealCmp(p, f)
  }

  /** real_cmp with its loops. */
  method RealCmpLoop(p: string, f: string) returns (r: Cmp)
    ensures r == RealCmp(p, f)
    decreases |p|
  {
    if p == [] {
      return if f == [] then Match else NoMatch;
    }
    if p[0] == '*' {
      if |p| == 1 {
        return Match;
      }
      var ptr := 0;
      assert f[0..] == f;
      while ptr < |f|
        invariant 0 <= ptr <= |f|
        invariant FirstHit(p[1..], f) == FirstHit(p[1..], f[ptr..])
      {
        r := RealCmpLoop(p[1..], f[ptr..]);
        if r != NoMatch {
          return;
        }
        assert f[ptr..][1..] == f[ptr + 1..];
        ptr := ptr + 1;
      }
      return NoMatch;
    }
    if f == [] {
      return NoMatch;
    }
    if p[0] == '?' {
      r := RealCmpLoop(p[1..], f[1..]);
      return;
    }
    if p[0] == '\\' {
      if |p| == 1 {
        return MissingQuotedChar;
      }
      if p[1] == f[0] {
        r := RealCmpLoop(p[2..], f[1..]);
        return;
      }
      return NoMatch;
    }
    if p[0] == '[' {
      r := BracketLoop(p, f);
      return;
    }
    if p[0] == f[0] {
      r := RealCmpLoop(p[1..], f[1..]);
      return;
    }
    return NoMatch;
  }

  /** The bracket case of real_cmp. */
  method BracketLoop(p: string, f: string) returns (r: Cmp)
    requires p != [] && f != [] && p[0] == '['
    ensures r == RealCmp(p, f)
    decreases |p|, 0
  {
    var end := 1;
    while end < |p| && p[end] != ']'
      invariant 1 <= end <= |p|
      invariant Close(p[1..]) == end - 1 + Close(p[end..])
    {
      assert p[end..][1..] == p[end + 1..];
      end := end + 1;
    }
    assert Close(p[1..]) == end - 1;
    if end == |p| {
      return MissingBrace;
    }
    if end == 1 {
      return EmptyBraces;
    }
    var inside := ScanClass(p, end, f[0]);
    if inside {
      r := RealCmpLoop(p[end + 1..], f[1..]);
    } else {
      r := NoMatch;
    }
  }

  /** The scan over the characters and ranges between the brackets. */
  method ScanClass(p: string, end: nat, c: char) returns (inside: bool)
    requires 1 <= end < |p| && p[end] == ']' && ']' !in p[1..end]
    ensures inside == InClass(p[1..end], c)
  {
    var ptr := 1;
    while ptr < end
      invariant 1 <= ptr <= end
      invariant InClass(p[1..end], c) == InClass(p[ptr..end], c)
    {
      ghost var body := p[ptr..end];
      assert forall i | ptr < i < end :: p[i] == p[1..end][i - 1];
      assert body[1..] == p[ptr + 1..end];
      if p[ptr + 1] == '-' && p[ptr + 2] != ']' {
        assert |body| >= 3;
        assert body[3..] == p[ptr + 3..end];
        if p[ptr] <= c && p[ptr + 2] >= c {
          return true;
        }
        ptr := ptr + 2;
      } else if p[ptr] == c {
        return true;
      }
      ptr := ptr + 1;
    }
    return false;
  }

  // ----- What a pattern means -----

  datatype Token = Star | Any | Lit(c: char) | Class(body: string)

  /** The tokens of a well-formed pattern: every bracket is closed and nonempty, and every
      backslash quotes a character. */
  function Tokens(p: string): Option<seq<Token>>
    decreases |p|
  {
    if p == [] then Some([])
    else if p[0] == '*' then Cons(Star, Tokens(p[1..]))
    else if p[0] == '?' then Cons(Any, Tokens(p[1..]))
    else if p[0] == '\\' then (if |p| == 1 then None else Cons(Lit(p[1]), Tokens(p[2..])))
    else if p[0] == '[' then
      var n := Close(p[1..]);
      if n == |p| - 1 || n == 0 then None else Cons(Class(p[1..n + 1]), Tokens(p[n + 2..]))
    else Cons(Lit(p[0]), Tokens(p[1..]))
  }

  function Cons(t: Token, ts: Option<seq<Token>>): Option<seq<Token>> {
    if ts.None? then None else Some([t] + ts.value)
  }

  predicate WellFormed(p: string) { Tokens(p).Some? }

  /** Text `s` is an instance of token `t`. */
  predicate Piece(t: Token, s: string) {
    match t
    case Star => true
    case Any => |s| == 1
    case Lit(c) => s == [c]
    case Class(body) => |s| == 1 && InClass(body, s[0])
  }

  function Glue(pieces: seq<string>): string {
    if pieces == [] then [] else pieces[0] + Glue(pieces[1..])
  }

  ghost predicate Instance(ts: seq<Token>, pieces: seq<string>) {
    |pieces| == |ts| && forall i | 0 <= i < |ts| :: Piece(ts[i], pieces[i])
  }

  /** The declarative meaning: `f` can be cut into one instance per token. */
  ghost predicate Matches(ts: seq<Token>, f: string) {
    exists pieces :: Instance(ts, pieces) && Glue(pieces) == f
  }

  lemma MatchesNil(f: string)
    ensures Matches([], f) <==> f == []
  {
    if f == [] {
      assert Instance([], []) && Glue([]) == f;
    }
  }

  lemma MatchesCons(t: Token, ts: seq<Token>, k: nat, f: string)
    requires k <= |f| && Piece(t, f[..k]) && Matches(ts, f[k..])
    ensures Matches([t] + ts, f)
  {
    var pieces :| Instance(ts, pieces) && Glue(pieces) == f[k..];
    var all := [f[..k]] + pieces;
    assert all[1..] == pieces;
    assert Instance([t] + ts, all) && Glue(all) == f;
  }

  lemma MatchesUncons(t: Token, ts: seq<Token>, f: string) returns (k: nat)
    requires Matches([t] + ts, f)
    ensures k <= |f| && Piece(t, f[..k]) && Matches(ts, f[k..])
    ensures t != Star ==> k == 1
  {
    var all :| Instance([t] + ts, all) && Glue(all) == f;
    k := |all[0]|;
    assert f[..k] == all[0] && f[k..] == Glue(all[1..]);
    assert ([t] + ts)[0] == t;
    assert forall i | 0 <= i < |ts| :: ([t] + ts)[i + 1] == ts[i];
    assert Instance(ts, all[1..]);
  }

  predicate AllStars(ts: seq<Token>) { forall i | 0 <= i < |ts| :: ts[i] == Star }

  /** What the code makes of a pattern: two or more stars at its end ask for one character more
      than they should; any other run of stars is harmless. */
  function Read(ts: seq<Token>): (r: seq<Token>)
    ensures !(|ts| >= 2 && ts[|ts| - 2] == ts[|ts| - 1] == Star) ==> r == ts
  {
    if ts == [] then []
    else if |ts| >= 2 && AllStars(ts) then [Any, Star]
    else [ts[0]] + Read(ts[1..])
  }

  lemma {:induction false} ReadNeedsText(ts: seq<Token>)
    requires !AllStars(ts)
    ensures !Matches(Read(ts), [])
  {
    if Matches(Read(ts), []) {
      assert Read(ts) == [ts[0]] + Read(ts[1..]);
      var k := MatchesUncons(ts[0], Read(ts[1..]), []);
      assert ts[0] == Star;
      ReadNeedsText(ts[1..]);
    }
  }

  lemma AnythingMatchesStar(f: string)
    ensures Matches([Star], f)
    ensures f != [] ==> Matches([Any, Star], f)
    ensures !Matches([Any, Star], [])
  {
    MatchesNil([]);
    MatchesCons(Star, [], |f|, f);
    assert [Star] + [] == [Star] && [Any] + [Star] == [Any, Star];
    if f != [] {
      MatchesCons(Star, [], |f| - 1, f[1..]);
      MatchesCons(Any, [Star], 1, f);
    }
    if Matches([Any, Star], []) {
      var k := MatchesUncons(Any, [Star], []);
    }
  }

  /** real_cmp on every well-formed pattern and every name: no error, and a match exactly when
      the name is an instance of the pattern as the code reads it. */
  lemma {:induction false} RealCmpMeaning(p: string, f: string)
    requires WellFormed(p)
    ensures !RealCmp(p, f).Bad()
    ensures RealCmp(p, f) == Match <==> Matches(Read(Tokens(p).value), f)
    decreases |p|, 1, 0
  {
    hide InClass;
    hide Matches;
    var ts := Tokens(p).value;
    if p == [] {
      MatchesNil(f);
    } else if p[0] == '*' {
      StarMeaning(p, f);
    } else {
      var q := HeadToken(p, f);
      hide RealCmp;
      assert !AllStars(ts);
      assert Read(ts) == [ts[0]] + Read(ts[1..]);
      if f != [] {
        RealCmpMeaning(q, f[1..]);
        ConsumeOne(ts[0], Read(ts[1..]), f);
      } else {
        ReadNeedsText(ts);
      }
    }
  }

  /** A pattern that does not start with a star takes one character per token. */
  lemma HeadToken(p: string, f: string) returns (q: string)
    requires WellFormed(p) && p != [] && p[0] != '*'
    ensures |q| < |p| && WellFormed(q) && (p[0] == '\\' ==> |p| >= 2)
    ensures var ts := Tokens(p).value; ts != [] && ts[0] != Star && ts[1..] == Tokens(q).value
    ensures var t := Tokens(p).value[0];
      RealCmp(p, f) == if f != [] && Piece(t, f[..1]) then RealCmp(q, f[1..]) else NoMatch
  {
    q := if p[0] == '\\' then p[2..] else if p[0] == '[' then p[Close(p[1..]) + 2..] else p[1..];
  }

  lemma ConsumeOne(t: Token, ts: seq<Token>, f: string)
    requires t != Star && f != []
    ensures Matches([t] + ts, f) <==> Piece(t, f[..1]) && Matches(ts, f[1..])
  {
    if Matches([t] + ts, f) {
      var k := MatchesUncons(t, ts, f);
    }
    if Piece(t, f[..1]) && Matches(ts, f[1..]) {
      MatchesCons(t, ts, 1, f);
    }
  }

  lemma {:induction false} StarMeaning(p: string, f: string)
    requires WellFormed(p) && p != [] && p[0] == '*'
    ensures !RealCmp(p, f).Bad()
    ensures RealCmp(p, f) == Match <==> Matches(Read(Tokens(p).value), f)
    decreases |p|, 0, 0
  {
    hide Matches;
    var ts, us := Tokens(p).value, Tokens(p[1..]).value;
    assert ts == [Star] + us && ts[1..] == us;
    AnythingMatchesStar(f);
    if |p| > 1 {
      assert us != [];
      HitMeaning(p[1..], f);
      if AllStars(us) {
        assert AllStars(ts);
        if f != [] {
          AnythingMatchesStar(f[0..]);
          assert f[0..] == f;
        }
        assert us == [Star] || Read(us) == [Any, Star];
      } else {
        assert !AllStars(ts) by {
          var i :| 0 <= i < |us| && us[i] != Star;
          assert ts[i + 1] == us[i];
        }
        assert Read(ts) == [Star] + Read(us);
        if Matches(Read(ts), f) {
          var k := MatchesUncons(Star, Read(us), f);
          ReadNeedsText(us);
          assert f[|f|..] == [];
        }
        if k: nat :| k < |f| && Matches(Read(us), f[k..]) {
          MatchesCons(Star, Read(us), k, f);
        }
      }
    } else {
      assert ts == [Star] && Read(ts) == [Star];
    }
  }

  lemma {:induction false} HitMeaning(p: string, f: string)
    requires WellFormed(p)
    ensures !FirstHit(p, f).Bad()
    ensures FirstHit(p, f) == Match <==> exists k: nat :: k < |f| && Matches(Read(Tokens(p).value), f[k..])
    decreases |p|, 2, |f|
  {
    hide Matches;
    var ts := Read(Tokens(p).value);
    if f != [] {
      RealCmpMeaning(p, f);
      HitMeaning(p, f[1..]);
      assert f[0..] == f;
      if k: nat :| k < |f| && Matches(ts, f[k..]) {
        if k > 0 {
          assert f[1..][k - 1..] == f[k..];
        }
      }
      if k: nat :| k < |f[1..]| && Matches(ts, f[1..][k..]) {
        assert f[k + 1..] == f[1..][k..];
      }
    }
  }

  ghost predicate EndsInTwoStars(ts: seq<Token>) {
    |ts| >= 2 && ts[|ts| - 2] == Star && ts[|ts| - 1] == Star
  }

  /** Patterns that do not end in two stars mean exactly what they should. */
  lemma RealCmpExact(p: string, f: string)
    requires WellFormed(p) && !EndsInTwoStars(Tokens(p).value)
    ensures !RealCmp(p, f).Bad()
    ensures RealCmp(p, f) == Match <==> Matches(Tokens(p).value, f)
  {
    RealCmpMeaning(p, f);
  }

  /** The tokens before the stars at the end. */
  function Stem(ts: seq<Token>): (r: seq<Token>) {
    if AllStars(ts) then [] else [ts[0]] + Stem(ts[1..])
  }

  /** What two stars at the end lose: exactly the names that the pattern without its final
      stars already uses up, and that cannot be cut in any other way. */
  lemma {:induction false} TwoStarsAtEnd(ts: seq<Token>, f: string)
    requires EndsInTwoStars(ts)
    ensures Matches(ts, f) <==> Matches(Read(ts), f) || Matches(Stem(ts), f)
  {
    hide Matches;
    if AllStars(ts) {
      MatchesNil(f);
      AnythingMatchesStar(f);
      StarsMatchAll(ts, f);
    } else {
      var us := ts[1..];
      assert ts == [ts[0]] + us && !AllStars(ts);
      assert EndsInTwoStars(us);
      if Matches(ts, f) {
        var k := MatchesUncons(ts[0], us, f);
        TwoStarsAtEnd(us, f[k..]);
        if Matches(Read(us), f[k..]) {
          MatchesCons(ts[0], Read(us), k, f);
        } else {
          MatchesCons(ts[0], Stem(us), k, f);
        }
      }
      if Matches(Read(ts), f) {
        var k := MatchesUncons(ts[0], Read(us), f);
        TwoStarsAtEnd(us, f[k..]);
        MatchesCons(ts[0], us, k, f);
      }
      if Matches(Stem(ts), f) {
        var k := MatchesUncons(ts[0], Stem(us), f);
        TwoStarsAtEnd(us, f[k..]);
        MatchesCons(ts[0], us, k, f);
      }
    }
  }

  lemma {:induction false} StarsMatchAll(ts: seq<Token>, f: string)
    requires ts != [] && AllStars(ts)
    ensures Matches(ts, f)
  {
    assert ts == [Star] + ts[1..];
    if |ts| == 1 {
      AnythingMatchesStar(f);
      assert ts == [Star];
    } else {
      StarsMatchAll(ts[1..], f[0..]);
      MatchesCons(Star, ts[1..], 0, f);
    }
  }

  /** For example, `**` does not match the empty name though it should. */
  lemma TwoStarsMissEmpty()
    ensures Tokens("**") == Some([Star, Star]) && Matches([Star, Star], [])
    ensures RealCmp("**", "") == NoMatch
  {
    assert "**"[1..] == "*";
    assert "*"[1..] == "";
    assert Tokens("") == Some([]);
    assert [Star] + [] == [Star];
    assert Tokens("*") == Some([Star]);
    assert [Star] + [Star] == [Star, Star];
    StarsMatchAll([Star, Star], []);
  }

  /** `f` is what the pattern should match, but for two stars at its end and the rule for dots. */
  ghost predicate Names(p: string, f: string) {
    && WellFormed(p) && Matches(Read(Tokens(p).value), f)
    && (f != [] && f[0] == '.' ==> p != [] && p[0] == '.')
  }

  /** reg_cmp matches what the pattern says, with a leading dot matched only by a leading dot. */
  lemma RegCmpMeaning(p: string, f: string)
    requires WellFormed(p)
    ensures !RegCmp(p, f).Bad()
    ensures RegCmp(p, f) == Match <==> Names(p, f)
  {
    RealCmpMeaning(p, f);
  }

  // ----- How tokens are written -----

  /** A token and a text that stands for it. */
  predicate Spells(t: Token, s: string) {
    match t
    case Star => s == "*"
    case Any => s == "?"
    case Lit(c) => s == ['\\', c] || (s == [c] && c !in "*?\\[")
    case Class(body) => s == "[" + body + "]" && body != "" && ']' !in body
  }

  ghost predicate Writing(ts: seq<Token>, pieces: seq<string>) {
    |pieces| == |ts| && forall i | 0 <= i < |ts| :: Spells(ts[i], pieces[i])
  }

  /** The tokens of a pattern are those whose texts one after another make it up. */
  lemma TokensMeaning(p: string, ts: seq<Token>)
    ensures Tokens(p) == Some(ts) <==> exists pieces :: Writing(ts, pieces) && Glue(pieces) == p
  {
    if Tokens(p) == Some(ts) {
      var pieces := Written(p);
    }
    if pieces :| Writing(ts, pieces) && Glue(pieces) == p {
      ReadBack(ts, pieces);
    }
  }

  lemma {:induction false} Written(p: string) returns (pieces: seq<string>)
    requires WellFormed(p)
    ensures Writing(Tokens(p).value, pieces) && Glue(pieces) == p
    decreases |p|
  {
    if p == [] {
      pieces := [];
    } else {
      var t, q := Tokens(p).value[0], AfterHead(p);
      HeadSpelled(p);
      var rest := Written(q);
      var piece := p[..|p| - |q|];
      pieces := [piece] + rest;
      assert pieces[1..] == rest;
      assert Tokens(p).value == [t] + Tokens(q).value;
    }
  }

  /** What follows the first token of a pattern. */
  function AfterHead(p: string): (q: string)
    requires WellFormed(p) && p != []
    ensures |q| < |p| && q == p[|p| - |q|..]
  {
    if p[0] == '\\' then p[2..] else if p[0] == '[' then p[Close(p[1..]) + 2..] else p[1..]
  }

  lemma HeadSpelled(p: string)
    requires WellFormed(p) && p != []
    ensures var q := AfterHead(p);
            && WellFormed(q) && Tokens(p).value == [Tokens(p).value[0]] + Tokens(q).value
            && Spells(Tokens(p).value[0], p[..|p| - |q|])
  {
    if p[0] == '[' {
      var n := Close(p[1..]);
      assert p[..n + 2] == "[" + p[1..n + 1] + "]";
    }
  }

  lemma {:induction false} ReadBack(ts: seq<Token>, pieces: seq<string>)
    requires Writing(ts, pieces)
    ensures Tokens(Glue(pieces)) == Some(ts)
  {
    if ts != [] {
      var t, rest := ts[0], Glue(pieces[1..]);
      assert Spells(t, pieces[0]);
      assert forall i | 0 <= i < |ts[1..]| :: ts[1..][i] == ts[i + 1] && pieces[1..][i] == pieces[i + 1];
      ReadBack(ts[1..], pieces[1..]);
      OneToken(t, pieces[0], rest);
      assert ts == [t] + ts[1..];
    } else {
      assert pieces == [];
    }
  }

  lemma OneToken(t: Token, s: string, rest: string)
    requires Spells(t, s)
    ensures Tokens(s + rest) == Cons(t, Tokens(rest))
  {
    var p := s + rest;
    assert p[|s|..] == rest;
    if t.Class? {
      assert p[1..] == t.body + "]" + rest;
      FirstClose(t.body, rest);
      assert p[1..|t.body| + 1] == t.body;
    }
  }

  lemma {:induction false} FirstClose(body: string, rest: string)
    requires ']' !in body
    ensures Close(body + "]" + rest) == |body|
  {
    var s := body + "]" + rest;
    if body != [] {
      assert body[0] in body;
      assert s[1..] == body[1..] + "]" + rest;
      FirstClose(body[1..], rest);
    }
  }

  // ----- What brackets hold -----

  datatype ClassItem = One(c: char) | Range(lo: char, hi: char)

  function ItemText(i: ClassItem): string {
    match i
    case One(c) => [c]
    case Range(lo, hi) => [lo, '-', hi]
  }

  function BodyText(items: seq<ClassItem>): string {
    if items == [] then [] else ItemText(items[0]) + BodyText(items[1..])
  }

  predicate Admits(i: ClassItem, c: char) {
    match i
    case One(d) => c == d
    case Range(lo, hi) => lo <= c <= hi
  }

  /** No single character stands where a hyphen and another character would make a range of it. */
  predicate Separate(items: seq<ClassItem>) {
    items == [] ||
    (&& (items[0].One? ==> var rest := BodyText(items[1..]); |rest| < 2 || rest[0] != '-')
     && Separate(items[1..]))
  }

  /** A bracket admits what one of its characters or ranges does, the ends of ranges included. */
  lemma {:induction false} ClassMeaning(items: seq<ClassItem>, c: char)
    requires Separate(items)
    ensures InClass(BodyText(items), c) <==> exists i | i in items :: Admits(i, c)
  {
    if items != [] {
      ClassMeaning(items[1..], c);
      var i, body, rest := items[0], BodyText(items), BodyText(items[1..]);
      assert items == [i] + items[1..];
      if i.One? {
        assert body == [i.c] + rest && body[1..] == rest;
        assert |body| >= 3 ==> body[1] == rest[0];
      } else {
        assert body == [i.lo, '-', i.hi] + rest && body[3..] == rest;
      }
      assert InClass(body, c) <==> Admits(i, c) || InClass(rest, c);
    }
  }

  /** Every bracket is made up of characters and ranges in that way. */
  lemma {:induction false} ClassItems(body: string) returns (items: seq<ClassItem>)
    ensures Separate(items) && BodyText(items) == body
  {
    if body == [] {
      items := [];
    } else if |body| >= 3 && body[1] == '-' {
      var rest := ClassItems(body[3..]);
      items := [Range(body[0], body[2])] + rest;
      assert items[1..] == rest && body == body[..3] + body[3..];
    } else {
      var rest := ClassItems(body[1..]);
      items := [One(body[0])] + rest;
      assert items[1..] == rest && body == [body[0]] + body[1..];
    }
  }

  /** The tokens that take exactly one character. */
  function Singles(ts: seq<Token>): nat {
    if ts == [] then 0 else (if ts[0] == Star then 0 else 1) + Singles(ts[1..])
  }

  /** Every bracket admits some character, unlike one with a range that runs backwards. */
  ghost predicate Satisfiable(ts: seq<Token>) {
    forall i | 0 <= i < |ts| && ts[i].Class? :: exists c :: InClass(ts[i].body, c)
  }

  lemma {:induction false} LongEnough(ts: seq<Token>, f: string)
    requires Matches(ts, f)
    ensures |f| >= Singles(ts) && Satisfiable(ts)
  {
    hide Matches, InClass;
    if ts == [] {
      MatchesNil(f);
    } else {
      assert ts == [ts[0]] + ts[1..];
      var k := MatchesUncons(ts[0], ts[1..], f);
      LongEnough(ts[1..], f[k..]);
      forall i | 0 <= i < |ts| && ts[i].Class?
        ensures exists c :: InClass(ts[i].body, c)
      {
        if i == 0 {
          assert InClass(ts[0].body, f[..k][0]);
        } else {
          assert ts[i] == ts[1..][i - 1];
        }
      }
    }
  }

  /** The stars of a match can all be left empty. */
  lemma {:induction false} Shortest(ts: seq<Token>) returns (f: string)
    requires Satisfiable(ts)
    ensures Matches(ts, f) && |f| == Singles(ts)
  {
    hide Matches, InClass;
    if ts == [] {
      f := [];
      MatchesNil(f);
    } else {
      assert ts == [ts[0]] + ts[1..];
      assert forall i | 0 <= i < |ts[1..]| :: ts[1..][i] == ts[i + 1];
      var rest := Shortest(ts[1..]);
      var piece: string := [];
      match ts[0] {
        case Star =>
        case Any => piece := "a";
        case Lit(c) => piece := [c];
        case Class(body) =>
          var c :| InClass(body, c);
          piece := [c];
      }
      f := piece + rest;
      assert f[..|piece|] == piece && f[|piece|..] == rest;
      MatchesCons(ts[0], ts[1..], |piece|, f);
    }
  }

  lemma {:induction false} ReadTakesOneMore(ts: seq<Token>)
    requires EndsInTwoStars(ts)
    ensures Singles(Read(ts)) == Singles(ts) + 1
  {
    if AllStars(ts) {
      NoSingles(ts);
      assert [Any, Star][1..] == [Star] && [Star][1..] == [];
      assert Singles([Star]) == 0;
    } else {
      assert EndsInTwoStars(ts[1..]);
      ReadTakesOneMore(ts[1..]);
      assert ([ts[0]] + Read(ts[1..]))[1..] == Read(ts[1..]);
    }
  }

  lemma {:induction false} NoSingles(ts: seq<Token>)
    requires AllStars(ts)
    ensures Singles(ts) == 0
  {
    if ts != [] {
      NoSingles(ts[1..]);
    }
  }

  /** Exactly which patterns fail on some name that they should match: those that end in two stars
      and match any name at all. */
  lemma TwoStarsIff(p: string)
    requires WellFormed(p)
    ensures (exists f :: Matches(Tokens(p).value, f) && RealCmp(p, f) != Match) <==>
              EndsInTwoStars(Tokens(p).value) && Satisfiable(Tokens(p).value)
    ensures EndsInTwoStars(Tokens(p).value) && Satisfiable(Tokens(p).value) ==>
              exists f :: |f| == Singles(Tokens(p).value) && Matches(Tokens(p).value, f) && RealCmp(p, f) == NoMatch
  {
    hide Matches, RealCmp, Tokens, Singles, Satisfiable, EndsInTwoStars;
    var ts := Tokens(p).value;
    if EndsInTwoStars(ts) && Satisfiable(ts) {
      var f := Shortest(ts);
      ReadTakesOneMore(ts);
      RealCmpMeaning(p, f);
      if Matches(Read(ts), f) { LongEnough(Read(ts), f); }
      assert Matches(ts, f) && RealCmp(p, f) == NoMatch;
    }
    if f :| Matches(ts, f) && RealCmp(p, f) != Match {
      LongEnough(ts, f);
      if !EndsInTwoStars(ts) { RealCmpExact(p, f); }
    }
  }

  // ----- no_wildcards -----

  /** The text that a pattern of literals stands for. */
  function Unquoted(ts: seq<Token>): string {
    if ts == [] then [] else (if ts[0].Lit? then [ts[0].c] else []) + Unquoted(ts[1..])
  }

  predicate AllLiteral(ts: seq<Token>) { forall i | 0 <= i < |ts| :: ts[i].Lit? }

  /** no_wildcards: true exactly when every token of the pattern is a literal. */
  method NoWildcards(p: string) returns (r: bool)
    requires p != [] && WellFormed(p)
    ensures r <==> AllLiteral(Tokens(p).value)
  {
    hide Tokens, AllLiteral;
    var i := 0;
    ghost var all := Tokens(p).value;
    assert p[0..] == p;
    while true
      invariant 0 <= i < |p| && WellFormed(p[i..])
      invariant AllLiteral(all) <==> AllLiteral(Tokens(p[i..]).value)
      decreases |p| - i
    {
      ghost var rest := p[i..];
      assert rest[0] == p[i];
      ghost var q := HeadOf(rest);
      LiteralHead(Tokens(rest).value);
      if p[i] == '\\' {
        i := i + 1;
      } else if p[i] == '?' || p[i] == '*' || p[i] == '[' {
        return false;
      }
      i := i + 1;
      assert q == p[i..];
      if i == |p| {
        NoTokens(q);
        return true;
      }
    }
  }

  lemma LiteralHead(ts: seq<Token>)
    requires ts != []
    ensures AllLiteral(ts) <==> ts[0].Lit? && AllLiteral(ts[1..])
  {
    assert ts == [ts[0]] + ts[1..];
  }

  lemma NoTokens(q: string)
    requires q == [] && WellFormed(q)
    ensures AllLiteral(Tokens(q).value)
  {
  }

  lemma HeadOf(p: string) returns (q: string)
    requires WellFormed(p) && p != []
    ensures |q| < |p| && WellFormed(q) && (p[0] == '\\' ==> |p| >= 2)
    ensures var ts := Tokens(p).value; ts != [] && ts[1..] == Tokens(q).value
    ensures Tokens(p).value[0].Lit? <==> p[0] != '?' && p[0] != '*' && p[0] != '['
    ensures Tokens(p).value[0].Lit? ==> q == if p[0] == '\\' then p[2..] else p[1..]
  {
    q := if p[0] == '\\' then p[2..] else if p[0] == '[' then p[Close(p[1..]) + 2..] else p[1..];
  }

  lemma {:induction false} LiteralMatches(ts: seq<Token>, f: string)
    requires AllLiteral(ts)
    ensures Matches(ts, f) <==> f == Unquoted(ts)
  {
    hide Matches;
    if ts == [] {
      MatchesNil(f);
    } else {
      assert ts == [ts[0]] + ts[1..];
      if f != [] {
        LiteralMatches(ts[1..], f[1..]);
        ConsumeOne(ts[0], ts[1..], f);
      } else if Matches(ts, f) {
        var k := MatchesUncons(ts[0], ts[1..], f);
      }
    }
  }

  /** A pattern without wildcards names exactly one file: its unquoted text, unless the rule
      for names with a leading dot rejects it. */
  lemma NoWildcardsNamesOneFile(p: string, f: string)
    requires WellFormed(p) && AllLiteral(Tokens(p).value)
    ensures RegCmp(p, f) == Match <==>
      f == Unquoted(Tokens(p).value) && (f != [] && f[0] == '.' ==> p != [] && p[0] == '.')
  {
    RealCmpExact(p, f);
    LiteralMatches(Tokens(p).value, f);
  }
}
