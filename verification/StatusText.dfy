/** The text of the status files that larvnetd writes and cviewd reads: lines, words and numbers
    (athena/etc/cviewd/cviewd.c, athena/etc/larvnetd/util.c).  A C string is a sequence without
    its terminator; the text of a file holds no NUL. */
module StatusText {

  predicate IsSpace(ch: char) {
    ch == ' ' || ch == '\t' || ch == '\n' || ch == '\r' || ch == '\U{0b}' || ch == '\U{0c}'
  }

  // ----- Lines -----

  /** Where the first line of `s` ends. */
  function LineEnd(s: string): (r: nat)
    ensures r <= |s|
  {
    if s == "" || s[0] == '\n' then 0 else 1 + LineEnd(s[1..])
  }

  lemma {:induction false} LineEndIs(s: string, j: nat)
    requires j <= |s| && '\n' !in s[..j] && (j < |s| ==> s[j] == '\n')
    ensures LineEnd(s) == j
    decreases j
  {
    if j > 0 {
      assert s[0] in s[..j];
      assert s[1..][..j - 1] == s[..j][1..];
      LineEndIs(s[1..], j - 1);
    }
  }

  function After(s: string): string { if LineEnd(s) < |s| then s[LineEnd(s) + 1..] else "" }

  /** The lines of a text; the last one need not end in a newline. */
  function Lines(s: string): seq<string>
    decreases |s|
  {
    if s == "" then [] else [s[..LineEnd(s)]] + Lines(After(s))
  }

  function Unlines(lines: seq<string>): string {
    if lines == [] then "" else lines[0] + "\n" + Unlines(lines[1..])
  }

  lemma {:induction false} UnlinesSnoc(lines: seq<string>, line: string)
    ensures Unlines(lines + [line]) == Unlines(lines) + line + "\n"
  {
    if lines == [] {
      assert Unlines([line]) == line + "\n" + Unlines([]);
    } else {
      assert (lines + [line])[1..] == lines[1..] + [line];
      UnlinesSnoc(lines[1..], line);
    }
  }

  lemma {:induction false} LinesOfUnlines(lines: seq<string>)
    requires forall l | l in lines :: '\n' !in l
    ensures Lines(Unlines(lines)) == lines
  {
    if lines != [] {
      var l, rest := lines[0], Unlines(lines[1..]);
      var s := l + "\n" + rest;
      assert s[..|l|] == l && s[|l|] == '\n' && s[|l| + 1..] == rest;
      LineEndIs(s, |l|);
      LinesOfUnlines(lines[1..]);
    }
  }

  lemma AfterIs(s: string, n: nat)
    requires LineEnd(s) == n
    ensures After(s) == if n < |s| then s[n + 1..] else ""
  {
  }

  /** An open file and the buffer that lines are read into, which grows as needed. */
  class LineReader {
    const text: string
    var pos: nat
    var buf: string
    var size: nat

    ghost predicate Valid()
      reads this
    {
      pos <= |text| && size >= 2
    }

    ghost function Rest(): string
      requires Valid()
      reads this
    {
      text[pos..]
    }

    constructor (contents: string, bufsize: nat)
      requires bufsize >= 2
      ensures Valid() && text == contents && Rest() == contents
    {
      text, pos, buf, size := contents, 0, "", bufsize;
    }

    /** At most `n - 1` characters, ending with the first newline. */
    method Fgets(n: nat) returns (ok: bool, chunk: string)
      requires Valid() && n >= 2
      modifies this`pos
      ensures Valid() && old(pos) <= pos && ok == (old(pos) < |text|)
      ensures ok ==> chunk == text[old(pos)..pos] && 0 < |chunk| < n && '\n' !in chunk[..|chunk| - 1]
      ensures !ok ==> pos == old(pos)
    {
      chunk := "";
      ok := pos < |text|;
      while pos < |text| && |chunk| < n - 1
        invariant old(pos) <= pos <= |text| && chunk == text[old(pos)..pos] && |chunk| <= n - 1
        invariant '\n' !in chunk
        decreases |text| - pos
      {
        chunk, pos := chunk + [text[pos]], pos + 1;
        if chunk[|chunk| - 1] == '\n' {
          return;
        }
      }
    }

    /** Whatever the size of the buffer, one whole line is read. */
    method ReadLine() returns (ended: bool)
      requires Valid()
      modifies this
      ensures Valid()
      ensures ended == (old(Rest()) == "")
      ensures ended ==> pos == old(pos)
      ensures !ended ==> buf == old(Rest())[..LineEnd(old(Rest()))] && Rest() == After(old(Rest()))
    {
      hide LineEnd, After;
      ghost var rest := Rest();
      buf := "";
      while true
        invariant Valid() && pos == old(pos) + |buf|
        invariant |buf| + 2 <= size
        invariant buf == rest[..|buf|] && '\n' !in buf
        decreases |text| - pos
      {
        var ok, chunk := Fgets(size - |buf|);
        if !ok {
          LineEndIs(rest, |buf|);
          AfterIs(rest, |buf|);
          return buf == "";
        }
        ghost var upTo := buf + chunk[..|chunk| - 1];
        buf := buf + chunk;
        assert buf == rest[..|buf|];
        var len := |buf|;
        if buf[len - 1] == '\n' {
          assert upTo == rest[..len - 1] && '\n' !in upTo;
          LineEndIs(rest, len - 1);
          AfterIs(rest, len - 1);
          buf := buf[..len - 1];
          return false;
        }
        assert chunk == chunk[..|chunk| - 1] + [chunk[|chunk| - 1]];
        size := size * 2;
      }
    }
  }

  // ----- Words -----

  function Spaces(s: string): (n: nat)
    ensures n <= |s| && (n < |s| ==> !IsSpace(s[n]))
  {
    if s == "" || !IsSpace(s[0]) then 0 else 1 + Spaces(s[1..])
  }

  function WordEnd(s: string): (n: nat)
    ensures n <= |s| && (n < |s| ==> IsSpace(s[n])) && (s != "" && !IsSpace(s[0]) ==> n > 0)
    ensures Unspaced(s[..n])
  {
    if s == "" || IsSpace(s[0]) then 0
    else
      var n := WordEnd(s[1..]);
      assert s[..n + 1] == [s[0]] + s[1..][..n];
      n + 1
  }

  ghost predicate Unspaced(w: string) { forall ch | ch in w :: !IsSpace(ch) }

  ghost predicate Field(w: string) { w != "" && Unspaced(w) }

  function Words(s: string): seq<string>
    decreases |s|
  {
    var t := s[Spaces(s)..];
    if t == "" then [] else [t[..WordEnd(t)]] + Words(t[WordEnd(t)..])
  }

  function Unwords(ws: seq<string>): string {
    if ws == [] then "" else if |ws| == 1 then ws[0] else ws[0] + " " + Unwords(ws[1..])
  }

  lemma {:induction false} UnwordsSnoc(ws: seq<string>, w: string)
    requires ws != []
    ensures Unwords(ws + [w]) == Unwords(ws) + " " + w
  {
    assert (ws + [w])[1..] == ws[1..] + [w];
    if |ws| > 1 {
      UnwordsSnoc(ws[1..], w);
    } else {
      assert Unwords(ws[1..] + [w]) == w;
    }
  }

  lemma {:induction false} WordEndIs(s: string, n: nat)
    requires n <= |s| && Unspaced(s[..n]) && (n < |s| ==> IsSpace(s[n]))
    ensures WordEnd(s) == n
    decreases n
  {
    if n > 0 {
      assert s[0] in s[..n];
      assert s[1..][..n - 1] == s[..n][1..];
      WordEndIs(s[1..], n - 1);
    }
  }

  /** Nothing is lost when fields are joined by single spaces. */
  lemma {:induction false} WordsOfUnwords(ws: seq<string>)
    requires forall w | w in ws :: Field(w)
    ensures Words(Unwords(ws)) == ws
  {
    hide *;
    if ws == [] {
      NoWords();
    } else {
      var w, rest := ws[0], ws[1..];
      assert w in ws;
      UnwordsCons(ws);
      WordsOfUnwords(rest);
      if rest == [] {
        FirstWord(w, "");
        NoWords();
        assert w + "" == w && ws == [w];
      } else {
        LeadingSpace(Unwords(rest));
        FirstWord(w, " " + Unwords(rest));
      }
    }
  }

  lemma UnwordsCons(ws: seq<string>)
    requires ws != []
    ensures Unwords(ws) == if |ws| == 1 then ws[0] else ws[0] + (" " + Unwords(ws[1..]))
  {
  }

  lemma NoWords()
    ensures Words("") == [] && Unwords([]) == ""
  {
  }

  lemma FirstWord(w: string, tail: string)
    requires Field(w) && (tail == "" || IsSpace(tail[0]))
    ensures Words(w + tail) == [w] + Words(tail)
  {
    var s := w + tail;
    assert s[0] == w[0] && w[0] in w;
    assert Spaces(s) == 0;
    hide Spaces;
    assert s[0..] == s && s[..|w|] == w && s[|w|..] == tail;
    WordEndIs(s, |w|);
    hide WordEnd;
  }

  lemma LeadingSpace(s: string)
    ensures IsSpace((" " + s)[0]) && Words(" " + s) == Words(s)
  {
    var t := " " + s;
    assert t[1..] == s;
    assert t[Spaces(t)..] == s[Spaces(s)..];
  }

  lemma {:induction false} WordsAreFields(s: string)
    ensures forall w | w in Words(s) :: Field(w)
    decreases |s|
  {
    var t := s[Spaces(s)..];
    if t != "" {
      var k := WordEnd(t);
      hide WordEnd, Spaces;
      WordsAreFields(t[k..]);
    }
  }

  // ----- Numbers -----

  predicate IsDigit(ch: char) { '0' <= ch <= '9' }

  /** The value of the digits that `s` begins with, after `acc`. */
  function Digits(s: string, acc: nat): nat {
    if s == "" || !IsDigit(s[0]) then acc
    else Digits(s[1..], 10 * acc + (s[0] as int - '0' as int))
  }

  function Atoi(s: string): int {
    var t := s[Spaces(s)..];
    if t != "" && t[0] == '-' then -(Digits(t[1..], 0) as int)
    else if t != "" && t[0] == '+' then Digits(t[1..], 0)
    else Digits(t, 0)
  }

  function Decimal(n: nat): string {
    if n < 10 then [(n + '0' as int) as char] else Decimal(n / 10) + [(n % 10 + '0' as int) as char]
  }

  function Show(n: int): string { if n < 0 then "-" + Decimal(-n) else Decimal(n) }

  ghost predicate AllDigits(s: string) { s != "" && forall ch | ch in s :: IsDigit(ch) }

  lemma {:induction false} DigitsStop(a: string, b: string, acc: nat)
    requires b == "" || !IsDigit(b[0])
    ensures Digits(a + b, acc) == Digits(a, acc)
    decreases |a|
  {
    if a == "" {
      assert a + b == b;
    } else {
      assert (a + b)[1..] == a[1..] + b;
      if IsDigit(a[0]) { DigitsStop(a[1..], b, 10 * acc + (a[0] as int - '0' as int)); }
    }
  }

  lemma {:induction false} DigitsSnoc(a: string, d: char, acc: nat)
    requires IsDigit(d) && forall ch | ch in a :: IsDigit(ch)
    ensures Digits(a + [d], acc) == 10 * Digits(a, acc) + (d as int - '0' as int)
    decreases |a|
  {
    if a == "" {
      assert a + [d] == [d];
      assert Digits([d][1..], 10 * acc + (d as int - '0' as int)) == 10 * acc + (d as int - '0' as int);
    } else {
      assert (a + [d])[1..] == a[1..] + [d];
      assert a[0] in a;
      DigitsSnoc(a[1..], d, 10 * acc + (a[0] as int - '0' as int));
    }
  }

  lemma {:induction false} DecimalValue(n: nat)
    ensures AllDigits(Decimal(n)) && Digits(Decimal(n), 0) == n
  {
    if n < 10 {
      assert Digits(Decimal(n)[1..], n) == n;
    } else {
      DecimalValue(n / 10);
      DigitsSnoc(Decimal(n / 10), (n % 10 + '0' as int) as char, 0);
    }
  }

  /** Any number that is printed is read back. */
  lemma ShowRoundTrip(n: int)
    ensures Field(Show(n)) && Atoi(Show(n)) == n
  {
    var d := Decimal(if n < 0 then -n else n);
    DecimalValue(if n < 0 then -n else n);
    assert d[0] in d;
    assert Spaces(Show(n)) == 0;
    if n < 0 { assert Show(n)[1..] == d; }
  }

  /** A number ends with its word. */
  lemma AtoiWord(s: string)
    requires s == "" || !IsSpace(s[0])
    ensures Atoi(s) == Atoi(s[..WordEnd(s)])
  {
    var w, rest := s[..WordEnd(s)], s[WordEnd(s)..];
    assert s == w + rest;
    if s != "" {
      assert Spaces(s) == 0 && Spaces(w) == 0 && w[0] == s[0];
      hide Spaces, WordEnd;
      assert w[0..] == w && s[0..] == s && s[1..] == w[1..] + rest;
      assert rest == "" || !IsDigit(rest[0]);
      DigitsStop(w, rest, 0);
      DigitsStop(w[1..], rest, 0);
      hide Digits;
    }
  }

  // ----- Comparing words -----

  function LowerChar(ch: char): char { if 'A' <= ch <= 'Z' then (ch as int + 32) as char else ch }

  function Lower(s: string): (r: string)
    ensures |r| == |s| && forall i | 0 <= i < |s| :: r[i] == LowerChar(s[i])
  {
    if s == "" then "" else [LowerChar(s[0])] + Lower(s[1..])
  }

  /** A capital becomes the small letter at the same place of the alphabet; nothing else changes. */
  lemma LowerMeaning(s: string)
    ensures |Lower(s)| == |s|
    ensures forall i | 0 <= i < |s| ::
              if 'A' <= s[i] <= 'Z' then 'a' <= Lower(s)[i] <= 'z' && Lower(s)[i] - 'a' == s[i] - 'A' else Lower(s)[i] == s[i]
  {
  }

  predicate FirstFieldMatches(s: string, word: string) {
    && |word| <= |s| && Lower(s[..|word|]) == Lower(word)
    && (|s| == |word| || IsSpace(s[|word|]))
  }

  /** The test looks at the first word only, in any case. */
  lemma MatchesWord(s: string, word: string)
    requires Field(word)
    ensures FirstFieldMatches(s, word) <==> Lower(s[..WordEnd(s)]) == Lower(word)
  {
    var n := |word|;
    if FirstFieldMatches(s, word) {
      forall ch | ch in s[..n]
        ensures !IsSpace(ch)
      {
        var i :| 0 <= i < n && s[..n][i] == ch;
        assert Lower(word)[i] == LowerChar(word[i]) && Lower(s[..n])[i] == LowerChar(ch);
        assert word[i] in word;
      }
      WordEndIs(s, n);
    }
  }

  // ----- Going through a line word by word -----

  method SkipSpaces(s: string, i: nat) returns (p: nat)
    requires i <= |s|
    ensures i <= p <= |s| && p == i + Spaces(s[i..])
  {
    p := i;
    while p < |s| && IsSpace(s[p])
      invariant i <= p <= |s| && p + Spaces(s[p..]) == i + Spaces(s[i..])
      decreases |s| - p
    {
      assert s[p..][1..] == s[p + 1..];
      p := p + 1;
    }
  }

  method SkipNonspaces(s: string, i: nat) returns (q: nat)
    requires i <= |s|
    ensures i <= q <= |s| && q == i + WordEnd(s[i..])
  {
    q := i;
    while q < |s| && !IsSpace(s[q])
      invariant i <= q <= |s| && q + WordEnd(s[q..]) == i + WordEnd(s[i..])
      decreases |s| - q
    {
      assert s[q..][1..] == s[q + 1..];
      q := q + 1;
    }
  }

  function Nth(ws: seq<string>, k: nat): string { if k < |ws| then ws[k] else "" }

  function Drop(ws: seq<string>, k: nat): seq<string> { if k <= |ws| then ws[k..] else [] }

  /** The next word of a line, empty at its end. */
  method NextWord(s: string, q0: nat) returns (p: nat, q: nat)
    requires q0 <= |s|
    ensures q0 <= p <= q <= |s|
    ensures s[p..q] == Nth(Words(s[q0..]), 0) && Words(s[q..]) == Drop(Words(s[q0..]), 1)
    ensures (p == |s| <==> Words(s[q0..]) == []) && (p == q <==> p == |s|)
    ensures Unspaced(s[p..q]) && Atoi(s[p..]) == Atoi(s[p..q])
    ensures forall w | Field(w) :: FirstFieldMatches(s[p..], w) <==> Lower(s[p..q]) == Lower(w)
  {
    p := SkipSpaces(s, q0);
    q := SkipNonspaces(s, p);
    ghost var t := s[p..];
    assert t == s[q0..][Spaces(s[q0..])..];
    assert t[..WordEnd(t)] == s[p..q] && t[WordEnd(t)..] == s[q..];
    AtoiWord(t);
    forall w | Field(w)
      ensures FirstFieldMatches(t, w) <==> Lower(s[p..q]) == Lower(w)
    {
      MatchesWord(t, w);
    }
    assert p == |s| ==> Words(s[q..]) == [];
  }
}
