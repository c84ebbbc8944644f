/** One query of a print server by larvnetd (athena/etc/larvnetd/printer.c): the request is
    written in arbitrary pieces and the reply is read in arbitrary pieces through one fixed
    buffer, from which complete lines are taken as they appear. */
module PrintReply {

  const NL := '\n'
  const NUL := '\0'

  datatype Tally = Tally(jobs: nat, up: bool)

  /** The part of `s` that the C string functions see. */
  function CString(s: string): (r: string)
    ensures r <= s && NUL !in r
    ensures r == s || s[|r|] == NUL
  {
    if s == [] || s[0] == NUL then [] else [s[0]] + CString(s[1..])
  }

  /** strstr. */
  predicate Contains(s: string, sub: string)
    ensures Contains(s, sub) ==> |sub| <= |s|
  {
    sub <= s || (s != [] && Contains(s[1..], sub))
  }

  lemma {:induction false} ContainsMeaning(s: string, sub: string)
    ensures Contains(s, sub) <==> exists i | 0 <= i <= |s| :: sub <= s[i..]
  {
    if s != [] { ContainsMeaning(s[1..], sub); }
    if sub <= s { assert s[0..] == s; }
    if s != [] && Contains(s[1..], sub) {
      var i :| 0 <= i <= |s[1..]| && sub <= s[1..][i..];
      assert s[1..][i..] == s[i + 1..];
    }
    if i :| 0 <= i <= |s| && sub <= s[i..] {
      if i == 0 { assert s[0..] == s; } else { assert s[1..][i - 1..] == s[i..]; }
    }
  }

  predicate IsJobLine(line: string) {
    "active " <= line || (line != [] && '0' <= line[0] <= '9')
  }

  predicate IsDownLine(line: string) {
    Contains(line, "is down") || Contains(line, "Printer Error") || Contains(line, "ing disabled")
  }

  /** What one line of the reply contributes. */
  function Note(t: Tally, line: string): Tally {
    var s := CString(line);
    if IsJobLine(s) then t.(jobs := t.jobs + 1)
    else if IsDownLine(s) then t.(up := false)
    else t
  }

  /** A line that begins with a digit or as the active job counts as a job; any other one says that the
      printer is down if one of three phrases is somewhere in it. */
  lemma NoteMeaning(t: Tally, line: string)
    requires NUL !in line
    ensures var job := (|line| >= 7 && line[..7] == "active ") || (line != [] && '0' <= line[0] <= '9');
            var down := exists i | 0 <= i <= |line| ::
              "is down" <= line[i..] || "Printer Error" <= line[i..] || "ing disabled" <= line[i..];
            Note(t, line) == Tally(if job then t.jobs + 1 else t.jobs, t.up && (job || !down))
  {
    ContainsMeaning(line, "is down");
    ContainsMeaning(line, "Printer Error");
    ContainsMeaning(line, "ing disabled");
    assert CString(line) == line;
    assert "active " <= line <==> |line| >= 7 && line[..7] == "active ";
    hide Contains, CString;
  }

  function NoteAll(t: Tally, lines: seq<string>): Tally
    decreases |lines|
  {
    if lines == [] then t else NoteAll(Note(t, lines[0]), lines[1..])
  }

  function Newline(s: string): (i: nat)
    ensures i <= |s| && NL !in s[..i]
    ensures i < |s| ==> s[i] == NL
  {
    if s == [] || s[0] == NL then 0 else 1 + Newline(s[1..])
  }

  function Terminated(lines: seq<string>): string {
    if lines == [] then [] else lines[0] + [NL] + Terminated(lines[1..])
  }

  lemma LinesStep(s: string)
    requires Newline(s) < |s|
    ensures Lines(s) == [s[..Newline(s)]] + Lines(s[Newline(s) + 1..])
  {
    hide Newline;
  }

  lemma TailStep(s: string)
    requires Newline(s) < |s|
    ensures Tail(s) == Tail(s[Newline(s) + 1..])
  {
    hide Newline;
  }

  lemma NoLines(s: string)
    requires Newline(s) == |s|
    ensures Lines(s) == [] && Tail(s) == s && NL !in s
  {
    assert s[..|s|] == s;
    hide Newline;
  }

  lemma TerminatedStep(line: string, more: seq<string>, tail: string)
    ensures Terminated([line] + more) + tail == line + [NL] + (Terminated(more) + tail)
  {
    assert ([line] + more)[1..] == more;
  }

  /** A text is its lines, each with its newline, and what follows the last newline. */
  lemma {:induction false} LinesMeaning(s: string)
    ensures Terminated(Lines(s)) + Tail(s) == s && NL !in Tail(s) && forall l | l in Lines(s) :: NL !in l
    decreases |s|
  {
    hide *;
    var i := Newline(s);
    if i < |s| {
      var first, rest := s[..i], s[i + 1..];
      assert s == first + [NL] + rest;
      LinesMeaning(rest);
      LinesStep(s);
      TailStep(s);
      TerminatedStep(first, Lines(rest), Tail(rest));
    } else {
      NoLines(s);
      NoneTerminated(s);
    }
  }

  lemma NoneTerminated(s: string)
    ensures Terminated([]) + s == s
  {
  }

  /** The newline-terminated lines of a text, without their newlines. */
  function Lines(s: string): seq<string> {
    var i := Newline(s);
    if i == |s| then [] else [s[..i]] + Lines(s[i + 1..])
  }

  /** What follows the last newline of a text. */
  function Tail(s: string): string {
    var i := Newline(s);
    if i == |s| then s else Tail(s[i + 1..])
  }

  /** What is left of a line when full buffers without a newline are tossed. */
  function Trim(cap: nat, line: string): (r: string)
    requires cap > 0
    ensures |r| < cap
    ensures |line| < cap ==> r == line
    decreases |line|
  {
    if |line| < cap then line else Trim(cap, line[cap..])
  }

  /** `n` is some number of whole buffers. */
  predicate WholeBuffers(cap: nat, n: nat)
    requires cap > 0
  {
    n == 0 || (n >= cap && WholeBuffers(cap, n - cap))
  }

  lemma OneMore(cap: nat, n: nat)
    requires cap > 0 && WholeBuffers(cap, n)
    ensures WholeBuffers(cap, n + cap)
  {
  }

  lemma TrimOne(cap: nat, line: string)
    requires cap > 0 && |line| >= cap
    ensures Trim(cap, line) == Trim(cap, line[cap..])
  {
  }

  /** What is left is the end of the line, behind as many full buffers as there are. */
  lemma {:induction false} TrimMeaning(cap: nat, line: string)
    requires cap > 0
    ensures exists n: nat :: WholeBuffers(cap, n) && n <= |line| < n + cap && Trim(cap, line) == line[n..]
    decreases |line|
  {
    if |line| < cap {
      assert WholeBuffers(cap, 0) && line[0..] == line;
    } else {
      var rest := line[cap..];
      TrimMeaning(cap, rest);
      var n: nat :| WholeBuffers(cap, n) && n <= |rest| < n + cap && Trim(cap, rest) == rest[n..];
      OneMore(cap, n);
      TrimOne(cap, line);
      hide Trim, WholeBuffers;
      assert rest[n..] == line[n + cap..];
    }
  }

  function TrimAll(cap: nat, lines: seq<string>): (r: seq<string>)
    requires cap > 0
  {
    if lines == [] then [] else [Trim(cap, lines[0])] + TrimAll(cap, lines[1..])
  }

  /** Between two reads: the partial line kept in the buffer, and the counts so far. */
  datatype State = State(partial: string, tally: Tally)

  /** The simple reader: one byte at a time. */
  function Eat(cap: nat, st: State, c: char): State {
    if c == NL then State([], Note(st.tally, st.partial))
    else if |st.partial| + 1 == cap then State([], st.tally)
    else State(st.partial + [c], st.tally)
  }

  function EatAll(cap: nat, st: State, data: string): State
    decreases |data|
  {
    if data == [] then st else EatAll(cap, Eat(cap, st, data[0]), data[1..])
  }

  /** What one call of printer_handle_input does with the bytes it reads. */
  function Feed(cap: nat, st: State, chunk: string): State {
    var data := st.partial + chunk;
    var rest := Tail(data);
    State(if |rest| == cap then [] else rest, NoteAll(st.tally, Lines(data)))
  }

  /** A read returns at least one byte and at most what fits behind the partial line. */
  ghost predicate LegalReads(cap: nat, st: State, chunks: seq<string>)
    decreases |chunks|
  {
    chunks == [] ||
    (0 < |chunks[0]| <= cap - |st.partial| && LegalReads(cap, Feed(cap, st, chunks[0]), chunks[1..]))
  }

  function FeedAll(cap: nat, st: State, chunks: seq<string>): State
    decreases |chunks|
  {
    if chunks == [] then st else FeedAll(cap, Feed(cap, st, chunks[0]), chunks[1..])
  }

  function Join(chunks: seq<string>): string {
    if chunks == [] then [] else chunks[0] + Join(chunks[1..])
  }

  lemma {:induction false} EatAppend(cap: nat, st: State, a: string, b: string)
    ensures EatAll(cap, st, a + b) == EatAll(cap, EatAll(cap, st, a), b)
    decreases |a|
  {
    if a == [] {
      assert a + b == b;
    } else {
      assert (a + b)[1..] == a[1..] + b;
      EatAppend(cap, Eat(cap, st, a[0]), a[1..], b);
    }
  }

  /** Bytes without a newline accumulate; every time the buffer fills it is tossed. */
  lemma {:induction false} EatText(cap: nat, st: State, s: string)
    requires cap > 0 && |st.partial| < cap && NL !in s
    ensures EatAll(cap, st, s) == State(Trim(cap, st.partial + s), st.tally)
    decreases |s|
  {
    if s == [] {
      assert st.partial + s == st.partial;
    } else {
      var st' := Eat(cap, st, s[0]);
      EatText(cap, st', s[1..]);
      assert st.partial + s == (st.partial + [s[0]]) + s[1..];
      if |st.partial| + 1 == cap {
        assert (st.partial + s)[cap..] == [] + s[1..];
      }
    }
  }

  lemma FirstOf(cap: nat, data: string)
    requires cap > 0
    ensures var i := Newline(data);
            && Tail(data) == (if i == |data| then data else Tail(data[i + 1..]))
            && TrimAll(cap, Lines(data))
               == (if i == |data| then [] else [Trim(cap, data[..i])] + TrimAll(cap, Lines(data[i + 1..])))
  {
    hide Newline, Trim;
    var i := Newline(data);
    if i < |data| {
      var lines := [data[..i]] + Lines(data[i + 1..]);
      assert lines[1..] == Lines(data[i + 1..]);
    }
  }

  lemma EatNewline(cap: nat, t: Tally, line: string)
    requires cap > 0
    ensures Eat(cap, State(Trim(cap, line), t), NL) == State([], Note(t, Trim(cap, line)))
  {
    hide Trim, Note;
  }

  /** Reading byte by byte amounts to noting the trimmed lines one by one. */
  lemma {:induction false} EatLines(cap: nat, t: Tally, data: string)
    requires cap > 0
    ensures EatAll(cap, State([], t), data)
         == State(Trim(cap, Tail(data)), NoteAll(t, TrimAll(cap, Lines(data))))
    decreases |data|
  {
    hide Note, Newline, Lines, Tail, Trim, TrimAll, Eat;
    var i := Newline(data);
    var line := data[..i];
    FirstOf(cap, data);
    EatText(cap, State([], t), line);
    assert [] + line == line;
    if i == |data| {
      assert line == data;
    } else {
      var rest := data[i + 1..];
      assert data == line + ([NL] + rest);
      EatAppend(cap, State([], t), line, [NL] + rest);
      assert ([NL] + rest)[1..] == rest;
      EatNewline(cap, t, line);
      EatLines(cap, Note(t, Trim(cap, line)), rest);
      assert ([Trim(cap, line)] + TrimAll(cap, Lines(rest)))[1..] == TrimAll(cap, Lines(rest));
    }
  }

  lemma {:induction false} ShortLinesKept(cap: nat, lines: seq<string>)
    requires cap > 0 && forall l | l in lines :: |l| < cap
    ensures TrimAll(cap, lines) == lines
  {
    if lines != [] {
      ShortLinesKept(cap, lines[1..]);
    }
  }

  lemma {:induction false} LinesAreShort(s: string, l: string)
    requires l in Lines(s)
    ensures |l| + |Tail(s)| < |s|
    decreases |s|
  {
    var i := Newline(s);
    TailLength(s[i + 1..]);
    if l != s[..i] {
      LinesAreShort(s[i + 1..], l);
    }
  }

  lemma {:induction false} TailLength(s: string)
    ensures |Tail(s)| <= |s|
    decreases |s|
  {
    var i := Newline(s);
    if i < |s| {
      TailLength(s[i + 1..]);
    }
  }

  lemma EatPartial(cap: nat, st: State, chunk: string)
    requires cap > 0 && |st.partial| < cap && NL !in st.partial
    ensures EatAll(cap, st, chunk) == EatAll(cap, State([], st.tally), st.partial + chunk)
  {
    EatText(cap, State([], st.tally), st.partial);
    assert [] + st.partial == st.partial;
    EatAppend(cap, State([], st.tally), st.partial, chunk);
  }

  lemma {:induction false} TailHasNoNewline(s: string)
    ensures NL !in Tail(s)
    decreases |s|
  {
    var i := Newline(s);
    if i < |s| {
      TailHasNoNewline(s[i + 1..]);
    }
  }

  /** One buffered read is the same as eating its bytes one at a time. */
  lemma FeedIsEat(cap: nat, st: State, chunk: string)
    requires |st.partial| < cap && NL !in st.partial && |chunk| <= cap - |st.partial|
    ensures Feed(cap, st, chunk) == EatAll(cap, st, chunk)
    ensures |Feed(cap, st, chunk).partial| < cap && NL !in Feed(cap, st, chunk).partial
  {
    var data := st.partial + chunk;
    EatPartial(cap, st, chunk);
    EatLines(cap, st.tally, data);
    TailLength(data);
    TailHasNoNewline(data);
    forall l | l in Lines(data) ensures |l| < cap {
      LinesAreShort(data, l);
    }
    ShortLinesKept(cap, Lines(data));
  }

  lemma {:induction false} FeedAllIsEat(cap: nat, st: State, chunks: seq<string>)
    requires |st.partial| < cap && NL !in st.partial && LegalReads(cap, st, chunks)
    ensures FeedAll(cap, st, chunks) == EatAll(cap, st, Join(chunks))
    ensures |FeedAll(cap, st, chunks).partial| < cap
    decreases |chunks|
  {
    if chunks != [] {
      FeedIsEat(cap, st, chunks[0]);
      FeedAllIsEat(cap, Feed(cap, st, chunks[0]), chunks[1..]);
      EatAppend(cap, st, chunks[0], Join(chunks[1..]));
    }
  }

  lemma {:induction false} FeedSnoc(cap: nat, st: State, chunks: seq<string>, c: string)
    ensures FeedAll(cap, st, chunks + [c]) == Feed(cap, FeedAll(cap, st, chunks), c)
    ensures LegalReads(cap, st, chunks) && 0 < |c| <= cap - |FeedAll(cap, st, chunks).partial| ==>
              LegalReads(cap, st, chunks + [c])
    decreases |chunks|
  {
    hide Feed;
    var all := chunks + [c];
    if chunks == [] {
      assert all == [c] && all[1..] == [];
    } else {
      assert all[1..] == chunks[1..] + [c] && all[0] == chunks[0];
      FeedSnoc(cap, Feed(cap, st, chunks[0]), chunks[1..], c);
    }
  }

  /** However the reply is cut into reads, the counts at the end are those of its lines taken
      one by one, each cut down to what remains after the full buffers that had to be tossed. */
  lemma AnySplittingOfReply(cap: nat, t: Tally, chunks: seq<string>)
    requires cap > 0 && LegalReads(cap, State([], t), chunks)
    ensures FeedAll(cap, State([], t), chunks).tally == NoteAll(t, TrimAll(cap, Lines(Join(chunks))))
    ensures |FeedAll(cap, State([], t), chunks).partial| < cap
  {
    FeedAllIsEat(cap, State([], t), chunks);
    EatLines(cap, t, Join(chunks));
  }

  /** When every line with its newline fits the buffer, nothing is lost at all. */
  lemma ReplyWithFittingLines(cap: nat, t: Tally, chunks: seq<string>)
    requires cap > 0 && LegalReads(cap, State([], t), chunks)
    requires forall l | l in Lines(Join(chunks)) :: |l| + 1 <= cap
    ensures FeedAll(cap, State([], t), chunks).tally == NoteAll(t, Lines(Join(chunks)))
  {
    AnySplittingOfReply(cap, t, chunks);
    ShortLinesKept(cap, Lines(Join(chunks)));
  }

  /** How many of the lines count as jobs. */
  function Jobs(lines: seq<string>): nat {
    if lines == [] then 0 else (if IsJobLine(CString(lines[0])) then 1 else 0) + Jobs(lines[1..])
  }

  predicate SaysDown(line: string) { !IsJobLine(CString(line)) && IsDownLine(CString(line)) }

  ghost predicate AnyDown(lines: seq<string>) { exists l | l in lines :: SaysDown(l) }

  /** Whatever the order of the lines: their jobs are added, and the printer is up unless one of
      them says that it is down. */
  lemma {:induction false} NoteAllCounts(t: Tally, lines: seq<string>)
    ensures NoteAll(t, lines) == Tally(t.jobs + Jobs(lines), t.up && !AnyDown(lines))
    decreases |lines|
  {
    hide IsJobLine, IsDownLine, CString;
    if lines != [] {
      NoteAllCounts(Note(t, lines[0]), lines[1..]);
      AnyDownCons(lines);
      hide AnyDown;
    }
  }

  lemma AnyDownCons(lines: seq<string>)
    requires lines != []
    ensures AnyDown(lines) <==> SaysDown(lines[0]) || AnyDown(lines[1..])
  {
    hide SaysDown;
    assert lines == [lines[0]] + lines[1..];
    assert lines[0] in lines;
    assert forall l | l in lines[1..] :: l in lines;
  }

  /** Exactly when a reply is counted right although lines may not fit: what is left of its lines
      has as many job lines, and says that the printer is down exactly if the lines do. */
  lemma CountedRight(cap: nat, t: Tally, chunks: seq<string>)
    requires cap > 0 && LegalReads(cap, State([], t), chunks)
    ensures var lines := Lines(Join(chunks));
            FeedAll(cap, State([], t), chunks).tally == NoteAll(t, lines) <==>
            && Jobs(TrimAll(cap, lines)) == Jobs(lines)
            && (t.up ==> (AnyDown(TrimAll(cap, lines)) <==> AnyDown(lines)))
  {
    var lines := Lines(Join(chunks));
    AnySplittingOfReply(cap, t, chunks);
    NoteAllCounts(t, lines);
    NoteAllCounts(t, TrimAll(cap, lines));
  }

  function Sevens(n: nat): (s: string)
    ensures |s| == n && NL !in s && (n > 0 ==> s[0] == '7')
  {
    if n == 0 then [] else ['7'] + Sevens(n - 1)
  }

  /** A line that does not fit can be miscounted, whatever the size of the buffer: this one is a
      job, and what is left of it is not. */
  lemma LongLineMiscounted(cap: nat)
    requires cap >= 2
    ensures var chunks := [Sevens(cap), "x\n"];
            && LegalReads(cap, State([], Tally(0, true)), chunks)
            && NoteAll(Tally(0, true), Lines(Join(chunks))) == Tally(1, true)
            && FeedAll(cap, State([], Tally(0, true)), chunks).tally == Tally(0, true)
  {
    var chunks, line, t := [Sevens(cap), "x\n"], Sevens(cap) + "x", Tally(0, true);
    assert Join(chunks) == line + "\n" by {
      assert chunks[1..] == ["x\n"] && Join(["x\n"]) == "x\n" + Join([]);
    }
    LineThenNewline(line);
    LegalPair(cap, chunks[0], chunks[1], t);
    AnySplittingOfReply(cap, t, chunks);
    assert line[cap..] == "x";
    assert Trim(cap, line) == "x";
    assert TrimAll(cap, [line]) == ["x"] + TrimAll(cap, []);
    OneLine(t, line);
    OneLine(t, "x");
    NoNul("x");
    assert CString(line)[0] == '7';
    hide Contains, FeedAll, LegalReads, Sevens;
  }

  lemma OneLine(t: Tally, line: string)
    ensures NoteAll(t, [line]) == Note(t, line)
  {
    hide Note;
    assert NoteAll(Note(t, line), []) == Note(t, line);
  }

  /** A full buffer without a newline is tossed, and any read that fits may follow. */
  lemma LegalPair(cap: nat, a: string, b: string, t: Tally)
    requires |a| == cap > 0 && NL !in a && 0 < |b| <= cap
    ensures LegalReads(cap, State([], t), [a, b])
  {
    var st := Feed(cap, State([], t), a);
    assert [] + a == a && Newline(a) == |a|;
    assert Tail(a) == a;
    assert st.partial == [];
    assert [a, b][1..] == [b];
    assert LegalReads(cap, Feed(cap, st, b), [b][1..]);
  }

  lemma {:induction false} NoNul(s: string)
    requires NUL !in s
    ensures CString(s) == s
  {
    if s != [] {
      NoNul(s[1..]);
    }
  }

  lemma {:induction false} NewlineAt(s: string, rest: string)
    requires NL !in s
    ensures Newline(s + [NL] + rest) == |s|
  {
    if s != [] {
      assert (s + [NL] + rest)[1..] == s[1..] + [NL] + rest;
      NewlineAt(s[1..], rest);
    }
  }

  lemma LineThenNewline(s: string)
    requires NL !in s
    ensures Lines(s + "\n") == [s]
  {
    NewlineAt(s, []);
    assert s + [NL] + [] == s + "\n";
    assert (s + "\n")[..|s|] == s && (s + "\n")[|s| + 1..] == [];
  }

  lemma FirstLine(t: Tally, data: string, p: nat, q: nat)
    requires p <= q < |data| && q == p + Newline(data[p..])
    ensures NoteAll(t, Lines(data[p..])) == NoteAll(Note(t, data[p..q]), Lines(data[q + 1..]))
    ensures Tail(data[p..]) == Tail(data[q + 1..])
  {
    hide Newline;
    var s := data[p..];
    assert s[..q - p] == data[p..q] && s[q - p + 1..] == data[q + 1..];
    assert Lines(s) == [data[p..q]] + Lines(data[q + 1..]);
    hide Lines, Note;
  }

  lemma LastLine(t: Tally, s: string)
    requires Newline(s) == |s|
    ensures NoteAll(t, Lines(s)) == t && Tail(s) == s
  {
  }

  /** The socket side of one struct printer. */
  class Connection {
    const cap: nat
    const buf: array<char>
    var buflen: nat
    var toSend: bool
    var jobsCounted: nat
    var upSoFar: bool

    ghost predicate Valid()
      reads this, buf
    {
      buf.Length == cap && 3 <= cap && buflen < cap && (!toSend ==> NL !in buf[..buflen])
    }

    ghost function Now(): State
      requires Valid()
      reads this, buf
    {
      State(buf[..buflen], Tally(jobsCounted, upSoFar))
    }

    /** The request set up by printer_host_callback: command 3 and the queue name, cut to fit. */
    constructor (cap: nat, name: string)
      requires 3 <= cap
      ensures Valid() && this.cap == cap && toSend
      ensures Now().partial == Request(cap, name) && Now().tally == Tally(0, true)
    {
      this.cap := cap;
      var request := Request(cap, name);
      buf := new char[cap](i => if 0 <= i < |request| then request[i] else NUL);
      buflen := |request|;
      toSend, jobsCounted, upSoFar := true, 0, true;
    }

    /** memmove(buf, buf + from, len). */
    method Slide(from: nat, len: nat)
      requires from + len <= buf.Length
      modifies buf
      ensures buf[..len] == old(buf[from..from + len])
    {
      for i := 0 to len
        invariant forall k | 0 <= k < i :: buf[k] == old(buf[from + k])
        invariant forall k | from + i <= k < from + len :: buf[k] == old(buf[k])
      {
        buf[i] := buf[from + i];
      }
    }

    /** printer_handle_output when write() took `count` bytes: nothing is skipped or resent. */
    method HandleOutput(count: nat) returns (written: string)
      requires Valid() && toSend && count <= buflen
      modifies this`buflen, this`toSend, buf
      ensures Valid()
      ensures |written| == count && written + Now().partial == old(Now().partial)
      ensures Now().tally == old(Now().tally)
      ensures toSend <==> Now().partial != []
    {
      written := buf[..count];
      buflen := buflen - count;
      Slide(count, buflen);
      if buflen == 0 {
        toSend := false;
      }
    }

    /** memchr over the filled part of the buffer, starting at `from`. */
    method FindNewline(from: nat, ghost data: string) returns (q: nat)
      requires from <= buflen <= buf.Length && |data| == buflen
      requires forall k | from <= k < buflen :: buf[k] == data[k]
      ensures from <= q <= buflen && q == from + Newline(data[from..])
    {
      q := from;
      while q < buflen && buf[q] != NL
        invariant from <= q <= buflen
        invariant Newline(data[from..]) == q - from + Newline(data[q..])
      {
        assert data[q..][1..] == data[q + 1..];
        q := q + 1;
      }
    }

    /** read(s, buf + buflen, ...). */
    method Receive(chunk: string)
      requires buflen + |chunk| <= buf.Length
      modifies buf
      ensures buf[..buflen + |chunk|] == old(buf[..buflen]) + chunk
    {
      for i := 0 to |chunk|
        invariant buf[..buflen] == old(buf[..buflen])
        invariant buf[buflen..buflen + i] == chunk[..i]
      {
        buf[buflen + i] := chunk[i];
      }
    }

    /** printer_handle_input when read() returned the bytes `chunk`. */
    method HandleInput(chunk: string)
      requires Valid() && !toSend && 0 < |chunk| <= cap - buflen
      modifies this`buflen, this`jobsCounted, this`upSoFar, buf
      ensures Valid()
      ensures Now() == Feed(cap, old(Now()), chunk)
    {
      hide Lines, NoteAll, Tail, Newline;
      ghost var data := buf[..buflen] + chunk;
      Receive(chunk);
      buflen := buflen + |chunk|;
      var p := TakeLines(data);
      buflen := buflen - p;
      Slide(p, buflen);
      TailHasNoNewline(data);
      TailLength(data);
      if buflen == cap {
        buflen := 0;
      }
      assert buflen == 0 ==> buf[..buflen] == [];
    }

    /** Looks over the complete lines in the buffer; returns where the leftover starts. */
    method TakeLines(ghost data: string) returns (p: nat)
      requires buflen <= buf.Length && buf[..buflen] == data
      modifies this`jobsCounted, this`upSoFar, buf
      ensures p <= buflen && buf[p..buflen] == Tail(data)
      ensures Tally(jobsCounted, upSoFar) == NoteAll(old(Tally(jobsCounted, upSoFar)), Lines(data))
    {
      hide Note, NoteAll, Lines, Tail, Newline;
      p := 0;
      assert data == data[0..];
      assert forall k | 0 <= k < buflen :: buf[k] == buf[..buflen][k];
      ghost var goal := NoteAll(Tally(jobsCounted, upSoFar), Lines(data));
      var q := FindNewline(p, data);
      while q < buflen
        invariant p <= q <= buflen == |data| && q == p + Newline(data[p..])
        invariant forall k | p <= k < buflen :: buf[k] == data[k]
        invariant goal == NoteAll(Tally(jobsCounted, upSoFar), Lines(data[p..]))
        invariant Tail(data) == Tail(data[p..])
      {
        FirstLine(Tally(jobsCounted, upSoFar), data, p, q);
        var line := buf[p..q];
        assert line == data[p..q];
        buf[q] := NUL;
        Tick(line);
        p := q + 1;
        q := FindNewline(p, data);
      }
      LastLine(Tally(jobsCounted, upSoFar), data[p..]);
      assert buf[p..buflen] == data[p..];
    }

    /** The body of the line loop: count a job, or notice that the printer is down. */
    method Tick(line: string)
      modifies this`jobsCounted, this`upSoFar
      ensures Tally(jobsCounted, upSoFar) == Note(old(Tally(jobsCounted, upSoFar)), line)
    {
      var s := CString(line);
      if IsJobLine(s) {
        jobsCounted := jobsCounted + 1;
      } else if IsDownLine(s) {
        upSoFar := false;
      }
    }
  }

  function Request(cap: nat, name: string): (r: string)
    requires 3 <= cap
    ensures 2 <= |r| < cap
    ensures r[0] == '\U{0003}' && r[|r| - 1] == NL
    ensures r[1..|r| - 1] == if |name| <= cap - 3 then name else name[..cap - 3]
  {
    var n := if |name| <= cap - 3 then |name| else cap - 3;
    var r := ['\U{0003}'] + name[..n] + [NL];
    assert r[1..|r| - 1] == name[..n];
    r
  }

  /** A whole reply read by the class: any number of reads, then end of input. */
  method ReadReply(c: Connection, chunks: seq<string>) returns (t: Tally)
    requires c.Valid() && !c.toSend && c.buflen == 0
    requires LegalReads(c.cap, c.Now(), chunks)
    modifies c, c.buf
    ensures t == NoteAll(old(c.Now().tally), TrimAll(c.cap, Lines(Join(chunks))))
  {
    ghost var st := c.Now();
    assert st.partial == [];
    AnySplittingOfReply(c.cap, st.tally, chunks);
    assert chunks[0..] == chunks;
    for i := 0 to |chunks|
      invariant c.Valid() && !c.toSend
      invariant LegalReads(c.cap, c.Now(), chunks[i..])
      invariant FeedAll(c.cap, c.Now(), chunks[i..]) == FeedAll(c.cap, st, chunks)
    {
      assert chunks[i..][1..] == chunks[i + 1..];
      c.HandleInput(chunks[i]);
    }
    t := Tally(c.jobsCounted, c.upSoFar);
  }
}
