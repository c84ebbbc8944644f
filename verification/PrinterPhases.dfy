/** The life of one printer in larvnetd (athena/etc/larvnetd/printer.c): whatever else the daemon is
    doing, each printer goes through the same few phases, one at a time, and a poll that meets no
    failure asks, connects, sends its request and reads the reply. */
module PrinterPhases {
  import opened Wrappers
  import Q = PriorityQueue
  import opened PrinterDaemon
  import R = PrintReply

  /** What a printer is waiting for.  While it is connected, `conn` is what is left to send, or what
      was read of a line and counted so far. */
  datatype Phase =
    | AskingHesiod
    | AskingHost
    | Sleeping(until: int)
    | Sending(conn: R.State)
    | Receiving(conn: R.State)

  /** Query `q` of that kind is pending for printer `i`. */
  ghost predicate Pending(s: State, i: nat, q: nat, kind: Kind) {
    q in s.queries && s.queries[q].kind == kind && RefersTo(s, s.queries[q].block, i)
  }

  ghost predicate InPhase(s: State, i: nat, ph: Phase)
    requires i < |s.printers|
  {
    var p := s.printers[i];
    match ph
    case AskingHesiod => exists q :: Pending(s, i, q, Hesiod)
    case AskingHost => exists q :: Pending(s, i, q, Host)
    case Sleeping(until) =>
      && p.timer.Some? && p.timer.value in s.timers
      && var e := s.timers[p.timer.value]; e.func == Q.PrinterPoll && e.abstime == until && RefersTo(s, e.arg, i)
    case Sending(conn) => p.s.Some? && p.toSend && p.conn == conn
    case Receiving(conn) => p.s.Some? && !p.toSend && p.conn == conn
  }

  /** What an event means for one printer. */
  datatype Input =
    | Nothing
    | Reply(ok: bool, now: int)
    | Wake(ok: bool, now: int)
    | Wrote(count: Option<nat>, now: int)
    | Got(chunk: Option<string>, now: int)
    | Restart(ok: bool, now: int)

  ghost function InputOf(s: State, e: Event, i: nat): Input {
    match e
    case Answered(q, a, now) =>
      if Pending(s, i, q, Hesiod) || Pending(s, i, q, Host) then Reply(a == Resolved, now) else Nothing
    case Fired(t, now, hesiodOk, _, _) =>
      if t in s.timers && s.timers[t].func == Q.PrinterPoll && RefersTo(s, s.timers[t].arg, i) then Wake(hesiodOk, now) else Nothing
    case Writable(j, count, now) => if j == i then Wrote(count, now) else Nothing
    case Readable(j, chunk, now) => if j == i then Got(chunk, now) else Nothing
    case Hup(_, _, started, now) => Restart(started(i), now)
    case FailedHup(started, now) => Restart(started(i), now)
  }

  /** The life of a printer of that name: Hesiod is asked for its print server, the resolver for the
      address, a connection takes the request and gives the reply, and a minute later, or a minute
      after anything fails, it starts over. */
  function Next(ph: Phase, e: Input, name: string): Phase {
    match (ph, e)
    case (_, Nothing) => ph
    case (_, Restart(ok, now)) => if ok then AskingHesiod else Sleeping(now + 60)
    case (AskingHesiod, Reply(ok, now)) => if ok then AskingHost else Sleeping(now + 60)
    case (AskingHost, Reply(ok, now)) =>
      if ok then Sending(R.State(R.Request(8192, name), R.Tally(0, true))) else Sleeping(now + 60)
    case (Sleeping(_), Wake(ok, now)) => if ok then AskingHesiod else Sleeping(now + 60)
    case (Sending(conn), Wrote(count, now)) =>
      if count.None? then Sleeping(now + 60)
      else if count.value < |conn.partial| then Sending(conn.(partial := conn.partial[count.value..]))
      else Receiving(conn.(partial := []))
    case (Receiving(conn), Got(chunk, now)) =>
      if chunk.None? || chunk.value == [] then Sleeping(now + 60) else Receiving(R.Feed(8192, conn, chunk.value))
    case (Sending(conn), Got(chunk, now)) =>
      if chunk.None? || chunk.value == [] then Sleeping(now + 60) else Sending(R.Feed(8192, conn, chunk.value))
    case _ => ph
  }

  /** The phase that goes with an activity. */
  ghost function PhaseOf(s: State, w: Witness, i: nat): Phase
    requires Good(s, w) && Busy(w) && i < |s.printers|
  {
    assert ActivityOk(s, w, i);
    assert w.act[i] in w.act;
    match w.act[i]
    case InQuery(q) => if s.queries[q].kind == Hesiod then AskingHesiod else AskingHost
    case OnTimer(t) => Sleeping(s.timers[t].abstime)
    case OnSocket(fd) => if s.printers[i].toSend then Sending(s.printers[i].conn) else Receiving(s.printers[i].conn)
  }

  lemma PhaseIs(s: State, w: Witness, i: nat, ph: Phase)
    requires Good(s, w) && Busy(w) && i < |s.printers|
    ensures InPhase(s, i, ph) <==> ph == PhaseOf(s, w, i)
  {
    assert ActivityOk(s, w, i);
    assert w.act[i] in w.act;
    forall q, kind | Pending(s, i, q, kind) && kind != WsHost
      ensures w.act[i] == InQuery(q)
    {
      assert QueryOk(s, w, q);
    }
    match w.act[i] {
      case InQuery(q) => assert Pending(s, i, q, s.queries[q].kind);
      case _ =>
    }
  }

  /** Every printer is in exactly one phase. */
  lemma OnePhase(s: State, i: nat) returns (ph: Phase)
    requires Proper(s) && i < |s.printers|
    ensures InPhase(s, i, ph) && forall other | InPhase(s, i, other) :: other == ph
  {
    hide Good, Busy, InPhase;
    var w :| Good(s, w) && Busy(w);
    ph := PhaseOf(s, w, i);
    PhaseIs(s, w, i, ph);
    forall other | InPhase(s, i, other)
      ensures other == ph
    {
      PhaseIs(s, w, i, other);
    }
  }

  // ----- Steps that do not concern a printer -----

  /** What is pending for printer `i` is left alone. */
  ghost predicate Untouched(s: State, s': State, i: nat) {
    && i < |s.printers| && i < |s'.printers| && s'.gen == s.gen && s'.printers[i] == s.printers[i]
    && (forall q, kind | kind != WsHost && Pending(s, i, q, kind) :: Pending(s', i, q, kind))
    && (forall t | t in s.timers && s.timers[t].func == Q.PrinterPoll && RefersTo(s, s.timers[t].arg, i) ::
          t in s'.timers && s'.timers[t] == s.timers[t] && RefersTo(s', s.timers[t].arg, i))
  }

  lemma PhaseKept(s: State, s': State, i: nat, ph: Phase)
    requires Untouched(s, s', i) && InPhase(s, i, ph)
    ensures InPhase(s', i, ph)
  {
    match ph {
      case AskingHesiod =>
        var q :| Pending(s, i, q, Hesiod);
        assert Pending(s', i, q, Hesiod);
      case AskingHost =>
        var q :| Pending(s, i, q, Host);
        assert Pending(s', i, q, Host);
      case _ =>
    }
  }

  lemma UntouchedTwice(s: State, s': State, s'': State, i: nat)
    requires Untouched(s, s', i) && Untouched(s', s'', i)
    ensures Untouched(s, s'', i)
  {
    hide Pending;
  }

  lemma AskUntouched(s: State, kind: Kind, b: nat, i: nat)
    requires Fresh(s) && i < |s.printers|
    ensures Fresh(Ask(s, kind, b)) && Untouched(s, Ask(s, kind, b), i)
  {
  }

  lemma AllocUntouched(s: State, block: Block, i: nat)
    requires Fresh(s) && i < |s.printers|
    ensures Fresh(Alloc(s, block)) && Untouched(s, Alloc(s, block), i)
  {
  }

  lemma SleepUntouched(s: State, b: nat, now: int, i: nat)
    requires Fresh(s) && Holds(s, b) && i < |s.printers| && s.blocks[b].index != i
    ensures Fresh(Sleep(s, b, now)) && Untouched(s, Sleep(s, b, now), i)
  {
  }

  lemma PollUntouched(s: State, b: nat, hesiodOk: bool, now: int, i: nat)
    requires Fresh(s) && Holds(s, b) && i < |s.printers| && s.blocks[b].index != i
    ensures Fresh(Poll(s, b, hesiodOk, now)) && Untouched(s, Poll(s, b, hesiodOk, now), i)
  {
    hide Pending;
    var j := s.blocks[b].index;
    var s1 := s.(printers := s.printers[j := s.printers[j].(timer := None)]);
    assert Untouched(s, s1, i) by { SamePending(s, s1, i); }
    if hesiodOk { AskUntouched(s1, Hesiod, b, i); } else { SleepUntouched(s1, b, now, i); }
    UntouchedTwice(s, s1, Poll(s, b, hesiodOk, now), i);
  }

  lemma SamePending(s: State, s': State, i: nat)
    requires s'.gen == s.gen && s'.blocks == s.blocks && s'.queries == s.queries
    ensures forall q, kind :: Pending(s', i, q, kind) <==> Pending(s, i, q, kind)
  {
  }

  lemma {:induction false} WsAskAllUntouched(s: State, ms: seq<nat>, i: nat)
    requires Fresh(s) && i < |s.printers|
    ensures Fresh(WsAskAll(s, ms)) && Untouched(s, WsAskAll(s, ms), i)
    decreases |ms|
  {
    if ms != [] {
      AllocUntouched(s, WsArgs(s.gen, ms[0]), i);
      var s1 := Alloc(s, WsArgs(s.gen, ms[0]));
      AskUntouched(s1, WsHost, s.nextId, i);
      UntouchedTwice(s, s1, WsAsk(s, ms[0]), i);
      WsAskAllUntouched(WsAsk(s, ms[0]), ms[1..], i);
      UntouchedTwice(s, WsAsk(s, ms[0]), WsAskAll(s, ms), i);
    }
  }

  /** Taking out a query, with or without its block, or a timer of another printer. */
  lemma DropUntouched(s: State, w: Witness, q: nat, i: nat)
    requires Good(s, w) && q in s.queries && i < |s.printers|
    requires !RefersTo(s, s.queries[q].block, i)
    ensures Untouched(s, s.(queries := s.queries - {q}), i)
    ensures Untouched(s, s.(queries := s.queries - {q}, blocks := s.blocks - {s.queries[q].block}), i)
    ensures Fresh(s)
  {
  }

  lemma HangUpUntouched(s: State, j: nat, now: int, i: nat)
    requires Fresh(s) && j < |s.printers| && s.printers[j].s.Some? && i < |s.printers| && i != j
    ensures Untouched(s, HangUp(s, j, now), i)
  {
    hide Pending;
    var s1 := s.(sockets := s.sockets - {s.printers[j].s.value}, printers := s.printers[j := s.printers[j].(s := None)]);
    assert Untouched(s, s1, i) by { SamePending(s, s1, i); }
    var s2 := Alloc(s1, PrinterArgs(s.gen, j));
    AllocUntouched(s1, PrinterArgs(s.gen, j), i);
    SleepUntouched(s2, s1.nextId, now, i);
    UntouchedTwice(s, s1, s2, i);
    UntouchedTwice(s, s2, HangUp(s, j, now), i);
  }

  /** An event that is nothing to a printer leaves it alone. */
  lemma Elsewhere(s: State, w: Witness, e: Event, i: nat)
    requires Good(s, w) && Busy(w) && Enabled(s, e) && Touchable(s, e) && i < |s.printers|
    requires InputOf(s, e, i) == Nothing
    ensures Untouched(s, Advance(s, e), i)
  {
    GoodIsFresh(s, w);
    hide Untouched, Good, Busy, Touchable;
    match e
    case Answered(q, a, now) => AnsweredElsewhere(s, w, q, a, now, i);
    case Fired(t, now, hesiodOk, machines, wait) => FiredElsewhere(s, w, e, i);
    case Writable(j, count, now) => WrittenElsewhere(s, j, count, now, i);
    case Readable(j, chunk, now) => GotElsewhere(s, j, chunk, now, i);
  }

  lemma WrittenElsewhere(s: State, j: nat, count: Option<nat>, now: int, i: nat)
    requires Fresh(s) && Enabled(s, Writable(j, count, now)) && i < |s.printers| && i != j
    ensures Untouched(s, HandleOutput(s, j, count, now), i)
  {
    hide Pending, HangUp;
    if count.None? {
      HangUpUntouched(s, j, now, i);
    } else {
      SamePending(s, HandleOutput(s, j, count, now), i);
    }
  }

  lemma GotElsewhere(s: State, j: nat, chunk: Option<string>, now: int, i: nat)
    requires Fresh(s) && Enabled(s, Readable(j, chunk, now)) && i < |s.printers| && i != j
    ensures Untouched(s, HandleInput(s, j, chunk, now), i)
  {
    hide Pending, HangUp, R.Feed;
    if chunk.None? || chunk.value == [] {
      var p := s.printers[j];
      var s1 := s.(printers := s.printers[j := p.(jobs := p.conn.tally.jobs, up := p.conn.tally.up)]);
      SamePending(s, s1, i);
      HangUpUntouched(s1, j, now, i);
      UntouchedTwice(s, s1, HangUp(s1, j, now), i);
    } else {
      SamePending(s, HandleInput(s, j, chunk, now), i);
    }
  }

  lemma AnsweredElsewhere(s: State, w: Witness, q: nat, a: Answer, now: int, i: nat)
    requires Good(s, w) && Enabled(s, Answered(q, a, now)) && Touchable(s, Answered(q, a, now)) && i < |s.printers|
    requires !Pending(s, i, q, Hesiod) && !Pending(s, i, q, Host)
    ensures Untouched(s, Advance(s, Answered(q, a, now)), i)
  {
    assert QueryOk(s, w, q);
    var b := s.queries[q].block;
    assert !RefersTo(s, b, i);
    DropUntouched(s, w, q, i);
    hide Good, Pending;
    var s1 := s.(queries := s.queries - {q});
    match s.queries[q].kind
    case WsHost =>
    case Hesiod =>
      if a == Failed { SleepUntouched(s1, b, now, i); } else { AskUntouched(s1, Host, b, i); }
      UntouchedTwice(s, s1, Advance(s, Answered(q, a, now)), i);
    case Host =>
      if a == Failed {
        SleepUntouched(s1, b, now, i);
        UntouchedTwice(s, s1, Advance(s, Answered(q, a, now)), i);
      } else {
        var s2 := s.(queries := s.queries - {q}, blocks := s.blocks - {b});
        SamePending(s2, HostCallback(s, q, a, now), i);
        UntouchedTwice(s, s2, HostCallback(s, q, a, now), i);
      }
  }

  lemma FiredElsewhere(s: State, w: Witness, e: Event, i: nat)
    requires Good(s, w) && e.Fired? && Enabled(s, e) && Touchable(s, e) && i < |s.printers|
    requires InputOf(s, e, i) == Nothing
    ensures Untouched(s, Advance(s, e), i)
  {
    GoodIsFresh(s, w);
    hide Good, Pending;
    var s1 := s.(timers := s.timers - {e.t});
    SamePending(s, s1, i);
    assert Untouched(s, s1, i);
    match s.timers[e.t].func
    case PrinterPoll =>
      PollUntouched(s1, s.timers[e.t].arg, e.hesiodOk, e.now, i);
      UntouchedTwice(s, s1, Advance(s, e), i);
    case WsPoll =>
      WsAskAllUntouched(s1, e.machines, i);
      var s2 := WsAskAll(s1, e.machines);
      UntouchedTwice(s, s1, s2, i);
      SamePending(s2, SetPlain(s2, Q.WsPoll, e.now + e.wait), i);
      UntouchedTwice(s, s2, Advance(s, e), i);
    case Report =>
      SamePending(s1, SetPlain(s1, Q.Report, e.now + RETRY), i);
      UntouchedTwice(s, s1, Advance(s, e), i);
  }

  // ----- The steps of one printer -----

  lemma SleepPhase(s: State, b: nat, now: int)
    requires Holds(s, b)
    ensures InPhase(Sleep(s, b, now), s.blocks[b].index, Sleeping(now + 60))
  {
  }

  lemma AskPhase(s: State, kind: Kind, b: nat)
    requires Holds(s, b) && kind != WsHost
    ensures InPhase(Ask(s, kind, b), s.blocks[b].index, if kind == Hesiod then AskingHesiod else AskingHost)
  {
    assert Pending(Ask(s, kind, b), s.blocks[b].index, s.nextId, kind);
  }

  lemma PollPhase(s: State, b: nat, hesiodOk: bool, now: int)
    requires Holds(s, b)
    ensures InPhase(Poll(s, b, hesiodOk, now), s.blocks[b].index, if hesiodOk then AskingHesiod else Sleeping(now + 60))
  {
    var i := s.blocks[b].index;
    var s1 := s.(printers := s.printers[i := s.printers[i].(timer := None)]);
    hide InPhase;
    if hesiodOk { AskPhase(s1, Hesiod, b); } else { SleepPhase(s1, b, now); }
  }

  lemma HangUpPhase(s: State, i: nat, now: int)
    requires i < |s.printers| && s.printers[i].s.Some?
    ensures |HangUp(s, i, now).printers| == |s.printers| && InPhase(HangUp(s, i, now), i, Sleeping(now + 60))
  {
    var s1 := s.(sockets := s.sockets - {s.printers[i].s.value}, printers := s.printers[i := s.printers[i].(s := None)]);
    hide InPhase;
    SleepPhase(Alloc(s1, PrinterArgs(s.gen, i)), s1.nextId, now);
  }

  /** An answer for the printer.  Its argument block goes from one query to the next. */
  lemma ReplyStep(s: State, w: Witness, q: nat, a: Answer, now: int, i: nat)
    requires Good(s, w) && Busy(w) && Enabled(s, Answered(q, a, now)) && Touchable(s, Answered(q, a, now))
    requires i < |s.printers| && (Pending(s, i, q, Hesiod) || Pending(s, i, q, Host))
    ensures var s' := Advance(s, Answered(q, a, now));
            && i < |s'.printers| && s'.printers[i].name == s.printers[i].name
            && InPhase(s', i, Next(PhaseOf(s, w, i), Reply(a == Resolved, now), s.printers[i].name))
            && (s.queries[q].kind == Hesiod && a == Resolved ==>
                  exists r :: r in s'.queries && s'.queries[r] == Query(Host, s.queries[q].block))
  {
    assert QueryOk(s, w, q);
    assert w.act[i] == InQuery(q);
    var b := s.queries[q].block;
    assert Holds(s, b) && s.blocks[b].index == i;
    var s1 := s.(queries := s.queries - {q});
    hide Good, InPhase;
    if a == Failed {
      SleepPhase(s1, b, now);
    } else if s.queries[q].kind == Hesiod {
      AskPhase(s1, Host, b);
      assert s.nextId in Ask(s1, Host, b).queries;
    } else {
      ConnectPhase(s, q, now);
    }
  }

  lemma ConnectPhase(s: State, q: nat, now: int)
    requires q in s.queries && Holds(s, s.queries[q].block)
    ensures var i, s' := s.blocks[s.queries[q].block].index, HostCallback(s, q, Resolved, now);
            && |s'.printers| == |s.printers| && s'.printers[i].name == s.printers[i].name
            && s'.printers[i].s.Some? && s'.printers[i].s.value in s'.sockets
            && InPhase(s', i, Sending(R.State(R.Request(8192, s.printers[i].name), R.Tally(0, true))))
  {
  }

  lemma WakeStep(s: State, w: Witness, t: nat, now: int, hesiodOk: bool, machines: seq<nat>, wait: nat, i: nat)
    requires var e := Fired(t, now, hesiodOk, machines, wait); Good(s, w) && Busy(w) && Enabled(s, e) && Touchable(s, e)
    requires i < |s.printers| && s.timers[t].func == Q.PrinterPoll && RefersTo(s, s.timers[t].arg, i)
    ensures var s' := Advance(s, Fired(t, now, hesiodOk, machines, wait));
            && i < |s'.printers| && s'.printers[i].name == s.printers[i].name
            && InPhase(s', i, Next(PhaseOf(s, w, i), Wake(hesiodOk, now), s.printers[i].name))
  {
    assert TimerOk(s, w, t);
    assert w.act[i] == OnTimer(t);
    hide Good, InPhase;
    PollPhase(s.(timers := s.timers - {t}), s.timers[t].arg, hesiodOk, now);
  }

  lemma ConnectedPhase(s: State, w: Witness, i: nat)
    requires Good(s, w) && Busy(w) && i < |s.printers| && s.printers[i].s.Some?
    ensures PhaseOf(s, w, i) == if s.printers[i].toSend then Sending(s.printers[i].conn) else Receiving(s.printers[i].conn)
  {
    assert ActivityOk(s, w, i);
    assert w.act[i] in w.act;
  }

  lemma WrittenStep(s: State, w: Witness, i: nat, count: Option<nat>, now: int)
    requires Good(s, w) && Busy(w) && Enabled(s, Writable(i, count, now))
    ensures var s' := HandleOutput(s, i, count, now);
            && i < |s'.printers| && s'.printers[i].name == s.printers[i].name
            && InPhase(s', i, Next(PhaseOf(s, w, i), Wrote(count, now), s.printers[i].name))
  {
    ConnectedPhase(s, w, i);
    hide Good, Busy, PhaseOf;
    if count.None? { HangUpPhase(s, i, now); }
  }

  lemma GotStep(s: State, w: Witness, i: nat, chunk: Option<string>, now: int)
    requires Good(s, w) && Busy(w) && Enabled(s, Readable(i, chunk, now))
    ensures var s' := HandleInput(s, i, chunk, now);
            && i < |s'.printers| && s'.printers[i].name == s.printers[i].name
            && InPhase(s', i, Next(PhaseOf(s, w, i), Got(chunk, now), s.printers[i].name))
  {
    ConnectedPhase(s, w, i);
    hide Good, Busy, PhaseOf, R.Feed, HangUp, Pending;
    if chunk.None? || chunk.value == [] {
      var p := s.printers[i];
      HangUpPhase(s.(printers := s.printers[i := p.(jobs := p.conn.tally.jobs, up := p.conn.tally.up)]), i, now);
    }
  }

  /** Whatever happens, a printer goes from its phase to the next. */
  lemma PhaseStep(s: State, w: Witness, e: Event, i: nat, ph: Phase)
    requires Good(s, w) && Busy(w) && Enabled(s, e) && Touchable(s, e) && !e.Hup? && !e.FailedHup?
    requires i < |s.printers| && InPhase(s, i, ph)
    ensures var s' := Advance(s, e);
            && i < |s'.printers| && s'.printers[i].name == s.printers[i].name
            && InPhase(s', i, Next(ph, InputOf(s, e, i), s.printers[i].name))
  {
    PhaseIs(s, w, i, ph);
    hide InPhase, Good, Busy, PhaseOf;
    if InputOf(s, e, i) == Nothing {
      Elsewhere(s, w, e, i);
      PhaseKept(s, Advance(s, e), i, ph);
    } else {
      hide Next;
      match e
      case Answered(q, a, now) => ReplyStep(s, w, q, a, now, i);
      case Fired(t, now, hesiodOk, machines, wait) => WakeStep(s, w, t, now, hesiodOk, machines, wait, i);
      case Writable(_, count, now) => WrittenStep(s, w, i, count, now);
      case Readable(_, chunk, now) => GotStep(s, w, i, chunk, now);
    }
  }

  // ----- After a reload -----

  lemma {:induction false} StartedUntouched(s: State, k: nat, hesiodOk: nat -> bool, now: int, i: nat)
    requires Fresh(s) && i < k && i < |s.printers|
    ensures Untouched(s, StartPolls(s, k, hesiodOk, now), i)
    decreases |s.printers| - k
  {
    hide Pending;
    if k < |s.printers| {
      var s1 := Alloc(s, PrinterArgs(s.gen, k));
      AllocUntouched(s, PrinterArgs(s.gen, k), i);
      PollUntouched(s1, s.nextId, hesiodOk(k), now, i);
      var s2 := Poll(s1, s.nextId, hesiodOk(k), now);
      UntouchedTwice(s, s1, s2, i);
      StartedUntouched(s2, k + 1, hesiodOk, now, i);
      UntouchedTwice(s, s2, StartPolls(s, k, hesiodOk, now), i);
    } else {
      SamePending(s, s, i);
    }
  }

  /** Every printer starts with a question to Hesiod, or with a minute's sleep if it has no name there. */
  lemma {:induction false} StartedPhase(s: State, k: nat, hesiodOk: nat -> bool, now: int, i: nat)
    requires Fresh(s) && k <= i < |s.printers|
    ensures var s' := StartPolls(s, k, hesiodOk, now);
            && |s'.printers| == |s.printers|
            && InPhase(s', i, if hesiodOk(i) then AskingHesiod else Sleeping(now + 60))
    decreases |s.printers| - k
  {
    hide Pending, InPhase, Poll, Untouched, Fresh;
    var s1 := Alloc(s, PrinterArgs(s.gen, k));
    AllocUntouched(s, PrinterArgs(s.gen, k), i);
    var s2 := Poll(s1, s.nextId, hesiodOk(k), now);
    PollFresh(s1, s.nextId, hesiodOk(k), now);
    if k == i {
      PollPhase(s1, s.nextId, hesiodOk(k), now);
      StartedUntouched(s2, k + 1, hesiodOk, now, i);
      PhaseKept(s2, StartPolls(s2, k + 1, hesiodOk, now), i, if hesiodOk(i) then AskingHesiod else Sleeping(now + 60));
      StartedCount(s2, k + 1, hesiodOk, now);
    } else {
      PollUntouched(s1, s.nextId, hesiodOk(k), now, i);
      StartedPhase(s2, k + 1, hesiodOk, now, i);
    }
  }

  lemma PollFresh(s: State, b: nat, hesiodOk: bool, now: int)
    requires Fresh(s) && Holds(s, b)
    ensures Fresh(Poll(s, b, hesiodOk, now)) && |Poll(s, b, hesiodOk, now).printers| == |s.printers|
  {
  }

  lemma {:induction false} StartedCount(s: State, k: nat, hesiodOk: nat -> bool, now: int)
    ensures |StartPolls(s, k, hesiodOk, now).printers| == |s.printers|
    decreases |s.printers| - k
  {
    if k < |s.printers| {
      var s2 := Poll(Alloc(s, PrinterArgs(s.gen, k)), s.nextId, hesiodOk(k), now);
      StartedCount(s2, k + 1, hesiodOk, now);
      hide StartPolls;
    }
  }

  /** So do all of them after a reload. */
  lemma RestartPhase(s: State, w: Witness, e: Event, i: nat)
    requires Good(s, w) && e.Hup? && Enabled(s, e) && Touchable(s, e) && i < |e.names|
    ensures var s' := Advance(s, e);
            |s'.printers| == |e.names| && InPhase(s', i, if e.started(i) then AskingHesiod else Sleeping(e.now + 60))
  {
    var w' := RereadKeeps(s, w, e.names, e.nmachines);
    var s1 := Reread(s, e.names, e.nmachines);
    GoodIsFresh(s1, w');
    hide Good, InPhase, Reread;
    StartedPhase(s1, 0, e.started, e.now, i);
  }

  // ----- Whole runs -----

  /** The phase after some events between reloads. */
  ghost function PhaseAfter(ph: Phase, states: seq<State>, events: seq<Event>, from: nat, k: nat, i: nat, name: string): Phase
    requires from <= k <= |events| < |states|
    decreases k
  {
    if k == from then ph
    else Next(PhaseAfter(ph, states, events, from, k - 1, i, name), InputOf(states[k - 1], events[k - 1], i), name)
  }

  /** In every run, between reloads, each printer goes through the phases that its own events give,
      whatever else happens. */
  lemma {:induction false} PhasesOfRun(states: seq<State>, events: seq<Event>, from: nat, k: nat, i: nat, ph: Phase)
    requires History(states, events) && Proper(states[0]) && from <= k <= |events|
    requires forall j | 0 <= j < k :: !events[j].FailedHup?
    requires forall j | from <= j < k :: !events[j].Hup?
    requires i < |states[from].printers| && InPhase(states[from], i, ph)
    ensures i < |states[k].printers| && states[k].printers[i].name == states[from].printers[i].name
    ensures InPhase(states[k], i, PhaseAfter(ph, states, events, from, k, i, states[from].printers[i].name))
    decreases k
  {
    hide Advance, Enabled, Touchable, Good, Busy, InPhase, InputOf, Next;
    if k > from {
      PhasesOfRun(states, events, from, k - 1, i, ph);
      ProperUpTo(states, events, k - 1);
      var w :| Good(states[k - 1], w) && Busy(w);
      PhaseStep(states[k - 1], w, events[k - 1], i,
                PhaseAfter(ph, states, events, from, k - 1, i, states[from].printers[i].name));
    }
  }

  /** How much was written to printer `i`. */
  function Written(events: seq<Event>, i: nat): nat {
    if events == [] then 0
    else
      var before := Written(events[..|events| - 1], i);
      match events[|events| - 1]
      case Writable(j, Some(count), _) => if j == i then before + count else before
      case _ => before
  }

  /** The phase while the request goes out: what is left of it, and once nothing is, the reply. */
  function Requesting(name: string, written: nat): Phase {
    var request, none := R.Request(8192, name), R.Tally(0, true);
    if written < |request| then Sending(R.State(request[written..], none)) else Receiving(R.State([], none))
  }

  /** Neither a reload nor, for printer `i`, a read or a failed write. */
  predicate Quiet(e: Event, i: nat) {
    !e.Hup? && !e.FailedHup? && !(e.Readable? && e.i == i) && !(e.Writable? && e.i == i && e.count.None?)
  }

  /** From its connection on, exactly the request is written, in whatever pieces. */
  lemma {:induction false} RequestGoesOut(states: seq<State>, events: seq<Event>, from: nat, k: nat, i: nat)
    requires History(states, events) && Proper(states[0]) && from <= k <= |events|
    requires forall j | 0 <= j < k :: !events[j].FailedHup?
    requires forall j | from <= j < k :: Quiet(events[j], i)
    requires i < |states[from].printers| && InPhase(states[from], i, Requesting(states[from].printers[i].name, 0))
    ensures i < |states[k].printers| && states[k].printers[i].name == states[from].printers[i].name
    ensures InPhase(states[k], i, Requesting(states[from].printers[i].name, Written(events[from..k], i)))
    ensures Written(events[from..k], i) <= |R.Request(8192, states[from].printers[i].name)|
    decreases k
  {
    hide Advance, Touchable, Enabled, Good, Busy, InPhase, Requesting, R.Request, Quiet, Next, InputOf;
    if k == from {
      assert events[from..k] == [];
      NothingSaid(states[from].printers[i].name);
    } else {
      RequestGoesOut(states, events, from, k - 1, i);
      ProperUpTo(states, events, k - 1);
      var s, e, name, es := states[k - 1], events[k - 1], states[from].printers[i].name, events[from..k];
      assert es == events[from..k - 1] + [e];
      WrittenSnoc(events[from..k - 1], e, i);
      var w :| Good(s, w) && Busy(w);
      var before := Written(events[from..k - 1], i);
      OneWrite(s, e, i, name, before);
      PhaseStep(s, w, e, i, Requesting(name, before));
    }
  }

  lemma WrittenSnoc(events: seq<Event>, e: Event, i: nat)
    requires Quiet(e, i)
    ensures Written(events + [e], i) == if e.Writable? && e.i == i then Written(events, i) + e.count.value else Written(events, i)
  {
    assert (events + [e])[..|events|] == events;
  }

  lemma NothingSaid(name: string)
    ensures Written([], 0) == 0 <= |R.Request(8192, name)|
  {
  }

  lemma OneWrite(s: State, e: Event, i: nat, name: string, before: nat)
    requires Enabled(s, e) && Quiet(e, i) && i < |s.printers| && InPhase(s, i, Requesting(name, before))
    requires before <= |R.Request(8192, name)|
    ensures var now := if e.Writable? && e.i == i then before + e.count.value else before;
            && !e.Hup? && !e.FailedHup? && now <= |R.Request(8192, name)|
            && Next(Requesting(name, before), InputOf(s, e, i), name) == Requesting(name, now)
  {
    var request := R.Request(8192, name);
    hide R.Request;
    if e.Writable? && e.i == i {
      assert s.printers[i].toSend;
      assert request[before..][e.count.value..] == request[before + e.count.value..];
    }
  }

  /** A poll that meets no failure, from the connection to the end of the reply: when the request is
      out, what comes back until the end of input is counted line by line, and a minute later the
      printer is polled again. */
  lemma CompletePoll(states: seq<State>, events: seq<Event>, from: nat, mid: nat, end: nat, i: nat)
    requires History(states, events) && Proper(states[0]) && from <= mid <= end < |events|
    requires forall j | 0 <= j <= end :: !events[j].FailedHup?
    requires i < |states[from].printers| && InPhase(states[from], i, Requesting(states[from].printers[i].name, 0))
    requires forall j | from <= j < mid :: Quiet(events[j], i)
    requires Written(events[from..mid], i) == |R.Request(8192, states[from].printers[i].name)|
    requires forall j | mid <= j < end :: !Ends(events[j], i)
    requires events[end].Readable? && Ends(events[end], i)
    ensures var s', lines := states[end + 1], R.Lines(R.Join(ReadsOf(events[mid..end], i)));
            var tally := R.NoteAll(R.Tally(0, true), R.TrimAll(8192, lines));
            && i < |s'.printers| && s'.printers[i].name == states[from].printers[i].name
            && s'.printers[i].jobs == tally.jobs && s'.printers[i].up == tally.up
            && InPhase(s', i, Sleeping(events[end].now + 60))
  {
    assert from < |states|;
    hide *;
    RequestGoesOut(states, events, from, mid, i);
    RequestIsOut(states[from].printers[i].name);
    ReplyRead(states, events, mid, end, i);
  }

  lemma RequestIsOut(name: string)
    ensures Requesting(name, |R.Request(8192, name)|) == Receiving(R.State([], R.Tally(0, true)))
  {
  }

  lemma ReplyRead(states: seq<State>, events: seq<Event>, mid: nat, end: nat, i: nat)
    requires History(states, events) && Proper(states[0]) && mid <= end < |events|
    requires forall j | 0 <= j <= end :: !events[j].FailedHup?
    requires i < |states[mid].printers| && InPhase(states[mid], i, Receiving(R.State([], R.Tally(0, true))))
    requires forall j | mid <= j < end :: !Ends(events[j], i)
    requires events[end].Readable? && Ends(events[end], i)
    ensures var s', lines := states[end + 1], R.Lines(R.Join(ReadsOf(events[mid..end], i)));
            var tally := R.NoteAll(R.Tally(0, true), R.TrimAll(8192, lines));
            && i < |s'.printers| && s'.printers[i].name == states[mid].printers[i].name
            && s'.printers[i].jobs == tally.jobs && s'.printers[i].up == tally.up
            && InPhase(s', i, Sleeping(events[end].now + 60))
  {
    ReceivingReads(states[mid], i, R.State([], R.Tally(0, true)));
    var fd := states[mid].printers[i].s.value;
    NoReload(events, mid, end, i);
    hide *;
    ReplyCounted(states, events, mid, end, i, fd);
    ReadingRun(states, events, mid, end, i, fd);
    PhasesOfRun(states, events, mid, end, i, Receiving(R.State([], R.Tally(0, true))));
    EndStep(states, events, end, i);
  }

  lemma ReceivingReads(s: State, i: nat, conn: R.State)
    requires i < |s.printers| && InPhase(s, i, Receiving(conn))
    ensures s.printers[i].s.Some? && Reading(s, i, s.printers[i].s.value, conn)
  {
  }

  lemma NoReload(events: seq<Event>, mid: nat, end: nat, i: nat)
    requires mid <= end < |events| && forall j | mid <= j < end :: !Ends(events[j], i)
    ensures forall j | mid <= j < end :: !events[j].Hup? && !events[j].FailedHup?
  {
  }

  lemma EndStep(states: seq<State>, events: seq<Event>, end: nat, i: nat)
    requires History(states, events) && Proper(states[0]) && end < |events|
    requires forall j | 0 <= j <= end :: !events[j].FailedHup?
    requires i < |states[end].printers| && exists fd, conn :: Reading(states[end], i, fd, conn)
    requires events[end].Readable? && Ends(events[end], i)
    ensures i < |states[end + 1].printers| && states[end + 1].printers[i].name == states[end].printers[i].name
    ensures InPhase(states[end + 1], i, Sleeping(events[end].now + 60))
  {
    ProperUpTo(states, events, end);
    hide Advance, Touchable, Good, Busy, Enabled, Ends, InPhase, Reading;
    var w :| Good(states[end], w) && Busy(w);
    LastStep(states[end], w, events[end], i);
  }

  lemma LastStep(s: State, w: Witness, e: Event, i: nat)
    requires Good(s, w) && Busy(w) && Enabled(s, e) && Touchable(s, e) && e.Readable? && Ends(e, i)
    requires i < |s.printers| && exists fd, conn :: Reading(s, i, fd, conn)
    ensures var s' := Advance(s, e);
            i < |s'.printers| && s'.printers[i].name == s.printers[i].name && InPhase(s', i, Sleeping(e.now + 60))
  {
    hide Advance, Touchable, Good, Busy, Enabled;
    var ph := Receiving(s.printers[i].conn);
    assert InPhase(s, i, ph);
    NextIsSleep(s, e, i, ph);
    hide *;
    PhaseStep(s, w, e, i, ph);
  }

  lemma NextIsSleep(s: State, e: Event, i: nat, ph: Phase)
    requires ph.Receiving? && e.Readable? && Ends(e, i)
    ensures Next(ph, InputOf(s, e, i), if i < |s.printers| then s.printers[i].name else "") == Sleeping(e.now + 60)
    ensures !e.Hup? && !e.FailedHup?
  {
  }

  // ----- What a reload keeps -----

  /** The last of the printers with that name. */
  ghost predicate LastNamed(olds: seq<Printer>, name: string, j: nat) {
    j < |olds| && olds[j].name == name && forall k | j < k < |olds| :: olds[k].name != name
  }

  lemma CarryOne(olds: seq<Printer>, name: string)
    requires olds != []
    ensures var n := |olds| - 1;
            Carry(olds, name) == if olds[n].name == name then (olds[n].up, olds[n].jobs) else Carry(olds[..n], name)
  {
  }

  lemma LastOfLonger(olds: seq<Printer>, name: string)
    requires olds != []
    ensures var n := |olds| - 1;
            forall j: nat | LastNamed(olds, name, j) ::
              if olds[n].name == name then j == n else LastNamed(olds[..n], name, j) && olds[..n][j] == olds[j]
  {
  }

  lemma {:induction false} CarryMeaning(olds: seq<Printer>, name: string)
    ensures forall j: nat | LastNamed(olds, name, j) :: Carry(olds, name) == (olds[j].up, olds[j].jobs)
    ensures (forall p | p in olds :: p.name != name) ==> Carry(olds, name) == (false, 0)
  {
    if olds != [] {
      var n := |olds| - 1;
      CarryMeaning(olds[..n], name);
      CarryOne(olds, name);
      hide Carry;
      LastOfLonger(olds, name);
      assert olds[n] in olds;
    }
  }

  lemma {:induction false} StartedStatus(s: State, k: nat, hesiodOk: nat -> bool, now: int, i: nat)
    requires i < |s.printers|
    ensures var s' := StartPolls(s, k, hesiodOk, now);
            && |s'.printers| == |s.printers| && s'.printers[i].name == s.printers[i].name
            && s'.printers[i].up == s.printers[i].up && s'.printers[i].jobs == s.printers[i].jobs
    decreases |s.printers| - k
  {
    if k < |s.printers| {
      var s2 := Poll(Alloc(s, PrinterArgs(s.gen, k)), s.nextId, hesiodOk(k), now);
      StartedStatus(s2, k + 1, hesiodOk, now, i);
      hide StartPolls;
    }
  }

  /** A printer that is still configured keeps the status it had; a new one is down and has no jobs. */
  lemma ReloadKeepsStatus(s: State, e: Event, i: nat)
    requires e.Hup? && Enabled(s, e) && Touchable(s, e) && i < |e.names|
    ensures var s' := Advance(s, e);
            && i < |s'.printers| && s'.printers[i].name == e.names[i]
            && (forall j: nat | LastNamed(s.printers, e.names[i], j) ::
                  s'.printers[i].up == s.printers[j].up && s'.printers[i].jobs == s.printers[j].jobs)
            && ((forall p | p in s.printers :: p.name != e.names[i]) ==> !s'.printers[i].up && s'.printers[i].jobs == 0)
  {
    var s1 := Reread(s, e.names, e.nmachines);
    CarryMeaning(s.printers, e.names[i]);
    assert s1.printers[i] == NewPrinter(s.printers, e.names[i]);
    hide Reread, LastNamed, Carry;
    StartedStatus(s1, 0, e.started, e.now, i);
  }

  // ----- The two periodic timers -----

  /** The timers that are not a printer's. */
  ghost function Clocks(s: State): map<nat, Q.Entry> {
    map t | t in s.timers && s.timers[t].func != Q.PrinterPoll :: s.timers[t]
  }

  /** A pass over the workstations and a report are each set once. */
  ghost predicate Ticking(s: State) { OneOfEach(Clocks(s)) }

  lemma SleepClocks(s: State, b: nat, now: int)
    requires Fresh(s) && Holds(s, b)
    ensures Clocks(Sleep(s, b, now)) == Clocks(s)
  {
  }

  lemma PollClocks(s: State, b: nat, hesiodOk: bool, now: int)
    requires Fresh(s) && Holds(s, b)
    ensures Clocks(Poll(s, b, hesiodOk, now)) == Clocks(s)
  {
    var i := s.blocks[b].index;
    var s1 := s.(printers := s.printers[i := s.printers[i].(timer := None)]);
    assert Clocks(s1) == Clocks(s);
    if !hesiodOk { SleepClocks(s1, b, now); }
  }

  lemma HangUpClocks(s: State, i: nat, now: int)
    requires Fresh(s) && i < |s.printers| && s.printers[i].s.Some?
    ensures Clocks(HangUp(s, i, now)) == Clocks(s)
  {
    var s1 := s.(sockets := s.sockets - {s.printers[i].s.value}, printers := s.printers[i := s.printers[i].(s := None)]);
    SleepClocks(Alloc(s1, PrinterArgs(s.gen, i)), s1.nextId, now);
  }

  lemma {:induction false} StartPollsClocks(s: State, k: nat, hesiodOk: nat -> bool, now: int)
    requires Fresh(s)
    ensures Clocks(StartPolls(s, k, hesiodOk, now)) == Clocks(s)
    decreases |s.printers| - k
  {
    hide Clocks, Poll;
    if k < |s.printers| {
      var s1 := Alloc(s, PrinterArgs(s.gen, k));
      assert Clocks(s1) == Clocks(s) by { SameClocks(s, s1); }
      PollClocks(s1, s.nextId, hesiodOk(k), now);
      PollFresh(s1, s.nextId, hesiodOk(k), now);
      StartPollsClocks(Poll(s1, s.nextId, hesiodOk(k), now), k + 1, hesiodOk, now);
    }
  }

  lemma SameClocks(s: State, s': State)
    requires s'.timers == s.timers
    ensures Clocks(s') == Clocks(s)
  {
  }

  lemma {:induction false} WsAskAllClocks(s: State, ms: seq<nat>)
    ensures WsAskAll(s, ms).timers == s.timers
    decreases |ms|
  {
    if ms != [] { WsAskAllClocks(WsAsk(s, ms[0]), ms[1..]); }
  }

  /** Every event leaves the periodic timers as they are, except that one that fires is set again: the
      report after a minute, the next pass after the time that the last one found. */
  lemma ClockStep(s: State, w: Witness, e: Event)
    requires Good(s, w) && Enabled(s, e) && Touchable(s, e)
    ensures if e.Fired? && e.t in Clocks(s) then
              exists n :: n !in s.timers && Clocks(Advance(s, e)) ==
                (Clocks(s) - {e.t})[n := Q.Entry(e.now + if s.timers[e.t].func == Q.WsPoll then e.wait else 60, s.timers[e.t].func, 0)]
            else Clocks(Advance(s, e)) == Clocks(s)
  {
    GoodIsFresh(s, w);
    match e
    case Answered(q, a, now) => AnswerClocks(s, w, q, a, now);
    case Fired(t, now, hesiodOk, machines, wait) => FiredClocks(s, w, t, now, hesiodOk, machines, wait);
    case Writable(i, count, now) =>
      if count.None? { HangUpClocks(s, i, now); } else { SameClocks(s, HandleOutput(s, i, count, now)); }
    case Readable(i, chunk, now) =>
      hide Good, HangUp, R.Feed;
      if chunk.None? || chunk.value == [] {
        var p := s.printers[i];
        var s1 := s.(printers := s.printers[i := p.(jobs := p.conn.tally.jobs, up := p.conn.tally.up)]);
        SameClocks(s, s1);
        HangUpClocks(s1, i, now);
      } else {
        SameClocks(s, HandleInput(s, i, chunk, now));
      }
    case Hup(names, nmachines, started, now) =>
      RereadClocks(s, w, names, nmachines);
      StartPollsClocks(Reread(s, names, nmachines), 0, started, now);
    case FailedHup(started, now) => StartPollsClocks(s, 0, started, now);
  }

  lemma RereadClocks(s: State, w: Witness, names: seq<string>, nmachines: nat)
    requires Good(s, w)
    ensures Clocks(Reread(s, names, nmachines)) == Clocks(s) && Fresh(Reread(s, names, nmachines))
  {
    RereadClears(s, w, names, nmachines);
    var w' := RereadKeeps(s, w, names, nmachines);
    hide Reread;
    GoodIsFresh(Reread(s, names, nmachines), w');
  }

  lemma AnswerClocks(s: State, w: Witness, q: nat, a: Answer, now: int)
    requires Good(s, w) && Enabled(s, Answered(q, a, now)) && Touchable(s, Answered(q, a, now))
    ensures Clocks(Advance(s, Answered(q, a, now))) == Clocks(s)
  {
    GoodIsFresh(s, w);
    hide Good;
    var s1 := s.(queries := s.queries - {q});
    SameClocks(s, s1);
    if s.queries[q].kind != WsHost && a == Failed { SleepClocks(s1, s.queries[q].block, now); }
  }

  lemma FiredClocks(s: State, w: Witness, t: nat, now: int, hesiodOk: bool, machines: seq<nat>, wait: nat)
    requires var e := Fired(t, now, hesiodOk, machines, wait); Good(s, w) && Enabled(s, e) && Touchable(s, e)
    ensures var s' := Advance(s, Fired(t, now, hesiodOk, machines, wait));
            if t in Clocks(s) then
              exists n :: n !in s.timers && Clocks(s') ==
                (Clocks(s) - {t})[n := Q.Entry(now + if s.timers[t].func == Q.WsPoll then wait else 60, s.timers[t].func, 0)]
            else Clocks(s') == Clocks(s)
  {
    GoodIsFresh(s, w);
    hide Good;
    var s1 := s.(timers := s.timers - {t});
    match s.timers[t].func
    case PrinterPoll =>
      PollClocks(s1, s.timers[t].arg, hesiodOk, now);
      assert Clocks(s1) == Clocks(s);
    case WsPoll =>
      WsAskAllClocks(s1, machines);
      WsAskAllFresh(s1, machines);
      var s2 := WsAskAll(s1, machines);
      PlainClocks(s, t, s2, Q.WsPoll, now + wait);
    case Report =>
      PlainClocks(s, t, s1, Q.Report, now + 60);
  }

  lemma {:induction false} WsAskAllFresh(s: State, ms: seq<nat>)
    ensures WsAskAll(s, ms).nextId >= s.nextId
    decreases |ms|
  {
    if ms != [] { WsAskAllFresh(WsAsk(s, ms[0]), ms[1..]); }
  }

  lemma PlainClocks(s: State, t: nat, s1: State, func: Q.Proc, at: int)
    requires Fresh(s) && t in s.timers && s1.timers == s.timers - {t} && s1.nextId >= s.nextId && func != Q.PrinterPoll
    ensures s1.nextId !in s.timers
    ensures Clocks(SetPlain(s1, func, at)) == (Clocks(s) - {t})[s1.nextId := Q.Entry(at, func, 0)]
  {
  }

  lemma TickingStep(s: State, w: Witness, e: Event)
    requires Good(s, w) && Enabled(s, e) && Touchable(s, e) && Ticking(s)
    ensures Ticking(Advance(s, e))
  {
    ClockStep(s, w, e);
    var s', c := Advance(s, e), Clocks(s);
    if e.Fired? && e.t in c {
      ClockFunc(s, e.t);
      var n :| n !in s.timers && Clocks(s') ==
        (c - {e.t})[n := Q.Entry(e.now + if s.timers[e.t].func == Q.WsPoll then e.wait else 60, s.timers[e.t].func, 0)];
      NotClock(s, n);
      hide Advance, Good, Enabled, Touchable, Clocks;
      OneReplaced(c, e.t, n, Clocks(s')[n]);
    } else {
      hide Advance, Good, Enabled, Touchable, Clocks;
    }
  }

  /** A map with one entry of each kind. */
  ghost predicate OneOfEach(c: map<nat, Q.Entry>) {
    exists a, b :: a != b && c.Keys == {a, b} && c[a].func == Q.WsPoll && c[b].func == Q.Report
  }

  lemma OneReplaced(c: map<nat, Q.Entry>, t: nat, n: nat, e: Q.Entry)
    requires OneOfEach(c) && t in c && n !in c && e.func == c[t].func
    ensures OneOfEach((c - {t})[n := e])
  {
    var a, b :| a != b && c.Keys == {a, b} && c[a].func == Q.WsPoll && c[b].func == Q.Report;
    var d := (c - {t})[n := e];
    if t == a {
      assert d.Keys == {n, b};
    } else {
      assert d.Keys == {a, n};
    }
  }

  lemma NotClock(s: State, n: nat)
    requires n !in s.timers
    ensures n !in Clocks(s)
  {
  }

  lemma ClockFunc(s: State, t: nat)
    requires t in Clocks(s)
    ensures t in s.timers && Clocks(s)[t] == s.timers[t]
  {
  }

  /** In every run a pass over the workstations and a report are each set exactly once. */
  lemma {:induction false} EveryRunTicks(states: seq<State>, events: seq<Event>, k: nat)
    requires History(states, events) && Proper(states[0]) && Ticking(states[0]) && k <= |events|
    requires forall e | e in events :: !e.FailedHup?
    ensures Ticking(states[k])
  {
    hide Advance, Enabled, Touchable, Good, Busy, Ticking;
    if k > 0 {
      EveryRunTicks(states, events, k - 1);
      ProperUpTo(states, events, k - 1);
      var w :| Good(states[k - 1], w) && Busy(w);
      TickingStep(states[k - 1], w, events[k - 1]);
    }
  }

  lemma StartUpTicks(names: seq<string>, nmachines: nat, machines: seq<nat>, wait: nat, started: nat -> bool, now: int)
    requires forall m | m in machines :: m < nmachines
    ensures Ticking(StartUp(names, nmachines, machines, wait, started, now))
    ensures forall e | e in Clocks(StartUp(names, nmachines, machines, wait, started, now)).Values ::
              e.abstime == if e.func == Q.WsPoll then now + wait else now + 60
  {
    hide *;
    var s0 := WsAskAll(Unstirred(names, nmachines), machines);
    var s1 := SetPlain(s0, Q.WsPoll, now + wait);
    FirstClock(names, nmachines, machines, now + wait);
    StartUpIs(names, nmachines, machines, wait, started, now);
    StartPollsClocks(s1, 0, started, now);
    StartPollsNext(s1, 0, started, now);
    TwoClocks(StartPolls(s1, 0, started, now), s0.nextId, now, now + wait);
  }

  lemma StartUpIs(names: seq<string>, nmachines: nat, machines: seq<nat>, wait: nat, started: nat -> bool, now: int)
    ensures var s1 := SetPlain(WsAskAll(Unstirred(names, nmachines), machines), Q.WsPoll, now + wait);
            StartUp(names, nmachines, machines, wait, started, now) == SetPlain(StartPolls(s1, 0, started, now), Q.Report, now + 60)
  {
    hide StartPolls, Unstirred, WsAskAll, SetPlain;
  }

  lemma FirstClock(names: seq<string>, nmachines: nat, machines: seq<nat>, at: int)
    requires forall m | m in machines :: m < nmachines
    ensures var s0 := WsAskAll(Unstirred(names, nmachines), machines);
            var s1 := SetPlain(s0, Q.WsPoll, at);
            Fresh(s1) && s0.nextId < s1.nextId && Clocks(s1) == map[s0.nextId := Q.Entry(at, Q.WsPoll, 0)]
  {
    var s0 := WsAskAll(Unstirred(names, nmachines), machines);
    WsAskAllClocks(Unstirred(names, nmachines), machines);
    AskedFresh(names, nmachines, machines);
    hide WsAskAll;
  }

  lemma TwoClocks(s: State, a: nat, now: int, at: int)
    requires Clocks(s) == map[a := Q.Entry(at, Q.WsPoll, 0)] && a < s.nextId
    ensures var s' := SetPlain(s, Q.Report, now + 60);
            Ticking(s') && forall e | e in Clocks(s').Values :: e.abstime == if e.func == Q.WsPoll then at else now + 60
  {
    var s' := SetPlain(s, Q.Report, now + 60);
    assert Clocks(s') == Clocks(s)[s.nextId := Q.Entry(now + 60, Q.Report, 0)];
    assert Clocks(s').Keys == {a, s.nextId};
  }

  lemma AskedFresh(names: seq<string>, nmachines: nat, machines: seq<nat>)
    requires forall m | m in machines :: m < nmachines
    ensures Fresh(WsAskAll(Unstirred(names, nmachines), machines))
  {
    var w := UnstirredIsGood(names, nmachines);
    var w' := WsAskAllKeeps(Unstirred(names, nmachines), w, machines);
    hide Unstirred, WsAskAll;
    GoodIsFresh(WsAskAll(Unstirred(names, nmachines), machines), w');
  }

  lemma {:induction false} StartPollsNext(s: State, k: nat, hesiodOk: nat -> bool, now: int)
    ensures StartPolls(s, k, hesiodOk, now).nextId >= s.nextId
    decreases |s.printers| - k
  {
    if k < |s.printers| {
      StartPollsNext(Poll(Alloc(s, PrinterArgs(s.gen, k)), s.nextId, hesiodOk(k), now), k + 1, hesiodOk, now);
    }
  }
}
