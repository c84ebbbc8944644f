/** The printer polling of larvnetd as an event-driven state machine
    (athena/etc/larvnetd/printer.c, with the reload of config.c and the main loop of larvnetd.c).
    Pointers are identifiers, so that releasing and dangling can be spoken about: an argument
    block names the printer by configuration generation and index. */
module PrinterDaemon {
  import opened Wrappers
  import opened PriorityQueue
  import R = PrintReply

  const BUFSIZ := 8192
  const RETRY := 60

  datatype Printer = Printer(
    name: string, up: bool, jobs: nat,
    s: Option<nat>, toSend: bool, conn: R.State,
    timer: Option<nat>)

  /** A heap block handed to the resolver or to a timer. */
  datatype Block = PrinterArgs(gen: nat, index: nat) | WsArgs(gen: nat, index: nat)

  datatype Kind = Hesiod | Host | WsHost
  datatype Query = Query(kind: Kind, block: nat)

  datatype State = State(
    gen: nat, printers: seq<Printer>, nmachines: nat,
    blocks: map<nat, Block>, queries: map<nat, Query>, timers: Queue<nat>, sockets: set<nat>,
    nextId: nat)

  // ----- What it means that nothing is lost, doubled or dangling -----

  datatype Activity = Unstarted | InQuery(q: nat) | OnTimer(t: nat) | OnSocket(fd: nat)
  datatype Owner = ByQuery(q: nat) | ByTimer(t: nat)

  /** Everything pending on behalf of printer `i`. */
  ghost function Activities(s: State, i: nat): set<Activity>
    requires i < |s.printers|
  {
    (set q | q in s.queries && s.queries[q].kind != WsHost && RefersTo(s, s.queries[q].block, i) :: InQuery(q)) +
    (set t | t in s.timers && s.timers[t].func == PrinterPoll && RefersTo(s, s.timers[t].arg, i) :: OnTimer(t)) +
    (if s.printers[i].s.Some? then {OnSocket(s.printers[i].s.value)} else {})
  }

  ghost predicate RefersTo(s: State, b: nat, i: nat) {
    b in s.blocks && s.blocks[b] == PrinterArgs(s.gen, i)
  }

  /** Who holds the pointer to block `b`. */
  ghost function Owners(s: State, b: nat): set<Owner> {
    (set q | q in s.queries && s.queries[q].block == b :: ByQuery(q)) +
    (set t | t in s.timers && s.timers[t].func == PrinterPoll && s.timers[t].arg == b :: ByTimer(t))
  }

  /** The bookkeeping behind the invariant: one activity per printer, one owner per block, one
      printer per socket. */
  datatype Witness = Witness(act: seq<Activity>, owner: map<nat, Owner>, sock: map<nat, nat>)

  ghost predicate ActivityOk(s: State, w: Witness, i: nat)
    requires i < |s.printers| && i < |w.act|
  {
    var p := s.printers[i];
    match w.act[i]
    case Unstarted => p.s.None? && p.timer.None?
    case InQuery(q) => p.s.None? && p.timer.None? && q in s.queries && s.queries[q].kind != WsHost && RefersTo(s, s.queries[q].block, i)
    case OnTimer(t) => p.s.None? && p.timer == Some(t) && t in s.timers && s.timers[t].func == PrinterPoll && RefersTo(s, s.timers[t].arg, i)
    case OnSocket(fd) => p.s == Some(fd) && p.timer.None? && fd in s.sockets && fd in w.sock && w.sock[fd] == i && |p.conn.partial| < BUFSIZ
  }

  ghost predicate QueryOk(s: State, w: Witness, q: nat)
    requires q in s.queries
  {
    var b := s.queries[q].block;
    && b in s.blocks && b in w.owner && w.owner[b] == ByQuery(q)
    && s.blocks[b].gen == s.gen
    && if s.queries[q].kind == WsHost then s.blocks[b].WsArgs? && s.blocks[b].index < s.nmachines
       else s.blocks[b].PrinterArgs? && s.blocks[b].index < |w.act| && w.act[s.blocks[b].index] == InQuery(q)
  }

  ghost predicate TimerOk(s: State, w: Witness, t: nat)
    requires t in s.timers
  {
    s.timers[t].func == PrinterPoll ==>
      var b := s.timers[t].arg;
      && b in s.blocks && b in w.owner && w.owner[b] == ByTimer(t)
      && s.blocks[b].PrinterArgs? && s.blocks[b].gen == s.gen
      && s.blocks[b].index < |w.act| && w.act[s.blocks[b].index] == OnTimer(t)
  }

  ghost predicate BlockOk(s: State, w: Witness, b: nat) {
    && b in w.owner
    && match w.owner[b]
       case ByQuery(q) => q in s.queries && s.queries[q].block == b
       case ByTimer(t) => t in s.timers && s.timers[t].func == PrinterPoll && s.timers[t].arg == b
  }

  ghost predicate SocketOk(s: State, w: Witness, fd: nat) {
    fd in w.sock && w.sock[fd] < |w.act| && w.act[w.sock[fd]] == OnSocket(fd)
  }

  ghost predicate Fresh(s: State) {
    && (forall b | b in s.blocks :: b < s.nextId)
    && (forall q | q in s.queries :: q < s.nextId)
    && (forall t | t in s.timers :: t < s.nextId)
    && (forall fd | fd in s.sockets :: fd < s.nextId)
  }

  /** The invariant, while at most one block is in the hands of a running callback, on behalf of
      a printer that has nothing else pending. */
  ghost predicate Holding(s: State, w: Witness, hand: Option<nat>) {
    && Fresh(s)
    && |w.act| == |s.printers|
    && (forall i | 0 <= i < |s.printers| :: ActivityOk(s, w, i))
    && (forall q | q in s.queries :: QueryOk(s, w, q))
    && (forall t | t in s.timers :: TimerOk(s, w, t))
    && (forall b | b in s.blocks && hand != Some(b) :: BlockOk(s, w, b))
    && (forall fd | fd in s.sockets :: SocketOk(s, w, fd))
    && (hand.Some? ==> Holds(s, hand.value) && w.act[s.blocks[hand.value].index] == Unstarted && hand.value !in w.owner)
  }

  ghost predicate Good(s: State, w: Witness) { Holding(s, w, None) }

  ghost predicate Busy(w: Witness) { Unstarted !in w.act }

  /** Exactly one pending activity per printer. */
  lemma OneActivity(s: State, w: Witness, i: nat)
    requires Good(s, w) && i < |s.printers|
    ensures Activities(s, i) == if w.act[i] == Unstarted then {} else {w.act[i]}
  {
    assert ActivityOk(s, w, i);
    forall q | q in s.queries && s.queries[q].kind != WsHost && RefersTo(s, s.queries[q].block, i)
      ensures InQuery(q) == w.act[i]
    {
      assert QueryOk(s, w, q);
    }
    forall t | t in s.timers && s.timers[t].func == PrinterPoll && RefersTo(s, s.timers[t].arg, i)
      ensures OnTimer(t) == w.act[i]
    {
      assert TimerOk(s, w, t);
    }
  }

  /** Exactly one owner per argument block, and nothing pending refers to a released block. */
  lemma OneOwner(s: State, w: Witness, b: nat)
    requires Good(s, w)
    ensures if b in s.blocks then b in w.owner && Owners(s, b) == {w.owner[b]} else Owners(s, b) == {}
  {
    forall q | q in s.queries && s.queries[q].block == b ensures b in s.blocks && w.owner[b] == ByQuery(q) {
      assert QueryOk(s, w, q);
    }
    forall t | t in s.timers && s.timers[t].func == PrinterPoll && s.timers[t].arg == b
      ensures b in s.blocks && w.owner[b] == ByTimer(t)
    {
      assert TimerOk(s, w, t);
    }
    if b in s.blocks {
      assert BlockOk(s, w, b);
    }
  }

  /** Whatever a pending query or timer points at belongs to the current configuration. */
  lemma NothingDangles(s: State, w: Witness)
    requires Good(s, w)
    ensures forall q | q in s.queries :: s.queries[q].block in s.blocks && s.blocks[s.queries[q].block].gen == s.gen
    ensures forall t | t in s.timers && s.timers[t].func == PrinterPoll ::
      s.timers[t].arg in s.blocks && s.blocks[s.timers[t].arg].gen == s.gen
  {
    forall q | q in s.queries ensures s.queries[q].block in s.blocks && s.blocks[s.queries[q].block].gen == s.gen {
      assert QueryOk(s, w, q);
    }
    forall t | t in s.timers && s.timers[t].func == PrinterPoll
      ensures s.timers[t].arg in s.blocks && s.blocks[s.timers[t].arg].gen == s.gen
    {
      assert TimerOk(s, w, t);
    }
  }

  // ----- The callbacks, as functions on the state -----

  /** A live argument block of a printer of the current configuration. */
  predicate Holds(s: State, b: nat) {
    b in s.blocks && s.blocks[b].PrinterArgs? && s.blocks[b].gen == s.gen && s.blocks[b].index < |s.printers|
  }

  /** printer->timer = timer_set_rel(60, printer_poll, pargs). */
  function Sleep(s: State, b: nat, now: int): State
    requires Holds(s, b)
  {
    var i := s.blocks[b].index;
    s.(timers := s.timers[s.nextId := Entry(now + RETRY, PrinterPoll, b)],
       printers := s.printers[i := s.printers[i].(timer := Some(s.nextId))],
       nextId := s.nextId + 1)
  }

  function Ask(s: State, kind: Kind, b: nat): State {
    s.(queries := s.queries[s.nextId := Query(kind, b)], nextId := s.nextId + 1)
  }

  function Alloc(s: State, block: Block): State {
    s.(blocks := s.blocks[s.nextId := block], nextId := s.nextId + 1)
  }

  /** printer_poll. */
  function Poll(s: State, b: nat, hesiodOk: bool, now: int): State
    requires Holds(s, b)
  {
    var i := s.blocks[b].index;
    var s1 := s.(printers := s.printers[i := s.printers[i].(timer := None)]);
    if hesiodOk then Ask(s1, Hesiod, b) else Sleep(s1, b, now)
  }

  datatype Answer = Destroyed | Failed | Resolved

  /** printer_hes_callback; the resolver has dropped the query. */
  function HesCallback(s: State, q: nat, a: Answer, now: int): State
    requires q in s.queries && Holds(s, s.queries[q].block)
  {
    var b := s.queries[q].block;
    var s1 := s.(queries := s.queries - {q});
    match a
    case Destroyed => s1.(blocks := s1.blocks - {b})
    case Failed => Sleep(s1, b, now)
    case Resolved => Ask(s1, Host, b)
  }

  /** printer_host_callback; `Resolved` means that a connection was started. */
  function HostCallback(s: State, q: nat, a: Answer, now: int): State
    requires q in s.queries && Holds(s, s.queries[q].block)
  {
    var b := s.queries[q].block;
    var i := s.blocks[b].index;
    var s1 := s.(queries := s.queries - {q});
    match a
    case Destroyed => s1.(blocks := s1.blocks - {b})
    case Failed => Sleep(s1, b, now)
    case Resolved =>
      var p := s1.printers[i];
      s1.(blocks := s1.blocks - {b},
          sockets := s1.sockets + {s1.nextId},
          printers := s1.printers[i := p.(s := Some(s1.nextId), toSend := true,
            conn := R.State(R.Request(BUFSIZ, p.name), R.Tally(0, true)))],
          nextId := s1.nextId + 1)
  }

  /** close(printer->s) and a new timer, as after an error or at the end of a reply. */
  function HangUp(s: State, i: nat, now: int): State
    requires i < |s.printers| && s.printers[i].s.Some?
  {
    var s1 := s.(sockets := s.sockets - {s.printers[i].s.value},
                 printers := s.printers[i := s.printers[i].(s := None)]);
    Sleep(Alloc(s1, PrinterArgs(s.gen, i)), s1.nextId, now)
  }

  /** printer_handle_output; `None` is a write error. */
  function HandleOutput(s: State, i: nat, count: Option<nat>, now: int): State
    requires i < |s.printers| && s.printers[i].s.Some?
    requires count.Some? ==> count.value <= |s.printers[i].conn.partial|
  {
    if count.None? then HangUp(s, i, now)
    else
      var p := s.printers[i];
      var rest := p.conn.partial[count.value..];
      s.(printers := s.printers[i := p.(conn := p.conn.(partial := rest), toSend := if rest == [] then false else p.toSend)])
  }

  /** printer_handle_input; `None` is a read error, an empty chunk is end of input. */
  function HandleInput(s: State, i: nat, chunk: Option<string>, now: int): State
    requires i < |s.printers| && s.printers[i].s.Some?
  {
    var p := s.printers[i];
    if chunk.None? || chunk.value == [] then
      HangUp(s.(printers := s.printers[i := p.(jobs := p.conn.tally.jobs, up := p.conn.tally.up)]), i, now)
    else
      s.(printers := s.printers[i := p.(conn := R.Feed(BUFSIZ, p.conn, chunk.value))])
  }

  // ----- Each callback keeps the invariant -----

  function Settle(w: Witness, i: nat, a: Activity): Witness
    requires i < |w.act|
  {
    w.(act := w.act[i := a])
  }

  /** The step from `s` to `s'` touches only printer `i`, its block `b` and whoever holds it. */
  ghost predicate OnlyTouches(s: State, w: Witness, s': State, w': Witness, i: nat, b: nat) {
    && s'.gen == s.gen && s'.nmachines == s.nmachines && s'.nextId >= s.nextId
    && |s'.printers| == |s.printers| == |w.act| == |w'.act| && i < |w.act|
    && (forall k | 0 <= k < |w.act| && k != i :: s'.printers[k] == s.printers[k] && w'.act[k] == w.act[k])
    && (b in s.blocks ==> s.blocks[b] == PrinterArgs(s.gen, i))
    && (forall q | q in s.queries && s.queries[q].block != b :: q in s'.queries && s'.queries[q] == s.queries[q])
    && (forall t | t in s.timers && (s.timers[t].func == PrinterPoll ==> s.timers[t].arg != b) ::
          t in s'.timers && s'.timers[t] == s.timers[t])
    && (forall c | c in s.blocks && c != b :: c in s'.blocks && s'.blocks[c] == s.blocks[c])
    && (forall c | c in w.owner && c != b :: c in w'.owner && w'.owner[c] == w.owner[c])
    && (forall fd | fd in s.sockets && w.act[i] != OnSocket(fd) :: fd in s'.sockets)
    && (forall fd | fd in w.sock && fd in s.sockets :: fd in w'.sock && w'.sock[fd] == w.sock[fd])
    && match w.act[i]
       case InQuery(q) => q in s.queries && s.queries[q].block == b
       case OnTimer(t) => t in s.timers && s.timers[t].arg == b
       case _ => true
  }

  /** Then everything else is as it should be. */
  lemma Elsewhere(s: State, w: Witness, s': State, w': Witness, i: nat, b: nat, hand: Option<nat>)
    requires Holding(s, w, hand) && (hand == None || hand == Some(b)) && OnlyTouches(s, w, s', w', i, b)
    ensures forall k | 0 <= k < |s.printers| && k != i :: ActivityOk(s', w', k)
    ensures forall q | q in s.queries && s.queries[q].block != b :: q in s'.queries && QueryOk(s', w', q)
    ensures forall t | t in s.timers && (s.timers[t].func == PrinterPoll ==> s.timers[t].arg != b) ::
      t in s'.timers && TimerOk(s', w', t)
    ensures forall c | c in s.blocks && c != b :: BlockOk(s', w', c)
    ensures forall fd | fd in s.sockets && w.act[i] != OnSocket(fd) :: SocketOk(s', w', fd)
  {
    forall k | 0 <= k < |s.printers| && k != i ensures ActivityOk(s', w', k) {
      OtherActivity(s, w, s', w', i, b, hand, k);
    }
    OthersHeld(s, w, s', w', i, b, hand);
    hide ActivityOk, QueryOk, TimerOk, BlockOk, SocketOk;
    assert forall q | q in s.queries && s.queries[q].block != b :: q in s'.queries;
  }

  lemma OthersHeld(s: State, w: Witness, s': State, w': Witness, i: nat, b: nat, hand: Option<nat>)
    requires Holding(s, w, hand) && (hand == None || hand == Some(b)) && OnlyTouches(s, w, s', w', i, b)
    ensures forall q | q in s.queries && s.queries[q].block != b :: q in s'.queries && QueryOk(s', w', q)
    ensures forall t | t in s.timers && (s.timers[t].func == PrinterPoll ==> s.timers[t].arg != b) ::
      t in s'.timers && TimerOk(s', w', t)
    ensures forall c | c in s.blocks && c != b :: BlockOk(s', w', c)
    ensures forall fd | fd in s.sockets && w.act[i] != OnSocket(fd) :: SocketOk(s', w', fd)
  {
    hide ActivityOk;
    forall q | q in s.queries && s.queries[q].block != b ensures q in s'.queries && QueryOk(s', w', q) {
      assert QueryOk(s, w, q);
    }
    forall t | t in s.timers && (s.timers[t].func == PrinterPoll ==> s.timers[t].arg != b)
      ensures t in s'.timers && TimerOk(s', w', t)
    {
      assert TimerOk(s, w, t);
    }
    forall c | c in s.blocks && c != b ensures BlockOk(s', w', c) {
      assert BlockOk(s, w, c);
    }
    forall fd | fd in s.sockets && w.act[i] != OnSocket(fd) ensures SocketOk(s', w', fd) {
      assert SocketOk(s, w, fd);
    }
  }

  lemma OtherActivity(s: State, w: Witness, s': State, w': Witness, i: nat, b: nat, hand: Option<nat>, k: nat)
    requires Holding(s, w, hand) && OnlyTouches(s, w, s', w', i, b) && k < |s.printers| && k != i
    ensures ActivityOk(s', w', k)
  {
    assert ActivityOk(s, w, k);
    match w.act[k]
    case InQuery(q) => assert QueryOk(s, w, q);
    case OnTimer(t) => assert TimerOk(s, w, t);
    case OnSocket(fd) => assert ActivityOk(s, w, i);
    case _ =>
  }

  /** The invariant after such a step, from what the step did to `i`, `b` and whatever is new. */
  lemma Reassemble(s: State, w: Witness, s': State, w': Witness, i: nat, b: nat, hand: Option<nat>, hand': Option<nat>)
    requires Holding(s, w, hand) && (hand == None || hand == Some(b)) && OnlyTouches(s, w, s', w', i, b)
    requires Fresh(s') && ActivityOk(s', w', i)
    requires forall q | q in s'.queries && (q !in s.queries || s.queries[q].block == b) :: QueryOk(s', w', q)
    requires forall t | t in s'.timers && (t !in s.timers || (s.timers[t].func == PrinterPoll && s.timers[t].arg == b)) ::
               TimerOk(s', w', t)
    requires forall c | c in s'.blocks && (c !in s.blocks || c == b) && hand' != Some(c) :: BlockOk(s', w', c)
    requires forall fd | fd in s'.sockets && (fd !in s.sockets || w.act[i] == OnSocket(fd)) :: SocketOk(s', w', fd)
    requires hand'.Some? ==>
               Holds(s', hand'.value) && w'.act[s'.blocks[hand'.value].index] == Unstarted && hand'.value !in w'.owner
    ensures Holding(s', w', hand')
  {
    Elsewhere(s, w, s', w', i, b, hand);
    hide ActivityOk, QueryOk, TimerOk, BlockOk, SocketOk;
  }

  /** Handing the block to a new timer. */
  lemma SleepKeeps(s: State, w: Witness, b: nat, now: int) returns (w': Witness)
    requires Holding(s, w, Some(b))
    ensures Good(Sleep(s, b, now), w') && w'.act == w.act[s.blocks[b].index := OnTimer(s.nextId)]
  {
    var i := s.blocks[b].index;
    w' := Settle(w, i, OnTimer(s.nextId)).(owner := w.owner[b := ByTimer(s.nextId)]);
    assert ActivityOk(s, w, i);
    var s' := Sleep(s, b, now);
    assert OnlyTouches(s, w, s', w', i, b);
    assert ActivityOk(s', w', i) && TimerOk(s', w', s.nextId) && BlockOk(s', w', b);
    Reassemble(s, w, s', w', i, b, Some(b), None);
  }

  /** Handing the block to a new resolver query. */
  lemma AskKeeps(s: State, w: Witness, kind: Kind, b: nat) returns (w': Witness)
    requires Holding(s, w, Some(b)) && kind != WsHost
    ensures Good(Ask(s, kind, b), w') && w'.act == w.act[s.blocks[b].index := InQuery(s.nextId)]
  {
    var i := s.blocks[b].index;
    w' := Settle(w, i, InQuery(s.nextId)).(owner := w.owner[b := ByQuery(s.nextId)]);
    assert ActivityOk(s, w, i);
    var s' := Ask(s, kind, b);
    assert OnlyTouches(s, w, s', w', i, b);
    assert ActivityOk(s', w', i) && QueryOk(s', w', s.nextId) && BlockOk(s', w', b);
    Reassemble(s, w, s', w', i, b, Some(b), None);
  }

  /** A resolver query that is answered leaves its block in the hands of the callback. */
  lemma AnswerKeeps(s: State, w: Witness, q: nat) returns (w': Witness)
    requires Good(s, w) && q in s.queries && s.queries[q].kind != WsHost
    ensures Holds(s, s.queries[q].block)
    ensures Holding(s.(queries := s.queries - {q}), w', Some(s.queries[q].block))
    ensures w'.act == w.act[s.blocks[s.queries[q].block].index := Unstarted]
  {
    assert QueryOk(s, w, q);
    var b := s.queries[q].block;
    var i := s.blocks[b].index;
    var s' := s.(queries := s.queries - {q});
    w' := Settle(w, i, Unstarted).(owner := w.owner - {b});
    assert ActivityOk(s, w, i);
    SoleOwner(s, w, b);
    assert OnlyTouches(s, w, s', w', i, b);
    assert ActivityOk(s', w', i);
    Reassemble(s, w, s', w', i, b, None, Some(b));
  }

  lemma SoleOwner(s: State, w: Witness, b: nat)
    requires Good(s, w) && b in s.blocks
    ensures forall q, r | q in s.queries && r in s.queries && s.queries[q].block == b && s.queries[r].block == b :: q == r
    ensures forall q, t | q in s.queries && t in s.timers && s.queries[q].block == b && s.timers[t].func == PrinterPoll :: s.timers[t].arg != b
    ensures forall t, u | t in s.timers && u in s.timers && s.timers[t].func == PrinterPoll && s.timers[u].func == PrinterPoll
      && s.timers[t].arg == b && s.timers[u].arg == b :: t == u
  {
    forall q | q in s.queries && s.queries[q].block == b ensures w.owner[b] == ByQuery(q) {
      assert QueryOk(s, w, q);
    }
    forall t | t in s.timers && s.timers[t].func == PrinterPoll && s.timers[t].arg == b ensures w.owner[b] == ByTimer(t) {
      assert TimerOk(s, w, t);
    }
  }

  /** A timer that fires leaves its block in the hands of printer_poll, which forgets the timer. */
  lemma FireKeeps(s: State, w: Witness, t: nat) returns (w': Witness)
    requires Good(s, w) && t in s.timers && s.timers[t].func == PrinterPoll
    ensures Holds(s, s.timers[t].arg)
    ensures var i := s.blocks[s.timers[t].arg].index;
      && w'.act == w.act[i := Unstarted]
      && Holding(s.(timers := s.timers - {t}, printers := s.printers[i := s.printers[i].(timer := None)]), w', Some(s.timers[t].arg))
  {
    assert TimerOk(s, w, t);
    var b := s.timers[t].arg;
    var i := s.blocks[b].index;
    var s' := s.(timers := s.timers - {t}, printers := s.printers[i := s.printers[i].(timer := None)]);
    w' := Settle(w, i, Unstarted).(owner := w.owner - {b});
    assert ActivityOk(s, w, i);
    SoleOwner(s, w, b);
    assert OnlyTouches(s, w, s', w', i, b);
    assert ActivityOk(s', w', i);
    Reassemble(s, w, s', w', i, b, None, Some(b));
  }

  /** free(pargs). */
  lemma FreeKeeps(s: State, w: Witness, b: nat)
    requires Holding(s, w, Some(b))
    ensures Good(s.(blocks := s.blocks - {b}), w)
  {
    var i := s.blocks[b].index;
    Elsewhere(s, w, s.(blocks := s.blocks - {b}), w, i, b, Some(b));
    assert ActivityOk(s, w, i);
  }

  /** A connection started for a printer that has nothing pending. */
  lemma ConnectKeeps(s: State, w: Witness, i: nat, p: Printer) returns (w': Witness)
    requires Good(s, w) && i < |s.printers| && w.act[i] == Unstarted
    requires p.s == Some(s.nextId) && p.timer == None && |p.conn.partial| < BUFSIZ
    ensures Good(s.(sockets := s.sockets + {s.nextId}, printers := s.printers[i := p], nextId := s.nextId + 1), w')
    ensures w'.act == w.act[i := OnSocket(s.nextId)]
  {
    var s' := s.(sockets := s.sockets + {s.nextId}, printers := s.printers[i := p], nextId := s.nextId + 1);
    w' := Settle(w, i, OnSocket(s.nextId)).(sock := w.sock[s.nextId := i]);
    assert OnlyTouches(s, w, s', w', i, s.nextId);
    assert ActivityOk(s', w', i) && SocketOk(s', w', s.nextId);
    Reassemble(s, w, s', w', i, s.nextId, None, None);
  }

  /** close(printer->s) and make_pargs. */
  lemma CloseKeeps(s: State, w: Witness, i: nat) returns (w': Witness)
    requires Good(s, w) && i < |s.printers| && s.printers[i].s.Some?
    ensures var s1 := s.(sockets := s.sockets - {s.printers[i].s.value}, printers := s.printers[i := s.printers[i].(s := None)]);
      Holding(Alloc(s1, PrinterArgs(s.gen, i)), w', Some(s.nextId))
    ensures w'.act == w.act[i := Unstarted]
  {
    var s1 := s.(sockets := s.sockets - {s.printers[i].s.value}, printers := s.printers[i := s.printers[i].(s := None)]);
    w' := Settle(w, i, Unstarted).(owner := w.owner - {s.nextId});
    assert ActivityOk(s, w, i);
    var s' := Alloc(s1, PrinterArgs(s.gen, i));
    assert OnlyTouches(s, w, s', w', i, s.nextId);
    assert ActivityOk(s', w', i) && w.act[i] == OnSocket(s.printers[i].s.value);
    Reassemble(s, w, s', w', i, s.nextId, None, Some(s.nextId));
  }

  /** make_pargs for a printer that has nothing pending. */
  lemma AllocKeeps(s: State, w: Witness, i: nat) returns (w': Witness)
    requires Good(s, w) && i < |s.printers| && w.act[i] == Unstarted
    ensures Holding(Alloc(s, PrinterArgs(s.gen, i)), w', Some(s.nextId)) && w'.act == w.act
  {
    w' := w.(owner := w.owner - {s.nextId});
    assert ActivityOk(s, w, i);
    Elsewhere(s, w, Alloc(s, PrinterArgs(s.gen, i)), w', i, s.nextId, None);
  }

  // ----- Workstation polls and reports, which share the resolver and the timers -----

  /** ws_poll resolving one machine name. */
  function WsAsk(s: State, m: nat): State {
    Ask(Alloc(s, WsArgs(s.gen, m)), WsHost, s.nextId)
  }

  function WsAskAll(s: State, ms: seq<nat>): State
    decreases |ms|
  {
    if ms == [] then s else WsAskAll(WsAsk(s, ms[0]), ms[1..])
  }

  /** poll_callback: the block is released whatever the answer. */
  function WsCallback(s: State, q: nat): State
    requires q in s.queries
  {
    s.(queries := s.queries - {q}, blocks := s.blocks - {s.queries[q].block})
  }

  /** timer_set_rel with an argument that is not a block. */
  function SetPlain(s: State, func: Proc, at: int): State {
    s.(timers := s.timers[s.nextId := Entry(at, func, 0)], nextId := s.nextId + 1)
  }

  /** Steps that concern no printer: what was pending stays so, except block `b` and its holder. */
  lemma NoPrinter(s: State, w: Witness, s': State, w': Witness, b: nat)
    requires Good(s, w)
    requires s'.gen == s.gen && s'.nmachines == s.nmachines && s'.printers == s.printers && s'.sockets == s.sockets
    requires w'.act == w.act && w'.sock == w.sock
    requires b in s.blocks ==> s.blocks[b].WsArgs?
    requires forall q | q in s.queries && s.queries[q].block != b :: q in s'.queries && s'.queries[q] == s.queries[q]
    requires forall t | t in s.timers && s.timers[t].func == PrinterPoll :: t in s'.timers && s'.timers[t] == s.timers[t]
    requires forall c | c in s.blocks && c != b :: c in s'.blocks && s'.blocks[c] == s.blocks[c]
    requires forall c | c in w.owner && c != b :: c in w'.owner && w'.owner[c] == w.owner[c]
    ensures forall k | 0 <= k < |s.printers| :: ActivityOk(s', w', k)
    ensures forall q | q in s.queries && s.queries[q].block != b :: QueryOk(s', w', q)
    ensures forall t | t in s.timers && t in s'.timers && s'.timers[t] == s.timers[t] :: TimerOk(s', w', t)
    ensures forall c | c in s.blocks && c != b :: BlockOk(s', w', c)
    ensures forall fd | fd in s.sockets :: SocketOk(s', w', fd)
  {
    forall k | 0 <= k < |s.printers| ensures ActivityOk(s', w', k) {
      assert ActivityOk(s, w, k);
      match w.act[k]
      case InQuery(q) => assert QueryOk(s, w, q);
      case OnTimer(t) => assert TimerOk(s, w, t);
      case _ =>
    }
    hide ActivityOk;
    forall q | q in s.queries && s.queries[q].block != b ensures QueryOk(s', w', q) {
      assert QueryOk(s, w, q);
    }
    forall t | t in s.timers && t in s'.timers && s'.timers[t] == s.timers[t] ensures TimerOk(s', w', t) {
      assert TimerOk(s, w, t);
    }
    forall c | c in s.blocks && c != b ensures BlockOk(s', w', c) {
      assert BlockOk(s, w, c);
    }
    forall fd | fd in s.sockets ensures SocketOk(s', w', fd) {
      assert SocketOk(s, w, fd);
    }
  }

  lemma WsAskKeeps(s: State, w: Witness, m: nat) returns (w': Witness)
    requires Good(s, w) && m < s.nmachines
    ensures Good(WsAsk(s, m), w') && w'.act == w.act
  {
    w' := w.(owner := w.owner[s.nextId := ByQuery(s.nextId + 1)]);
    var s' := WsAsk(s, m);
    assert s.nextId !in s.blocks;
    assert QueryOk(s', w', s.nextId + 1) && BlockOk(s', w', s.nextId);
    NotNext(s, w);
    hide ActivityOk, QueryOk, TimerOk, BlockOk, SocketOk;
    NoPrinter(s, w, s', w', s.nextId);
    assert Fresh(s');
    hide Fresh;
  }

  lemma NotNext(s: State, w: Witness)
    requires Good(s, w)
    ensures forall q | q in s.queries :: s.queries[q].block != s.nextId
  {
    forall q | q in s.queries
      ensures s.queries[q].block != s.nextId
    {
      assert QueryOk(s, w, q);
    }
  }

  lemma {:induction false} WsAskAllKeeps(s: State, w: Witness, ms: seq<nat>) returns (w': Witness)
    requires Good(s, w) && forall m | m in ms :: m < s.nmachines
    ensures Good(WsAskAll(s, ms), w') && w'.act == w.act
    decreases |ms|
  {
    hide Holding;
    if ms == [] {
      w' := w;
    } else {
      assert ms[0] in ms;
      w' := WsAskKeeps(s, w, ms[0]);
      assert forall m | m in ms[1..] :: m in ms;
      w' := WsAskAllKeeps(WsAsk(s, ms[0]), w', ms[1..]);
    }
  }

  lemma WsCallbackKeeps(s: State, w: Witness, q: nat) returns (w': Witness)
    requires Good(s, w) && q in s.queries && s.queries[q].kind == WsHost
    ensures Good(WsCallback(s, q), w') && w'.act == w.act
  {
    assert QueryOk(s, w, q);
    var b := s.queries[q].block;
    w' := w.(owner := w.owner - {b});
    SoleOwner(s, w, b);
    NoPrinter(s, w, WsCallback(s, q), w', b);
    hide ActivityOk;
  }

  lemma SetPlainKeeps(s: State, w: Witness, func: Proc, at: int)
    requires Good(s, w) && func != PrinterPoll
    ensures Good(SetPlain(s, func, at), w)
  {
    NoPrinter(s, w, SetPlain(s, func, at), w, s.nextId);
    hide ActivityOk;
  }

  lemma DropPlainKeeps(s: State, w: Witness, t: nat)
    requires Good(s, w) && t in s.timers && s.timers[t].func != PrinterPoll
    ensures Good(s.(timers := s.timers - {t}), w)
  {
    NoPrinter(s, w, s.(timers := s.timers - {t}), w, s.nextId);
    hide ActivityOk;
  }

  // ----- Reloading the configuration -----

  /** The state that survives a reload: that of the last old printer of the same name. */
  function Carry(olds: seq<Printer>, name: string): (bool, nat) {
    if olds == [] then (false, 0)
    else if olds[|olds| - 1].name == name then (olds[|olds| - 1].up, olds[|olds| - 1].jobs)
    else Carry(olds[..|olds| - 1], name)
  }

  function NewPrinter(olds: seq<Printer>, name: string): Printer {
    Printer(name, Carry(olds, name).0, Carry(olds, name).1, None, false, R.State([], R.Tally(0, true)), None)
  }

  function Held(queries: map<nat, Query>): set<nat> { set q | q in queries :: queries[q].block }

  /** ares_destroy: every pending query is called back and releases its block. */
  function DestroyChannel(s: State): State {
    s.(queries := map[], blocks := s.blocks - Held(s.queries))
  }

  /** The printers' part of freeconfig, from printer `k` on: close the socket, or cancel the timer
      and release the argument it gives back. */
  function FreeConfig(s: State, k: nat): State {
    s.(sockets := s.sockets - (set i | k <= i < |s.printers| && s.printers[i].s.Some? :: s.printers[i].s.value),
       timers := s.timers - (set i | k <= i < |s.printers| && s.printers[i].timer.Some? :: s.printers[i].timer.value),
       blocks := s.blocks - (set i | k <= i < |s.printers| && s.printers[i].timer.Some? && s.printers[i].timer.value in s.timers
                               :: s.timers[s.printers[i].timer.value].arg))
  }

  function FreePrinter(s: State, i: nat): State
    requires i < |s.printers|
  {
    var p := s.printers[i];
    var s1 := if p.s.Some? then s.(sockets := s.sockets - {p.s.value}) else s;
    if p.timer.Some? && p.timer.value in s.timers
    then s1.(timers := s.timers - {p.timer.value}, blocks := s.blocks - {s.timers[p.timer.value].arg})
    else s1
  }

  ghost predicate TimersApart(s: State) {
    && (forall i | 0 <= i < |s.printers| && s.printers[i].timer.Some? :: s.printers[i].timer.value in s.timers)
    && (forall i, j | 0 <= i < j < |s.printers| && s.printers[i].timer.Some? :: s.printers[i].timer != s.printers[j].timer)
  }

  lemma FreeOneThenRest(s: State, i: nat)
    requires i < |s.printers|
    requires forall j | i <= j < |s.printers| && s.printers[j].timer.Some? :: s.printers[j].timer.value in s.timers
    requires s.printers[i].timer.Some? ==> forall j | i < j < |s.printers| :: s.printers[i].timer != s.printers[j].timer
    ensures FreeConfig(FreePrinter(s, i), i + 1) == FreeConfig(s, i)
  {
    FreeOneThenRestSockets(s, i);
    FreeOneThenRestTimers(s, i);
    FreeOneThenRestBlocks(s, i);
    assert FreeConfig(FreePrinter(s, i), i + 1) == FreeConfig(s, i).(
      sockets := FreeConfig(FreePrinter(s, i), i + 1).sockets,
      timers := FreeConfig(FreePrinter(s, i), i + 1).timers,
      blocks := FreeConfig(FreePrinter(s, i), i + 1).blocks);
  }

  lemma FreeOneThenRestSockets(s: State, i: nat)
    requires i < |s.printers|
    ensures FreeConfig(FreePrinter(s, i), i + 1).sockets == FreeConfig(s, i).sockets
  {
  }

  lemma FreeOneThenRestTimers(s: State, i: nat)
    requires i < |s.printers|
    requires forall j | i <= j < |s.printers| && s.printers[j].timer.Some? :: s.printers[j].timer.value in s.timers
    ensures FreeConfig(FreePrinter(s, i), i + 1).timers == FreeConfig(s, i).timers
  {
  }

  lemma FreeOneThenRestBlocks(s: State, i: nat)
    requires i < |s.printers|
    requires forall j | i <= j < |s.printers| && s.printers[j].timer.Some? :: s.printers[j].timer.value in s.timers
    requires s.printers[i].timer.Some? ==> forall j | i < j < |s.printers| :: s.printers[i].timer != s.printers[j].timer
    ensures FreeConfig(FreePrinter(s, i), i + 1).blocks == FreeConfig(s, i).blocks
  {
    var f, g := FreeConfig(FreePrinter(s, i), i + 1), FreeConfig(s, i);
    assert forall b | b in s.blocks :: b in f.blocks <==> b in g.blocks;
  }

  /** reread_config when the new file parses. */
  function Reread(s: State, names: seq<string>, nmachines: nat): State {
    FreeConfig(DestroyChannel(s), 0).(
      gen := s.gen + 1, nmachines := nmachines,
      printers := seq(|names|, j requires 0 <= j < |names| => NewPrinter(s.printers, names[j])))
  }

  /** After a reload nothing is pending for any printer, old or new, and nothing has leaked. */
  lemma RereadClears(s: State, w: Witness, names: seq<string>, nmachines: nat)
    requires Good(s, w)
    ensures var s' := Reread(s, names, nmachines);
      s'.blocks == map[] && s'.queries == map[] && s'.sockets == {}
      && forall t | t in s'.timers :: s'.timers[t].func != PrinterPoll && t in s.timers && s'.timers[t] == s.timers[t]
    ensures forall t | t in s.timers && s.timers[t].func != PrinterPoll :: t in Reread(s, names, nmachines).timers
  {
    var s' := Reread(s, names, nmachines);
    forall t | t in s.timers && s.timers[t].func == PrinterPoll
      ensures t !in s'.timers && s.timers[t].arg !in s'.blocks
    {
      assert TimerOk(s, w, t);
      var i := s.blocks[s.timers[t].arg].index;
      assert ActivityOk(s, w, i);
      assert s.printers[i].timer.Some? && s.printers[i].timer.value == t;
    }
    forall b | b in s.blocks ensures b !in s'.blocks {
      assert BlockOk(s, w, b);
    }
    forall fd | fd in s.sockets ensures fd !in s'.sockets {
      assert SocketOk(s, w, fd);
      assert ActivityOk(s, w, w.sock[fd]);
      assert s.printers[w.sock[fd]].s.Some? && s.printers[w.sock[fd]].s.value == fd;
    }
    forall t | t in s.timers && s.timers[t].func != PrinterPoll ensures t in s'.timers {
      forall i | 0 <= i < |s.printers| && s.printers[i].timer.Some? ensures s.printers[i].timer.value != t {
        assert ActivityOk(s, w, i);
      }
    }
  }

  lemma RereadKeeps(s: State, w: Witness, names: seq<string>, nmachines: nat) returns (w': Witness)
    requires Good(s, w)
    ensures Good(Reread(s, names, nmachines), w')
    ensures |w'.act| == |names| && forall i | 0 <= i < |names| :: w'.act[i] == Unstarted
  {
    RereadClears(s, w, names, nmachines);
    w' := Witness(seq(|names|, _ => Unstarted), map[], map[]);
  }

  /** printer_start_polls from printer `k` on. */
  function StartPolls(s: State, k: nat, hesiodOk: nat -> bool, now: int): State
    decreases |s.printers| - k
  {
    if k >= |s.printers| then s
    else StartPolls(Poll(Alloc(s, PrinterArgs(s.gen, k)), s.nextId, hesiodOk(k), now), k + 1, hesiodOk, now)
  }

  lemma PollKeeps(s: State, w: Witness, b: nat, hesiodOk: bool, now: int) returns (w': Witness)
    requires Holding(s, w, Some(b))
    ensures Good(Poll(s, b, hesiodOk, now), w')
    ensures |w'.act| == |w.act| && w'.act[s.blocks[b].index] != Unstarted
    ensures forall k | 0 <= k < |w.act| && k != s.blocks[b].index :: w'.act[k] == w.act[k]
  {
    var i := s.blocks[b].index;
    assert ActivityOk(s, w, i);
    var s1 := s.(printers := s.printers[i := s.printers[i].(timer := None)]);
    assert s1 == s;
    if hesiodOk {
      w' := AskKeeps(s, w, Hesiod, b);
    } else {
      w' := SleepKeeps(s, w, b, now);
    }
  }

  lemma SamePrinters(s: State, w: Witness)
    requires Good(s, w)
    ensures |w.act| == |s.printers|
  {
  }

  lemma NoneLeft(w: Witness)
    requires forall i | 0 <= i < |w.act| :: w.act[i] != Unstarted
    ensures Busy(w)
  {
  }

  lemma StartPollsOne(s: State, k: nat, hesiodOk: nat -> bool, now: int)
    ensures StartPolls(s, k, hesiodOk, now) ==
            if k >= |s.printers| then s
            else StartPolls(Poll(Alloc(s, PrinterArgs(s.gen, k)), s.nextId, hesiodOk(k), now), k + 1, hesiodOk, now)
  {
    hide Poll, Alloc;
  }

  lemma BlockOfNew(s: State, k: nat)
    ensures s.nextId in Alloc(s, PrinterArgs(s.gen, k)).blocks
    ensures Alloc(s, PrinterArgs(s.gen, k)).blocks[s.nextId] == PrinterArgs(s.gen, k)
    ensures Alloc(s, PrinterArgs(s.gen, k)).printers == s.printers
  {
  }

  /** After printer_start_polls every printer has exactly one activity. */
  lemma {:induction false} StartPollsKeeps(s: State, w: Witness, k: nat, hesiodOk: nat -> bool, now: int) returns (w': Witness)
    requires Good(s, w) && k <= |s.printers|
    requires forall i | 0 <= i < |w.act| :: w.act[i] == Unstarted <==> i >= k
    ensures Good(StartPolls(s, k, hesiodOk, now), w') && Busy(w')
    decreases |s.printers| - k
  {
    hide *;
    SamePrinters(s, w);
    StartPollsOne(s, k, hesiodOk, now);
    if k == |s.printers| {
      w' := w;
      NoneLeft(w);
    } else {
      var w1 := AllocKeeps(s, w, k);
      var s1 := Alloc(s, PrinterArgs(s.gen, k));
      BlockOfNew(s, k);
      var w2 := PollKeeps(s1, w1, s.nextId, hesiodOk(k), now);
      var s2 := Poll(s1, s.nextId, hesiodOk(k), now);
      SamePrinters(s2, w2);
      w' := StartPollsKeeps(s2, w2, k + 1, hesiodOk, now);
    }
  }

  // ----- Whole runs -----

  /** What can happen in one turn of the main loop. */
  datatype Event =
    | Answered(q: nat, a: Answer, now: int)
    | Fired(t: nat, now: int, hesiodOk: bool, machines: seq<nat>, wait: nat)
    | Writable(i: nat, count: Option<nat>, now: int)
    | Readable(i: nat, chunk: Option<string>, now: int)
    | Hup(names: seq<string>, nmachines: nat, started: nat -> bool, now: int)
    | FailedHup(started: nat -> bool, now: int)

  /** The resolver answers pending queries, timers fire when due and earliest, reads and writes
      are for open sockets and move no more than was offered. */
  ghost predicate Enabled(s: State, e: Event) {
    match e
    case Answered(q, a, _) => q in s.queries && a != Destroyed
    case Fired(t, now, _, machines, _) =>
      Earliest(s.timers, t) && s.timers[t].abstime <= now && s.timers[t].func != Botch
      && forall m | m in machines :: m < s.nmachines
    case Writable(i, count, _) =>
      i < |s.printers| && s.printers[i].s.Some? && s.printers[i].toSend
      && (count.Some? ==> count.value <= |s.printers[i].conn.partial|)
    case Readable(i, chunk, _) =>
      i < |s.printers| && s.printers[i].s.Some?
      && (chunk.Some? ==> |chunk.value| <= BUFSIZ - |s.printers[i].conn.partial|)
    case Hup(_, _, _, _) => true
    case FailedHup(_, _) => true
  }

  /** The memory that the event makes the daemon follow pointers into is live and current, and the
      descriptor that it reads or writes is open. */
  ghost predicate Touchable(s: State, e: Event)
    requires Enabled(s, e)
  {
    match e
    case Answered(q, _, _) =>
      if s.queries[q].kind == WsHost then HoldsMachine(s, s.queries[q].block) else Holds(s, s.queries[q].block)
    case Fired(t, _, _, _, _) => s.timers[t].func == PrinterPoll ==> Holds(s, s.timers[t].arg)
    case Writable(i, _, _) => s.printers[i].s.value in s.sockets
    case Readable(i, _, _) => s.printers[i].s.value in s.sockets
    case Hup(_, _, _, _) => Haltable(s) && Freeable(s)
    case FailedHup(_, _) => true
  }

  /** What the callback of a query that is halted looks at exists: its block, and in the current
      configuration the printer or workstation whose name it logs. */
  ghost predicate CanHalt(s: State, q: nat)
    requires q in s.queries
  {
    if s.queries[q].kind == WsHost then HoldsMachine(s, s.queries[q].block) else Holds(s, s.queries[q].block)
  }

  /** All pending queries can be halted, one after the other: no two of them hold the same block. */
  ghost predicate Haltable(s: State) {
    && (forall q | q in s.queries :: CanHalt(s, q))
    && (forall q, r | q in s.queries && r in s.queries && s.queries[q].block == s.queries[r].block :: q == r)
  }

  /** The printers can be freed: the sockets are open, and the timers are pending and each gives
      back a block that is live, that no other printer's timer holds and no query either. */
  ghost predicate Freeable(s: State) {
    && TimersApart(s)
    && (forall i | 0 <= i < |s.printers| && s.printers[i].s.Some? :: s.printers[i].s.value in s.sockets)
    && (forall i, j | 0 <= i < j < |s.printers| && s.printers[i].s.Some? :: s.printers[i].s != s.printers[j].s)
    && (forall i | 0 <= i < |s.printers| && s.printers[i].timer.Some? :: s.timers[s.printers[i].timer.value].arg in s.blocks)
    && (forall i, j | 0 <= i < j < |s.printers| && s.printers[i].timer.Some? && s.printers[j].timer.Some? ::
          s.timers[s.printers[i].timer.value].arg != s.timers[s.printers[j].timer.value].arg)
    && (forall i, q | 0 <= i < |s.printers| && s.printers[i].timer.Some? && q in s.queries ::
          s.timers[s.printers[i].timer.value].arg != s.queries[q].block)
  }

  /** A live block for a workstation of the current configuration. */
  ghost predicate HoldsMachine(s: State, b: nat) {
    b in s.blocks && s.blocks[b].WsArgs? && s.blocks[b].gen == s.gen && s.blocks[b].index < s.nmachines
  }

  ghost function Advance(s: State, e: Event): State
    requires Enabled(s, e) && Touchable(s, e)
  {
    match e
    case Answered(q, a, now) =>
      (match s.queries[q].kind
       case WsHost => WsCallback(s, q)
       case Hesiod => HesCallback(s, q, a, now)
       case Host => HostCallback(s, q, a, now))
    case Fired(t, now, hesiodOk, machines, wait) =>
      var entry := s.timers[t];
      var s1 := s.(timers := s.timers - {t});
      (match entry.func
       case PrinterPoll => Poll(s1, entry.arg, hesiodOk, now)
       case WsPoll => SetPlain(WsAskAll(s1, machines), WsPoll, now + wait)
       case Report => SetPlain(s1, Report, now + RETRY)
       case Botch => s1)
    case Writable(i, count, now) => HandleOutput(s, i, count, now)
    case Readable(i, chunk, now) => HandleInput(s, i, chunk, now)
    case Hup(names, nmachines, started, now) => StartPolls(Reread(s, names, nmachines), 0, started, now)
    case FailedHup(started, now) => StartPolls(s, 0, started, now)
  }

  /** No callback is ever given a released block or a printer of an old configuration. */
  lemma NeverDangling(s: State, w: Witness, e: Event)
    requires Good(s, w) && Enabled(s, e)
    ensures Touchable(s, e)
  {
    match e
    case Answered(q, _, _) => assert QueryOk(s, w, q);
    case Fired(t, _, _, _, _) => assert TimerOk(s, w, t);
    case Writable(i, _, _) => assert ActivityOk(s, w, i);
    case Readable(i, _, _) => assert ActivityOk(s, w, i);
    case Hup(_, _, _, _) =>
      GoodIsHaltable(s, w);
      GoodIsFreeable(s, w);
    case FailedHup(_, _) =>
  }

  lemma GoodIsHaltable(s: State, w: Witness)
    requires Good(s, w)
    ensures Haltable(s)
  {
    forall q | q in s.queries
      ensures CanHalt(s, q) && s.queries[q].block in w.owner && w.owner[s.queries[q].block] == ByQuery(q)
    {
      assert QueryOk(s, w, q);
    }
  }

  lemma GoodIsFreeable(s: State, w: Witness)
    requires Good(s, w)
    ensures Freeable(s)
  {
    forall i | 0 <= i < |s.printers| && s.printers[i].timer.Some?
      ensures var t := s.printers[i].timer.value; t in s.timers && TimerHolds(s, w, t, i)
    {
      assert ActivityOk(s, w, i);
      assert TimerOk(s, w, s.printers[i].timer.value);
    }
    forall i | 0 <= i < |s.printers| && s.printers[i].s.Some?
      ensures var fd := s.printers[i].s.value; fd in s.sockets && fd in w.sock && w.sock[fd] == i
    {
      assert ActivityOk(s, w, i);
    }
    forall q | q in s.queries
      ensures s.queries[q].block in w.owner && w.owner[s.queries[q].block] == ByQuery(q)
    {
      assert QueryOk(s, w, q);
    }
    hide Holding;
  }

  ghost predicate TimerHolds(s: State, w: Witness, t: nat, i: nat)
    requires t in s.timers
  {
    var b := s.timers[t].arg;
    b in s.blocks && b in w.owner && w.owner[b] == ByTimer(t) && s.blocks[b].index == i
  }

  lemma AnsweredKeeps(s: State, w: Witness, q: nat, a: Answer, now: int) returns (w': Witness)
    requires Good(s, w) && Busy(w) && q in s.queries && s.queries[q].kind != WsHost && a != Destroyed
    ensures Holds(s, s.queries[q].block)
    ensures s.queries[q].kind == Hesiod ==> Good(HesCallback(s, q, a, now), w')
    ensures s.queries[q].kind == Host ==> Good(HostCallback(s, q, a, now), w')
    ensures Busy(w')
  {
    GoodIsFresh(s, w);
    hide Holding, Good, Busy;
    var w1 := AnswerKeeps(s, w, q);
    var b := s.queries[q].block;
    var i := s.blocks[b].index;
    var s1 := s.(queries := s.queries - {q});
    if a == Failed {
      w' := SleepKeeps(s1, w1, b, now);
      StillBusy(w, w1, w', i, OnTimer(s.nextId));
    } else if s.queries[q].kind == Hesiod {
      w' := AskKeeps(s1, w1, Host, b);
      StillBusy(w, w1, w', i, InQuery(s.nextId));
    } else {
      w' := ConnectedKeeps(s1, w1, b);
      StillBusy(w, w1, w', i, OnSocket(s.nextId));
    }
  }

  lemma StillBusy(w: Witness, w1: Witness, w': Witness, i: nat, a: Activity)
    requires Busy(w) && i < |w.act| && w1.act == w.act[i := Unstarted] && w'.act == w1.act[i := a] && a != Unstarted
    ensures Busy(w')
  {
    assert w'.act == w.act[i := a];
  }

  /** A resolved print server: the block is freed and a connection started. */
  lemma ConnectedKeeps(s: State, w: Witness, b: nat) returns (w': Witness)
    requires Holding(s, w, Some(b))
    ensures var i := s.blocks[b].index;
            var p := s.printers[i].(s := Some(s.nextId), toSend := true,
                                    conn := R.State(R.Request(BUFSIZ, s.printers[i].name), R.Tally(0, true)));
            && Good(s.(blocks := s.blocks - {b}, sockets := s.sockets + {s.nextId}, printers := s.printers[i := p],
                       nextId := s.nextId + 1), w')
            && w'.act == w.act[i := OnSocket(s.nextId)]
  {
    hide ActivityOk, QueryOk, TimerOk, BlockOk, SocketOk;
    var i := s.blocks[b].index;
    FreeKeeps(s, w, b);
    StartedPrinter(s, w, i);
    var p := s.printers[i];
    w' := ConnectKeeps(s.(blocks := s.blocks - {b}), w, i,
      p.(s := Some(s.nextId), toSend := true, conn := R.State(R.Request(BUFSIZ, p.name), R.Tally(0, true))));
  }

  lemma StartedPrinter(s: State, w: Witness, i: nat)
    requires i < |s.printers| && exists hand :: Holding(s, w, hand)
    requires w.act[i] == Unstarted
    ensures s.printers[i].timer == None
  {
    assert ActivityOk(s, w, i);
  }

  lemma HangUpKeeps(s: State, w: Witness, i: nat, now: int) returns (w': Witness)
    requires Good(s, w) && Busy(w) && i < |s.printers| && s.printers[i].s.Some?
    ensures Good(HangUp(s, i, now), w') && Busy(w')
  {
    hide ActivityOk;
    hide QueryOk;
    hide TimerOk;
    hide BlockOk;
    hide SocketOk;
    var s1 := s.(sockets := s.sockets - {s.printers[i].s.value}, printers := s.printers[i := s.printers[i].(s := None)]);
    var w1 := CloseKeeps(s, w, i);
    w' := SleepKeeps(Alloc(s1, PrinterArgs(s.gen, i)), w1, s.nextId, now);
  }

  /** Changing what a connected printer has counted or buffered. */
  lemma TalkKeeps(s: State, w: Witness, i: nat, p: Printer)
    requires Good(s, w) && i < |s.printers| && s.printers[i].s.Some?
    requires p.s == s.printers[i].s && p.timer == s.printers[i].timer && |p.conn.partial| < BUFSIZ
    ensures Good(s.(printers := s.printers[i := p]), w)
  {
    assert ActivityOk(s, w, i);
    Elsewhere(s, w, s.(printers := s.printers[i := p]), w, i, s.nextId, None);
    assert SocketOk(s, w, s.printers[i].s.value);
  }

  lemma PollFiredKeeps(s: State, w: Witness, t: nat, now: int, hesiodOk: bool) returns (w': Witness)
    requires Good(s, w) && Busy(w) && t in s.timers && s.timers[t].func == PrinterPoll
    requires s.timers[t].arg in s.blocks && s.blocks[s.timers[t].arg].index < |s.printers|
    ensures Good(Poll(s.(timers := s.timers - {t}), s.timers[t].arg, hesiodOk, now), w') && Busy(w')
  {
    assert |w.act| == |s.printers|;
    hide Holding;
    var s1 := s.(timers := s.timers - {t});
    var w1 := FireKeeps(s, w, t);
    var b := s.timers[t].arg;
    var i := s.blocks[b].index;
    var s2 := s1.(printers := s1.printers[i := s1.printers[i].(timer := None)]);
    w' := PollKeeps(s2, w1, b, hesiodOk, now);
    assert Poll(s1, b, hesiodOk, now) == Poll(s2, b, hesiodOk, now);
  }

  lemma FiredKeeps(s: State, w: Witness, t: nat, now: int, hesiodOk: bool, machines: seq<nat>, wait: nat) returns (w': Witness)
    requires Good(s, w) && Busy(w) && Enabled(s, Fired(t, now, hesiodOk, machines, wait))
    ensures Touchable(s, Fired(t, now, hesiodOk, machines, wait))
    ensures Good(Advance(s, Fired(t, now, hesiodOk, machines, wait)), w') && Busy(w')
  {
    NeverDangling(s, w, Fired(t, now, hesiodOk, machines, wait));
    hide Holding, Good, Busy, Poll, WsAskAll, SetPlain;
    match s.timers[t].func
    case PrinterPoll => w' := PollFiredKeeps(s, w, t, now, hesiodOk);
    case WsPoll => w' := WsFiredKeeps(s, w, t, machines, now + wait);
    case Report => w' := ReportFiredKeeps(s, w, t, now + RETRY);
  }

  lemma WsFiredKeeps(s: State, w: Witness, t: nat, machines: seq<nat>, at: int) returns (w': Witness)
    requires Good(s, w) && Busy(w) && t in s.timers && s.timers[t].func != PrinterPoll
    requires forall m | m in machines :: m < s.nmachines
    ensures Good(SetPlain(WsAskAll(s.(timers := s.timers - {t}), machines), WsPoll, at), w') && Busy(w')
  {
    hide Holding;
    var s1 := s.(timers := s.timers - {t});
    DropPlainKeeps(s, w, t);
    w' := WsAskAllKeeps(s1, w, machines);
    SetPlainKeeps(WsAskAll(s1, machines), w', WsPoll, at);
  }

  lemma ReportFiredKeeps(s: State, w: Witness, t: nat, at: int) returns (w': Witness)
    requires Good(s, w) && Busy(w) && t in s.timers && s.timers[t].func != PrinterPoll
    ensures Good(SetPlain(s.(timers := s.timers - {t}), Report, at), w') && Busy(w')
  {
    hide Holding;
    DropPlainKeeps(s, w, t);
    SetPlainKeeps(s.(timers := s.timers - {t}), w, Report, at);
    w' := w;
  }

  /** Every event other than a failed reload keeps one activity per printer, one owner per
      block, and nothing dangling. */
  lemma StepKeeps(s: State, w: Witness, e: Event) returns (w': Witness)
    requires Good(s, w) && Busy(w) && Enabled(s, e) && !e.FailedHup?
    ensures Touchable(s, e)
    ensures Good(Advance(s, e), w') && Busy(w')
  {
    NeverDangling(s, w, e);
    match e
    case Answered(q, a, now) =>
      hide Holding;
      if s.queries[q].kind == WsHost {
        w' := WsCallbackKeeps(s, w, q);
      } else {
        w' := AnsweredKeeps(s, w, q, a, now);
      }
    case Fired(t, now, hesiodOk, machines, wait) =>
      hide Holding;
      w' := FiredKeeps(s, w, t, now, hesiodOk, machines, wait);
    case Writable(i, count, now) =>
      w' := WritableKeeps(s, w, i, count, now);
    case Readable(i, chunk, now) =>
      w' := ReadableKeeps(s, w, i, chunk, now);
    case Hup(names, nmachines, started, now) =>
      hide Holding;
      var w1 := RereadKeeps(s, w, names, nmachines);
      w' := StartPollsKeeps(Reread(s, names, nmachines), w1, 0, started, now);
  }

  lemma WritableKeeps(s: State, w: Witness, i: nat, count: Option<nat>, now: int) returns (w': Witness)
    requires Good(s, w) && Busy(w) && Enabled(s, Writable(i, count, now))
    ensures Good(HandleOutput(s, i, count, now), w') && Busy(w')
  {
    if count.None? {
      w' := HangUpKeeps(s, w, i, now);
    } else {
      assert ActivityOk(s, w, i);
      var p := s.printers[i];
      var rest := p.conn.partial[count.value..];
      TalkKeeps(s, w, i, p.(conn := p.conn.(partial := rest), toSend := if rest == [] then false else p.toSend));
      w' := w;
    }
  }

  lemma ReadableKeeps(s: State, w: Witness, i: nat, chunk: Option<string>, now: int) returns (w': Witness)
    requires Good(s, w) && Busy(w) && Enabled(s, Readable(i, chunk, now))
    ensures Good(HandleInput(s, i, chunk, now), w') && Busy(w')
  {
    assert ActivityOk(s, w, i);
    var p := s.printers[i];
    if chunk.None? || chunk.value == [] {
      var p' := p.(jobs := p.conn.tally.jobs, up := p.conn.tally.up);
      TalkKeeps(s, w, i, p');
      w' := HangUpKeeps(s.(printers := s.printers[i := p']), w, i, now);
    } else {
      R.TailLength(p.conn.partial + chunk.value);
      TalkKeeps(s, w, i, p.(conn := R.Feed(BUFSIZ, p.conn, chunk.value)));
      w' := w;
    }
  }

  ghost predicate Proper(s: State) { exists w :: Good(s, w) && Busy(w) }

  ghost predicate History(states: seq<State>, events: seq<Event>) {
    && |states| == |events| + 1
    && forall k | 0 <= k < |events| ::
         Enabled(states[k], events[k]) && Touchable(states[k], events[k]) && states[k + 1] == Advance(states[k], events[k])
  }

  /** What the invariant says about one state: one activity for every printer, one owner for
      every block, nothing pending that points outside the current configuration. */
  ghost predicate Sound(s: State) {
    && (forall i: nat | i < |s.printers| :: |Activities(s, i)| == 1)
    && (forall b | b in s.blocks :: |Owners(s, b)| == 1)
    && (forall q | q in s.queries :: s.queries[q].block in s.blocks && s.blocks[s.queries[q].block].gen == s.gen)
    && (forall t | t in s.timers && s.timers[t].func == PrinterPoll ::
          s.timers[t].arg in s.blocks && s.blocks[s.timers[t].arg].gen == s.gen)
    && (forall i: nat | i < |s.printers| && s.printers[i].s.Some? :: s.printers[i].s.value in s.sockets)
    && (forall fd | fd in s.sockets :: exists i: nat :: i < |s.printers| && s.printers[i].s == Some(fd))
  }

  lemma ProperIsSound(s: State)
    requires Proper(s)
    ensures Sound(s)
  {
    var w :| Good(s, w) && Busy(w);
    forall i: nat | i < |s.printers| ensures |Activities(s, i)| == 1 {
      OneActivity(s, w, i);
      assert w.act[i] in w.act;
    }
    forall b | b in s.blocks ensures |Owners(s, b)| == 1 {
      OneOwner(s, w, b);
    }
    NothingDangles(s, w);
    SocketsInUse(s, w);
  }

  /** The open sockets are exactly those of printers. */
  lemma SocketsInUse(s: State, w: Witness)
    requires Good(s, w)
    ensures forall i: nat | i < |s.printers| && s.printers[i].s.Some? :: s.printers[i].s.value in s.sockets
    ensures forall fd | fd in s.sockets :: exists i: nat :: i < |s.printers| && s.printers[i].s == Some(fd)
  {
    forall i: nat | i < |s.printers| && s.printers[i].s.Some?
      ensures s.printers[i].s.value in s.sockets
    {
      assert ActivityOk(s, w, i);
    }
    forall fd | fd in s.sockets
      ensures exists i: nat :: i < |s.printers| && s.printers[i].s == Some(fd)
    {
      assert SocketOk(s, w, fd);
      assert ActivityOk(s, w, w.sock[fd]);
    }
  }

  /** The main result: in every run in which each reload parses, every state is sound. */
  lemma {:induction false} EveryRunIsSound(states: seq<State>, events: seq<Event>, k: nat)
    requires History(states, events) && Proper(states[0]) && k <= |events|
    requires forall e | e in events :: !e.FailedHup?
    ensures Proper(states[k]) && Sound(states[k])
    ensures forall e | Enabled(states[k], e) :: Touchable(states[k], e)
  {
    hide Sound, Good, Enabled, Touchable, Advance;
    if k > 0 {
      EveryRunIsSound(states, events, k - 1);
      var w :| Good(states[k - 1], w) && Busy(w);
      var w' := StepKeeps(states[k - 1], w, events[k - 1]);
    }
    ProperIsSound(states[k]);
    var w :| Good(states[k], w) && Busy(w);
    forall e | Enabled(states[k], e)
      ensures Touchable(states[k], e)
    {
      NeverDangling(states[k], w, e);
    }
  }

  /** The configuration just read, with nothing pending. */
  function Unstirred(names: seq<string>, nmachines: nat): State {
    State(0, seq(|names|, j requires 0 <= j < |names| => NewPrinter([], names[j])), nmachines, map[], map[], map[], {}, 0)
  }

  /** The daemon when it enters its main loop: workstations asked for and the next pass over them
      set, polls started, and the report set. */
  function StartUp(names: seq<string>, nmachines: nat, machines: seq<nat>, wait: nat, started: nat -> bool, now: int): State {
    var s1 := SetPlain(WsAskAll(Unstirred(names, nmachines), machines), WsPoll, now + wait);
    SetPlain(StartPolls(s1, 0, started, now), Report, now + RETRY)
  }

  lemma StartUpIsProper(names: seq<string>, nmachines: nat, machines: seq<nat>, wait: nat, started: nat -> bool, now: int)
    requires forall m | m in machines :: m < nmachines
    ensures Proper(StartUp(names, nmachines, machines, wait, started, now))
  {
    var s0 := Unstirred(names, nmachines);
    var w := UnstirredIsGood(names, nmachines);
    AskAllCounts(s0, machines);
    hide Good, Unstirred, StartPolls;
    var w1 := WsAskAllKeeps(s0, w, machines);
    var s1 := WsAskAll(s0, machines);
    SetPlainKeeps(s1, w1, WsPoll, now + wait);
    hide WsAskAll;
    var s2 := SetPlain(s1, WsPoll, now + wait);
    var w2 := StartPollsKeeps(s2, w1, 0, started, now);
    SetPlainKeeps(StartPolls(s2, 0, started, now), w2, Report, now + RETRY);
  }

  lemma UnstirredIsGood(names: seq<string>, nmachines: nat) returns (w: Witness)
    ensures Good(Unstirred(names, nmachines), w) && |w.act| == |names|
    ensures |Unstirred(names, nmachines).printers| == |names| && Unstirred(names, nmachines).nmachines == nmachines
    ensures forall i | 0 <= i < |w.act| :: w.act[i] == Unstarted
  {
    w := Witness(seq(|names|, _ => Unstarted), map[], map[]);
  }

  lemma {:induction false} AskAllCounts(s: State, machines: seq<nat>)
    ensures WsAskAll(s, machines).printers == s.printers
    decreases |machines|
  {
    if machines != [] { AskAllCounts(WsAsk(s, machines[0]), machines[1..]); }
  }

  // ----- One reply within a run -----

  /** The event ends the connection of printer `i`. */
  predicate Ends(e: Event, i: nat) {
    match e
    case Readable(j, chunk, _) => j == i && (chunk.None? || chunk.value == [])
    case Writable(j, count, _) => j == i && count.None?
    case Hup(_, _, _, _) => true
    case FailedHup(_, _) => true
    case _ => false
  }

  /** What is read from printer `i`, read by read. */
  function ReadsOf(events: seq<Event>, i: nat): seq<string> {
    if events == [] then []
    else
      var n := |events| - 1;
      var before := ReadsOf(events[..n], i);
      match events[n]
      case Readable(j, Some(chunk), _) => if j == i then before + [chunk] else before
      case _ => before
  }

  /** Printer `i` is connected and has been sent its request; `conn` is what came back so far. */
  ghost predicate Reading(s: State, i: nat, fd: nat, conn: R.State) {
    i < |s.printers| && s.printers[i].s == Some(fd) && !s.printers[i].toSend && s.printers[i].conn == conn
  }

  /** Until its connection ends, only its own reads change what a printer has received. */
  lemma ReadingStep(s: State, w: Witness, e: Event, i: nat, fd: nat, conn: R.State)
    requires Good(s, w) && Busy(w) && Enabled(s, e) && Touchable(s, e) && Reading(s, i, fd, conn) && !Ends(e, i)
    ensures Reading(Advance(s, e), i, fd, match e
                                          case Readable(j, Some(chunk), _) => if j == i then R.Feed(BUFSIZ, conn, chunk) else conn
                                          case _ => conn)
  {
    hide Good, Busy;
    match e
    case Answered(q, a, now) => AnswerElsewhere(s, w, q, a, now, i);
    case Fired(t, now, hesiodOk, machines, wait) => FiredElsewhere(s, w, t, now, hesiodOk, machines, wait, i);
    case Writable(j, count, now) =>
    case Readable(j, chunk, now) =>
  }

  /** An answer concerns a printer that is not connected. */
  lemma AnswerElsewhere(s: State, w: Witness, q: nat, a: Answer, now: int, i: nat)
    requires Good(s, w) && Enabled(s, Answered(q, a, now)) && Touchable(s, Answered(q, a, now))
    requires i < |s.printers| && s.printers[i].s.Some?
    ensures var s' := Advance(s, Answered(q, a, now)); i < |s'.printers| && s'.printers[i] == s.printers[i]
  {
    assert ActivityOk(s, w, i) && QueryOk(s, w, q);
    hide Holding, ActivityOk;
  }

  /** So does a timer. */
  lemma FiredElsewhere(s: State, w: Witness, t: nat, now: int, hesiodOk: bool, machines: seq<nat>, wait: nat, i: nat)
    requires Good(s, w) && Enabled(s, Fired(t, now, hesiodOk, machines, wait))
    requires Touchable(s, Fired(t, now, hesiodOk, machines, wait))
    requires i < |s.printers| && s.printers[i].s.Some?
    ensures var s' := Advance(s, Fired(t, now, hesiodOk, machines, wait)); i < |s'.printers| && s'.printers[i] == s.printers[i]
  {
    assert ActivityOk(s, w, i) && TimerOk(s, w, t);
    hide Holding, ActivityOk;
    AskAllCounts(s.(timers := s.timers - {t}), machines);
    hide WsAskAll;
  }

  lemma {:induction false} ReadingRun(states: seq<State>, events: seq<Event>, from: nat, end: nat, i: nat, fd: nat)
    requires History(states, events) && Proper(states[0]) && from <= end <= |events|
    requires Reading(states[from], i, fd, R.State([], R.Tally(0, true)))
    requires forall k | from <= k < end :: !Ends(events[k], i)
    requires forall k | 0 <= k < from :: !events[k].FailedHup?
    ensures var start, got := R.State([], R.Tally(0, true)), ReadsOf(events[from..end], i);
            && R.LegalReads(BUFSIZ, start, got) && Reading(states[end], i, fd, R.FeedAll(BUFSIZ, start, got))
            && Proper(states[end])
    decreases end
  {
    hide Advance, Enabled, Touchable, Good, Busy, R.Feed;
    if end == from {
      ProperUpTo(states, events, from);
      assert events[from..end] == [];
    } else {
      ReadingRun(states, events, from, end - 1, i, fd);
      var e, s, es := events[end - 1], states[end - 1], events[from..end];
      var start, got := R.State([], R.Tally(0, true)), ReadsOf(events[from..end - 1], i);
      assert es[..|es| - 1] == events[from..end - 1] && es[|es| - 1] == e;
      var w :| Good(s, w) && Busy(w);
      assert !Ends(e, i);
      var w' := StepKeeps(s, w, e);
      ReadingStep(s, w, e, i, fd, R.FeedAll(BUFSIZ, start, got));
      if e.Readable? && e.i == i {
        ReadSize(s, e);
        R.FeedSnoc(BUFSIZ, start, got, e.chunk.value);
      }
    }
  }

  lemma ReadSize(s: State, e: Event)
    requires Enabled(s, e) && e.Readable? && !Ends(e, e.i)
    ensures e.i < |s.printers| && 0 < |e.chunk.value| <= BUFSIZ - |s.printers[e.i].conn.partial|
  {
  }

  lemma {:induction false} ProperUpTo(states: seq<State>, events: seq<Event>, k: nat)
    requires History(states, events) && Proper(states[0]) && k <= |events|
    requires forall j | 0 <= j < k :: !events[j].FailedHup?
    ensures Proper(states[k])
  {
    hide Advance, Enabled, Touchable, Good, Busy;
    if k > 0 {
      ProperUpTo(states, events, k - 1);
      var w :| Good(states[k - 1], w) && Busy(w);
      var w' := StepKeeps(states[k - 1], w, events[k - 1]);
    }
  }

  /** In any run, whatever happens to other printers and machines in between: when a printer's reply
      ends, its job count and status are those of the lines of all that was read from it since the
      request was sent, each cut to what the buffer keeps. */
  lemma ReplyCounted(states: seq<State>, events: seq<Event>, from: nat, end: nat, i: nat, fd: nat)
    requires History(states, events) && Proper(states[0]) && from <= end < |events|
    requires Reading(states[from], i, fd, R.State([], R.Tally(0, true)))
    requires forall k | from <= k < end :: !Ends(events[k], i)
    requires forall k | 0 <= k < from :: !events[k].FailedHup?
    requires events[end].Readable? && Ends(events[end], i)
    ensures var lines := R.Lines(R.Join(ReadsOf(events[from..end], i)));
            var tally := R.NoteAll(R.Tally(0, true), R.TrimAll(BUFSIZ, lines));
            && i < |states[end + 1].printers|
            && states[end + 1].printers[i].jobs == tally.jobs && states[end + 1].printers[i].up == tally.up
            && states[end + 1].printers[i].s == None
  {
    ReadingRun(states, events, from, end, i, fd);
    R.AnySplittingOfReply(BUFSIZ, R.Tally(0, true), ReadsOf(events[from..end], i));
    hide Proper, ReadsOf;
    assert states[end + 1] == Advance(states[end], events[end]);
  }

  // ----- The reload that does not parse -----

  function StartOne(s: State, k: nat, hesiodOk: bool, now: int): State
    requires k < |s.printers|
  {
    Poll(Alloc(s, PrinterArgs(s.gen, k)), s.nextId, hesiodOk, now)
  }

  /** Starting a poll never ends what was already pending. */
  lemma StartOneAdds(s: State, k: nat, hesiodOk: bool, now: int, i: nat)
    requires Fresh(s) && k < |s.printers| && i < |s.printers|
    ensures var s' := StartOne(s, k, hesiodOk, now);
      && Fresh(s') && |s'.printers| == |s.printers|
      && Activities(s, i) + (if i == k then {if hesiodOk then InQuery(s.nextId + 1) else OnTimer(s.nextId + 1)} else {}) <= Activities(s', i)
  {
    var s' := StartOne(s, k, hesiodOk, now);
    forall q | q in s.queries && RefersTo(s, s.queries[q].block, i) ensures q in s'.queries && RefersTo(s', s'.queries[q].block, i) {
    }
    forall t | t in s.timers && RefersTo(s, s.timers[t].arg, i) ensures t in s'.timers && RefersTo(s', s'.timers[t].arg, i) {
    }
    assert RefersTo(s', s.nextId, k);
  }

  lemma {:induction false} StartPollsAdd(s: State, k: nat, hesiodOk: nat -> bool, now: int, i: nat)
    requires Fresh(s) && i < |s.printers|
    ensures |StartPolls(s, k, hesiodOk, now).printers| == |s.printers|
    ensures Activities(s, i) <= Activities(StartPolls(s, k, hesiodOk, now), i)
    decreases |s.printers| - k
  {
    hide Activities;
    hide Poll;
    if k < |s.printers| {
      StartOneAdds(s, k, hesiodOk(k), now, i);
      StartPollsAdd(StartOne(s, k, hesiodOk(k), now), k + 1, hesiodOk, now, i);
    }
  }

  /** When the new configuration does not parse, reread_config returns early but the polls are
      started all the same: the state stays sound exactly when there is no printer to poll. */
  lemma FailedReload(s: State, started: nat -> bool, now: int)
    requires Proper(s)
    ensures Sound(Advance(s, FailedHup(started, now))) <==> s.printers == []
  {
    hide Good;
    hide Activities;
    hide StartOne;
    var w :| Good(s, w) && Busy(w);
    if s.printers == [] {
      ProperIsSound(s);
    } else {
      GoodIsFresh(s, w);
      OldActivity(s, w, 0);
      var s1 := StartOne(s, 0, started(0), now);
      StartOneAdds(s, 0, started(0), now, 0);
      StartPollsAdd(s1, 1, started, now, 0);
      var s' := Advance(s, FailedHup(started, now));
      assert s' == StartPolls(s1, 1, started, now) by { StartPollsUnfold(s, started, now); }
      var extra := if started(0) then InQuery(s.nextId + 1) else OnTimer(s.nextId + 1);
      TwoInside(Activities(s', 0), w.act[0], extra);
    }
  }

  lemma StartPollsUnfold(s: State, hesiodOk: nat -> bool, now: int)
    requires s.printers != []
    ensures StartPolls(s, 0, hesiodOk, now) == StartPolls(StartOne(s, 0, hesiodOk(0), now), 1, hesiodOk, now)
  {
  }

  lemma GoodIsFresh(s: State, w: Witness)
    requires Good(s, w)
    ensures Fresh(s) && |w.act| == |s.printers|
  {
  }

  /** What is pending has an identifier that was given out before. */
  lemma OldActivity(s: State, w: Witness, i: nat)
    requires Good(s, w) && Busy(w) && i < |s.printers|
    ensures i < |w.act| && w.act[i] in Activities(s, i)
    ensures w.act[i] != InQuery(s.nextId + 1) && w.act[i] != OnTimer(s.nextId + 1)
  {
    OneActivity(s, w, i);
    assert w.act[i] in w.act;
    assert ActivityOk(s, w, i);
  }

  lemma TwoInside<T>(xs: set<T>, a: T, b: T)
    requires a in xs && b in xs && a != b
    ensures |xs| >= 2
  {
    assert {a, b} <= xs;
    assert |xs| == |{a, b}| + |xs - {a, b}|;
  }

  // ----- The daemon itself -----

  class Daemon {
    var gen: nat
    var printers: seq<Printer>
    var nmachines: nat
    var blocks: map<nat, Block>
    var queries: map<nat, Query>
    var timers: Queue<nat>
    var sockets: set<nat>
    var nextId: nat

    ghost function Now(): State
      reads this
    {
      State(gen, printers, nmachines, blocks, queries, timers, sockets, nextId)
    }

    /** make_pargs. */
    method MakePargs(i: nat) returns (b: nat)
      modifies this`blocks, this`nextId
      ensures b == old(nextId) && Now() == Alloc(old(Now()), PrinterArgs(gen, i))
    {
      b := nextId;
      blocks := blocks[b := PrinterArgs(gen, i)];
      nextId := nextId + 1;
    }

    /** printer->timer = timer_set_rel(60, printer_poll, pargs). */
    method SetTimer(b: nat, now: int)
      requires Holds(Now(), b)
      modifies this`timers, this`printers, this`nextId
      ensures Now() == Sleep(old(Now()), b, now)
    {
      var i := blocks[b].index;
      timers := timers[nextId := Entry(now + RETRY, PrinterPoll, b)];
      printers := printers[i := printers[i].(timer := Some(nextId))];
      nextId := nextId + 1;
    }

    method SendQuery(kind: Kind, b: nat)
      modifies this`queries, this`nextId
      ensures Now() == Ask(old(Now()), kind, b)
    {
      queries := queries[nextId := Query(kind, b)];
      nextId := nextId + 1;
    }

    /** printer_poll. */
    method DoPoll(b: nat, hesiodOk: bool, now: int)
      requires Holds(Now(), b)
      modifies this`timers, this`printers, this`queries, this`nextId
      ensures Now() == Poll(old(Now()), b, hesiodOk, now)
    {
      var i := blocks[b].index;
      printers := printers[i := printers[i].(timer := None)];
      if !hesiodOk {
        SetTimer(b, now);
        return;
      }
      SendQuery(Hesiod, b);
    }

    /** printer_start_polls. */
    method PrinterStartPolls(hesiodOk: nat -> bool, now: int)
      modifies this`blocks, this`timers, this`printers, this`queries, this`nextId
      ensures Now() == StartPolls(old(Now()), 0, hesiodOk, now)
    {
      var i := 0;
      while i < |printers|
        invariant i <= |printers| == |old(printers)| && gen == old(gen)
        invariant StartPolls(Now(), i, hesiodOk, now) == StartPolls(old(Now()), 0, hesiodOk, now)
      {
        var b := MakePargs(i);
        DoPoll(b, hesiodOk(i), now);
        i := i + 1;
      }
    }

    /** printer_hes_callback and printer_host_callback when the channel is destroyed, and
        poll_callback: all release the block they were given. */
    method HaltQuery(q: nat)
      requires q in queries && CanHalt(Now(), q)
      modifies this`queries, this`blocks
      ensures Now() == WsCallback(old(Now()), q)
    {
      var b := queries[q].block;
      queries := queries - {q};
      Free(b);
    }

    /** free: of a block that is allocated. */
    method Free(b: nat)
      requires b in blocks
      modifies this`blocks
      ensures blocks == old(blocks) - {b}
    {
      blocks := blocks - {b};
    }

    /** close: of a descriptor that is open. */
    method Close(fd: nat)
      requires fd in sockets
      modifies this`sockets
      ensures sockets == old(sockets) - {fd}
    {
      sockets := sockets - {fd};
    }

    /** timer_reset: of a timer that is pending. */
    method ResetTimer(t: nat) returns (arg: nat)
      requires t in timers
      modifies this`timers
      ensures arg == old(timers)[t].arg && timers == old(timers) - {t}
    {
      arg := timers[t].arg;
      timers := timers - {t};
    }

    /** ares_destroy, in whatever order the resolver keeps its queries. */
    method DestroyAll()
      requires Haltable(Now())
      modifies this`queries, this`blocks
      ensures Now() == DestroyChannel(old(Now()))
    {
      hide DestroyChannel, Haltable, CanHalt;
      ghost var s0 := Now();
      while queries != map[]
        invariant DestroyChannel(Now()) == DestroyChannel(s0) && Haltable(Now())
        invariant printers == s0.printers && nmachines == s0.nmachines && gen == s0.gen
        invariant timers == s0.timers && sockets == s0.sockets && nextId == s0.nextId
        decreases queries.Keys
      {
        var q :| q in queries;
        HaltThenDestroy(Now(), q);
        StillHaltable(Now(), q);
        HaltQuery(q);
      }
      NothingLeftToHalt(Now());
    }

    /** The printers' part of freeconfig; the records of the old configuration are gone after it. */
    method FreeConfiguration()
      requires Freeable(Now())
      modifies this`sockets, this`timers, this`blocks, this`printers, this`nmachines
      ensures Now() == FreeConfig(old(Now()), 0).(printers := [], nmachines := 0)
    {
      hide FreeConfig, Freeable;
      ghost var s0 := Now();
      AllLeft(s0);
      for i := 0 to |printers|
        invariant FreeConfig(Now(), i) == FreeConfig(s0, 0) && printers == s0.printers && nmachines == s0.nmachines
        invariant LeftToFree(Now(), i)
      {
        FreeOneThenRest(Now(), i);
        OneFreed(Now(), i);
        if printers[i].s.Some? {
          Close(printers[i].s.value);
        }
        if printers[i].timer.Some? {
          var arg := ResetTimer(printers[i].timer.value);
          Free(arg);
        }
      }
      NothingLeftToFree(Now());
      printers, nmachines := [], 0;
    }

    /** The loops of reread_config that carry the state of printers over by name. */
    method CopyPrinters(names: seq<string>) returns (copy: seq<Printer>)
      ensures |copy| == |names|
      ensures forall j | 0 <= j < |names| :: copy[j] == NewPrinter(printers, names[j])
    {
      copy := seq(|names|, j requires 0 <= j < |names| => NewPrinter([], names[j]));
      for i := 0 to |printers|
        invariant |copy| == |names|
        invariant forall j | 0 <= j < |names| :: copy[j] == NewPrinter(printers[..i], names[j])
      {
        assert printers[..i + 1][..i] == printers[..i];
        for j := 0 to |names|
          invariant |copy| == |names|
          invariant forall k | 0 <= k < j :: copy[k] == NewPrinter(printers[..i + 1], names[k])
          invariant forall k | j <= k < |names| :: copy[k] == NewPrinter(printers[..i], names[k])
        {
          if printers[i].name == copy[j].name {
            copy := copy[j := copy[j].(up := printers[i].up, jobs := printers[i].jobs)];
          }
        }
      }
      assert printers[..|printers|] == printers;
    }

    /** reread_config with a configuration that parses: queries first, since their callbacks
        still look at the old printers, then the old configuration, then the new one. */
    method RereadConfig(names: seq<string>, newMachines: nat)
      requires exists w :: Good(Now(), w)
      modifies this
      ensures Now() == Reread(old(Now()), names, newMachines)
    {
      ghost var s0 := Now();
      ghost var w :| Good(s0, w);
      GoodIsHaltable(s0, w);
      GoodIsFreeable(s0, w);
      hide Good, Haltable, Freeable, FreeConfig, NewPrinter;
      var copy := CopyPrinters(names);
      DestroyAll();
      StillFreeable(s0);
      FreeConfiguration();
      assert copy == seq(|names|, j requires 0 <= j < |names| => NewPrinter(s0.printers, names[j]));
      gen, nmachines, printers := gen + 1, newMachines, copy;
    }

    /** The top of the main loop after a SIGHUP whose configuration parses. */
    method Reload(names: seq<string>, newMachines: nat, hesiodOk: nat -> bool, now: int)
      requires Proper(Now())
      modifies this
      ensures Touchable(old(Now()), Hup(names, newMachines, hesiodOk, now))
      ensures Now() == Advance(old(Now()), Hup(names, newMachines, hesiodOk, now))
      ensures Proper(Now())
    {
      hide Good;
      ghost var s0 := Now();
      ghost var w :| Good(s0, w) && Busy(w);
      RereadConfig(names, newMachines);
      PrinterStartPolls(hesiodOk, now);
      ghost var w' := StepKeeps(s0, w, Hup(names, newMachines, hesiodOk, now));
    }

    /** The queries of one pass of ws_poll. */
    method AskMachines(machines: seq<nat>)
      modifies this`blocks, this`queries, this`nextId
      ensures Now() == WsAskAll(old(Now()), machines)
    {
      ghost var s0 := Now();
      for k := 0 to |machines|
        invariant WsAskAll(Now(), machines[k..]) == WsAskAll(s0, machines)
        invariant gen == old(gen) && printers == old(printers) && nmachines == old(nmachines)
      {
        assert machines[k..][0] == machines[k] && machines[k..][1..] == machines[k + 1..];
        var b := nextId;
        blocks := blocks[b := WsArgs(gen, machines[k])];
        queries := queries[b + 1 := Query(WsHost, b)];
        nextId := b + 2;
      }
    }

    /** timer_set_rel for ws_poll and report, whose arguments are not blocks. */
    method SetPlainTimer(func: Proc, at: int)
      modifies this`timers, this`nextId
      ensures Now() == SetPlain(old(Now()), func, at)
    {
      timers := timers[nextId := Entry(at, func, 0)];
      nextId := nextId + 1;
    }

    /** The configuration has been read. */
    constructor (names: seq<string>, nmachines: nat)
      ensures Now() == Unstirred(names, nmachines)
    {
      gen, this.nmachines := 0, nmachines;
      printers := seq(|names|, j requires 0 <= j < |names| => NewPrinter([], names[j]));
      blocks, queries, timers, sockets, nextId := map[], map[], map[], {}, 0;
    }

    /** From there to the main loop. */
    method Start(ghost names: seq<string>, machines: seq<nat>, wait: nat, started: nat -> bool, now: int)
      requires Now() == Unstirred(names, nmachines) && forall m | m in machines :: m < nmachines
      modifies this
      ensures Now() == StartUp(names, old(nmachines), machines, wait, started, now) && Proper(Now())
    {
      hide Proper, StartPolls, WsAskAll, Unstirred, SetPlain;
      AskMachines(machines);
      SetPlainTimer(WsPoll, now + wait);
      PrinterStartPolls(started, now);
      SetPlainTimer(Report, now + RETRY);
      StartUpIsProper(names, old(nmachines), machines, wait, started, now);
    }

    /** timer_process: the timer that went off is gone before its procedure is called. */
    method TimerFires(t: nat, now: int, hesiodOk: bool, machines: seq<nat>, wait: nat)
      requires Enabled(Now(), Fired(t, now, hesiodOk, machines, wait))
      requires Touchable(Now(), Fired(t, now, hesiodOk, machines, wait))
      modifies this
      ensures Now() == Advance(old(Now()), Fired(t, now, hesiodOk, machines, wait))
    {
      hide WsAskAll, Poll;
      var entry := timers[t];
      timers := timers - {t};
      match entry.func {
        case PrinterPoll => DoPoll(entry.arg, hesiodOk, now);
        case WsPoll =>
          AskMachines(machines);
          SetPlainTimer(WsPoll, now + wait);
        case Report => SetPlainTimer(Report, now + RETRY);
        case Botch =>
      }
    }

    method QueryAnswered(q: nat, a: Answer, now: int)
      requires Enabled(Now(), Answered(q, a, now)) && Touchable(Now(), Answered(q, a, now))
      modifies this
      ensures Now() == Advance(old(Now()), Answered(q, a, now))
    {
      hide HesCallback, HostCallback, WsCallback;
      match queries[q].kind {
        case WsHost => HaltQuery(q);
        case Hesiod => HesiodAnswer(q, a, now);
        case Host => HostAnswer(q, a, now);
      }
    }

    /** One event, handled by the daemon's own procedures: it does what the step relation says, and
        unless a reload failed the daemon is proper afterwards. */
    method Turn(e: Event)
      requires Proper(Now()) && Enabled(Now(), e)
      modifies this
      ensures Touchable(old(Now()), e) && Now() == Advance(old(Now()), e)
      ensures !e.FailedHup? ==> Proper(Now())
    {
      hide Good, Busy, Poll, HesCallback, HostCallback, WsCallback, WsAskAll, StartPolls, Reread, HandleInput, HandleOutput;
      ghost var s0 := Now();
      ghost var w :| Good(s0, w) && Busy(w);
      NeverDangling(s0, w, e);
      if !e.FailedHup? {
        ghost var w' := StepKeeps(s0, w, e);
      }
      match e {
        case Answered(q, a, now) => QueryAnswered(q, a, now);
        case Fired(t, now, hesiodOk, machines, wait) => TimerFires(t, now, hesiodOk, machines, wait);
        case Writable(i, count, now) => PrinterHandleOutput(i, count, now);
        case Readable(i, chunk, now) => PrinterHandleInput(i, chunk, now);
        case Hup(names, newMachines, started, now) => Reload(names, newMachines, started, now);
        case FailedHup(started, now) => PrinterStartPolls(started, now);
      }
    }

    /** Any run of the main loop: the daemon goes through exactly the states of the step relation,
        and every one of them is sound. */
    method Play(events: seq<Event>, ghost states: seq<State>)
      requires History(states, events) && Now() == states[0] && Proper(Now())
      requires forall e | e in events :: !e.FailedHup?
      modifies this
      ensures Now() == states[|events|] && Proper(Now())
      ensures forall k | 0 <= k <= |events| :: Sound(states[k])
    {
      hide Proper, Sound, Enabled, Touchable, Advance;
      for k := 0 to |events|
        invariant Now() == states[k] && Proper(Now())
      {
        assert events[k] in events;
        Turn(events[k]);
      }
      forall k | 0 <= k <= |events|
        ensures Sound(states[k])
      {
        EveryRunIsSound(states, events, k);
      }
    }

    /** printer_hes_callback with an answer. */
    method HesiodAnswer(q: nat, a: Answer, now: int)
      requires q in queries && Holds(Now(), queries[q].block)
      modifies this`queries, this`blocks, this`timers, this`printers, this`nextId
      ensures Now() == HesCallback(old(Now()), q, a, now)
    {
      var b := queries[q].block;
      queries := queries - {q};
      if a == Destroyed {
        Free(b);
        return;
      }
      if a == Failed {
        SetTimer(b, now);
        return;
      }
      SendQuery(Host, b);
    }

    /** printer_host_callback with an answer. */
    method HostAnswer(q: nat, a: Answer, now: int)
      requires q in queries && Holds(Now(), queries[q].block)
      modifies this`queries, this`blocks, this`timers, this`printers, this`sockets, this`nextId
      ensures Now() == HostCallback(old(Now()), q, a, now)
    {
      var b := queries[q].block;
      var i := blocks[b].index;
      queries := queries - {q};
      if a == Destroyed {
        Free(b);
        return;
      }
      if a == Failed {
        SetTimer(b, now);
        return;
      }
      sockets := sockets + {nextId};
      printers := printers[i := printers[i].(s := Some(nextId), toSend := true,
        conn := R.State(R.Request(BUFSIZ, printers[i].name), R.Tally(0, true)))];
      nextId := nextId + 1;
      Free(b);
    }

    method CloseAndRetry(i: nat, now: int)
      requires i < |printers| && printers[i].s.Some? && printers[i].s.value in sockets
      modifies this`blocks, this`timers, this`printers, this`sockets, this`nextId
      ensures Now() == HangUp(old(Now()), i, now)
    {
      Close(printers[i].s.value);
      printers := printers[i := printers[i].(s := None)];
      var b := MakePargs(i);
      SetTimer(b, now);
    }

    /** printer_handle_output. */
    method PrinterHandleOutput(i: nat, count: Option<nat>, now: int)
      requires i < |printers| && printers[i].s.Some? && printers[i].s.value in sockets
      requires count.Some? ==> count.value <= |printers[i].conn.partial|
      modifies this`blocks, this`timers, this`printers, this`sockets, this`nextId
      ensures Now() == HandleOutput(old(Now()), i, count, now)
    {
      if count.None? {
        CloseAndRetry(i, now);
        return;
      }
      var p := printers[i];
      var rest := p.conn.partial[count.value..];
      printers := printers[i := p.(conn := p.conn.(partial := rest))];
      if rest == [] {
        printers := printers[i := printers[i].(toSend := false)];
      }
    }

    /** printer_handle_input. */
    method PrinterHandleInput(i: nat, chunk: Option<string>, now: int)
      requires i < |printers| && printers[i].s.Some? && printers[i].s.value in sockets
      modifies this`blocks, this`timers, this`printers, this`sockets, this`nextId
      ensures Now() == HandleInput(old(Now()), i, chunk, now)
    {
      var p := printers[i];
      if chunk.None? || chunk.value == [] {
        printers := printers[i := p.(jobs := p.conn.tally.jobs, up := p.conn.tally.up)];
        CloseAndRetry(i, now);
        return;
      }
      printers := printers[i := p.(conn := R.Feed(BUFSIZ, p.conn, chunk.value))];
    }
  }

  lemma HaltThenDestroy(s: State, q: nat)
    requires q in s.queries
    ensures DestroyChannel(WsCallback(s, q)) == DestroyChannel(s)
  {
    var b := s.queries[q].block;
    assert Held(s.queries) == Held(s.queries - {q}) + {b} by {
      assert b in Held(s.queries);
      forall c | c in Held(s.queries) ensures c in Held(s.queries - {q}) || c == b {
        var r :| r in s.queries && s.queries[r].block == c;
        if r != q {
          assert r in s.queries - {q} && (s.queries - {q})[r].block == c;
        }
      }
    }
    assert (s.blocks - {b}) - Held(s.queries - {q}) == s.blocks - (Held(s.queries - {q}) + {b});
  }

  lemma NothingLeftToHalt(s: State)
    requires s.queries == map[]
    ensures DestroyChannel(s) == s
  {
    assert s.blocks - Held(s.queries) == s.blocks;
  }

  lemma NothingLeftToFree(s: State)
    ensures FreeConfig(s, |s.printers|) == s
  {
    var f := FreeConfig(s, |s.printers|);
    assert f.sockets == s.sockets && f.timers == s.timers && f.blocks == s.blocks;
  }

  /** Halting one query leaves the others to be halted. */
  lemma StillHaltable(s: State, q: nat)
    requires Haltable(s) && q in s.queries
    ensures CanHalt(s, q) && Haltable(WsCallback(s, q))
  {
    var s' := WsCallback(s, q);
    forall r | r in s'.queries
      ensures CanHalt(s', r)
    {
      assert CanHalt(s, r);
    }
  }

  /** Destroying the channel takes nothing away that freeing the printers needs. */
  lemma StillFreeable(s: State)
    requires Freeable(s)
    ensures Freeable(DestroyChannel(s))
  {
    forall i | 0 <= i < |s.printers| && s.printers[i].timer.Some?
      ensures s.timers[s.printers[i].timer.value].arg in DestroyChannel(s).blocks
    {
    }
  }

  /** What the loop over the printers from `k` on will close, reset and free. */
  ghost predicate LeftToFree(s: State, k: nat) {
    && (forall i | k <= i < |s.printers| && s.printers[i].timer.Some? ::
          s.printers[i].timer.value in s.timers && s.timers[s.printers[i].timer.value].arg in s.blocks)
    && (forall i | k <= i < |s.printers| && s.printers[i].s.Some? :: s.printers[i].s.value in s.sockets)
    && (forall i, j | k <= i < j < |s.printers| && s.printers[i].timer.Some? && s.printers[j].timer.Some? ::
          s.printers[i].timer != s.printers[j].timer
          && s.timers[s.printers[i].timer.value].arg != s.timers[s.printers[j].timer.value].arg)
    && (forall i, j | k <= i < j < |s.printers| && s.printers[i].s.Some? :: s.printers[i].s != s.printers[j].s)
  }

  lemma AllLeft(s: State)
    requires Freeable(s)
    ensures LeftToFree(s, 0)
  {
  }

  lemma OneFreed(s: State, i: nat)
    requires LeftToFree(s, i) && i < |s.printers|
    ensures LeftToFree(FreePrinter(s, i), i + 1)
  {
  }
}
