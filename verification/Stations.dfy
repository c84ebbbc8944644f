/** How larvnetd polls workstations (athena/etc/larvnetd/ws.c).  The clock and the arrival of
    packets are parameters; nothing is assumed about the clock, which may go backwards. */
module Stations {
  import opened Wrappers
  import opened Machines

  const POLLINT := 30 * 60
  const POLLTRIES := 8
  const POLLMAX := 20

  const SCHEDULE: seq<int> :=
    [0, 5, 5, 10, 10, 30, 30, 60, 60, 5 * 60, 5 * 60, 10 * 60, 10 * 60, 30 * 60, 30 * 60, 60 * 60, 60 * 60]


  /** The number of polls indexes the schedule; a machine that left more than eight unanswered is
      not known to be free or busy. */
  predicate Sound(m: Machine) {
    && 0 <= m.numpolls < |SCHEDULE|
    && (m.numpolls > POLLTRIES ==> m.busy == UNKNOWN_BUSYSTATE)
  }

  predicate Due(m: Machine, t: int)
    requires Sound(m)
  {
    t - m.laststatus >= POLLINT && t - m.lastpoll >= SCHEDULE[m.numpolls]
  }

  /** A machine once it has been polled. */
  function Polled(m: Machine, now: int): Machine
    requires Sound(m)
  {
    m.(busy := if m.numpolls == POLLTRIES then UNKNOWN_BUSYSTATE else m.busy,
       lastpoll := now,
       numpolls := if m.numpolls < |SCHEDULE| - 1 then m.numpolls + 1 else m.numpolls)
  }

  /** How long a machine can be left alone. */
  function Rest(m: Machine, now: int): int
    requires Sound(m)
  {
    if now - m.laststatus < POLLINT then m.laststatus + POLLINT - now
    else m.lastpoll + SCHEDULE[m.numpolls] - now
  }

  lemma ScheduleIsPositive(k: int)
    requires 0 <= k < |SCHEDULE|
    ensures 0 <= SCHEDULE[k] && (k > 0 ==> SCHEDULE[k] >= 5)
  {
  }

  /** After a pass every machine can be left alone for a second at least. */
  lemma RestIsPositive(m: Machine, now: int)
    requires Sound(m)
    ensures Sound(Polled(m, now))
    ensures !Due(m, now) ==> Rest(m, now) >= 1
    ensures Rest(Polled(m, now), now) >= 1
  {
    ScheduleIsPositive(Polled(m, now).numpolls);
  }

  /** That is exact: it ends with the half hour after the last packet, or, if that is over, when the
      machine becomes due. */
  lemma RestIsExact(m: Machine, now: int)
    requires Sound(m)
    ensures now - m.laststatus < 1800 ==> now + Rest(m, now) == m.laststatus + 1800
    ensures now - m.laststatus >= 1800 && !Due(m, now) ==> Due(m, now + Rest(m, now)) && !Due(m, now + Rest(m, now) - 1)
  {
  }

  /** Until then it does not become due. */
  lemma NotDueBefore(m: Machine, now: int, t: int)
    requires Sound(m) && now <= t < now + Rest(m, now)
    ensures !Due(m, t)
  {
  }

  /** A sleep that every machine can be left alone for passes over no machine's time. */
  lemma NoneDueMeanwhile(ms: seq<Machine>, now: int, nexttimeout: int, t: int)
    requires forall i | 0 <= i < |ms| :: Sound(ms[i]) && nexttimeout <= Rest(ms[i], now)
    requires now <= t < now + nexttimeout
    ensures forall i | 0 <= i < |ms| :: !Due(ms[i], t)
  {
    forall i | 0 <= i < |ms|
      ensures !Due(ms[i], t)
    {
      NotDueBefore(ms[i], now, t);
    }
  }

  /** When a machine becomes due: both waits are over. */
  function DueTime(m: Machine): int
    requires Sound(m)
  {
    var status, poll := m.laststatus + POLLINT, m.lastpoll + SCHEDULE[m.numpolls];
    if status < poll then poll else status
  }

  /** Some machine becomes due during the sleep. */
  ghost predicate Oversleeps(ms: seq<Machine>, now: int, nexttimeout: int)
    requires AllSound(ms)
  {
    exists i, t | 0 <= i < |ms| && now <= t < now + nexttimeout :: Due(ms[i], t)
  }

  ghost predicate DueWithin(ms: seq<Machine>, n: nat, t: int)
    requires AllSound(ms)
  {
    exists i | 0 <= i < n && i < |ms| :: DueTime(ms[i]) < t
  }

  /** A sleep that the machines from `start` on can be left alone for is too long exactly if it is
      too long for a machine before them. */
  lemma OversleepsIff(ms: seq<Machine>, start: nat, now: int, nexttimeout: int)
    requires AllSound(ms) && nexttimeout >= 1
    requires forall i | start <= i < |ms| :: nexttimeout <= Rest(ms[i], now)
    ensures Oversleeps(ms, now, nexttimeout) <==> DueWithin(ms, start, now + nexttimeout)
  {
    if i, t :| 0 <= i < |ms| && now <= t < now + nexttimeout && Due(ms[i], t) {
      if i >= start { NotDueBefore(ms[i], now, t); }
      assert DueTime(ms[i]) < now + nexttimeout;
    }
    if i :| 0 <= i < start && i < |ms| && DueTime(ms[i]) < now + nexttimeout {
      var t := if DueTime(ms[i]) < now then now else DueTime(ms[i]);
      assert Due(ms[i], t);
    }
  }

  ghost predicate AllSound(ms: seq<Machine>) { forall i | 0 <= i < |ms| :: Sound(ms[i]) }

  /** Where a pass that sent polls to `sent` stopped looking. */
  function Stop(start: nat, n: nat, sent: seq<nat>): nat {
    if |sent| >= POLLMAX then sent[|sent| - 1] + 1 else if start <= n then n else start
  }

  /** The machines from `start` up to `stop` were polled if and only if they were due. */
  ghost predicate Pass(ms: seq<Machine>, ms': seq<Machine>, start: nat, stop: nat, now: int, sent: seq<nat>) {
    && AllSound(ms) && AllSound(ms') && |ms'| == |ms|
    && (forall k | 0 <= k < |sent| :: start <= sent[k] < stop && sent[k] < |ms|)
    && (forall j, k | 0 <= j < k < |sent| :: sent[j] < sent[k])
    && (forall i | start <= i < stop && i < |ms| :: i in sent <==> Due(ms[i], now))
    && (forall i | 0 <= i < |ms| :: ms'[i] == if i in sent then Polled(ms[i], now) else ms[i])
  }

  lemma PassSkips(ms: seq<Machine>, ms': seq<Machine>, start: nat, stop: nat, now: int, sent: seq<nat>)
    requires Pass(ms, ms', start, stop, now, sent) && start <= stop < |ms| && !Due(ms[stop], now)
    ensures Pass(ms, ms', start, stop + 1, now, sent)
  {
  }

  lemma PassPolls(ms: seq<Machine>, ms': seq<Machine>, start: nat, stop: nat, now: int, sent: seq<nat>)
    requires Pass(ms, ms', start, stop, now, sent) && start <= stop < |ms| && Due(ms[stop], now)
    ensures ms'[stop] == ms[stop]
    ensures Pass(ms, ms'[stop := Polled(ms[stop], now)], start, stop + 1, now, sent + [stop])
  {
    assert stop !in sent;
    RestIsPositive(ms[stop], now);
  }

  class Poller {
    var machines: seq<Machine>
    var startmachine: nat

    ghost predicate Valid()
      reads this
    {
      AllSound(machines) && InOrder(machines)
    }

    /** The machines of a configuration just read. */
    constructor (ms: seq<Machine>)
      requires InOrder(ms) && forall m | m in ms :: m == NewMachine(m.name, m.cluster)
      ensures Valid() && machines == ms && startmachine == 0
    {
      machines := ms;
      startmachine := 0;
      new;
      forall i | 0 <= i < |ms|
        ensures Sound(ms[i])
      {
        assert ms[i] in ms;
      }
    }

    /** One pass.  At most twenty machines are polled, in order, the due ones only; the next pass is
        at most half an hour away and at least a second.  A pass that comes to the end sleeps no
        longer than the first machine that it looked at can be left alone. */
    method WsPoll(now: int) returns (sent: seq<nat>, nexttimeout: int)
      requires Valid()
      modifies this
      ensures Valid() && |machines| == |old(machines)| && |sent| <= POLLMAX && 1 <= nexttimeout <= POLLINT
      ensures Pass(old(machines), machines, old(startmachine), Stop(old(startmachine), |machines|, sent), now, sent)
      ensures |sent| == POLLMAX ==> nexttimeout == 1 && startmachine == sent[POLLMAX - 1] + 1
      ensures |sent| < POLLMAX ==> startmachine == if old(startmachine) <= |machines| then 0 else old(startmachine)
      ensures |sent| < POLLMAX ==>
                forall i | old(startmachine) <= i < |machines| :: nexttimeout <= Rest(machines[i], now)
      ensures |sent| < POLLMAX && nexttimeout < POLLINT ==>
                exists i | old(startmachine) <= i < |machines| :: nexttimeout == Rest(machines[i], now)
      ensures |sent| < POLLMAX ==>
                (Oversleeps(machines, now, nexttimeout) <==> DueWithin(machines, old(startmachine), now + nexttimeout))
    {
      hide Rest, Due, Polled, Oversleeps, DueWithin;
      ghost var ms, n := machines, |machines|;
      sent, nexttimeout := [], POLLINT;
      var i := startmachine;
      while i < |machines|
        invariant startmachine == old(startmachine) <= i && |machines| == n && (startmachine <= n ==> i <= n)
        invariant startmachine > n ==> i == startmachine
        invariant Pass(ms, machines, startmachine, i, now, sent)
        invariant |sent| < POLLMAX && 1 <= nexttimeout <= POLLINT
        invariant forall j | startmachine <= j < i && j < n :: nexttimeout <= Rest(machines[j], now)
        invariant nexttimeout < POLLINT ==>
                    exists j | startmachine <= j < i && j < n :: nexttimeout == Rest(machines[j], now)
        decreases n - i
      {
        var machine := machines[i];
        Untouched(ms, machines, startmachine, i, now, sent);
        RestIsPositive(machine, now);
        if Due(machine, now) {
          PassPolls(ms, machines, startmachine, i, now, sent);
          machines := machines[i := Polled(machine, now)];
          sent := sent + [i];
          if |sent| >= POLLMAX {
            nexttimeout := 1;
            PassKeepsOrder(ms, machines, startmachine, i + 1, now, sent);
            startmachine := i + 1;
            return;
          }
        } else {
          PassSkips(ms, machines, startmachine, i, now, sent);
        }
        var nextpoll := Rest(machines[i], now);
        if nexttimeout > nextpoll {
          nexttimeout := nextpoll;
        }
        i := i + 1;
      }
      if i == |machines| {
        startmachine := 0;
      }
      PassKeepsOrder(ms, machines, old(startmachine), Stop(old(startmachine), n, sent), now, sent);
      OversleepsIff(machines, old(startmachine), now, nexttimeout);
    }

    /** Passes without a reload between them.  As long as `startmachine` is within the list it stays
        there, and a machine that is due all the time is polled within a bounded number of passes;
        once it is beyond the list, no machine is ever polled again. */
    method WsPolls(clocks: seq<int>) returns (log: seq<seq<nat>>)
      requires Valid()
      modifies this
      ensures Valid() && |machines| == |old(machines)| && |log| == |clocks|
      ensures startmachine <= |machines| <==> old(startmachine) <= |machines|
      ensures old(startmachine) > |machines| ==> machines == old(machines) && forall sent | sent in log :: sent == []
      ensures forall i: nat | old(startmachine) <= |machines| && i < |machines| && StaysDue(old(machines)[i], clocks)
                              && Turns(old(startmachine), i, |machines|) <= |clocks| :: PolledIn(log, i)
    {
      hide Due, Pass, Turns, InOrder;
      log := [];
      ghost var ms, n, s0 := machines, |machines|, startmachine;
      for k := 0 to |clocks|
        invariant Valid() && |machines| == n && |log| == k
        invariant startmachine <= n <==> s0 <= n
        invariant s0 > n ==> machines == ms && forall sent | sent in log :: sent == []
        invariant forall i: nat | s0 <= n && i < n && StaysDue(ms[i], clocks) && !PolledIn(log, i) ::
                    machines[i] == ms[i] && Turns(startmachine, i, n) + k <= Turns(s0, i, n)
      {
        ghost var before, start := machines, startmachine;
        var sent, _ := WsPoll(clocks[k]);
        PassSends(before, machines, start, Stop(start, n, sent), clocks[k], sent);
        ghost var log0 := log;
        log := log + [sent];
        forall i: nat | s0 <= n && i < n && StaysDue(ms[i], clocks) && !PolledIn(log, i)
          ensures machines[i] == ms[i] && Turns(startmachine, i, n) + k + 1 <= Turns(s0, i, n)
        {
          StillUnpolled(log0, sent, i);
          assert Due(ms[i], clocks[k]);
          PassProgress(before, machines, start, startmachine, clocks[k], sent, i);
        }
      }
      forall i: nat | s0 <= n && i < n && StaysDue(ms[i], clocks) && Turns(s0, i, n) <= |clocks|
        ensures PolledIn(log, i)
      {
        TurnsPositive(startmachine, i, n);
      }
    }

    /** A status packet: a machine of the name it gives, in any case, is known again. */
    method HandleStatus(packet: string, now: int) returns (k: Option<nat>)
      requires Valid()
      modifies this`machines
      ensures Valid() && |machines| == |old(machines)|
      ensures k.None? ==> machines == old(machines)
      ensures k.None? <==>
                Parse(packet).None? || NoneNamed(old(machines), Parse(packet).value.name)
      ensures k.Some? ==> Parse(packet).Some? && k.value < |machines|
                          && SameName(old(machines)[k.value].name, Parse(packet).value.name)
                          && machines == old(machines)[k.value := machines[k.value]]
      ensures k.Some? ==>
                var was, s := old(machines)[k.value], Parse(packet).value;
                machines[k.value] == Machine(was.name, was.cluster, s.busy, Some(s.arch), now, was.lastpoll, 0)
    {
      hide Strlen, SameName, InOrder;
      if packet == "" {
        return None;
      }
      var busy := if packet[0] == '1' then BUSY else if packet[0] == '0' then FREE else UNKNOWN_BUSYSTATE;
      var len := Strlen(packet, 1);
      if len + 2 >= |packet| {
        return None;
      }
      var archlen := Strlen(packet, len + 2);
      var name, arch := packet[1..len + 1], packet[len + 2..len + 2 + archlen];
      ParseIs(packet, len, archlen);
      k := WsFind(machines, name);
      if k.Some? {
        assert machines[k.value] in machines;
        var was := machines;
        machines := machines[k.value := machines[k.value].(busy := busy, arch := Some(arch), laststatus := now, numpolls := 0)];
        OrderKept(was, machines);
      }
    }

    /** Passes and packets in any order.  What is known of a machine afterwards is what its history
        says: it is polled when it has been silent for half an hour and the wait that goes with the
        number of unanswered polls is over, its state is that of its last packet, and is unknown once
        more than eight polls since then have gone unanswered. */
    method Serve(inputs: seq<Input>) returns (deeds: seq<Deed>)
      requires Valid()
      modifies this
      ensures Valid() && |machines| == |old(machines)| && |deeds| == |inputs|
      ensures forall i: nat | i < |machines| :: AsTracked(machines[i], old(machines)[i], TrackOf(old(machines)[i], deeds, i))
      ensures forall i: nat | i < |machines| :: PollsInTime(old(machines)[i], deeds, i)
      ensures forall k | 0 <= k < |deeds| :: Follows(inputs[k], deeds[k], old(machines))
    {
      hide Due, Pass, InOrder, AsTracked, SameName, Parse;
      deeds := [];
      ghost var ms := machines;
      AllTracked(ms);
      for k := 0 to |inputs|
        invariant Valid() && |machines| == |ms| && |deeds| == k && AllTrackedAs(machines, ms, deeds)
        invariant forall i: nat | i < |ms| :: PollsInTime(ms[i], deeds, i)
        invariant forall j | 0 <= j < k :: Follows(inputs[j], deeds[j], ms)
      {
        ghost var before, start := machines, startmachine;
        NamesTracked(before, ms, deeds);
        match inputs[k] {
          case Turn(now) =>
            var sent, _ := WsPoll(now);
            SentTracked(ms, before, machines, deeds, start, Stop(start, |ms|, sent), now, sent);
            deeds := deeds + [Sent(now, sent)];
          case Packet(text, now) =>
            var heard := HandleStatus(text, now);
            var deed := Heard(heard, if heard.Some? then machines[heard.value].busy else UNKNOWN_BUSYSTATE, now);
            HeardTracked(ms, before, machines, deeds, deed);
            deeds := deeds + [deed];
        }
      }
    }

    /** A reload: the state of each old machine is copied to one of its name in the new list, and
        `startmachine` stays what it was, even beyond the end of the new list. */
    method Reload(newconf: seq<Machine>)
      requires Valid() && InOrder(newconf) && forall m | m in newconf :: m == NewMachine(m.name, m.cluster)
      modifies this`machines
      ensures Valid() && |machines| == |newconf| && startmachine == old(startmachine)
      ensures forall i | 0 <= i < |newconf| ::
                machines[i] == newconf[i] || CarriedFrom(newconf[i], machines[i], old(machines))
      ensures forall m | m in old(machines) && Configured(newconf, m.name) ::
                Found(newconf, machines, old(machines), m.name)
    {
      machines := CopyMachines(machines, newconf);
    }
  }

  /** The loop of reread_config that carries the state of workstations over by name. */
  method CopyMachines(olds: seq<Machine>, newconf: seq<Machine>) returns (ms: seq<Machine>)
    requires AllSound(olds) && InOrder(newconf) && forall m | m in newconf :: m == NewMachine(m.name, m.cluster)
    ensures |ms| == |newconf| && AllSound(ms) && InOrder(ms)
    ensures forall i | 0 <= i < |newconf| :: ms[i] == newconf[i] || CarriedFrom(newconf[i], ms[i], olds)
    ensures forall o | o in olds && Configured(newconf, o.name) :: Found(newconf, ms, olds, o.name)
  {
    hide InOrder, SameName, CarriedFrom;
    ms := newconf;
    forall i | 0 <= i < |ms|
      ensures Sound(ms[i])
    {
      assert ms[i] in ms;
    }
    for j := 0 to |olds|
      invariant |ms| == |newconf| && AllSound(ms) && InOrder(ms)
      invariant forall i | 0 <= i < |ms| :: ms[i].name == newconf[i].name && ms[i].cluster == newconf[i].cluster
      invariant forall i | 0 <= i < |ms| :: ms[i] == newconf[i] || CarriedFrom(newconf[i], ms[i], olds)
      invariant forall k | 0 <= k < j && Configured(newconf, olds[k].name) :: Found(newconf, ms, olds, olds[k].name)
    {
      var at := WsFind(ms, olds[j].name);
      if at.Some? {
        var i, was := at.value, ms;
        ms := ms[i := Carry(ms[i], olds[j])];
        OrderKept(was, ms);
        CarriedOne(newconf[i], olds, j);
        assert Found(newconf, ms, olds, olds[j].name);
        StillFound(newconf, was, ms, olds, i);
      }
    }
  }

  ghost predicate Configured(newconf: seq<Machine>, name: string) {
    exists i :: 0 <= i < |newconf| && SameName(newconf[i].name, name)
  }

  lemma CarriedOne(m: Machine, olds: seq<Machine>, j: nat)
    requires j < |olds| && SameName(m.name, olds[j].name)
    ensures CarriedFrom(m, Carry(m, olds[j]), olds)
  {
    assert olds[j] in olds;
  }

  lemma StillFound(newconf: seq<Machine>, was: seq<Machine>, ms: seq<Machine>, olds: seq<Machine>, i: nat)
    requires |was| == |ms| == |newconf| && i < |ms| && ms == was[i := ms[i]] && CarriedFrom(newconf[i], ms[i], olds)
    ensures forall name | Found(newconf, was, olds, name) :: Found(newconf, ms, olds, name)
  {
    hide CarriedFrom, SameName;
    forall name | Found(newconf, was, olds, name)
      ensures Found(newconf, ms, olds, name)
    {
      var x :| 0 <= x < |newconf| && SameName(newconf[x].name, name) && CarriedFrom(newconf[x], was[x], olds);
      assert SameName(newconf[x].name, name) && CarriedFrom(newconf[x], ms[x], olds);
    }
  }

  /** The state of `o` for the machine that `m` configures. */
  function Carry(m: Machine, o: Machine): Machine { o.(name := m.name, cluster := m.cluster) }

  /** All that is known of some old machine of the name. */
  ghost predicate CarriedFrom(m: Machine, m': Machine, olds: seq<Machine>) {
    exists o | o in olds ::
      && SameName(m.name, o.name) && m'.name == m.name && m'.cluster == m.cluster
      && m'.busy == o.busy && m'.arch == o.arch
      && m'.laststatus == o.laststatus && m'.lastpoll == o.lastpoll && m'.numpolls == o.numpolls
  }

  ghost predicate Found(newconf: seq<Machine>, ms: seq<Machine>, olds: seq<Machine>, name: string)
    requires |ms| == |newconf|
  {
    exists x :: 0 <= x < |newconf| && SameName(newconf[x].name, name) && CarriedFrom(newconf[x], ms[x], olds)
  }

  /** Order is a matter of names. */
  lemma OrderKept(ms: seq<Machine>, ms': seq<Machine>)
    requires InOrder(ms) && |ms'| == |ms| && forall i | 0 <= i < |ms| :: ms'[i].name == ms[i].name
    ensures InOrder(ms')
  {
    hide NameLe;
  }

  lemma PassKeepsOrder(ms: seq<Machine>, ms': seq<Machine>, start: nat, stop: nat, now: int, sent: seq<nat>)
    requires Pass(ms, ms', start, stop, now, sent) && InOrder(ms)
    ensures InOrder(ms')
  {
    hide InOrder, Due;
    forall i | 0 <= i < |ms|
      ensures ms'[i].name == ms[i].name
    {
    }
    OrderKept(ms, ms');
  }

  // ----- What is known of a machine, from what was sent and heard -----

  datatype Input = Turn(now: int) | Packet(text: string, now: int)

  /** A pass with the machines it polled, or a packet with the machine it was for and the state it
      gave. */
  datatype Deed = Sent(now: int, polled: seq<nat>) | Heard(who: Option<nat>, busy: Busy, now: int)

  /** The polls since the last packet of a machine, the state that packet gave, and the times of the
      last poll and of the packet. */
  datatype Track = Track(unanswered: nat, busy: Busy, lastpoll: int, laststatus: int)

  ghost function TrackOf(m: Machine, deeds: seq<Deed>, i: nat): Track
    requires m.numpolls >= 0
  {
    if deeds == [] then Track(m.numpolls, m.busy, m.lastpoll, m.laststatus)
    else
      OneDeed(TrackOf(m, deeds[..|deeds| - 1], i), deeds[|deeds| - 1], i)
  }

  ghost function OneDeed(t: Track, d: Deed, i: nat): Track {
    match d
    case Sent(now, polled) => if i in polled then t.(unanswered := t.unanswered + 1, lastpoll := now) else t
    case Heard(who, busy, now) => if who == Some(i) then t.(unanswered := 0, busy := busy, laststatus := now) else t
  }

  /** How long to wait after the last poll when that many polls are unanswered. */
  function Wait(unanswered: nat): int { SCHEDULE[if unanswered < 16 then unanswered else 16] }

  /** Machine `m'` is `m` after what its track says. */
  ghost predicate AsTracked(m': Machine, m: Machine, t: Track) {
    && m'.name == m.name && m'.cluster == m.cluster
    && m'.numpolls == (if t.unanswered < 16 then t.unanswered else 16)
    && m'.busy == (if t.unanswered > 8 then UNKNOWN_BUSYSTATE else t.busy)
    && m'.lastpoll == t.lastpoll && m'.laststatus == t.laststatus
  }

  /** Each poll of the machine was due: half an hour after its last packet, and after the wait that
      goes with the polls it had left unanswered. */
  ghost predicate PollsInTime(m: Machine, deeds: seq<Deed>, i: nat)
    requires m.numpolls >= 0
  {
    forall k | 0 <= k < |deeds| && deeds[k].Sent? && i in deeds[k].polled ::
      var t := TrackOf(m, deeds[..k], i);
      deeds[k].now - t.laststatus >= 1800 && deeds[k].now - t.lastpoll >= Wait(t.unanswered)
  }

  /** What was done is an answer to what came in: a packet is for a machine of its name, if there is
      one. */
  ghost predicate Follows(input: Input, deed: Deed, ms: seq<Machine>) {
    match input
    case Turn(now) => deed.Sent? && deed.now == now
    case Packet(text, now) =>
      && deed.Heard? && deed.now == now
      && (deed.who.Some? ==>
            && Parse(text).Some? && deed.busy == Parse(text).value.busy
            && deed.who.value < |ms| && SameName(ms[deed.who.value].name, Parse(text).value.name))
      && (deed.who.None? <==> Parse(text).None? || NoneNamed(ms, Parse(text).value.name))
  }

  ghost predicate NoneNamed(ms: seq<Machine>, name: string) { forall m | m in ms :: !SameName(m.name, name) }

  ghost predicate AllTrackedAs(ms': seq<Machine>, ms: seq<Machine>, deeds: seq<Deed>)
    requires |ms'| == |ms| && AllSound(ms)
  {
    forall i: nat | i < |ms| :: AsTracked(ms'[i], ms[i], TrackOf(ms[i], deeds, i))
  }

  lemma AllTracked(ms: seq<Machine>)
    requires AllSound(ms)
    ensures AllTrackedAs(ms, ms, [])
  {
  }

  lemma NamesTracked(ms': seq<Machine>, ms: seq<Machine>, deeds: seq<Deed>)
    requires |ms'| == |ms| && AllSound(ms) && AllTrackedAs(ms', ms, deeds)
    ensures forall i | 0 <= i < |ms| :: ms'[i].name == ms[i].name
    ensures forall name :: NoneNamed(ms', name) <==> NoneNamed(ms, name)
  {
    hide TrackOf, SameName;
    forall i | 0 <= i < |ms|
      ensures ms'[i].name == ms[i].name
    {
      assert AsTracked(ms'[i], ms[i], TrackOf(ms[i], deeds, i));
    }
    forall name
      ensures NoneNamed(ms', name) <==> NoneNamed(ms, name)
    {
      assert forall i | 0 <= i < |ms| :: ms'[i] in ms' && ms[i] in ms;
    }
  }

  lemma TrackSnoc(m: Machine, deeds: seq<Deed>, d: Deed, i: nat)
    requires m.numpolls >= 0
    ensures TrackOf(m, deeds + [d], i) == OneDeed(TrackOf(m, deeds, i), d, i)
  {
    assert (deeds + [d])[..|deeds|] == deeds;
  }

  lemma PolledTracked(m': Machine, m: Machine, t: Track, now: int)
    requires Sound(m') && AsTracked(m', m, t) && Due(m', now)
    ensures AsTracked(Polled(m', now), m, t.(unanswered := t.unanswered + 1, lastpoll := now))
    ensures now - t.laststatus >= 1800 && now - t.lastpoll >= Wait(t.unanswered)
  {
  }

  lemma InTimeSnoc(m: Machine, deeds: seq<Deed>, d: Deed, i: nat)
    requires m.numpolls >= 0 && PollsInTime(m, deeds, i)
    requires d.Sent? && i in d.polled ==>
               var t := TrackOf(m, deeds, i); d.now - t.laststatus >= 1800 && d.now - t.lastpoll >= Wait(t.unanswered)
    ensures PollsInTime(m, deeds + [d], i)
  {
    hide TrackOf, Wait;
    var all := deeds + [d];
    assert all[..|deeds|] == deeds;
    forall k | 0 <= k < |all| && all[k].Sent? && i in all[k].polled
      ensures var t := TrackOf(m, all[..k], i); all[k].now - t.laststatus >= 1800 && all[k].now - t.lastpoll >= Wait(t.unanswered)
    {
      if k < |deeds| { assert all[..k] == deeds[..k]; }
    }
  }

  lemma SentTracked(ms: seq<Machine>, before: seq<Machine>, after: seq<Machine>, deeds: seq<Deed>, start: nat, stop: nat, now: int, sent: seq<nat>)
    requires |before| == |ms| && AllSound(ms) && AllTrackedAs(before, ms, deeds) && Pass(before, after, start, stop, now, sent)
    requires forall i: nat | i < |ms| :: PollsInTime(ms[i], deeds, i)
    ensures |after| == |ms| && AllTrackedAs(after, ms, deeds + [Sent(now, sent)])
    ensures forall i: nat | i < |ms| :: PollsInTime(ms[i], deeds + [Sent(now, sent)], i)
  {
    hide TrackOf, AsTracked, Due, Polled, PollsInTime, Wait;
    var d := Sent(now, sent);
    forall i: nat | i < |ms|
      ensures AsTracked(after[i], ms[i], TrackOf(ms[i], deeds + [d], i))
      ensures PollsInTime(ms[i], deeds + [d], i)
    {
      TrackSnoc(ms[i], deeds, d, i);
      if i in sent {
        PolledTracked(before[i], ms[i], TrackOf(ms[i], deeds, i), now);
      }
      InTimeSnoc(ms[i], deeds, d, i);
    }
  }

  lemma HeardTracked(ms: seq<Machine>, before: seq<Machine>, after: seq<Machine>, deeds: seq<Deed>, d: Deed)
    requires |before| == |ms| && AllSound(ms) && AllTrackedAs(before, ms, deeds) && d.Heard? && |after| == |ms|
    requires d.who.None? ==> after == before
    requires d.who.Some? ==>
               (&& d.who.value < |ms|
                && exists arch :: after == before[d.who.value := before[d.who.value].(busy := d.busy, arch := arch, laststatus := d.now, numpolls := 0)])
    requires forall i: nat | i < |ms| :: PollsInTime(ms[i], deeds, i)
    ensures AllTrackedAs(after, ms, deeds + [d])
    ensures forall i: nat | i < |ms| :: PollsInTime(ms[i], deeds + [d], i)
  {
    hide TrackOf, PollsInTime;
    forall i: nat | i < |ms|
      ensures AsTracked(after[i], ms[i], TrackOf(ms[i], deeds + [d], i))
      ensures PollsInTime(ms[i], deeds + [d], i)
    {
      assert AsTracked(before[i], ms[i], TrackOf(ms[i], deeds, i));
      TrackSnoc(ms[i], deeds, d, i);
      InTimeSnoc(ms[i], deeds, d, i);
    }
  }

  // ----- Progress of the passes -----

  ghost predicate StaysDue(m: Machine, clocks: seq<int>) { Sound(m) && forall k | 0 <= k < |clocks| :: Due(m, clocks[k]) }

  ghost predicate PolledIn(log: seq<seq<nat>>, i: nat) { exists sent | sent in log :: i in sent }

  /** How many passes it takes at most to get to machine `i` of `n`, going on from `start`. */
  function Turns(start: nat, i: nat, n: nat): int {
    if start <= i then (i - start) / POLLMAX + 1 else (n - start) / POLLMAX + 1 + i / POLLMAX + 1
  }

  lemma TurnsPositive(start: nat, i: nat, n: nat)
    requires start <= n && i < n
    ensures Turns(start, i, n) >= 1
  {
  }

  lemma {:induction false} Increasing(sent: seq<nat>, start: nat, k: nat)
    requires k < |sent| && (forall j | 0 <= j < |sent| :: start <= sent[j])
    requires forall j, l | 0 <= j < l < |sent| :: sent[j] < sent[l]
    ensures start + k <= sent[k]
  {
    if k > 0 { Increasing(sent, start, k - 1); }
  }

  lemma PassSends(ms: seq<Machine>, ms': seq<Machine>, start: nat, stop: nat, now: int, sent: seq<nat>)
    requires Pass(ms, ms', start, stop, now, sent)
    ensures forall k | 0 <= k < |sent| :: start <= sent[k] < |ms|
    ensures |sent| >= POLLMAX ==> start + POLLMAX <= sent[|sent| - 1] + 1
    ensures sent == [] ==> ms' == ms
  {
    hide Due;
    if |sent| >= POLLMAX { Increasing(sent, start, |sent| - 1); }
  }

  lemma StillUnpolled(log: seq<seq<nat>>, sent: seq<nat>, i: nat)
    requires !PolledIn(log + [sent], i)
    ensures !PolledIn(log, i) && i !in sent
  {
    assert sent in log + [sent];
    assert forall x | x in log :: x in log + [sent];
  }

  /** A pass that does not poll a due machine brings the next ones closer to it. */
  lemma PassProgress(ms: seq<Machine>, ms': seq<Machine>, start: nat, start': nat, now: int, sent: seq<nat>, i: nat)
    requires Pass(ms, ms', start, Stop(start, |ms|, sent), now, sent) && start <= |ms| && |sent| <= POLLMAX
    requires start' == if |sent| == POLLMAX then sent[POLLMAX - 1] + 1 else 0
    requires i < |ms| && Due(ms[i], now) && i !in sent
    ensures ms'[i] == ms[i] && start' <= |ms| && Turns(start', i, |ms|) + 1 <= Turns(start, i, |ms|)
  {
    PassSends(ms, ms', start, Stop(start, |ms|, sent), now, sent);
    var stop := Stop(start, |ms|, sent);
    assert !(start <= i < stop);
    hide Pass, Due;
  }

  lemma Untouched(ms: seq<Machine>, ms': seq<Machine>, start: nat, stop: nat, now: int, sent: seq<nat>)
    requires Pass(ms, ms', start, stop, now, sent) && start <= stop < |ms|
    ensures ms'[stop] == ms[stop] && Sound(ms[stop])
  {
  }

  /** Increasing numbers that leave none out are those from 0 on. */
  lemma {:induction false} NoneLeftOut(sent: seq<nat>, k: nat)
    requires k < |sent| && forall j, l | 0 <= j < l < |sent| :: sent[j] < sent[l]
    requires forall i: nat | i <= k :: i in sent
    ensures sent[k] == k
  {
    Increasing(sent, 0, k);
    assert k in sent;
    var j :| 0 <= j < |sent| && sent[j] == k;
    if j < k { NoneLeftOut(sent, j); }
  }

  /** When all of many machines are due, a pass stalls after twenty of them. */
  lemma FullPassStalls(ms: seq<Machine>, ms': seq<Machine>, now: int, sent: seq<nat>)
    requires Pass(ms, ms', 0, Stop(0, |ms|, sent), now, sent) && |ms| >= POLLMAX
    requires forall i | 0 <= i < |ms| :: Due(ms[i], now)
    ensures |sent| >= POLLMAX
  {
    if |sent| < POLLMAX {
      assert forall i: nat | i < |ms| :: i in sent;
      var last: nat := POLLMAX - 1;
      assert last in sent;
      var k :| 0 <= k < |sent| && sent[k] == POLLMAX - 1;
      NoneLeftOut(sent, k);
      assert false;
    }
  }

  /** How polling stops for good: after a pass that stalled, a reload shortens the list to less than
      where the pass stopped; whatever the clock then says, no machine is polled any more. */
  method Stranded(ms: seq<Machine>, fewer: seq<Machine>, now: int, clocks: seq<int>) returns (p: Poller, log: seq<seq<nat>>)
    requires InOrder(ms) && forall m | m in ms :: m == NewMachine(m.name, m.cluster)
    requires InOrder(fewer) && forall m | m in fewer :: m == NewMachine(m.name, m.cluster)
    requires |fewer| < POLLMAX <= |ms| && now >= POLLINT
    ensures p.startmachine > |p.machines| == |fewer| && |log| == |clocks| && forall sent | sent in log :: sent == []
  {
    hide Pass, InOrder;
    p := new Poller(ms);
    forall i | 0 <= i < |ms|
      ensures Sound(ms[i]) && Due(ms[i], now)
    {
      assert ms[i] in ms;
    }
    var sent, _ := p.WsPoll(now);
    FullPassStalls(ms, p.machines, now, sent);
    PassSends(ms, p.machines, 0, Stop(0, |ms|, sent), now, sent);
    p.Reload(fewer);
    log := p.WsPolls(clocks);
  }

  /** How a pass sleeps too long: one that stalled on the last of twenty machines is followed by one
      that looks at none and sleeps half an hour, while all of them are due again after five seconds. */
  method Overslept(ms: seq<Machine>, now: int) returns (p: Poller, nexttimeout: int)
    requires InOrder(ms) && forall m | m in ms :: m == NewMachine(m.name, m.cluster)
    requires |ms| == POLLMAX && now >= POLLINT
    ensures p.Valid() && |p.machines| == POLLMAX && nexttimeout == POLLINT
    ensures forall i | 0 <= i < |p.machines| :: DueTime(p.machines[i]) == now + 5
    ensures Oversleeps(p.machines, now + 1, nexttimeout)
  {
    hide Pass, InOrder, Oversleeps;
    p := new Poller(ms);
    forall i | 0 <= i < |ms|
      ensures Sound(ms[i]) && Due(ms[i], now) && DueTime(Polled(ms[i], now)) == now + 5
    {
      assert ms[i] in ms;
    }
    var sent;
    sent, nexttimeout := p.WsPoll(now);
    FullPassStalls(ms, p.machines, now, sent);
    PassSends(ms, p.machines, 0, Stop(0, |ms|, sent), now, sent);
    AllPolled(ms, p.machines, now, sent);
    ghost var ms' := p.machines;
    sent, nexttimeout := p.WsPoll(now + 1);
    NothingLeft(ms', p.machines, POLLMAX, Stop(POLLMAX, |ms|, sent), now + 1, sent);
    assert DueTime(p.machines[0]) < now + 1 + nexttimeout;
  }

  lemma NothingLeft(ms: seq<Machine>, ms': seq<Machine>, start: nat, stop: nat, now: int, sent: seq<nat>)
    requires Pass(ms, ms', start, stop, now, sent) && start >= |ms|
    ensures sent == [] && ms' == ms
  {
    hide Due;
    if sent != [] {
      var first := sent[0];
      PassSends(ms, ms', start, stop, now, sent);
      assert false;
    }
  }

  lemma AllPolled(ms: seq<Machine>, ms': seq<Machine>, now: int, sent: seq<nat>)
    requires Pass(ms, ms', 0, Stop(0, |ms|, sent), now, sent) && |sent| == POLLMAX && sent[POLLMAX - 1] + 1 == |ms|
    requires forall i | 0 <= i < |ms| :: Due(ms[i], now)
    ensures forall i | 0 <= i < |ms| :: ms'[i] == Polled(ms[i], now)
  {
    hide Due, Polled;
  }

  // ----- Packets -----

  const NUL := '\0'

  datatype Status = Status(busy: Busy, name: string, arch: string)

  /** The length of the C string at `i` of a packet, which a NUL follows. */
  function Strlen(packet: string, i: nat): (n: nat)
    requires i <= |packet|
    ensures i + n <= |packet| && NUL !in packet[i..i + n] && (i + n < |packet| ==> packet[i + n] == NUL)
    decreases |packet| - i
  {
    if i == |packet| || packet[i] == NUL then 0
    else
      var n := Strlen(packet, i + 1);
      assert packet[i..i + 1 + n] == [packet[i]] + packet[i + 1..i + 1 + n];
      n + 1
  }

  /** A state, a name, a NUL and the start of an architecture. */
  function Parse(packet: string): Option<Status> {
    if packet == "" then None
    else
      var len := Strlen(packet, 1);
      if len + 2 >= |packet| then None
      else
        var busy := if packet[0] == '1' then BUSY else if packet[0] == '0' then FREE else UNKNOWN_BUSYSTATE;
        Some(Status(busy, packet[1..len + 1], packet[len + 2..len + 2 + Strlen(packet, len + 2)]))
  }

  /** A packet with a name and a nonempty rest is read as it was composed, up to the next NUL. */
  lemma ParseRoundTrip(ch: char, name: string, arch: string, tail: string)
    requires NUL !in name && NUL !in arch && arch + tail != "" && (tail != "" ==> tail[0] == NUL)
    ensures var busy := if ch == '1' then BUSY else if ch == '0' then FREE else UNKNOWN_BUSYSTATE;
            Parse([ch] + name + [NUL] + arch + tail) == Some(Status(busy, name, arch))
  {
    hide Strlen, Parse;
    var head := [ch] + name + [NUL];
    var p := head + arch + tail;
    assert p[0] == ch;
    assert p == [ch] + name + ([NUL] + arch + tail);
    Between([ch], name, [NUL] + arch + tail, p);
    Between(head, arch, tail, p);
    StrlenIs(p, 1, |name|);
    StrlenIs(p, |name| + 2, |arch|);
    ParseIs(p, |name|, |arch|);
  }

  lemma ParseIs(p: string, n: nat, k: nat)
    requires p != "" && n + 2 < |p| && Strlen(p, 1) == n && Strlen(p, n + 2) == k
    ensures var busy := if p[0] == '1' then BUSY else if p[0] == '0' then FREE else UNKNOWN_BUSYSTATE;
            Parse(p) == Some(Status(busy, p[1..n + 1], p[n + 2..n + 2 + k]))
  {
  }

  lemma Between(a: string, b: string, c: string, p: string)
    requires p == a + b + c
    ensures p[|a|..|a| + |b|] == b && |p| == |a| + |b| + |c|
    ensures c != "" ==> p[|a| + |b|] == c[0]
  {
  }

  lemma {:induction false} StrlenIs(p: string, i: nat, n: nat)
    requires i + n <= |p| && NUL !in p[i..i + n] && (i + n < |p| ==> p[i + n] == NUL)
    ensures Strlen(p, i) == n
    decreases n
  {
    if n > 0 {
      assert p[i] == p[i..i + n][0];
      assert p[i + 1..i + n] == p[i..i + n][1..];
      StrlenIs(p, i + 1, n - 1);
    }
  }
}
