/** The simple queue that the timer library of larvnetd stands for: a finite map from
    pending timers to their deadline, procedure and argument.  The binary heap of module
    TimerHeap is proved against it, and module PrinterDaemon runs on top of it. */
module PriorityQueue {

  /** What a timer can run.  `Botch` is the trap installed in a timer that has fired. */
  datatype Proc = Botch | PrinterPoll | WsPoll | Report

  datatype Entry = Entry(abstime: int, func: Proc, arg: nat)

  type Queue<K> = map<K, Entry>

  /** One observable action on the queue. */
  datatype Event<K> =
    | Set(key: K, entry: Entry)
    | Reset(key: K)
    | Fire(now: int, key: K)
    | Idle(now: int)

  ghost predicate Earliest<K>(q: Queue<K>, k: K) {
    k in q && forall j | j in q :: q[k].abstime <= q[j].abstime
  }

  ghost predicate Step<K>(q: Queue<K>, e: Event<K>, q': Queue<K>) {
    match e
    case Set(k, entry) => k !in q && q' == q[k := entry]
    case Reset(k) => k in q && q' == q - {k}
    case Fire(now, k) => Earliest(q, k) && q[k].abstime <= now && q' == q - {k}
    case Idle(now) => (forall j | j in q :: now < q[j].abstime) && q' == q
  }

  /** `states` are the queues passed through by `events`, starting at `states[0]`. */
  ghost predicate Run<K>(states: seq<Queue<K>>, events: seq<Event<K>>) {
    && |states| == |events| + 1
    && forall i | 0 <= i < |events| :: Step(states[i], events[i], states[i + 1])
  }

  function Count<K(==)>(events: seq<Event<K>>, k: K, sets: bool): (n: nat) {
    if events == [] then 0
    else
      Count(events[..|events| - 1], k, sets) +
      match events[|events| - 1]
      case Set(j, _) => if sets && j == k then 1 else 0
      case Reset(j) => if !sets && j == k then 1 else 0
      case Fire(_, j) => if !sets && j == k then 1 else 0
      case Idle(_) => 0
  }

  lemma RunPrefix<K>(states: seq<Queue<K>>, events: seq<Event<K>>)
    requires Run(states, events) && events != []
    ensures Run(states[..|events|], events[..|events| - 1])
  {
    var s, e := states[..|events|], events[..|events| - 1];
    forall i | 0 <= i < |e| ensures Step(s[i], e[i], s[i + 1]) {
      assert Step(states[i], events[i], states[i + 1]);
    }
  }

  /** Nothing is lost, duplicated or fired after being cancelled: in every run, a timer is
      pending exactly when it was set (or pending at the start) once more often than it was
      cancelled or fired. */
  lemma {:induction false} Conservation<K>(states: seq<Queue<K>>, events: seq<Event<K>>, k: K)
    requires Run(states, events)
    ensures (if k in states[0] then 1 else 0) + Count(events, k, true)
         == (if k in states[|events|] then 1 else 0) + Count(events, k, false)
  {
    if events != [] {
      var n := |events|;
      RunPrefix(states, events);
      Conservation(states[..n], events[..n - 1], k);
      assert Step(states[n - 1], events[n - 1], states[n]);
    }
  }

  /** Without new timers, whatever is pending later was pending before, unchanged. */
  lemma {:induction false} Shrinks<K>(states: seq<Queue<K>>, events: seq<Event<K>>, i: nat, j: nat)
    requires Run(states, events) && i <= j <= |events|
    requires forall e | e in events :: !e.Set?
    ensures forall k | k in states[j] :: k in states[i] && states[i][k] == states[j][k]
    decreases j
  {
    if i < j {
      assert Step(states[j - 1], events[j - 1], states[j]);
      assert events[j - 1] in events;
      Shrinks(states, events, i, j - 1);
    }
  }

  /** Draining is sorting: as long as no new timer is set, deadlines fire in nondecreasing order. */
  lemma {:induction false} DrainIsSorted<K>(states: seq<Queue<K>>, events: seq<Event<K>>, i: nat, j: nat)
    requires Run(states, events) && i < j < |events|
    requires forall e | e in events :: !e.Set?
    requires events[i].Fire? && events[j].Fire?
    ensures events[i].key in states[i] && events[j].key in states[j]
    ensures states[i][events[i].key].abstime <= states[j][events[j].key].abstime
  {
    assert Step(states[i], events[i], states[i + 1]);
    assert Step(states[j], events[j], states[j + 1]);
    Shrinks(states, events, i, j);
  }

  /** Processing at one time until idle fires exactly the timers that were due. */
  lemma {:induction false} DrainFiresExactlyTheDue<K>(states: seq<Queue<K>>, events: seq<Event<K>>, now: int)
    requires Run(states, events) && events != []
    requires events[|events| - 1] == Idle(now)
    requires forall i | 0 <= i < |events| - 1 :: events[i].Fire? && events[i].now == now
    ensures forall k | k in states[0] ::
      k in states[|events|] <==> now < states[0][k].abstime
    ensures forall k | k in states[|events|] :: k in states[0]
  {
    var n := |events|;
    assert Step(states[n - 1], events[n - 1], states[n]);
    Shrinks(states, events, 0, n);
    forall k | k in states[0] && now < states[0][k].abstime ensures k in states[n] {
      Undue(states, events, now, k, n - 1);
    }
  }

  lemma {:induction false} Undue<K>(states: seq<Queue<K>>, events: seq<Event<K>>, now: int, k: K, j: nat)
    requires Run(states, events) && j < |events|
    requires forall i | 0 <= i < |events| - 1 :: events[i].Fire? && events[i].now == now
    requires k in states[0] && now < states[0][k].abstime
    ensures k in states[j] && states[j][k] == states[0][k]
  {
    if j > 0 {
      Undue(states, events, now, k, j - 1);
      assert Step(states[j - 1], events[j - 1], states[j]);
    }
  }
}
