/** The timer library of larvnetd (athena/etc/larvnetd/timer.c): a binary heap of timers in
    which every timer knows its own position, so that it can be deleted from the middle. */
module TimerHeap {
  import opened Wrappers
  import opened PriorityQueue

  const DELTA := 8
  const INITIAL_HEAP_SIZE := 1024 - DELTA

  class Timer {
    var heapPos: int
    const abstime: int
    var func: Proc
    var arg: nat

    constructor (abstime: int, func: Proc, arg: nat)
      ensures this.abstime == abstime && this.func == func && this.arg == arg
    {
      this.abstime, this.func, this.arg := abstime, func, arg;
    }
  }

  function Parent(i: int): int { (i - 1) / 2 }
  function Child1(i: int): int { i * 2 + 1 }
  function Child2(i: int): int { i * 2 + 2 }

  ghost predicate Edge(p: int, c: int) { 0 <= p && (c == Child1(p) || c == Child2(p)) }

  /** Every slot is filled and no timer is due before its parent. */
  ghost predicate HeapOrdered(s: seq<Timer?>) {
    && null !in s
    && forall p, c {:trigger Edge(p, c)} | Edge(p, c) && c < |s| :: s[p].abstime <= s[c].abstime
  }

  /** Timer `t` may stand in slot `pos`. */
  ghost predicate Fits(s: seq<Timer?>, pos: int, t: Timer?)
    requires 0 <= pos < |s| && null !in s && t != null
  {
    && (pos > 0 ==> s[Parent(pos)].abstime <= t.abstime)
    && (Child1(pos) < |s| ==> t.abstime <= s[Child1(pos)].abstime)
    && (Child2(pos) < |s| ==> t.abstime <= s[Child2(pos)].abstime)
  }

  lemma FitKeepsOrder(s: seq<Timer?>, pos: int, t: Timer?)
    requires HeapOrdered(s) && 0 <= pos < |s| && t != null && Fits(s, pos, t)
    ensures HeapOrdered(s[pos := t])
  {
    var s' := s[pos := t];
    forall p, c {:trigger Edge(p, c)} | Edge(p, c) && c < |s'| ensures s'[p].abstime <= s'[c].abstime {
      if c == pos {
        assert p == Parent(pos);
      }
    }
  }

  lemma AppendKeepsOrder(s: seq<Timer?>, t: Timer?)
    requires HeapOrdered(s) && t != null
    requires |s| > 0 ==> s[Parent(|s|)].abstime <= t.abstime
    ensures HeapOrdered(s + [t])
  {
    var s' := s + [t];
    forall p, c {:trigger Edge(p, c)} | Edge(p, c) && c < |s'| ensures s'[p].abstime <= s'[c].abstime {
      if c == |s| {
        assert p == Parent(c);
      }
    }
  }

  lemma OrderAtParent(s: seq<Timer?>, pos: int)
    requires HeapOrdered(s) && 0 <= pos < |s|
    ensures pos > 0 ==> s[Parent(pos)].abstime <= s[pos].abstime
    ensures Child1(pos) < |s| ==> s[pos].abstime <= s[Child1(pos)].abstime
    ensures Child2(pos) < |s| ==> s[pos].abstime <= s[Child2(pos)].abstime
  {
    assert pos > 0 ==> Edge(Parent(pos), pos);
    assert Edge(pos, Child1(pos)) && Edge(pos, Child2(pos));
  }

  /** The root of an ordered heap is due first. */
  lemma {:induction false} RootIsEarliest(s: seq<Timer?>, i: nat)
    requires HeapOrdered(s) && i < |s|
    ensures s[0].abstime <= s[i].abstime
  {
    if i > 0 {
      OrderAtParent(s, i);
      RootIsEarliest(s, Parent(i));
    }
  }

  /** Every slot but `pos` holds one of the timers `was` other than `dead` with a correct back
      pointer, and every such timer is found in the slot it names. */
  ghost predicate Linked(s: seq<Timer?>, pos: int, dead: Timer?, was: seq<Timer?>)
    reads s, was
  {
    && (forall i {:trigger s[i]} | 0 <= i < |s| && i != pos ::
          s[i] in was && s[i] != dead && s[i] != null && s[i].heapPos == i)
    && (forall t {:trigger t in was} | t in was && t != dead ::
          t != null && 0 <= t.heapPos < |s| && t.heapPos != pos && s[t.heapPos] == t)
  }

  class Heap {
    var heap: array<Timer?>
    var numTimers: nat
    var heapSize: nat

    ghost function Slots(): (s: seq<Timer?>)
      requires numTimers <= heap.Length
      reads this, heap
      ensures |s| == numTimers
    {
      heap[..numTimers]
    }

    ghost function Timers(): set<Timer?>
      requires numTimers <= heap.Length
      reads this, heap
    {
      set t | t in Slots()
    }

    /** Heap order, and every timer knows its position. */
    ghost predicate Valid()
      reads this, heap, heap[..]
    {
      && numTimers <= heap.Length == heapSize
      && HeapOrdered(Slots())
      && forall i {:trigger heap[i]} | 0 <= i < numTimers :: heap[i].heapPos == i
    }

    /** The queue this heap stands for. */
    ghost function Pending(): Queue<Timer?>
      requires numTimers <= heap.Length
      reads this, heap, heap[..]
    {
      map t: Timer? | t in Slots() && t != null :: Entry(t.abstime, t.func, t.arg)
    }

    constructor ()
      ensures Valid() && Pending() == map[]
    {
      heap := new Timer?[0];
      numTimers, heapSize := 0, 0;
    }

    /** The deadline in slot `i`; never asked of a slot that still points at released memory. */
    function Time(i: int, ghost dead: Timer?): int
      requires 0 <= i < heap.Length && heap[i] != null && heap[i] != dead
      reads this, heap
    {
      heap[i].abstime
    }

    /** The state between two assignments of a deletion: slot `pos` is stale. */
    ghost predicate Hole(pos: int, dead: Timer, was: seq<Timer?>)
      reads this, heap, heap[..], was
    {
      && numTimers <= heap.Length == heapSize
      && 0 <= pos < numTimers
      && HeapOrdered(Slots())
      && Linked(Slots(), pos, dead, was)
    }

    /** HEAP_ASSIGN(pos, heap[from]): fills the hole, which moves to `from`. */
    method FillFrom(pos: int, from: int, ghost dead: Timer, ghost was: seq<Timer?>)
      requires Hole(pos, dead, was)
      requires 0 <= from < numTimers && from != pos
      requires Fits(Slots(), pos, heap[from])
      modifies heap, was`heapPos
      ensures Hole(from, dead, was)
      ensures Slots() == old(Slots()[pos := heap[from]])
    {
      FitKeepsOrder(Slots(), pos, heap[from]);
      hide HeapOrdered, Linked;
      Assign(numTimers, pos, from, dead, was);
    }

    /** HEAP_ASSIGN(pos, heap[from]) where slot `pos` is stale: then slot `from` is. */
    method Assign(n: nat, pos: int, from: int, ghost dead: Timer?, ghost was: seq<Timer?>)
      requires n <= heap.Length && 0 <= pos < n && 0 <= from < n && from != pos
      requires Linked(heap[..n], pos, dead, was)
      modifies heap, was`heapPos
      ensures heap[..n] == old(heap[..n])[pos := old(heap[from])]
      ensures Linked(heap[..n], from, dead, was)
    {
      ghost var s := heap[..n];
      assert s[from] in was;
      heap[pos] := heap[from];
      heap[pos].heapPos := pos;
      assert heap[..n] == s[pos := s[from]];
    }

    /** A slot other than the hole holds a live timer. */
    lemma SlotIsLive(i: int, pos: int, dead: Timer, was: seq<Timer?>)
      requires Hole(pos, dead, was) && 0 <= i < numTimers && i != pos
      ensures heap[i] != null && heap[i] != dead && Slots()[i] == heap[i]
      ensures null !in Slots()
    {
    }

    /** One turn of the upward loop. */
    method Rise(pos: int, ghost dead: Timer, ghost was: seq<Timer?>) returns (up: int)
      requires Hole(pos, dead, was) && 0 < pos < numTimers - 1
      requires heap[numTimers - 1].abstime < heap[Parent(pos)].abstime
      modifies heap, was`heapPos
      ensures up == Parent(pos) < numTimers - 1 && Hole(up, dead, was)
      ensures LastIsEarlier(up, dead)
    {
      hide Linked;
      OrderAtParent(Slots(), pos);
      FillFrom(pos, Parent(pos), dead, was);
      up := Parent(pos);
      SlotIsLive(numTimers - 1, up, dead, was);
      if up > 0 { SlotIsLive(Parent(up), up, dead, was); }
    }

    ghost predicate LastIsEarlier(pos: int, dead: Timer)
      reads this, heap
    {
      && 0 <= pos < numTimers - 1 < heap.Length
      && heap[numTimers - 1] != dead && (pos > 0 ==> heap[Parent(pos)] != dead)
      && null !in Slots()
      && Slots()[numTimers - 1].abstime < Slots()[pos].abstime
    }

    /** The upward half of a deletion: the last timer is due before the parent of the hole. */
    method FillUpward(start: int, ghost dead: Timer, ghost was: seq<Timer?>)
      requires Hole(start, dead, was) && 0 < start < numTimers - 1
      requires heap[numTimers - 1].abstime < heap[Parent(start)].abstime
      modifies heap, was`heapPos
      ensures Hole(numTimers - 1, dead, was)
    {
      hide Linked;
      hide HeapOrdered;
      var pos := Rise(start, dead, was);
      while pos > 0 && Time(numTimers - 1, dead) < Time(Parent(pos), dead)
        invariant Hole(pos, dead, was)
        invariant LastIsEarlier(pos, dead)
      {
        pos := Rise(pos, dead, was);
      }
      LastFits(pos, dead, was);
      hide Fits;
      FillFrom(pos, numTimers - 1, dead, was);
    }

    /** The last timer may go where its parent is not later and it is earlier than what was there. */
    lemma LastFits(pos: int, dead: Timer, was: seq<Timer?>)
      requires Hole(pos, dead, was) && LastIsEarlier(pos, dead)
      requires pos > 0 ==> heap[Parent(pos)] != null && heap[numTimers - 1] != null
                           && heap[Parent(pos)].abstime <= heap[numTimers - 1].abstime
      ensures heap[numTimers - 1] != null && Fits(Slots(), pos, heap[numTimers - 1])
    {
      hide Linked;
      OrderAtParent(Slots(), pos);
      hide HeapOrdered;
    }

    /** The earliest of the two children and the last timer, the last one winning ties. */
    method Least(pos: int, ghost dead: Timer, ghost was: seq<Timer?>) returns (min: int)
      requires Hole(pos, dead, was) && 0 <= pos && Child2(pos) < numTimers && pos < numTimers - 1
      requires pos > 0 ==> Slots()[Parent(pos)] != null && Slots()[numTimers - 1] != null
                           && Slots()[Parent(pos)].abstime <= Slots()[numTimers - 1].abstime
      ensures pos < min < numTimers && heap[min] != null && null !in Slots() && Fits(Slots(), pos, heap[min])
      ensures heap[min].abstime <= heap[numTimers - 1].abstime
    {
      hide Linked;
      OrderAtParent(Slots(), pos);
      SlotIsLive(Child1(pos), pos, dead, was);
      SlotIsLive(Child2(pos), pos, dead, was);
      SlotIsLive(numTimers - 1, pos, dead, was);
      min := numTimers - 1;
      if Time(Child1(pos), dead) < Time(min, dead) {
        min := Child1(pos);
      }
      if Time(Child2(pos), dead) < Time(min, dead) {
        min := Child2(pos);
      }
    }

    /** The downward half: the hole sinks until the last timer fits; the last slot itself may
        be picked as the minimum, and then the loop has already placed it. */
    method FillDownward(start: int, ghost dead: Timer, ghost was: seq<Timer?>)
      requires Hole(start, dead, was) && 0 <= start < numTimers - 1
      requires start > 0 ==> heap[Parent(start)].abstime <= heap[numTimers - 1].abstime
      modifies heap, was`heapPos
      ensures Hole(numTimers - 1, dead, was)
    {
      hide Linked;
      var pos := start;
      while Child2(pos) < numTimers
        invariant 0 <= pos < numTimers
        invariant Hole(pos, dead, was)
        invariant pos > 0 ==> Slots()[Parent(pos)].abstime <= Slots()[numTimers - 1].abstime
        decreases numTimers - pos
      {
        var min := Least(pos, dead, was);
        FillFrom(pos, min, dead, was);
        pos := min;
        OrderAtParent(Slots(), pos);
      }
      if pos != numTimers - 1 {
        FillFrom(pos, numTimers - 1, dead, was);
      }
    }

    /** timer_reset: removes a pending timer from wherever it is. */
    method Reset(timer: Timer) returns (arg: nat)
      requires Valid() && timer in Slots()
      modifies this`numTimers, heap, Timers()`heapPos
      ensures Valid()
      ensures arg == timer.arg
      ensures numTimers == old(numTimers) - 1
      ensures Pending() == old(Pending()) - {timer}
    {
      hide HeapOrdered;
      arg := timer.arg;
      Detach(timer);
    }

    method Detach(timer: Timer)
      requires Valid() && timer in Slots()
      modifies this`numTimers, heap, Timers()`heapPos
      ensures Valid() && numTimers == old(numTimers) - 1
      ensures forall t {:trigger t in Slots()} {:trigger t in old(Slots())} :: t in Slots() <==> t in old(Slots()) && t != timer
    {
      var pos := timer.heapPos;
      ghost var was := Slots();
      DigHole(timer);
      hide Linked, HeapOrdered, Hole;
      CloseHole(pos, timer, was);
      Forget(timer, was);
      numTimers := numTimers - 1;
    }

    lemma DigHole(timer: Timer)
      requires Valid() && timer in Slots()
      ensures Hole(timer.heapPos, timer, Slots()) && heap[timer.heapPos] == timer
    {
      var s := Slots();
      forall i | 0 <= i < |s| ensures s[i] == heap[i] && s[i] in s {
      }
    }

    /** Replaces the deleted timer at `pos` with the last one and restores the heap. */
    method CloseHole(pos: int, ghost timer: Timer, ghost was: seq<Timer?>)
      requires Hole(pos, timer, was)
      modifies heap, was`heapPos
      ensures Hole(numTimers - 1, timer, was)
    {
      hide Linked;
      if pos != numTimers - 1 {
        SlotIsLive(numTimers - 1, pos, timer, was);
        if pos > 0 { SlotIsLive(Parent(pos), pos, timer, was); }
        if pos > 0 && Time(numTimers - 1, timer) < Time(Parent(pos), timer) {
          FillUpward(pos, timer, was);
        } else {
          FillDownward(pos, timer, was);
        }
      }
    }

    /** Once the hole is the last slot, dropping that slot drops exactly the dead timer. */
    lemma Forget(dead: Timer, was: seq<Timer?>)
      requires Hole(numTimers - 1, dead, was) && dead in was
      ensures 0 < numTimers <= heap.Length == heapSize && HeapOrdered(heap[..numTimers - 1])
      ensures forall i {:trigger heap[i]} | 0 <= i < numTimers - 1 :: heap[i] != null && heap[i].heapPos == i
      ensures forall t {:trigger t in was} | t in was && t != dead :: t in heap[..numTimers - 1]
      ensures forall t {:trigger t in heap[..numTimers - 1]} | t in heap[..numTimers - 1] :: t in was && t != dead
    {
      var s := Slots();
      assert heap[..numTimers - 1] == s[..numTimers - 1];
      assert forall i | 0 <= i < numTimers :: s[i] == heap[i];
      forall t | t in was && t != dead ensures t in s[..numTimers - 1] {
        assert s[..numTimers - 1][t.heapPos] == t;
      }
    }

    /** Room for one more timer, with slot `pos` on the path from the end to the root stale and
        everything already moved below it due after `timer`. */
    ghost predicate Gap(pos: int, timer: Timer, was: seq<Timer?>)
      reads this, heap, heap[..], was
    {
      && numTimers < heap.Length == heapSize
      && 0 <= pos <= numTimers
      && HeapOrdered(heap[..if pos == numTimers then pos else numTimers + 1])
      && (pos < numTimers ==> timer.abstime < heap[pos].abstime)
      && null !in was && timer !in was
      && Linked(heap[..numTimers + 1], pos, null, was)
    }

    /** HEAP_ASSIGN of the parent into the gap at `pos`, which moves up. */
    method SettleParent(pos: int, ghost timer: Timer, ghost was: seq<Timer?>)
      requires Gap(pos, timer, was) && pos > 0 && heap[Parent(pos)] != null
      requires timer.abstime < heap[Parent(pos)].abstime
      modifies heap, was`heapPos
      ensures Gap(Parent(pos), timer, was)
    {
      SettledOrder(pos, heap[Parent(pos)], timer, was);
      hide HeapOrdered, Linked;
      ghost var s := heap[..numTimers + 1];
      Assign(numTimers + 1, pos, Parent(pos), null, was);
      assert heap[Parent(pos)] == heap[..numTimers + 1][Parent(pos)] == s[Parent(pos)];
    }

    /** HEAP_ASSIGN of the new timer into the gap at `pos`. */
    method SettleTimer(pos: int, timer: Timer, ghost was: seq<Timer?>)
      requires Gap(pos, timer, was)
      requires pos > 0 ==> heap[Parent(pos)] != null && heap[Parent(pos)].abstime <= timer.abstime
      modifies heap, timer`heapPos
      ensures HeapOrdered(heap[..numTimers + 1]) && Linked(heap[..numTimers + 1], -1, null, was + [timer])
    {
      SettledOrder(pos, timer, timer, was);
      hide HeapOrdered;
      ghost var s := heap[..numTimers + 1];
      heap[pos] := timer;
      heap[pos].heapPos := pos;
      assert heap[..numTimers + 1] == s[pos := timer];
      assert forall u | u in was + [timer] :: u == timer || u in was;
    }

    lemma SettledOrder(pos: int, t: Timer, timer: Timer, was: seq<Timer?>)
      requires Gap(pos, timer, was)
      requires t == timer || (pos > 0 && t == heap[Parent(pos)] && timer.abstime < t.abstime)
      requires t == timer && pos > 0 ==> heap[Parent(pos)].abstime <= t.abstime
      ensures HeapOrdered(heap[..numTimers + 1][pos := t])
    {
      hide Linked;
      var s := heap[..numTimers + 1];
      if pos == numTimers {
        AppendKeepsOrder(heap[..numTimers], t);
        assert s[pos := t] == heap[..numTimers] + [t];
      } else {
        OrderAtParent(s, pos);
        FitKeepsOrder(s, pos, t);
      }
    }

    /** The insertion loop of add_timer. */
    method SiftUp(timer: Timer, ghost was: seq<Timer?>)
      requires Gap(numTimers, timer, was)
      modifies this`numTimers, heap, was`heapPos, timer`heapPos
      ensures numTimers == old(numTimers) + 1 <= heap.Length
      ensures HeapOrdered(Slots()) && Linked(Slots(), -1, null, was + [timer])
    {
      var pos := numTimers;
      hide Linked;
      while pos > 0 && timer.abstime < heap[Parent(pos)].abstime
        invariant Gap(pos, timer, was) && numTimers == old(numTimers)
      {
        SettleParent(pos, timer, was);
        pos := Parent(pos);
      }
      SettleTimer(pos, timer, was);
      numTimers := numTimers + 1;
    }

    /** "Create or resize the heap as necessary." */
    method Grow()
      requires Valid()
      modifies this`heap, this`heapSize
      ensures Valid() && numTimers < heapSize && Slots() == old(Slots())
      ensures heap == old(heap) || fresh(heap)
    {
      if heapSize == 0 {
        heapSize := INITIAL_HEAP_SIZE;
        heap := new Timer?[heapSize];
      } else if numTimers >= heapSize {
        heapSize := heapSize * 2 + DELTA;
        var bigger := new Timer?[heapSize];
        forall i | 0 <= i < numTimers {
          bigger[i] := heap[i];
        }
        heap := bigger;
      }
      assert Slots() == old(Slots());
      assert forall i | 0 <= i < numTimers :: heap[i] == Slots()[i] && old(heap[i]) == Slots()[i];
    }

    /** add_timer. */
    method AddTimer(timer: Timer)
      requires Valid() && timer !in Slots()
      modifies this, heap, Timers()`heapPos, timer`heapPos
      ensures Valid() && (heap == old(heap) || fresh(heap))
      ensures numTimers == old(numTimers) + 1
      ensures Pending() == old(Pending())[timer := Entry(timer.abstime, timer.func, timer.arg)]
    {
      hide HeapOrdered;
      Grow();
      Insert(timer);
    }

    method Insert(timer: Timer)
      requires Valid() && numTimers < heapSize && timer !in Slots()
      modifies this`numTimers, heap, Timers()`heapPos, timer`heapPos
      ensures Valid() && numTimers == old(numTimers) + 1
      ensures Pending() == old(Pending())[timer := Entry(timer.abstime, timer.func, timer.arg)]
    {
      hide HeapOrdered;
      Attach(timer);
    }

    method Attach(timer: Timer)
      requires Valid() && numTimers < heapSize && timer !in Slots()
      modifies this`numTimers, heap, Timers()`heapPos, timer`heapPos
      ensures Valid() && numTimers == old(numTimers) + 1
      ensures forall t {:trigger t in Slots()} {:trigger t in old(Slots())} :: t in Slots() <==> t in old(Slots()) || t == timer
    {
      ghost var was := Slots();
      OpenGap(timer);
      hide Linked, HeapOrdered;
      SiftUp(timer, was);
      Relinked(was + [timer]);
    }

    lemma OpenGap(timer: Timer)
      requires Valid() && numTimers < heapSize && timer !in Slots()
      ensures Gap(numTimers, timer, Slots())
    {
      var s := Slots();
      var s' := heap[..numTimers + 1];
      forall i | 0 <= i < |s| ensures s[i] == heap[i] == s'[i] && s[i] in s {
      }
    }

    lemma Relinked(was: seq<Timer?>)
      requires numTimers <= heap.Length && Linked(Slots(), -1, null, was) && null !in was
      ensures forall t {:trigger t in was} {:trigger t in Slots()} :: t in was <==> t in Slots()
      ensures forall i {:trigger heap[i]} | 0 <= i < numTimers :: heap[i] != null && heap[i].heapPos == i
    {
      var s := Slots();
      assert forall i | 0 <= i < |s| :: heap[i] == s[i];
    }

    /** timer_set_abs. */
    method SetAbs(abstime: int, func: Proc, arg: nat) returns (timer: Timer)
      requires Valid()
      modifies this, heap, Timers()`heapPos
      ensures Valid() && fresh(timer) && (heap == old(heap) || fresh(heap))
      ensures Step(old(Pending()), Set(timer, Entry(abstime, func, arg)), Pending())
    {
      timer := new Timer(abstime, func, arg);
      AddTimer(timer);
    }

    /** timer_process up to the call of the handler: what fires, if anything, is due and is the
        earliest of all pending timers; the handler gets the procedure and argument it was set with. */
    method Process(now: int) returns (fired: Option<(Timer, Proc, nat)>)
      requires Valid()
      modifies this`numTimers, heap, Timers()`heapPos, Timers()`func, Timers()`arg
      ensures Valid()
      ensures fired.None? ==> Step(old(Pending()), Idle(now), Pending())
      ensures fired.Some? ==>
        && Step(old(Pending()), Fire(now, fired.value.0), Pending())
        && old(Pending())[fired.value.0] == Entry(fired.value.0.abstime, fired.value.1, fired.value.2)
    {
      if numTimers > 0 { Root(); }
      if numTimers == 0 || heap[0].abstime > now {
        return None;
      }
      var t := heap[0];
      var func, arg := t.func, t.arg;
      ghost var q := Pending();
      t.func := Botch;
      t.arg := 0;
      assert forall k | k in Pending() && k != t :: Pending()[k] == q[k];
      var _ := Reset(t);
      return Some((t, func, arg));
    }

    lemma Root()
      requires Valid() && numTimers > 0
      ensures heap[0] in Slots() && Earliest(Pending(), heap[0])
    {
      var s := Slots();
      assert s[0] == heap[0];
      forall i | 0 <= i < |s| ensures s[0].abstime <= s[i].abstime {
        RootIsEarliest(s, i);
      }
    }

    lemma Keys()
      requires Valid()
      ensures forall t | t in Slots() :: t in Pending()
    {
    }

    lemma SlotIsPending(i: nat)
      requires Valid() && i < numTimers
      ensures heap[i] in Slots() && heap[i] in Pending()
    {
      assert Slots()[i] == heap[i];
    }

    /** timer_timeout: the select timeout is never negative and never sleeps past a deadline. */
    method Timeout(now: int) returns (sec: Option<int>)
      requires Valid()
      ensures sec.None? <==> Pending() == map[]
      ensures sec.Some? ==>
        exists t :: Earliest(Pending(), t) && sec.value == if Pending()[t].abstime < now then 0 else Pending()[t].abstime - now
    {
      if numTimers > 0 {
        Root();
        assert heap[0] in Pending();
        var tv := heap[0].abstime - now;
        if tv < 0 {
          tv := 0;
        }
        return Some(tv);
      } else {
        return None;
      }
    }
  }

  /** What a client of the timer library may do, in any order. */
  datatype Request =
    | SetTimer(abstime: int, func: Proc, arg: nat)
    | CancelSlot(slot: nat)
    | ProcessAt(now: int)

  /** Every run of the heap, whatever the requests, is a run of the simple queue. */
  method Play(h: Heap, script: seq<Request>) returns (events: seq<Event<Timer?>>, ghost states: seq<Queue<Timer?>>)
    requires h.Valid()
    modifies h, h.heap, h.Timers()
    ensures h.Valid() && (h.heap == old(h.heap) || fresh(h.heap))
    ensures Run(states, events)
    ensures states[0] == old(h.Pending()) && states[|events|] == h.Pending()
  {
    events, states := [], [h.Pending()];
    hide HeapOrdered;
    for n := 0 to |script|
      invariant h.Valid()
      invariant h.heap == old(h.heap) || fresh(h.heap)
      invariant forall t | t in h.Timers() :: t in old(h.Timers()) || fresh(t)
      invariant Run(states, events)
      invariant states[0] == old(h.Pending()) && states[|events|] == h.Pending()
    {
      var event := PlayOne(h, script[n]);
      if event.Some? {
        states, events := states + [h.Pending()], events + [event.value];
      }
    }
  }

  method PlayOne(h: Heap, request: Request) returns (event: Option<Event<Timer?>>)
    requires h.Valid()
    modifies h, h.heap, h.Timers()
    ensures h.Valid()
    ensures h.heap == old(h.heap) || fresh(h.heap)
    ensures forall t | t in h.Timers() :: t in old(h.Timers()) || fresh(t)
    ensures if event.Some? then Step(old(h.Pending()), event.value, h.Pending())
            else h.Pending() == old(h.Pending())
  {
    hide HeapOrdered;
    match request
    case SetTimer(abstime, func, arg) =>
      var t := h.SetAbs(abstime, func, arg);
      event := Some(Set(t, Entry(abstime, func, arg)));
      h.Keys();
    case CancelSlot(slot) =>
      if slot < h.numTimers {
        h.SlotIsPending(slot);
        var t := h.heap[slot];
        var _ := h.Reset(t);
        event := Some(Event.Reset(t));
      } else {
        event := None;
      }
      h.Keys();
    case ProcessAt(now) =>
      var fired := h.Process(now);
      event := Some(if fired.Some? then Fire(now, fired.value.0) else Idle(now));
      h.Keys();
  }
}
