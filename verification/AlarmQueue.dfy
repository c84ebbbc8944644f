/** The wake-up calls of the Xj library (athena/lib/Xj/Jets.c): a list sorted by time and a list of
    free entries, both relinked in place.  The clock is a parameter of each operation, and a
    wake-up procedure is the list of operations it performs. */
module AlarmQueue {

  type Ptr = nat
  const NULL: Ptr := 0

  datatype Time = Time(sec: int, usec: int)

  predicate Before(a: Time, b: Time) { a.sec < b.sec || (a.sec == b.sec && a.usec < b.usec) }

  predicate Normal(t: Time) { 0 <= t.usec < 1_000_000 }

  function Micros(t: Time): int { 1_000_000 * t.sec + t.usec }

  /** One time is before another if it is so in microseconds. */
  lemma BeforeMeaning(a: Time, b: Time)
    requires Normal(a) && Normal(b)
    ensures Before(a, b) <==> Micros(a) < Micros(b)
  {
    if a.sec < b.sec { assert a.sec + 1 <= b.sec; } else if b.sec < a.sec { assert b.sec + 1 <= a.sec; }
  }

  /** The time `interval` milliseconds after `now`. */
  function Due(now: Time, interval: nat): Time {
    var t := Time(interval / 1000 + now.sec, interval % 1000 * 1000 + now.usec);
    if t.usec >= 1_000_000 then Time(t.sec + 1, t.usec - 1_000_000) else t
  }

  lemma DueIsLater(now: Time, interval: nat)
    requires Normal(now)
    ensures Normal(Due(now, interval)) && Micros(Due(now, interval)) == Micros(now) + 1000 * interval
  {
    assert interval == interval / 1000 * 1000 + interval % 1000;
  }

  datatype Entry = Entry(next: Ptr, when: Time, id: int, data: int)

  type Memory = map<Ptr, Entry>

  datatype Alarm = Alarm(when: Time, id: int, data: int)

  // ----- Chains of entries -----

  function At(s: seq<Ptr>, i: nat): Ptr { if i < |s| then s[i] else NULL }

  /** From `head` on the entries of `s` are linked, the last of them to nothing. */
  ghost predicate Chain(m: Memory, head: Ptr, s: seq<Ptr>) {
    && head == At(s, 0)
    && (forall i | 0 <= i < |s| :: s[i] in m && s[i] != NULL)
    && (forall i | 0 <= i < |s| :: m[s[i]].next == At(s, i + 1))
  }

  ghost predicate Distinct(s: seq<Ptr>) { forall i, j | 0 <= i < j < |s| :: s[i] != s[j] }

  ghost predicate Apart(s: seq<Ptr>, t: seq<Ptr>) { forall p | p in s :: p !in t }

  function Payload(e: Entry): Alarm { Alarm(e.when, e.id, e.data) }

  ghost function View(m: Memory, s: seq<Ptr>): (r: seq<Alarm>)
    requires forall p | p in s :: p in m
    ensures |r| == |s| && forall i | 0 <= i < |s| :: r[i] == Payload(m[s[i]])
  {
    if s == [] then [] else [Payload(m[s[0]])] + View(m, s[1..])
  }

  /** A chain with nothing in common with what changed is still a chain. */
  lemma ChainKept(m: Memory, m': Memory, head: Ptr, s: seq<Ptr>)
    requires Chain(m, head, s)
    requires forall p | p in s && p in m :: p in m' && m'[p] == m[p]
    ensures Chain(m', head, s)
    ensures (forall p | p in s :: p in m && p in m') && View(m', s) == View(m, s)
  {
    InChain(m, head, s);
  }

  lemma InChain(m: Memory, head: Ptr, s: seq<Ptr>)
    requires Chain(m, head, s)
    ensures forall p | p in s :: p in m
  {
  }

  lemma ChainTail(m: Memory, head: Ptr, s: seq<Ptr>)
    requires Chain(m, head, s) && s != []
    ensures head == s[0] && head in m && head != NULL && Chain(m, m[head].next, s[1..])
  {
  }

  lemma ChainPush(m: Memory, head: Ptr, s: seq<Ptr>, p: Ptr)
    requires Chain(m, head, s) && p in m && p != NULL && m[p].next == head
    ensures Chain(m, p, [p] + s)
  {
    var t := [p] + s;
    assert forall i | 0 <= i < |s| :: t[i + 1] == s[i];
    forall i | 0 <= i < |t|
      ensures t[i] in m && t[i] != NULL && m[t[i]].next == At(t, i + 1)
    {
      if i > 0 { assert m[s[i - 1]].next == At(s, i); }
    }
  }

  /** Entry `p` linked in at `k`. */
  lemma ChainInsert(m: Memory, m': Memory, head: Ptr, s: seq<Ptr>, k: nat, p: Ptr)
    requires Chain(m, head, s) && Distinct(s) && k <= |s| && p !in s && p != NULL
    requires p in m' && m'[p].next == At(s, k)
    requires forall i | 0 <= i < |s| && i + 1 != k :: s[i] in m' && m'[s[i]] == m[s[i]]
    requires k > 0 ==> s[k - 1] in m' && m'[s[k - 1]] == m[s[k - 1]].(next := p)
    ensures Chain(m', if k == 0 then p else head, s[..k] + [p] + s[k..])
  {
    var t := s[..k] + [p] + s[k..];
    forall i | 0 <= i < |t|
      ensures t[i] in m' && t[i] != NULL && m'[t[i]].next == At(t, i + 1)
    {
      if i < k {
        assert t[i] == s[i] && m[s[i]].next == At(s, i + 1);
      } else if i > k {
        assert t[i] == s[i - 1] && m[s[i - 1]].next == At(s, i);
      }
    }
  }

  /** The entry at `k` linked out. */
  lemma ChainDelete(m: Memory, m': Memory, head: Ptr, s: seq<Ptr>, k: nat)
    requires Chain(m, head, s) && Distinct(s) && k < |s|
    requires forall i | 0 <= i < |s| && i != k && i + 1 != k :: s[i] in m' && m'[s[i]] == m[s[i]]
    requires k > 0 ==> s[k - 1] in m' && m'[s[k - 1]] == m[s[k - 1]].(next := At(s, k + 1))
    ensures Chain(m', if k == 0 then At(s, 1) else head, s[..k] + s[k + 1..])
  {
    var t := s[..k] + s[k + 1..];
    forall i | 0 <= i < |t|
      ensures t[i] in m' && t[i] != NULL && m'[t[i]].next == At(t, i + 1)
    {
      if i < k {
        assert t[i] == s[i] && m[s[i]].next == At(s, i + 1);
      } else {
        assert t[i] == s[i + 1] && m[s[i + 1]].next == At(s, i + 2);
      }
    }
  }

  // ----- Sorted lists of alarms -----

  ghost predicate Sorted(s: seq<Alarm>) {
    forall i, j | 0 <= i < j < |s| :: !Before(s[j].when, s[i].when)
  }

  ghost predicate UniqueIds(s: seq<Alarm>) { forall i, j | 0 <= i < j < |s| :: s[i].id != s[j].id }

  /** Where a new alarm goes: behind those that are earlier. */
  function Slot(s: seq<Alarm>, when: Time): (k: nat)
    ensures k <= |s| && (forall i | 0 <= i < k :: Before(s[i].when, when))
    ensures k < |s| ==> !Before(s[k].when, when)
  {
    if s == [] || !Before(s[0].when, when) then 0 else 1 + Slot(s[1..], when)
  }

  function Insert(s: seq<Alarm>, a: Alarm): seq<Alarm> {
    var k := Slot(s, a.when); s[..k] + [a] + s[k..]
  }

  /** The position of an id, or the length. */
  function Find(s: seq<Alarm>, id: int): (k: nat)
    ensures k <= |s| && (forall i | 0 <= i < k :: s[i].id != id) && (k < |s| ==> s[k].id == id)
  {
    if s == [] || s[0].id == id then 0 else 1 + Find(s[1..], id)
  }

  function Without(s: seq<Alarm>, id: int): seq<Alarm> {
    var k := Find(s, id);
    if k == |s| then s else s[..k] + s[k + 1..]
  }

  lemma InsertKeepsOrder(s: seq<Alarm>, a: Alarm)
    requires Sorted(s) && UniqueIds(s) && forall x | x in s :: x.id != a.id
    ensures Sorted(Insert(s, a)) && UniqueIds(Insert(s, a))
    ensures multiset(Insert(s, a)) == multiset(s) + multiset{a}
  {
    hide Slot, Sorted, UniqueIds;
    var k := Slot(s, a.when);
    PlaceSorted(s, a, k);
    PlaceUnique(s, a, k);
    PlaceAdds(s, a, k);
  }

  lemma PlaceAdds(s: seq<Alarm>, a: Alarm, k: nat)
    requires k <= |s|
    ensures multiset(s[..k] + [a] + s[k..]) == multiset(s) + multiset{a}
  {
    assert s == s[..k] + s[k..];
  }

  lemma PlaceSorted(s: seq<Alarm>, a: Alarm, k: nat)
    requires Sorted(s) && k <= |s|
    requires forall i | 0 <= i < k :: Before(s[i].when, a.when)
    requires k < |s| ==> !Before(s[k].when, a.when)
    ensures Sorted(s[..k] + [a] + s[k..])
  {
    var t := s[..k] + [a] + s[k..];
    forall i, j | 0 <= i < j < |t|
      ensures !Before(t[j].when, t[i].when)
    {
      assert i < k ==> t[i] == s[i];
      assert i > k ==> t[i] == s[i - 1];
      assert j < k ==> t[j] == s[j];
      assert j > k ==> t[j] == s[j - 1];
      assert i == k && j > k + 1 ==> !Before(s[j - 1].when, s[k].when);
    }
  }

  lemma PlaceUnique(s: seq<Alarm>, a: Alarm, k: nat)
    requires UniqueIds(s) && k <= |s| && forall x | x in s :: x.id != a.id
    ensures UniqueIds(s[..k] + [a] + s[k..])
  {
    var t := s[..k] + [a] + s[k..];
    forall i, j | 0 <= i < j < |t|
      ensures t[i].id != t[j].id
    {
      assert i < k ==> t[i] == s[i] && s[i] in s;
      assert i > k ==> t[i] == s[i - 1];
      assert j < k ==> t[j] == s[j];
      assert j > k ==> t[j] == s[j - 1] && s[j - 1] in s;
    }
  }

  lemma WithoutKeepsOrder(s: seq<Alarm>, id: int)
    requires Sorted(s) && UniqueIds(s)
    ensures Sorted(Without(s, id)) && UniqueIds(Without(s, id))
    ensures forall x | x in Without(s, id) :: x in s && x.id != id
    ensures Find(s, id) == |s| ==> Without(s, id) == s
    ensures Find(s, id) < |s| ==> multiset(s) == multiset(Without(s, id)) + multiset{s[Find(s, id)]}
  {
    hide Find, Sorted, UniqueIds;
    var k := Find(s, id);
    if k < |s| {
      DeleteKeepsOrder(s, k);
      DeleteTakes(s, k);
    }
  }

  lemma DeleteKeepsOrder(s: seq<Alarm>, k: nat)
    requires Sorted(s) && UniqueIds(s) && k < |s|
    ensures var t := s[..k] + s[k + 1..]; Sorted(t) && UniqueIds(t) && forall x | x in t :: x in s && x.id != s[k].id
  {
    var t := s[..k] + s[k + 1..];
    forall i | 0 <= i < |t|
      ensures t[i] == s[if i < k then i else i + 1]
    {
    }
  }

  lemma DeleteTakes(s: seq<Alarm>, k: nat)
    requires k < |s|
    ensures multiset(s) == multiset(s[..k] + s[k + 1..]) + multiset{s[k]}
  {
    assert s == s[..k] + [s[k]] + s[k + 1..];
  }

  // ----- The queue -----

  datatype Op = Add(now: Time, interval: nat, data: int) | Remove(now: Time, id: int)

  /** A wake-up procedure is what it does when called for an alarm with the next id at hand. */
  datatype Request = Do(op: Op) | Flush(now: Time, acts: (Alarm, int) -> seq<Op>)

  ghost predicate TameRequest(r: Request) {
    match r
    case Do(op) => Normal(op.now)
    case Flush(now, acts) => forall a: Alarm, c: int :: a.id < c ==> Tame(acts(a, c), c, a, now)
  }

  /** Every alarm that was ever asked for, by its id; the ids taken back; and the alarms whose entry
      the flush released. */
  datatype Books = Books(added: seq<Alarm>, taken: set<int>, released: seq<Alarm>)

  /** Each id handed out is in exactly one place: still waiting, taken back, or released. */
  ghost predicate Balanced(pending: seq<Alarm>, b: Books) {
    && (forall i | 0 <= i < |b.added| :: b.added[i].id == i)
    && (forall x | x in pending || x in b.released :: 0 <= x.id < |b.added| && b.added[x.id] == x)
    && (forall i | i in b.taken :: 0 <= i < |b.added|)
    && UniqueIds(b.released)
    && (forall i | 0 <= i < |b.added| :: b.added[i] in pending <==> b.added[i] !in b.released && i !in b.taken)
    && (forall i | 0 <= i < |b.added| :: !(b.added[i] in b.released && i in b.taken))
  }

  lemma BalancedAdd(s: seq<Alarm>, b: Books, a: Alarm)
    requires Balanced(s, b) && a.id == |b.added|
    ensures Balanced(Insert(s, a), b.(added := b.added + [a]))
  {
    var t, added := Insert(s, a), b.added + [a];
    hide UniqueIds, Slot;
    assert forall x :: x in t <==> x in s || x == a by {
      PlaceAdds(s, a, Slot(s, a.when));
      assert forall x :: x in t <==> x in multiset(t);
    }
    hide Insert;
    assert forall i | 0 <= i < |b.added| :: added[i] == b.added[i] && b.added[i] != a;
  }

  lemma BalancedRemove(s: seq<Alarm>, b: Books, id: int)
    requires Balanced(s, b) && Sorted(s) && UniqueIds(s)
    ensures Balanced(Without(s, id), Taken(s, b, id))
  {
    WithoutMembers(s, id);
    var k, t := Find(s, id), Without(s, id);
    hide Find, Sorted, UniqueIds, Without, Balanced;
    if k < |s| {
      BalancedTake(s, t, b, s[k]);
    } else {
      BalancedSame(s, t, b);
    }
  }

  lemma BalancedTake(s: seq<Alarm>, t: seq<Alarm>, b: Books, a: Alarm)
    requires Balanced(s, b) && a in s && forall x :: x in t <==> x in s && x.id != a.id
    ensures Balanced(t, b.(taken := b.taken + {a.id}))
  {
    hide UniqueIds;
    assert b.added[a.id] == a;
    forall i | 0 <= i < |b.added|
      ensures b.added[i] in t <==> b.added[i] in s && i != a.id
    {
      assert b.added[i].id == i;
    }
  }

  lemma BalancedSame(s: seq<Alarm>, t: seq<Alarm>, b: Books)
    requires Balanced(s, b) && forall x :: x in t <==> x in s
    ensures Balanced(t, b)
  {
    hide UniqueIds;
  }

  lemma WithoutMembers(s: seq<Alarm>, id: int)
    requires Sorted(s) && UniqueIds(s)
    ensures forall x :: x in Without(s, id) <==> x in s && x.id != id
    ensures Find(s, id) == |s| ==> forall x | x in s :: x.id != id
  {
    WithoutKeepsOrder(s, id);
    hide Sorted, UniqueIds;
    forall x | x in s && x.id != id
      ensures x in Without(s, id)
    {
      assert x in multiset(s);
    }
  }

  function Taken(s: seq<Alarm>, b: Books, id: int): Books {
    if Find(s, id) < |s| then b.(taken := b.taken + {id}) else b
  }

  lemma BalancedPop(s: seq<Alarm>, b: Books)
    requires Balanced(s, b) && s != [] && UniqueIds(s)
    ensures Balanced(s[1..], b.(released := b.released + [s[0]]))
  {
    var a, t, released := s[0], s[1..], b.released + [s[0]];
    assert s == [a] + t && a in s;
    forall x | x in t
      ensures x in s && x.id != a.id
    {
      var i :| 0 <= i < |t| && t[i] == x;
      assert s[i + 1] == x;
    }
    assert b.added[a.id] == a;
    forall i, j | 0 <= i < j < |released|
      ensures released[i].id != released[j].id
    {
      assert released[i] in b.released && released[i] == b.added[released[i].id];
      if j < |b.released| { assert released[j] == b.released[j]; }
    }
    hide UniqueIds;
  }

  class Queue {
    var m: Memory
    var brk: Ptr
    var alarmList: Ptr
    var freeAlarms: Ptr
    var curID: int
    ghost var alarms: seq<Ptr>
    ghost var frees: seq<Ptr>
    ghost var books: Books
    ghost var called: seq<Alarm>

    /** Both lists are linked. */
    ghost predicate Linked()
      reads this`m, this`brk, this`alarmList, this`freeAlarms, this`alarms, this`frees
    {
      && Chain(m, alarmList, alarms) && Chain(m, freeAlarms, frees)
      && Held(m, alarms, frees, brk) && brk > NULL
    }

    /** The alarms that wait. */
    ghost function Pending(): seq<Alarm>
      requires Linked()
      reads this`m, this`brk, this`alarmList, this`freeAlarms, this`alarms, this`frees
    {
      InChain(m, alarmList, alarms);
      View(m, alarms)
    }

    ghost predicate Valid()
      reads this
    {
      && Linked() && Sorted(Pending()) && UniqueIds(Pending())
      && (forall a | a in Pending() :: a.id < curID && Normal(a.when))
      && |books.added| == curID && Balanced(Pending(), books)
    }

    constructor ()
      ensures Valid() && Pending() == [] && frees == [] && curID == 0
      ensures books == Books([], {}, []) && called == []
    {
      m, brk, alarmList, freeAlarms, curID := map[], 1, NULL, NULL, 0;
      alarms, frees := [], [];
      books, called := Books([], {}, []), [];
    }

    /** Ten more entries, linked to each other. */
    method Refill()
      requires Linked() && frees == []
      modifies this`m, this`brk, this`freeAlarms, this`frees
      ensures Linked() && Pending() == old(Pending()) && |frees| == 10
    {
      hide Chain, Distinct, Apart, View, Held;
      ghost var before, block := m, brk;
      m := LinkBlock(m, brk);
      freeAlarms := brk;
      brk := brk + 10;
      frees := Numbered(block, 10);
      BlockChain(m, block);
      BlockHeld(before, m, alarms, block);
      InChain(before, alarmList, alarms);
      ChainKept(before, m, alarmList, alarms);
    }

    /** The link behind which an alarm for `when` goes, and the entry after it. */
    method FindSlot(when: Time) returns (last: Ptr, ptr: Ptr, ghost k: nat)
      requires Linked()
      ensures k == Slot(Pending(), when) && ptr == At(alarms, k)
      ensures last == if k == 0 then NULL else alarms[k - 1]
    {
      hide Held, View;
      ghost var s := Pending();
      k, last, ptr := 0, NULL, alarmList;
      while ptr != NULL && Before(m[ptr].when, when)
        invariant k <= |alarms| && ptr == At(alarms, k)
        invariant last == if k == 0 then NULL else alarms[k - 1]
        invariant forall i | 0 <= i < k :: Before(s[i].when, when)
        decreases |alarms| - k
      {
        assert s[k].when == m[ptr].when;
        last, ptr := ptr, m[ptr].next;
        k := k + 1;
      }
      SlotIs(s, when, k);
    }

    method FindId(id: int) returns (last: Ptr, ptr: Ptr, ghost k: nat)
      requires Linked()
      ensures k == Find(Pending(), id) && ptr == At(alarms, k)
      ensures last == if k == 0 then NULL else alarms[k - 1]
    {
      hide Held, View;
      ghost var s := Pending();
      k, last, ptr := 0, NULL, alarmList;
      while ptr != NULL && m[ptr].id != id
        invariant k <= |alarms| && ptr == At(alarms, k)
        invariant last == if k == 0 then NULL else alarms[k - 1]
        invariant forall i | 0 <= i < k :: s[i].id != id
        decreases |alarms| - k
      {
        assert s[k].id == m[ptr].id;
        last, ptr := ptr, m[ptr].next;
        k := k + 1;
      }
      FindIs(s, id, k);
    }

    /** The first free entry becomes an alarm. */
    method Link(when: Time, data: int)
      requires Linked() && frees != []
      modifies this`m, this`alarmList, this`freeAlarms, this`alarms, this`frees
      ensures Linked() && Pending() == Insert(old(Pending()), Alarm(when, curID, data))
      ensures m.Keys == old(m.Keys)
    {
      hide Chain, Held, View, Slot;
      FreeHead(m, freeAlarms, frees);
      FreeApart(m, alarms, frees, brk);
      ghost var a, before := Alarm(when, curID, data), m;
      var last, ptr, k := FindSlot(when);
      if k > 0 { LastIn(m, alarmList, alarms, frees, k, brk); }
      var next := freeAlarms;
      freeAlarms := m[next].next;
      m := m[next := Entry(ptr, when, curID, data)];
      if last == NULL {
        alarmList := next;
      } else {
        m := m[last := m[last].(next := next)];
      }
      assert Splicing(before, m, alarms, next, k, a);
      hide Splicing;
      SplicedChains(before, m, old(alarmList), alarms, frees, k, brk, a);
      SplicedHeld(before, m, alarms, frees, k, brk, a);
      SplicedView(before, m, old(alarmList), alarms, next, k, a);
      alarms, frees := alarms[..k] + [next] + alarms[k..], frees[1..];
    }

    /** A new alarm is put in order of time, before those of the same time.  Entries are only
        allocated when none is free. */
    method AddWakeup(data: int, interval: nat, now: Time) returns (id: int)
      requires Valid() && Normal(now)
      modifies this
      ensures Valid() && id == old(curID) && curID == id + 1
      ensures Pending() == Insert(old(Pending()), Alarm(Due(now, interval), id, data))
      ensures old(frees) != [] ==> m.Keys == old(m.Keys)
      ensures called == old(called)
      ensures books == old(books).(added := old(books.added) + [Alarm(Due(now, interval), id, data)])
    {
      hide Chain, Held, Sorted, UniqueIds, View, Due, Insert, Balanced;
      EmptyChain(m, freeAlarms, frees);
      if freeAlarms == NULL {
        Refill();
      }
      ghost var a, s := Alarm(Due(now, interval), curID, data), Pending();
      DueIsLater(now, interval);
      InsertKeepsOrder(s, a);
      InInsert(s, a);
      BalancedAdd(s, books, a);
      Link(Due(now, interval), data);
      id := curID;
      curID := curID + 1;
      books := books.(added := books.added + [a]);
    }

    /** The entry `ptr` at `k`, behind `last`, becomes free. */
    method Unlink(last: Ptr, ptr: Ptr, when: Time, ghost k: nat)
      requires Linked() && k < |alarms| && ptr == alarms[k] && last == if k == 0 then NULL else alarms[k - 1]
      modifies this`m, this`alarmList, this`freeAlarms, this`alarms, this`frees
      ensures Linked() && Pending() == old(Pending())[..k] + old(Pending())[k + 1..]
      ensures m.Keys == old(m.Keys)
    {
      hide Chain, Held, View, Distinct;
      ghost var before := m;
      AlarmsDiffer(m, alarms, frees, brk);
      LastIn(m, alarmList, alarms, frees, k + 1, brk);
      if k > 0 {
        LastIn(m, alarmList, alarms, frees, k, brk);
        Differ(m, alarms, frees, brk, k - 1, k);
      }
      NextIs(m, alarmList, alarms, k);
      var next := m[ptr].next;
      if last == NULL {
        alarmList := next;
      } else {
        m := m[last := m[last].(next := next)];
      }
      m := m[ptr := m[ptr].(next := freeAlarms, when := when)];
      freeAlarms := ptr;
      assert Cutting(before, m, alarms, old(freeAlarms), k);
      hide Cutting;
      CutChains(before, m, old(alarmList), old(freeAlarms), alarms, frees, k, brk);
      CutHeld(before, m, alarms, frees, k, brk, old(freeAlarms));
      CutView(before, m, old(alarmList), alarms, k, old(freeAlarms));
      alarms, frees := alarms[..k] + alarms[k + 1..], [ptr] + frees;
    }

    /** An alarm is taken back; the milliseconds that were left are returned, negative when it was
        overdue. */
    method RemoveWakeup(id: int, now: Time) returns (timeleft: int)
      requires Valid() && Normal(now)
      modifies this
      ensures Valid() && curID == old(curID) && m.Keys == old(m.Keys)
      ensures Pending() == Without(old(Pending()), id)
      ensures var s := old(Pending());
              var k := Find(s, id);
              timeleft == if k == |s| then 0 else (Micros(s[k].when) - Micros(now)) / 1000
      ensures called == old(called) && books == Taken(old(Pending()), old(books), id)
    {
      hide Chain, Held, Sorted, UniqueIds, View, Find, Micros, Without, Minus, Balanced;
      ghost var s := Pending();
      BalancedRemove(s, books, id);
      WithoutIs(s, id);
      WithoutKeepsOrder(s, id);
      Lengths(m, alarmList, alarms);
      var last, ptr, k := FindId(id);
      NullAt(m, alarmList, alarms, k);
      if ptr == NULL {
        return 0;
      }
      PayloadAt(m, alarmList, alarms, k);
      var when := Minus(m[ptr].when, now);
      timeleft := when.sec * 1000 + when.usec / 1000;
      Milliseconds(m[ptr].when, now);
      books := Taken(s, books, id);
      Unlink(last, ptr, when, k);
    }

    /** A wake-up procedure runs. */
    method RunHandler(ops: seq<Op>)
      requires Valid() && forall op | op in ops :: Normal(op.now)
      modifies this
      ensures Valid() && (Pending(), curID) == PerformAll(old(Pending()), old(curID), ops)
      ensures called == old(called) && books.released == old(books.released)
      ensures old(books.added) <= books.added && old(books.taken) <= books.taken
    {
      hide Linked, Sorted, UniqueIds, Insert, Without, View, Due, Balanced, Find;
      ghost var s, next := Pending(), curID;
      for i := 0 to |ops|
        invariant Valid() && (Pending(), curID) == PerformAll(s, next, ops[..i])
        invariant called == old(called) && books.released == old(books.released)
        invariant old(books.added) <= books.added && old(books.taken) <= books.taken
      {
        assert ops[..i + 1][..i] == ops[..i];
        assert ops[i] in ops;
        match ops[i] {
          case Add(now, interval, data) => var _ := AddWakeup(data, interval, now);
          case Remove(now, id) => var _ := RemoveWakeup(id, now);
        }
      }
      assert ops[..|ops|] == ops;
    }

    /** One turn of the flush, whatever the procedure does: the first alarm is called, and then the
        entry that is first is released.  Nothing is left to release if the procedure emptied the
        list, and the program then follows a null pointer. */
    method CallFirst(acts: (Alarm, int) -> seq<Op>) returns (a: Alarm, ok: bool)
      requires Valid() && Pending() != []
      requires forall op | op in acts(Pending()[0], curID) :: Normal(op.now)
      modifies this
      ensures Valid() && a == old(Pending())[0]
      ensures var r := PerformAll(old(Pending()), old(curID), acts(a, old(curID)));
              && curID == r.1 && (ok <==> r.0 != [])
              && Pending() == (if ok then r.0[1..] else [])
              && books.released == old(books.released) + (if ok then [r.0[0]] else [])
      ensures called == old(called) + [a]
      ensures old(books.added) <= books.added && old(books.taken) <= books.taken
    {
      hide Linked, Chain, Held, Sorted, UniqueIds, View, PerformAll, Balanced;
      FrontIs();
      a := Payload(m[alarmList]);
      called := called + [a];
      RunHandler(acts(a, curID));
      FrontIs();
      ok := alarmList != NULL;
      if ok {
        PopKeeps(Pending());
        BalancedPop(Pending(), books);
        books := books.(released := books.released + [Pending()[0]]);
        PopFront();
      }
    }

    /** The first alarm is called, due or not, and then all that are overdue, each once and in
        order of time; an alarm that was overdue is left out only if a procedure took it back. */
    method FlushAlarmQueue(now: Time, acts: (Alarm, int) -> seq<Op>) returns (fired: seq<Alarm>)
      requires Valid() && forall a, c | a in Pending() && a.id < c :: Tame(acts(a, c), c, a, now)
      modifies this
      ensures Valid() && old(curID) <= curID
      ensures Flushed(old(Pending()), old(curID), Pending(), fired, now, acts)
      ensures forall a | a in Pending() :: !Before(a.when, now)
      ensures if old(Pending()) == [] then fired == [] else fired != [] && fired[0] == old(Pending())[0]
      ensures called == old(called) + fired && books.released == old(books.released) + fired
      ensures old(books.added) <= books.added && old(books.taken) <= books.taken
    {
      hide *;
      ValidMeans();
      ghost var s, next := Pending(), curID;
      var first := true;
      fired := [];
      NothingFlushed(s, next, now, acts);
      FrontIs();
      while alarmList != NULL && (first || Before(m[alarmList].when, now))
        invariant Valid() && Linked() && next <= curID && Flushed(s, next, Pending(), fired, now, acts)
        invariant first ==> fired == [] && Pending() == s
        invariant !first ==> fired != [] && s != [] && fired[0] == s[0]
        invariant |fired| <= |s|
        invariant alarmList in m <==> Pending() != []
        invariant alarmList == NULL <==> Pending() == []
        invariant Pending() != [] ==> m[alarmList].when == Pending()[0].when
        invariant called == old(called) + fired && books.released == old(books.released) + fired
        invariant old(books.added) <= books.added && old(books.taken) <= books.taken
        decreases |s| - |fired|
      {
        ghost var p, c := Pending(), curID;
        ValidMeans();
        OneFlush(s, next, p, c, fired, now, acts, first);
        first := false;
        var a, ok := CallFirst(acts);
        ValidMeans();
        fired := fired + [a];
        FrontIs();
      }
      ValidMeans();
      Settled(Pending(), now);
    }

    lemma ValidMeans()
      requires Valid()
      ensures Linked() && Sorted(Pending()) && UniqueIds(Pending()) && Ordered(Pending(), curID)
    {
      hide Linked, Sorted, UniqueIds, Balanced;
    }

    /** Any sequence of requests and flushes whose procedures stay tame: over the whole run every id
        is called at most once, only alarms that were asked for are called, and every id handed out
        has been called, taken back or is still waiting, never two of these. */
    method Play(script: seq<Request>) returns (fired: seq<Alarm>)
      requires Valid() && called == books.released
      requires forall r | r in script :: TameRequest(r)
      modifies this
      ensures Valid() && old(curID) <= curID && called == old(called) + fired
      ensures UniqueIds(called) && forall x | x in called :: 0 <= x.id < curID && x == books.added[x.id]
      ensures forall i | 0 <= i < curID ::
                && (books.added[i] in called || books.added[i] in Pending() || i in books.taken)
                && !(books.added[i] in called && books.added[i] in Pending())
                && !(books.added[i] in called && i in books.taken)
                && !(books.added[i] in Pending() && i in books.taken)
      ensures old(books.added) <= books.added && old(books.taken) <= books.taken
    {
      fired := [];
      hide Linked, Sorted, UniqueIds, Insert, Without, View, Due, Balanced, Find, Flushed, Tame;
      for i := 0 to |script|
        invariant Valid() && called == books.released && old(curID) <= curID && called == old(called) + fired
        invariant old(books.added) <= books.added && old(books.taken) <= books.taken
      {
        assert TameRequest(script[i]);
        match script[i] {
          case Do(Add(now, interval, data)) => var _ := AddWakeup(data, interval, now);
          case Do(Remove(now, id)) => var _ := RemoveWakeup(id, now);
          case Flush(now, acts) =>
            var more := FlushAlarmQueue(now, acts);
            fired := fired + more;
        }
      }
      BalancedMeans(Pending(), books);
    }

    lemma FrontIs()
      requires Linked()
      ensures alarmList in m <==> Pending() != []
      ensures alarmList == NULL <==> Pending() == []
      ensures Pending() != [] ==> Payload(m[alarmList]) == Pending()[0] && m[alarmList].when == Pending()[0].when
    {
    }

    /** The first alarm becomes free. */
    method PopFront()
      requires Linked() && alarms != []
      modifies this`m, this`alarmList, this`freeAlarms, this`alarms, this`frees
      ensures Linked() && Pending() == old(Pending())[1..]
    {
      hide Held, View;
      var tmp := alarmList;
      Unlink(NULL, tmp, m[tmp].when, 0);
    }
  }

  // ----- What procedures may do -----

  function Perform(s: seq<Alarm>, next: int, op: Op): (seq<Alarm>, int) {
    match op
    case Add(now, interval, data) => (Insert(s, Alarm(Due(now, interval), next, data)), next + 1)
    case Remove(_, id) => (Without(s, id), next)
  }

  function PerformAll(s: seq<Alarm>, next: int, ops: seq<Op>): (seq<Alarm>, int) {
    if ops == [] then (s, next)
    else
      var r := PerformAll(s, next, ops[..|ops| - 1]);
      Perform(r.0, r.1, ops[|ops| - 1])
  }

  /** The ids of alarms that `ops` asks for no later than `a` and does not take back again. */
  function Strays(next: int, ops: seq<Op>, a: Alarm): set<int> {
    if ops == [] then {}
    else
      var n := |ops| - 1;
      var before := Strays(next, ops[..n], a);
      match ops[n]
      case Add(now, interval, _) =>
        if Before(a.when, Due(now, interval)) then before else before + {NextId(next, ops[..n])}
      case Remove(_, id) => before - {id}
  }

  function NextId(next: int, ops: seq<Op>): int {
    if ops == [] then next
    else NextId(next, ops[..|ops| - 1]) + if ops[|ops| - 1].Add? then 1 else 0
  }

  /** What a procedure must not do: take its own alarm back, or leave an alarm no later than it. */
  ghost predicate StaysFirst(ops: seq<Op>, next: int, a: Alarm) {
    Strays(next, ops, a) == {} && forall op | op in ops :: op.Remove? ==> op.id != a.id
  }

  /** The clock does not go back during the flush, and the procedure leaves its own alarm first. */
  ghost predicate Tame(ops: seq<Op>, next: int, a: Alarm, now: Time) {
    && StaysFirst(ops, next, a)
    && forall op | op in ops :: Normal(op.now) && (op.Add? ==> !Before(Due(op.now, op.interval), now))
  }

  lemma TameNormal(ops: seq<Op>, next: int, a: Alarm, now: Time)
    requires Tame(ops, next, a, now)
    ensures forall op | op in ops :: Normal(op.now)
  {
  }

  ghost predicate Ordered(s: seq<Alarm>, next: int) {
    Sorted(s) && UniqueIds(s) && forall x | x in s :: x.id < next
  }

  /** One operation of the procedure of the first alarm: that alarm is still first if and only if a
      new one is later than it and it is not the one taken back. */
  lemma FirstAfterOne(s: seq<Alarm>, next: int, op: Op)
    requires Ordered(s, next) && s != []
    ensures var r := Perform(s, next, op).0;
            (r != [] && r[0] == s[0]) <==>
            (op.Add? ==> Before(s[0].when, Due(op.now, op.interval))) && (op.Remove? ==> op.id != s[0].id)
  {
    hide Due, Sorted;
    match op
    case Add(t, interval, data) =>
      assert s[0] in s;
    case Remove(_, id) =>
      if id == s[0].id {
        assert Find(s, id) == 0;
        if |s| > 1 { assert Without(s, id)[0] == s[1]; }
      }
  }

  /** An alarm asked for no later than the one that is called goes before it: the flush then
      releases the new alarm uncalled and leaves the called one waiting. */
  lemma EarlierAlarmIsLost(s: seq<Alarm>, next: int, op: Op)
    requires s != [] && op.Add? && !Before(s[0].when, Due(op.now, op.interval))
    ensures var r := PerformAll(s, next, [op]);
            r.0[0] == Alarm(Due(op.now, op.interval), next, op.data) && r.0[1..] == s
  {
    assert [op][..0] == [];
    assert PerformAll(s, next, [op]) == Perform(s, next, op);
    hide Due;
    assert Slot(s, Due(op.now, op.interval)) == 0;
  }

  /** A procedure that takes its own alarm back makes the flush release the next one uncalled, or
      leaves nothing to release. */
  lemma OwnAlarmTakenBack(s: seq<Alarm>, next: int, op: Op)
    requires s != [] && op.Remove? && op.id == s[0].id
    ensures PerformAll(s, next, [op]).0 == s[1..]
  {
    assert [op][..0] == [];
    assert PerformAll(s, next, [op]) == Perform(s, next, op);
    assert Find(s, op.id) == 0;
  }

  /** Around the alarm `a` after any operations: before it are exactly its strays. */
  ghost predicate Around(r: seq<Alarm>, a: Alarm, k: nat, strays: set<int>) {
    && k < |r| && r[k] == a
    && (forall i | 0 <= i < k :: r[i].id in strays)
    && (forall d | d in strays :: exists i | 0 <= i < k :: r[i].id == d)
  }

  lemma {:induction false} AroundKept(s: seq<Alarm>, next: int, ops: seq<Op>) returns (k: nat)
    requires Ordered(s, next) && s != [] && forall op | op in ops :: op.Remove? ==> op.id != s[0].id
    ensures var r := PerformAll(s, next, ops);
            && r.1 == NextId(next, ops) && Ordered(r.0, r.1) && next <= r.1
            && Around(r.0, s[0], k, Strays(next, ops, s[0]))
    decreases |ops|
  {
    if ops == [] {
      k := 0;
    } else {
      var n := |ops| - 1;
      var j := AroundKept(s, next, ops[..n]);
      var r := PerformAll(s, next, ops[..n]);
      assert ops[n] in ops && s[0] in s;
      k := AroundStep(r.0, r.1, ops[n], s[0], j, Strays(next, ops[..n], s[0]));
    }
  }

  lemma AroundStep(r: seq<Alarm>, next: int, op: Op, a: Alarm, k: nat, strays: set<int>) returns (k': nat)
    requires Ordered(r, next) && Around(r, a, k, strays) && a.id < next && (op.Remove? ==> op.id != a.id)
    ensures var t := Perform(r, next, op);
            var strays' := match op
                           case Add(now, interval, _) =>
                             if Before(a.when, Due(now, interval)) then strays else strays + {next}
                           case Remove(_, id) => strays - {id};
            Ordered(t.0, t.1) && Around(t.0, a, k', strays')
  {
    match op
    case Add(now, interval, data) =>
      k' := AroundAdd(r, next, Alarm(Due(now, interval), next, data), a, k, strays);
    case Remove(_, id) =>
      k' := AroundRemove(r, next, id, a, k, strays);
  }

  lemma AroundAdd(r: seq<Alarm>, next: int, b: Alarm, a: Alarm, k: nat, strays: set<int>) returns (k': nat)
    requires Ordered(r, next) && Around(r, a, k, strays) && b.id == next
    ensures Ordered(Insert(r, b), next + 1)
    ensures Around(Insert(r, b), a, k', if Before(a.when, b.when) then strays else strays + {next})
  {
    hide Sorted, UniqueIds, Slot;
    InsertKeepsOrder(r, b);
    InInsert(r, b);
    var j := Slot(r, b.when);
    assert Insert(r, b) == r[..j] + [b] + r[j..];
    hide Insert;
    if Before(a.when, b.when) {
      SlotBehind(r, b.when, k);
      k' := k;
      AroundBehind(r, b, j, a, k, strays);
    } else {
      k' := k + 1;
      AroundAhead(r, b, j, a, k, strays);
    }
    hide Around;
  }

  lemma AroundBehind(r: seq<Alarm>, b: Alarm, j: nat, a: Alarm, k: nat, strays: set<int>)
    requires Around(r, a, k, strays) && k < j <= |r|
    ensures Around(r[..j] + [b] + r[j..], a, k, strays)
  {
    var t := r[..j] + [b] + r[j..];
    forall i | 0 <= i <= k
      ensures t[i] == r[i]
    {
    }
  }

  lemma AroundAhead(r: seq<Alarm>, b: Alarm, j: nat, a: Alarm, k: nat, strays: set<int>)
    requires Around(r, a, k, strays) && j <= k
    ensures Around(r[..j] + [b] + r[j..], a, k + 1, strays + {b.id})
  {
    var t := r[..j] + [b] + r[j..];
    assert t[j] == b;
    forall i | 0 <= i < |r|
      ensures t[if i < j then i else i + 1] == r[i]
    {
    }
    forall i | 0 <= i < k + 1
      ensures t[i].id in strays + {b.id}
    {
      assert t[i] == if i < j then r[i] else if i == j then b else r[i - 1];
    }
    forall d | d in strays
      ensures exists i | 0 <= i < k + 1 :: t[i].id == d
    {
      var i :| 0 <= i < k && r[i].id == d;
      assert t[if i < j then i else i + 1] == r[i];
    }
  }

  lemma SlotBehind(r: seq<Alarm>, when: Time, k: nat)
    requires Sorted(r) && k < |r| && Before(r[k].when, when)
    ensures Slot(r, when) > k
  {
    forall i | 0 <= i <= k
      ensures Before(r[i].when, when)
    {
      assert i == k || !Before(r[k].when, r[i].when);
    }
  }

  lemma AroundRemove(r: seq<Alarm>, next: int, id: int, a: Alarm, k: nat, strays: set<int>) returns (k': nat)
    requires Ordered(r, next) && Around(r, a, k, strays) && id != a.id
    ensures Ordered(Without(r, id), next) && Around(Without(r, id), a, k', strays - {id})
  {
    WithoutKeepsOrder(r, id);
    WithoutIs(r, id);
    var j := Find(r, id);
    assert j < |r| ==> r[j].id == id;
    assert j == |r| ==> forall i | 0 <= i < |r| :: r[i].id != id;
    assert a == r[k];
    hide Find, Sorted, UniqueIds, Around, Without;
    if j < |r| {
      k' := AroundDelete(r, j, a, k, strays);
    } else {
      k' := k;
      AroundWithout(r, a, k, strays, id);
    }
  }

  lemma AroundWithout(r: seq<Alarm>, a: Alarm, k: nat, strays: set<int>, id: int)
    requires Around(r, a, k, strays) && forall i | 0 <= i < |r| :: r[i].id != id
    ensures Around(r, a, k, strays - {id})
  {
  }

  lemma AroundDelete(r: seq<Alarm>, j: nat, a: Alarm, k: nat, strays: set<int>) returns (k': nat)
    requires UniqueIds(r) && Around(r, a, k, strays) && j < |r| && r[j].id != a.id
    ensures Around(r[..j] + r[j + 1..], a, k', strays - {r[j].id})
  {
    var t, id := r[..j] + r[j + 1..], r[j].id;
    k' := if j < k then k - 1 else k;
    forall i | 0 <= i < |t|
      ensures t[i] == r[if i < j then i else i + 1] && t[i].id != id
    {
    }
    forall d | d in strays - {id}
      ensures exists i | 0 <= i < k' :: t[i].id == d
    {
      var i :| 0 <= i < k && r[i].id == d;
      assert t[if i < j then i else i - 1] == r[i];
    }
  }

  lemma OpKeepsOrder(s: seq<Alarm>, next: int, op: Op)
    requires Ordered(s, next)
    ensures var r := Perform(s, next, op);
            && Ordered(r.0, r.1) && next <= r.1
            && (forall x | x in r.0 :: x in s || (op.Add? && x == Alarm(Due(op.now, op.interval), next, op.data)))
            && (forall x | x in s :: x in r.0 || (op.Remove? && op.id == x.id))
            && (op.Remove? ==> forall x | x in r.0 :: x.id != op.id)
  {
    match op
    case Add(t, interval, data) =>
      var b := Alarm(Due(t, interval), next, data);
      InsertKeepsOrder(s, b);
      InInsert(s, b);
      hide Sorted, UniqueIds, Due;
      forall x | x in s
        ensures x in Insert(s, b)
      {
        assert x in multiset(s) + multiset{b};
      }
    case Remove(t, id) =>
      WithoutKeepsOrder(s, id);
      hide Sorted, UniqueIds;
      forall x | x in s && x.id != id
        ensures x in Without(s, id)
      {
        assert x in multiset(s);
      }
  }

  lemma {:induction false} TakenBack(s: seq<Alarm>, next: int, ops: seq<Op>, a: Alarm)
    requires Ordered(s, next) && a.id < next && exists op | op in ops :: op.Remove? && op.id == a.id
    ensures a !in PerformAll(s, next, ops).0
    decreases |ops|
  {
    hide Ordered, Perform, Due;
    var n := |ops| - 1;
    var r := PerformAll(s, next, ops[..n]);
    KeepsOrder(s, next, ops[..n]);
    OpKeepsOrder(r.0, r.1, ops[n]);
    if !(ops[n].Remove? && ops[n].id == a.id) {
      assert ops == ops[..n] + [ops[n]];
      TakenBack(s, next, ops[..n], a);
    }
  }

  lemma {:induction false} KeepsOrder(s: seq<Alarm>, next: int, ops: seq<Op>)
    requires Ordered(s, next)
    ensures var r := PerformAll(s, next, ops); Ordered(r.0, r.1) && next <= r.1
    decreases |ops|
  {
    if ops != [] {
      var n := |ops| - 1;
      KeepsOrder(s, next, ops[..n]);
      OpKeepsOrder(PerformAll(s, next, ops[..n]).0, PerformAll(s, next, ops[..n]).1, ops[n]);
    }
  }

  /** The exact condition, for any procedure: its own alarm is first again, and so the one that is
      released, if and only if it does not take it back and leaves no alarm that is no later. */
  lemma FirstAgain(s: seq<Alarm>, next: int, ops: seq<Op>)
    requires Ordered(s, next) && s != []
    ensures var r := PerformAll(s, next, ops).0;
            (r != [] && r[0] == s[0]) <==> StaysFirst(ops, next, s[0])
  {
    var a, r := s[0], PerformAll(s, next, ops).0;
    assert a in s;
    if exists op | op in ops :: op.Remove? && op.id == a.id {
      TakenBack(s, next, ops, a);
    } else {
      var k := AroundKept(s, next, ops);
      hide PerformAll, Strays, Sorted;
      AtFront(r, a, k, Strays(next, ops, a));
    }
  }

  lemma AtFront(r: seq<Alarm>, a: Alarm, k: nat, strays: set<int>)
    requires UniqueIds(r) && Around(r, a, k, strays)
    ensures (r[0] == a) <==> strays == {}
  {
    if k == 0 {
      assert forall d :: d !in strays;
    } else {
      assert r[0].id in strays && r[0].id != r[k].id;
    }
  }

  /** Otherwise an alarm that was not called is released, or the list is empty; and the called one
      is still waiting unless its procedure took it back. */
  lemma Misfire(s: seq<Alarm>, next: int, ops: seq<Op>)
    requires Ordered(s, next) && s != [] && !StaysFirst(ops, next, s[0])
    ensures var r := PerformAll(s, next, ops).0;
            && (r == [] || r[0] != s[0])
            && ((forall op | op in ops :: op.Remove? ==> op.id != s[0].id) ==> r != [] && s[0] in r[1..])
  {
    FirstAgain(s, next, ops);
    if forall op | op in ops :: op.Remove? ==> op.id != s[0].id {
      var k := AroundKept(s, next, ops);
      var r := PerformAll(s, next, ops).0;
      assert r[k] == s[0] && k > 0;
      assert r[1..][k - 1] == s[0];
    }
  }

  lemma {:induction false} Traces(s: seq<Alarm>, next: int, ops: seq<Op>, now: Time)
    requires Ordered(s, next) && forall op | op in ops :: op.Add? ==> !Before(Due(op.now, op.interval), now)
    ensures var r := PerformAll(s, next, ops);
            && Ordered(r.0, r.1) && next <= r.1
            && (forall x | x in r.0 :: x in s || (x.id >= next && !Before(x.when, now)))
            && (forall x | x in s :: x in r.0 || exists op | op in ops :: op.Remove? && op.id == x.id)
    decreases |ops|
  {
    if ops != [] {
      var n := |ops| - 1;
      var r := PerformAll(s, next, ops[..n]);
      Traces(s, next, ops[..n], now);
      assert ops[n] in ops && forall op | op in ops[..n] :: op in ops;
      OpKeepsOrder(r.0, r.1, ops[n]);
      hide Ordered, Perform, Due;
    }
  }

  lemma HandlerKeeps(s: seq<Alarm>, next: int, ops: seq<Op>, a: Alarm, now: Time)
    requires Ordered(s, next) && s != [] && s[0] == a && Tame(ops, next, a, now)
    ensures var r := PerformAll(s, next, ops);
            && Ordered(r.0, r.1) && next <= r.1 && r.0 != [] && r.0[0] == a
            && (forall x | x in r.0 :: x in s || (x.id >= next && !Before(x.when, now)))
            && (forall x | x in s :: x in r.0 || exists op | op in ops :: op.Remove? && op.id == x.id)
  {
    hide StaysFirst, Ordered, PerformAll;
    FirstAgain(s, next, ops);
    Traces(s, next, ops, now);
  }

  lemma BalancedMeans(pending: seq<Alarm>, b: Books)
    requires Balanced(pending, b)
    ensures UniqueIds(b.released) && forall x | x in b.released :: 0 <= x.id < |b.added| && x == b.added[x.id]
    ensures forall i | 0 <= i < |b.added| ::
              && (b.added[i] in b.released || b.added[i] in pending || i in b.taken)
              && !(b.added[i] in b.released && b.added[i] in pending)
              && !(b.added[i] in b.released && i in b.taken)
              && !(b.added[i] in pending && i in b.taken)
  {
  }

  // ----- What a flush has done -----

  ghost predicate Withdrawn(id: int, fired: seq<Alarm>, acts: (Alarm, int) -> seq<Op>) {
    exists a, c, op | a in fired && op in acts(a, c) :: op.Remove? && op.id == id
  }

  /** Between the calls of a flush that began with `s`: what fired, in order, once each; what waits
      is later, and was waiting or is new; nothing else is missing but what was taken back. */
  ghost predicate Flushed(s: seq<Alarm>, next: int, p: seq<Alarm>, fired: seq<Alarm>, now: Time, acts: (Alarm, int) -> seq<Op>) {
    && Sorted(fired) && UniqueIds(fired)
    && (forall x | x in fired :: x in s)
    && (forall i | 0 < i < |fired| :: Before(fired[i].when, now))
    && (forall x, y | x in fired && y in p :: !Before(y.when, x.when) && x.id != y.id)
    && (forall x | x in p :: x in s || (x.id >= next && !Before(x.when, now)))
    && (forall x | x in s :: x in fired || x in p || Withdrawn(x.id, fired, acts))
  }

  lemma NothingFlushed(s: seq<Alarm>, next: int, now: Time, acts: (Alarm, int) -> seq<Op>)
    ensures Flushed(s, next, s, [], now, acts)
  {
  }

  /** What is called next was waiting from the start, and has not been called. */
  lemma DueIsOld(s: seq<Alarm>, next: int, p: seq<Alarm>, fired: seq<Alarm>, now: Time, acts: (Alarm, int) -> seq<Op>, first: bool)
    requires Flushed(s, next, p, fired, now, acts) && p != [] && UniqueIds(s)
    requires if first then p == s && fired == [] else Before(p[0].when, now)
    ensures p[0] in s && |fired| < |s|
  {
    assert p[0] in p;
    var all := fired + [p[0]];
    assert UniqueIds(all);
    Pigeonhole(all, s);
  }

  lemma {:induction false} Pigeonhole(t: seq<Alarm>, s: seq<Alarm>)
    requires UniqueIds(t) && forall x | x in t :: x in s
    ensures |t| <= |s|
    decreases |t|
  {
    if t != [] {
      var n := |t| - 1;
      assert t[n] in t;
      var k :| 0 <= k < |s| && s[k] == t[n];
      var r := s[..k] + s[k + 1..];
      assert s == s[..k] + [s[k]] + s[k + 1..];
      forall x | x in t[..n]
        ensures x in r
      {
        assert x in t;
        assert x != t[n];
      }
      Pigeonhole(t[..n], r);
    }
  }

  lemma FlushStep(s: seq<Alarm>, next: int, p: seq<Alarm>, c: int, q: seq<Alarm>, fired: seq<Alarm>, now: Time,
                  acts: (Alarm, int) -> seq<Op>, a: Alarm)
    requires Flushed(s, next, p, fired, now, acts) && next <= c
    requires p != [] && p[0] == a && (fired == [] || Before(a.when, now)) && a in s
    requires q != [] && q[0] == a && Sorted(q) && UniqueIds(q)
    requires forall x | x in q :: x in p || (x.id >= c && !Before(x.when, now))
    requires forall x | x in p :: x in q || exists op | op in acts(a, c) :: op.Remove? && op.id == x.id
    requires forall x | x in s :: x.id < next
    ensures Flushed(s, next, q[1..], fired + [a], now, acts)
  {
    var fired', rest := fired + [a], q[1..];
    assert a in p && a in fired';
    assert q == [a] + rest;
    forall x | x in rest
      ensures x in q && !Before(x.when, a.when) && x.id != a.id
    {
      var i :| 0 <= i < |rest| && rest[i] == x;
      assert q[i + 1] == x && q[0] == a;
    }
    StillWithdrawn(fired, a, acts);
    forall x | x in s
      ensures x in fired' || x in rest || Withdrawn(x.id, fired', acts)
    {
      if x in p && x !in q {
        var op :| op in acts(a, c) && op.Remove? && op.id == x.id;
      }
    }
    FiredSorted(fired, a);
    hide Sorted, UniqueIds, Withdrawn;
  }

  lemma StillWithdrawn(fired: seq<Alarm>, a: Alarm, acts: (Alarm, int) -> seq<Op>)
    ensures forall id | Withdrawn(id, fired, acts) :: Withdrawn(id, fired + [a], acts)
  {
  }

  lemma FiredSorted(fired: seq<Alarm>, a: Alarm)
    requires Sorted(fired) && UniqueIds(fired) && forall x | x in fired :: !Before(a.when, x.when) && x.id != a.id
    ensures Sorted(fired + [a]) && UniqueIds(fired + [a])
  {
    var t := fired + [a];
    assert forall i | 0 <= i < |fired| :: t[i] == fired[i] && fired[i] in fired;
  }

  lemma PopKeeps(q: seq<Alarm>)
    requires q != [] && Sorted(q) && UniqueIds(q)
    ensures Sorted(q[1..]) && UniqueIds(q[1..]) && forall x | x in q[1..] :: x in q
  {
  }

  /** One turn of the flush. */
  lemma OneFlush(s: seq<Alarm>, next: int, p: seq<Alarm>, c: int, fired: seq<Alarm>, now: Time,
                 acts: (Alarm, int) -> seq<Op>, first: bool)
    requires Flushed(s, next, p, fired, now, acts) && next <= c && p != [] && Ordered(s, next) && Ordered(p, c)
    requires if first then p == s && fired == [] else Before(p[0].when, now)
    requires forall a, n | a in s && a.id < n :: Tame(acts(a, n), n, a, now)
    ensures p[0] in s && |fired| < |s| && forall op | op in acts(p[0], c) :: Normal(op.now)
    ensures var r := PerformAll(p, c, acts(p[0], c));
            && next <= r.1 && r.0 != [] && r.0[0] == p[0]
            && Flushed(s, next, r.0[1..], fired + [p[0]], now, acts)
  {
    hide PerformAll, Flushed, Tame, Sorted, UniqueIds;
    DueIsOld(s, next, p, fired, now, acts, first);
    assert p[0] in p;
    TameNormal(acts(p[0], c), c, p[0], now);
    HandlerKeeps(p, c, acts(p[0], c), p[0], now);
    FlushStep(s, next, p, c, PerformAll(p, c, acts(p[0], c)).0, fired, now, acts, p[0]);
  }

  lemma Settled(p: seq<Alarm>, now: Time)
    requires Sorted(p) && (p == [] || !Before(p[0].when, now))
    ensures forall x | x in p :: !Before(x.when, now)
  {
  }

  function Minus(t: Time, now: Time): Time {
    var d := Time(t.sec - now.sec, t.usec - now.usec);
    if d.usec < 0 then Time(d.sec - 1, d.usec + 1_000_000) else d
  }

  lemma Milliseconds(t: Time, now: Time)
    ensures Minus(t, now).sec * 1000 + Minus(t, now).usec / 1000 == (Micros(t) - Micros(now)) / 1000
  {
  }

  lemma WithoutIs(s: seq<Alarm>, id: int)
    ensures var k := Find(s, id); Without(s, id) == if k == |s| then s else s[..k] + s[k + 1..]
  {
  }

  lemma Lengths(m: Memory, head: Ptr, s: seq<Ptr>)
    requires Chain(m, head, s)
    ensures (forall p | p in s :: p in m) && |View(m, s)| == |s|
  {
  }

  lemma NullAt(m: Memory, head: Ptr, s: seq<Ptr>, k: nat)
    requires Chain(m, head, s) && k <= |s|
    ensures At(s, k) == NULL <==> k == |s|
  {
  }

  lemma PayloadAt(m: Memory, head: Ptr, s: seq<Ptr>, k: nat)
    requires Chain(m, head, s) && k < |s|
    ensures s[k] in m && (forall p | p in s :: p in m) && View(m, s)[k] == Payload(m[s[k]])
  {
  }

  lemma Differ(m: Memory, s: seq<Ptr>, frees: seq<Ptr>, brk: Ptr, i: nat, j: nat)
    requires Held(m, s, frees, brk) && i < j < |s|
    ensures s[i] != s[j]
  {
  }

  lemma AlarmsDiffer(m: Memory, s: seq<Ptr>, frees: seq<Ptr>, brk: Ptr)
    requires Held(m, s, frees, brk)
    ensures Distinct(s)
  {
  }

  lemma NextIs(m: Memory, head: Ptr, s: seq<Ptr>, k: nat)
    requires Chain(m, head, s) && k < |s|
    ensures s[k] in m && m[s[k]].next == At(s, k + 1)
  {
  }

  /** The entry at `k` is linked out and put before the free ones. */
  ghost predicate Cutting(m: Memory, m': Memory, alarms: seq<Ptr>, free: Ptr, k: nat) {
    && k < |alarms| && alarms[k] in m && alarms[k] in m' && m'[alarms[k]].next == free
    && (k > 0 ==> alarms[k - 1] in m && alarms[k - 1] in m' && m'[alarms[k - 1]] == m[alarms[k - 1]].(next := At(alarms, k + 1)))
    && m'.Keys == m.Keys
    && forall p | p in m && p != alarms[k] && (k > 0 ==> p != alarms[k - 1]) :: m'[p] == m[p]
  }

  lemma CutChains(m: Memory, m': Memory, head: Ptr, free: Ptr, alarms: seq<Ptr>, frees: seq<Ptr>, k: nat, brk: Ptr)
    requires Held(m, alarms, frees, brk) && Cutting(m, m', alarms, free, k)
    requires Chain(m, head, alarms) && Chain(m, free, frees)
    ensures Chain(m', if k == 0 then At(alarms, 1) else head, alarms[..k] + alarms[k + 1..])
    ensures Chain(m', alarms[k], [alarms[k]] + frees)
  {
    assert forall i | 0 <= i < |alarms| :: alarms[i] in alarms;
    assert forall p | p in frees :: p !in alarms;
    ChainKept(m, m', free, frees);
    ChainPush(m', free, frees, alarms[k]);
    ChainDelete(m, m', head, alarms, k);
  }

  lemma CutHeld(m: Memory, m': Memory, alarms: seq<Ptr>, frees: seq<Ptr>, k: nat, brk: Ptr, free: Ptr)
    requires Held(m, alarms, frees, brk) && Cutting(m, m', alarms, free, k)
    ensures Held(m', alarms[..k] + alarms[k + 1..], [alarms[k]] + frees, brk)
  {
    var p, t := alarms[k], alarms[..k] + alarms[k + 1..];
    assert m'.Keys == m.Keys;
    hide Cutting;
    assert p in alarms && p !in frees;
    DistinctDelete(alarms, k);
    DistinctCons(p, frees);
    hide Distinct;
    assert forall q :: q in [p] + frees <==> q == p || q in frees;
  }

  lemma DistinctDelete(s: seq<Ptr>, k: nat)
    requires Distinct(s) && k < |s|
    ensures var t := s[..k] + s[k + 1..];
            Distinct(t) && s[k] !in t && forall q :: q in s <==> q in t || q == s[k]
  {
    var t := s[..k] + s[k + 1..];
    assert forall i | 0 <= i < |t| :: t[i] == if i < k then s[i] else s[i + 1];
    assert s == s[..k] + [s[k]] + s[k + 1..];
  }

  lemma DistinctCons(p: Ptr, s: seq<Ptr>)
    requires Distinct(s) && p !in s
    ensures Distinct([p] + s)
  {
    var t := [p] + s;
    assert forall i | 0 < i < |t| :: t[i] == s[i - 1];
  }

  lemma CutView(m: Memory, m': Memory, head: Ptr, alarms: seq<Ptr>, k: nat, free: Ptr)
    requires Distinct(alarms) && Cutting(m, m', alarms, free, k) && Chain(m, head, alarms)
    ensures var t := alarms[..k] + alarms[k + 1..];
            && (forall q | q in t :: q in m') && (forall q | q in alarms :: q in m)
            && View(m', t) == View(m, alarms)[..k] + View(m, alarms)[k + 1..]
  {
    hide View, Chain;
    InChain(m, head, alarms);
    CutPayload(m, m', alarms, free, k);
    var t := alarms[..k] + alarms[k + 1..];
    forall i | 0 <= i < |t|
      ensures t[i] == alarms[if i < k then i else i + 1]
    {
    }
    hide Cutting;
    ViewCut(m, m', alarms, t, k);
  }

  lemma CutPayload(m: Memory, m': Memory, alarms: seq<Ptr>, free: Ptr, k: nat)
    requires Cutting(m, m', alarms, free, k)
    ensures k < |alarms| && forall p | p in m && p != alarms[k] :: p in m' && Payload(m'[p]) == Payload(m[p])
  {
  }

  lemma ViewCut(m: Memory, m': Memory, alarms: seq<Ptr>, t: seq<Ptr>, k: nat)
    requires k < |alarms| && |t| == |alarms| - 1 && Distinct(alarms)
    requires forall i | 0 <= i < |t| :: t[i] == alarms[if i < k then i else i + 1]
    requires forall p | p in alarms :: p in m
    requires forall p | p in m && p != alarms[k] :: p in m' && Payload(m'[p]) == Payload(m[p])
    ensures (forall q | q in t :: q in m') && View(m', t) == View(m, alarms)[..k] + View(m, alarms)[k + 1..]
  {
    hide View, Payload;
    forall i | 0 <= i < |t|
      ensures t[i] in m && t[i] in m' && t[i] != alarms[k]
    {
      assert t[i] == alarms[if i < k then i else i + 1];
    }
    var v, w := View(m', t), View(m, alarms);
    forall i | 0 <= i < |v|
      ensures v[i] == w[if i < k then i else i + 1]
    {
      assert t[i] == alarms[if i < k then i else i + 1];
    }
    Deleted(v, w, k);
  }

  lemma Deleted(v: seq<Alarm>, w: seq<Alarm>, k: nat)
    requires k < |w| && |v| == |w| - 1
    requires forall i | 0 <= i < |v| :: v[i] == w[if i < k then i else i + 1]
    ensures v == w[..k] + w[k + 1..]
  {
  }

  lemma EmptyChain(m: Memory, head: Ptr, s: seq<Ptr>)
    requires Chain(m, head, s)
    ensures head == NULL <==> s == []
  {
  }

  lemma FreeHead(m: Memory, head: Ptr, s: seq<Ptr>)
    requires Chain(m, head, s)
    ensures s != [] ==> head == s[0] && head in m
  {
  }

  lemma LastIn(m: Memory, head: Ptr, s: seq<Ptr>, frees: seq<Ptr>, k: nat, brk: Ptr)
    requires Chain(m, head, s) && 0 < k <= |s| && Held(m, s, frees, brk)
    ensures s[k - 1] in m && s[k - 1] != NULL && s[k - 1] !in frees
  {
    assert s[k - 1] in s;
  }

  lemma InInsert(s: seq<Alarm>, a: Alarm)
    ensures forall x | x in Insert(s, a) :: x in s || x == a
  {
  }

  lemma {:induction false} SlotIs(s: seq<Alarm>, when: Time, k: nat)
    requires k <= |s| && (forall i | 0 <= i < k :: Before(s[i].when, when))
    requires k < |s| ==> !Before(s[k].when, when)
    ensures Slot(s, when) == k
    decreases k
  {
    if k > 0 { SlotIs(s[1..], when, k - 1); }
  }

  lemma {:induction false} FindIs(s: seq<Alarm>, id: int, k: nat)
    requires k <= |s| && (forall i | 0 <= i < k :: s[i].id != id) && (k < |s| ==> s[k].id == id)
    ensures Find(s, id) == k
    decreases k
  {
    if k > 0 { FindIs(s[1..], id, k - 1); }
  }

  /** The first free entry now holds `a` and is linked in at `k`. */
  ghost predicate Splicing(m: Memory, m': Memory, alarms: seq<Ptr>, p: Ptr, k: nat, a: Alarm) {
    && k <= |alarms| && (k > 0 ==> alarms[k - 1] in m)
    && var m1 := m[p := Entry(At(alarms, k), a.when, a.id, a.data)];
       m' == if k == 0 then m1 else m1[alarms[k - 1] := m[alarms[k - 1]].(next := p)]
  }

  lemma SplicedChains(m: Memory, m': Memory, head: Ptr, alarms: seq<Ptr>, frees: seq<Ptr>, k: nat, brk: Ptr, a: Alarm)
    requires frees != [] && Held(m, alarms, frees, brk) && Splicing(m, m', alarms, frees[0], k, a)
    requires Chain(m, head, alarms) && Chain(m, frees[0], frees)
    ensures var t := alarms[..k] + [frees[0]] + alarms[k..];
            Chain(m', if k == 0 then frees[0] else head, t) && Chain(m', m[frees[0]].next, frees[1..])
  {
    var p := frees[0];
    assert p in frees && p !in alarms;
    ChainTail(m, p, frees);
    assert forall q | q in frees[1..] :: q in frees && q != p && q !in alarms;
    ChainKept(m, m', m[p].next, frees[1..]);
    assert forall i | 0 <= i < |alarms| :: alarms[i] in alarms;
    ChainInsert(m, m', head, alarms, k, p);
  }

  lemma SplicedHeld(m: Memory, m': Memory, alarms: seq<Ptr>, frees: seq<Ptr>, k: nat, brk: Ptr, a: Alarm)
    requires frees != [] && Held(m, alarms, frees, brk) && Splicing(m, m', alarms, frees[0], k, a)
    ensures Held(m', alarms[..k] + [frees[0]] + alarms[k..], frees[1..], brk)
  {
    var p, rest := frees[0], frees[1..];
    assert p in frees && p !in alarms && p in m;
    assert m'.Keys == m.Keys;
    hide Splicing;
    DistinctTail(frees);
    DistinctInsert(alarms, k, p);
    hide Distinct;
  }

  lemma DistinctTail(s: seq<Ptr>)
    requires Distinct(s) && s != []
    ensures Distinct(s[1..]) && s[0] !in s[1..] && forall q :: q in s <==> q == s[0] || q in s[1..]
  {
    var t := s[1..];
    assert forall i | 0 <= i < |t| :: t[i] == s[i + 1];
    assert s == [s[0]] + t;
  }

  lemma DistinctInsert(s: seq<Ptr>, k: nat, p: Ptr)
    requires Distinct(s) && k <= |s| && p !in s
    ensures var t := s[..k] + [p] + s[k..]; Distinct(t) && forall q :: q in t <==> q in s || q == p
  {
    var t := s[..k] + [p] + s[k..];
    assert s == s[..k] + s[k..];
    forall i, j | 0 <= i < j < |t|
      ensures t[i] != t[j]
    {
      assert i < k ==> t[i] == s[i];
      assert i > k ==> t[i] == s[i - 1];
      assert j < k ==> t[j] == s[j];
      assert j > k ==> t[j] == s[j - 1];
    }
  }

  lemma SplicedView(m: Memory, m': Memory, head: Ptr, alarms: seq<Ptr>, p: Ptr, k: nat, a: Alarm)
    requires Splicing(m, m', alarms, p, k, a) && Chain(m, head, alarms) && p !in alarms
    ensures var t := alarms[..k] + [p] + alarms[k..];
            && (forall q | q in t :: q in m') && (forall q | q in alarms :: q in m)
            && View(m', t) == View(m, alarms)[..k] + [a] + View(m, alarms)[k..]
  {
    hide View, Chain, Splicing;
    InChain(m, head, alarms);
    SplicedPayload(m, m', alarms, p, k, a);
    var t := alarms[..k] + [p] + alarms[k..];
    forall i | 0 <= i < |alarms|
      ensures t[if i < k then i else i + 1] == alarms[i]
    {
    }
    ViewSpliced(m, m', alarms, t, p, k, a);
  }

  lemma ViewSpliced(m: Memory, m': Memory, alarms: seq<Ptr>, t: seq<Ptr>, p: Ptr, k: nat, a: Alarm)
    requires k <= |alarms| && |t| == |alarms| + 1 && t[k] == p && p in m' && Payload(m'[p]) == a
    requires forall i | 0 <= i < |alarms| :: t[if i < k then i else i + 1] == alarms[i]
    requires forall q | q in alarms :: q in m && q in m' && Payload(m'[q]) == Payload(m[q])
    ensures (forall q | q in t :: q in m') && View(m', t) == View(m, alarms)[..k] + [a] + View(m, alarms)[k..]
  {
    hide View, Payload;
    forall i | 0 <= i < |t|
      ensures t[i] in m'
    {
      var j := if i < k then i else i - 1;
      if i != k { assert alarms[j] in alarms && t[if j < k then j else j + 1] == alarms[j]; }
    }
    var v, w := View(m', t), View(m, alarms);
    forall j | 0 <= j < |alarms|
      ensures v[if j < k then j else j + 1] == w[j]
    {
      assert alarms[j] in alarms && t[if j < k then j else j + 1] == alarms[j];
    }
    assert forall i | 0 <= i < k :: v[i] == w[i];
    assert forall i | k <= i < |w| :: v[i + 1] == w[i];
    Interleave(v, w, a, k);
  }

  lemma SplicedPayload(m: Memory, m': Memory, alarms: seq<Ptr>, p: Ptr, k: nat, a: Alarm)
    requires Splicing(m, m', alarms, p, k, a) && p !in alarms
    ensures k <= |alarms| && p in m' && Payload(m'[p]) == a
    ensures forall q | q in alarms && q in m :: q in m' && Payload(m'[q]) == Payload(m[q])
  {
    if k > 0 { assert alarms[k - 1] in alarms; }
  }

  lemma Interleave(v: seq<Alarm>, w: seq<Alarm>, a: Alarm, k: nat)
    requires k <= |w| && |v| == |w| + 1 && v[k] == a
    requires forall i | 0 <= i < k :: v[i] == w[i]
    requires forall i | k <= i < |w| :: v[i + 1] == w[i]
    ensures v == w[..k] + [a] + w[k..]
  {
    var r := w[..k] + [a] + w[k..];
    forall i | 0 <= i < |v|
      ensures v[i] == r[i]
    {
      if i > k { assert v[(i - 1) + 1] == w[i - 1]; }
    }
  }

  lemma FreeApart(m: Memory, alarms: seq<Ptr>, frees: seq<Ptr>, brk: Ptr)
    requires Held(m, alarms, frees, brk) && frees != []
    ensures frees[0] !in alarms
  {
    assert frees[0] in frees;
  }

  method LinkBlock(m0: Memory, block: Ptr) returns (m: Memory)
    ensures forall p | p in m0 && p < block :: p in m && m[p] == m0[p]
    ensures forall p :: p in m <==> p in m0 || block <= p < block + 10
    ensures forall p | block <= p < block + 10 :: p in m && m[p].next == if p == block + 9 then NULL else p + 1
  {
    m := m0;
    var i := 0;
    while i < 9
      invariant 0 <= i <= 9
      invariant forall p | p in m0 && p < block :: p in m && m[p] == m0[p]
      invariant forall p :: p in m <==> p in m0 || block <= p < block + i
      invariant forall p | block <= p < block + i :: p in m && m[p].next == p + 1
    {
      m := m[block + i := Entry(block + i + 1, Time(0, 0), 0, 0)];
      i := i + 1;
    }
    m := m[block + 9 := Entry(NULL, Time(0, 0), 0, 0)];
  }

  ghost function Members(s: seq<Ptr>): set<Ptr> { set p | p in s }

  /** The two lists hold every entry there is, and none twice. */
  ghost predicate Held(m: Memory, alarms: seq<Ptr>, frees: seq<Ptr>, brk: Ptr) {
    && Distinct(alarms) && Distinct(frees) && Apart(alarms, frees)
    && m.Keys == Members(alarms) + Members(frees)
    && (forall p | p in m :: p < brk)
  }

  lemma BlockHeld(m: Memory, m': Memory, alarms: seq<Ptr>, block: Ptr)
    requires Held(m, alarms, [], block)
    requires forall p :: p in m' <==> p in m || block <= p < block + 10
    ensures Held(m', alarms, Numbered(block, 10), block + 10)
    ensures forall p | p in m :: p < block
  {
    var s := Numbered(block, 10);
    hide Numbered;
    assert forall p | p in alarms :: p in m;
    forall p: Ptr
      ensures p in s <==> block <= p < block + 10
    {
      if block <= p < block + 10 { assert s[p - block] == p; }
    }
  }

  ghost function Numbered(base: Ptr, n: nat): (s: seq<Ptr>)
    ensures |s| == n && forall i | 0 <= i < n :: s[i] == base + i
  {
    if n == 0 then [] else Numbered(base, n - 1) + [base + n - 1]
  }

  lemma BlockChain(m: Memory, block: Ptr)
    requires block != NULL
    requires forall p | block <= p < block + 10 :: p in m && m[p].next == if p == block + 9 then NULL else p + 1
    ensures Chain(m, block, Numbered(block, 10)) && Distinct(Numbered(block, 10))
  {
    hide Numbered;
    var s := Numbered(block, 10);
    forall i | 0 <= i < |s|
      ensures s[i] in m && s[i] != NULL && m[s[i]].next == At(s, i + 1)
    {
      assert s[i] == block + i;
    }
  }
}
