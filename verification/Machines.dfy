/** The workstations that larvnetd knows (athena/etc/larvnetd/larvnetd.h), in the order of ws_sort and
    looked up by ws_find (athena/etc/larvnetd/ws.c). */
module Machines {
  import opened Wrappers
  import opened StatusText

  datatype Busy = BUSY | FREE | UNKNOWN_BUSYSTATE

  datatype Machine = Machine(
    name: string, cluster: nat,
    busy: Busy, arch: Option<string>, laststatus: int, lastpoll: int, numpolls: int)

  /** A machine of which nothing is known yet. */
  function NewMachine(name: string, cluster: nat): Machine {
    Machine(name, cluster, UNKNOWN_BUSYSTATE, None, 0, 0, 0)
  }

  // ----- strcasecmp -----

  /** The first text does not come behind the second. */
  predicate LexLe(a: string, b: string) {
    a == "" || (b != "" && (a[0] < b[0] || (a[0] == b[0] && LexLe(a[1..], b[1..]))))
  }

  lemma SameStart(a: string, b: string)
    ensures forall i | 0 < i <= |a| && i <= |b| && a[..i] == b[..i] :: a[0] == b[0]
  {
    forall i | 0 < i <= |a| && i <= |b| && a[..i] == b[..i]
      ensures a[0] == b[0]
    {
      assert a[0] == a[..i][0] && b[0] == b[..i][0];
    }
  }

  /** One text is not behind another if it is a prefix, or has the smaller character where they first
      differ. */
  lemma {:induction false} LexMeaning(a: string, b: string)
    ensures LexLe(a, b) <==> a <= b || exists i | 0 <= i < |a| && i < |b| :: a[..i] == b[..i] && a[i] < b[i]
  {
    if a != "" && b != "" {
      var s, t := a[1..], b[1..];
      LexMeaning(s, t);
      assert a == [a[0]] + s && b == [b[0]] + t;
      if a[0] < b[0] { assert a[..0] == b[..0]; }
      if a[0] == b[0] {
        if i :| 0 <= i < |s| && i < |t| && s[..i] == t[..i] && s[i] < t[i] {
          assert a[..i + 1] == [a[0]] + s[..i] && b[..i + 1] == [b[0]] + t[..i];
          assert a[i + 1] < b[i + 1];
        }
        if i :| 0 <= i < |a| && i < |b| && a[..i] == b[..i] && a[i] < b[i] {
          assert s[..i - 1] == a[..i][1..] && t[..i - 1] == b[..i][1..];
          assert s[i - 1] < t[i - 1];
        }
      } else {
        SameStart(a, b);
      }
    }
  }

  lemma {:induction false} LexTotal(a: string, b: string)
    ensures LexLe(a, b) || LexLe(b, a)
    ensures LexLe(a, b) && LexLe(b, a) ==> a == b
  {
    if a != "" && b != "" && a[0] == b[0] {
      LexTotal(a[1..], b[1..]);
      assert a == [a[0]] + a[1..] && b == [b[0]] + b[1..];
    }
  }

  lemma {:induction false} LexTransitive(a: string, b: string, c: string)
    requires LexLe(a, b) && LexLe(b, c)
    ensures LexLe(a, c)
  {
    if a != "" && a[0] == b[0] && b[0] == c[0] { LexTransitive(a[1..], b[1..], c[1..]); }
  }

  predicate NameLe(a: string, b: string) { LexLe(Lower(a), Lower(b)) }

  predicate SameName(a: string, b: string) { Lower(a) == Lower(b) }

  ghost predicate InOrder(ms: seq<Machine>) {
    forall i, j | 0 <= i < j < |ms| :: NameLe(ms[i].name, ms[j].name)
  }

  // ----- ws_sort -----

  /** Where a machine goes among those already in order. */
  method FindPlace(ms: seq<Machine>, m: Machine) returns (k: nat)
    requires InOrder(ms)
    ensures k <= |ms| && (forall i | 0 <= i < k :: NameLe(ms[i].name, m.name))
    ensures forall i | k <= i < |ms| :: NameLe(m.name, ms[i].name)
  {
    hide NameLe;
    k := |ms|;
    while k > 0 && !NameLe(ms[k - 1].name, m.name)
      invariant k <= |ms| && forall i | k <= i < |ms| :: NameLe(m.name, ms[i].name)
    {
      NameTotal(ms[k - 1].name, m.name);
      k := k - 1;
    }
    forall i | 0 <= i < k
      ensures NameLe(ms[i].name, m.name)
    {
      if i < k - 1 { NameTransitive(ms[i].name, ms[k - 1].name, m.name); }
    }
  }

  lemma NameTotal(a: string, b: string)
    ensures NameLe(a, b) || NameLe(b, a)
  {
    LexTotal(Lower(a), Lower(b));
  }

  lemma NameTransitive(a: string, b: string, c: string)
    requires NameLe(a, b) && NameLe(b, c)
    ensures NameLe(a, c)
  {
    LexTransitive(Lower(a), Lower(b), Lower(c));
  }

  lemma PlaceKeepsOrder(ms: seq<Machine>, m: Machine, k: nat)
    requires InOrder(ms) && k <= |ms|
    requires forall i | 0 <= i < k :: NameLe(ms[i].name, m.name)
    requires forall i | k <= i < |ms| :: NameLe(m.name, ms[i].name)
    ensures InOrder(ms[..k] + [m] + ms[k..])
  {
    hide NameLe;
    var t := ms[..k] + [m] + ms[k..];
    forall i, j | 0 <= i < j < |t|
      ensures NameLe(t[i].name, t[j].name)
    {
      assert i < k ==> t[i] == ms[i];
      assert i > k ==> t[i] == ms[i - 1];
      assert j < k ==> t[j] == ms[j];
      assert j > k ==> t[j] == ms[j - 1];
    }
  }

  /** Some sorting by name, as qsort does it. */
  method WsSort(ms: seq<Machine>) returns (r: seq<Machine>)
    ensures InOrder(r) && multiset(r) == multiset(ms)
  {
    hide NameLe, InOrder;
    r := [];
    Single();
    for n := 0 to |ms|
      invariant InOrder(r) && multiset(r) == multiset(ms[..n])
    {
      var k := FindPlace(r, ms[n]);
      PlaceKeepsOrder(r, ms[n], k);
      assert r == r[..k] + r[k..] && ms[..n + 1] == ms[..n] + [ms[n]];
      r := r[..k] + [ms[n]] + r[k..];
    }
    assert ms[..|ms|] == ms;
  }

  lemma Single()
    ensures InOrder([])
  {
  }

  // ----- ws_find -----

  /** bsearch: a machine of that name in any case, if there is one. */
  method WsFind(ms: seq<Machine>, name: string) returns (r: Option<nat>)
    requires InOrder(ms)
    ensures r.Some? ==> r.value < |ms| && SameName(ms[r.value].name, name)
    ensures r.None? ==> forall i | 0 <= i < |ms| :: !SameName(ms[i].name, name)
  {
    hide NameLe, SameName;
    var lo, hi := 0, |ms|;
    while lo < hi
      invariant 0 <= lo <= hi <= |ms|
      invariant forall i | 0 <= i < lo :: !SameName(ms[i].name, name)
      invariant forall i | hi <= i < |ms| :: !SameName(ms[i].name, name)
      decreases hi - lo
    {
      var mid := (lo + hi) / 2;
      if SameName(ms[mid].name, name) {
        return Some(mid);
      }
      if NameLe(ms[mid].name, name) {
        forall i | 0 <= i <= mid
          ensures !SameName(ms[i].name, name)
        {
          if i < mid { NoneBefore(ms[i].name, ms[mid].name, name); }
        }
        lo := mid + 1;
      } else {
        forall i | mid <= i < |ms|
          ensures !SameName(ms[i].name, name)
        {
          if i > mid { NoneAfter(ms[mid].name, ms[i].name, name); }
        }
        hi := mid;
      }
    }
    return None;
  }

  lemma NoneBefore(a: string, b: string, name: string)
    requires NameLe(a, b) && NameLe(b, name) && !SameName(b, name)
    ensures !SameName(a, name)
  {
    if SameName(a, name) { LexTotal(Lower(b), Lower(name)); }
  }

  lemma NoneAfter(a: string, b: string, name: string)
    requires NameLe(a, b) && !NameLe(a, name)
    ensures !SameName(b, name)
  {
  }
}
