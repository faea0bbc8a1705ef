/** Shared vocabulary: options, machine integers and counting over sequences. */
module Prelude {

  datatype Option<+T> = None | Some(value: T)

  const U64: int := 0x1_0000_0000_0000_0000

  type u64 = x: int | 0 <= x < U64

  type u8 = x: int | 0 <= x < 256

  /** Instants are counted in nanoseconds; `as_secs` and `as_millis` round down. */
  const SECOND: nat := 1_000_000_000
  const MILLISECOND: nat := 1_000_000

  /** What an unbounded count looks like in a 64-bit atomic. */
  function Wrap(n: nat): u64 { n % U64 }

  function Inc(x: u64): u64 { Wrap(x + 1) }

  function Max(a: nat, b: nat): nat { if a < b then b else a }

  function Min(a: nat, b: nat): nat { if a < b then a else b }

  /** How many elements of s satisfy p. */
  function Count<T>(s: seq<T>, p: T -> bool): nat {
    if s == [] then 0
    else Count(s[..|s| - 1], p) + (if p(s[|s| - 1]) then 1 else 0)
  }

  /** The elements that f assigns to key k. */
  function Keyed<T, K(==)>(f: T -> Option<K>, k: K): T -> bool { x => f(x) == Some(k) }

  /** The elements that f assigns to any key. */
  function Assigned<T, K>(f: T -> Option<K>): T -> bool { x => f(x).Some? }

  lemma CountAppend<T>(s: seq<T>, x: T, p: T -> bool)
    ensures Count(s + [x], p) == Count(s, p) + (if p(x) then 1 else 0)
  {
    assert (s + [x])[..|s|] == s;
  }

  lemma {:induction false} CountConcat<T>(s: seq<T>, t: seq<T>, p: T -> bool)
    ensures Count(s + t, p) == Count(s, p) + Count(t, p)
  {
    if t == [] {
      assert s + t == s;
    } else {
      var n := |t| - 1;
      assert (s + t)[..|s + t| - 1] == s + t[..n];
      CountConcat(s, t[..n], p);
    }
  }

  lemma {:induction false} CountUpdate<T>(s: seq<T>, i: nat, x: T, p: T -> bool)
    requires i < |s|
    ensures Count(s[i := x], p) + (if p(s[i]) then 1 else 0) == Count(s, p) + (if p(x) then 1 else 0)
  {
    var n := |s| - 1;
    if i == n {
      assert s[i := x][..n] == s[..n];
    } else {
      assert s[i := x][..n] == s[..n][i := x];
      CountUpdate(s[..n], i, x, p);
    }
  }

  lemma {:induction false} CountBound<T>(s: seq<T>, p: T -> bool)
    ensures Count(s, p) <= |s|
    ensures (forall x :: x in s ==> p(x)) <==> Count(s, p) == |s|
    ensures (forall x :: x in s ==> !p(x)) ==> Count(s, p) == 0
  {
    if s != [] { CountBound(s[..|s| - 1], p); }
  }

  lemma {:induction false} CountWitness<T>(s: seq<T>, p: T -> bool, i: nat)
    requires i < |s| && p(s[i])
    ensures Count(s, p) > 0
  {
    if i < |s| - 1 { CountWitness(s[..|s| - 1], p, i); }
  }

  lemma {:induction false} CountImplies<T>(s: seq<T>, p: T -> bool, q: T -> bool)
    requires forall x :: x in s && p(x) ==> q(x)
    ensures Count(s, p) <= Count(s, q)
  {
    if s != [] { CountImplies(s[..|s| - 1], p, q); }
  }

  lemma {:induction false} CountSplit<T>(s: seq<T>, whole: T -> bool, p: T -> bool, q: T -> bool)
    requires forall x :: x in s ==> (whole(x) <==> p(x) || q(x)) && !(p(x) && q(x))
    ensures Count(s, whole) == Count(s, p) + Count(s, q)
  {
    if s != [] { CountSplit(s[..|s| - 1], whole, p, q); }
  }

  lemma SmallWrap(n: nat)
    requires n < U64
    ensures Wrap(n) == n
  {}

  lemma WrapInc(n: nat)
    ensures Wrap(n + 1) == Inc(Wrap(n))
  {}

  // ----- tallies: counter maps against a recount ---------------------------

  function Get<K(==)>(m: map<K, u64>, k: K): u64 { if k in m then m[k] else 0 }

  /** `*m.entry(k).or_insert(0) += 1` */
  function Bump<K(==)>(m: map<K, u64>, k: K): map<K, u64> { m[k := Inc(Get(m, k))] }

  /** m holds, for every key, the number of elements of s that f assigns to it, and has no idle key. */
  ghost predicate Tally<T, K(!new)>(m: map<K, u64>, s: seq<T>, f: T -> Option<K>) {
    forall k :: Get(m, k) == Wrap(Count(s, Keyed(f, k))) && (k in m <==> Count(s, Keyed(f, k)) > 0)
  }

  lemma TallyAppend<T, K(!new)>(m: map<K, u64>, s: seq<T>, x: T, f: T -> Option<K>)
    requires Tally(m, s, f) && f(x) == None
    ensures Tally(m, s + [x], f)
  {
    forall k ensures Count(s + [x], Keyed(f, k)) == Count(s, Keyed(f, k)) {
      CountAppend(s, x, Keyed(f, k));
    }
  }

  lemma TallySame<T, K(!new)>(m: map<K, u64>, s: seq<T>, i: nat, x: T, f: T -> Option<K>)
    requires Tally(m, s, f) && i < |s| && f(x) == f(s[i])
    ensures Tally(m, s[i := x], f)
  {
    forall k ensures Count(s[i := x], Keyed(f, k)) == Count(s, Keyed(f, k)) {
      CountUpdate(s, i, x, Keyed(f, k));
    }
  }

  lemma TallyBump<T, K(!new)>(m: map<K, u64>, s: seq<T>, i: nat, x: T, f: T -> Option<K>, k: K)
    requires Tally(m, s, f) && i < |s| && f(s[i]) == None && f(x) == Some(k)
    ensures Tally(Bump(m, k), s[i := x], f)
  {
    forall j
      ensures Count(s[i := x], Keyed(f, j)) == Count(s, Keyed(f, j)) + (if j == k then 1 else 0)
    {
      CountUpdate(s, i, x, Keyed(f, j));
    }
    WrapInc(Count(s, Keyed(f, k)));
  }

  ghost function SumValues<K>(m: map<K, u64>): nat
    decreases |m|
  {
    if m == map[] then 0
    else var k :| k in m; SmallerMap(m, k); m[k] + SumValues(m - {k})
  }

  lemma SmallerMap<K>(m: map<K, u64>, k: K)
    requires k in m
    ensures |m - {k}| < |m|
  {
    assert (m - {k}).Keys == m.Keys - {k};
    assert |(m - {k}).Keys| == |m.Keys| - 1;
  }

  /** A tally's values add up to the number of assigned elements (as long as none has wrapped). */
  lemma TallySum<T, K(!new)>(m: map<K, u64>, s: seq<T>, f: T -> Option<K>)
    requires Tally(m, s, f) && |s| < U64
    ensures SumValues(m) == Count(s, Assigned(f))
  {
    forall x | x in s && f(x).Some? ensures f(x).value in m {
      var i :| 0 <= i < |s| && s[i] == x;
      CountWitness(s, Keyed(f, f(x).value), i);
    }
    forall k ensures Get(m, k) == Count(s, Keyed(f, k)) {
      CountBound(s, Keyed(f, k));
    }
    CountImplies(s, Assigned(f), Within(f, m.Keys));
    CountImplies(s, Within(f, m.Keys), Assigned(f));
    SumOverKeys(m, s, f);
  }

  ghost function Within<T, K(!new)>(f: T -> Option<K>, keys: set<K>): T -> bool {
    x => f(x).Some? && f(x).value in keys
  }

  lemma {:induction false} SumOverKeys<T, K(!new)>(m: map<K, u64>, s: seq<T>, f: T -> Option<K>)
    requires forall k :: k in m ==> m[k] == Count(s, Keyed(f, k))
    ensures SumValues(m) == Count(s, Within(f, m.Keys))
    decreases |m|
  {
    if m == map[] {
      CountBound(s, Within(f, m.Keys));
    } else {
      var k :| k in m && SumValues(m) == m[k] + SumValues(m - {k});
      SmallerMap(m, k);
      var rest := m - {k};
      SumOverKeys(rest, s, f);
      assert rest.Keys == m.Keys - {k};
      CountSplit(s, Within(f, m.Keys), Keyed(f, k), Within(f, rest.Keys));
    }
  }

  // ----- the same for fixed-size counter arrays ------------------------------

  /** Cell i holds the number of elements that f assigns to i. */
  ghost predicate CellTally<T(!new)>(cells: seq<u64>, s: seq<T>, f: T -> Option<nat>) {
    forall i: nat :: i < |cells| ==> cells[i] == Wrap(Count(s, Keyed(f, i)))
  }

  function BumpCell(cells: seq<u64>, i: nat): seq<u64> {
    if i < |cells| then cells[i := Inc(cells[i])] else cells
  }

  lemma CellTallyAppend<T(!new)>(cells: seq<u64>, s: seq<T>, x: T, f: T -> Option<nat>)
    requires CellTally(cells, s, f)
    ensures CellTally(if f(x).Some? then BumpCell(cells, f(x).value) else cells, s + [x], f)
  {
    forall i: nat ensures Count(s + [x], Keyed(f, i)) == Count(s, Keyed(f, i)) + (if f(x) == Some(i) then 1 else 0) {
      CountAppend(s, x, Keyed(f, i));
    }
    if f(x).Some? { WrapInc(Count(s, Keyed(f, f(x).value))); }
  }

  lemma CellTallySame<T(!new)>(cells: seq<u64>, s: seq<T>, i: nat, x: T, f: T -> Option<nat>)
    requires CellTally(cells, s, f) && i < |s| && f(x) == f(s[i])
    ensures CellTally(cells, s[i := x], f)
  {
    forall k: nat ensures Count(s[i := x], Keyed(f, k)) == Count(s, Keyed(f, k)) {
      CountUpdate(s, i, x, Keyed(f, k));
    }
  }

  lemma CellTallyBump<T(!new)>(cells: seq<u64>, s: seq<T>, i: nat, x: T, f: T -> Option<nat>, k: nat)
    requires CellTally(cells, s, f) && i < |s| && f(s[i]) == None && f(x) == Some(k)
    ensures CellTally(BumpCell(cells, k), s[i := x], f)
  {
    forall j: nat
      ensures Count(s[i := x], Keyed(f, j)) == Count(s, Keyed(f, j)) + (if j == k then 1 else 0)
    {
      CountUpdate(s, i, x, Keyed(f, j));
    }
    WrapInc(Count(s, Keyed(f, k)));
  }

  function Sum(cells: seq<u64>): nat {
    if cells == [] then 0 else Sum(cells[..|cells| - 1]) + cells[|cells| - 1]
  }

  function Below<T>(f: T -> Option<nat>, n: nat): T -> bool { x => f(x).Some? && f(x).value < n }

  lemma {:induction false} CellTallySumTo<T(!new)>(cells: seq<u64>, s: seq<T>, f: T -> Option<nat>)
    requires CellTally(cells, s, f) && |s| < U64
    ensures Sum(cells) == Count(s, Below(f, |cells|))
  {
    if cells == [] {
      CountBound(s, Below(f, 0));
    } else {
      var n: nat := |cells| - 1;
      CellTallySumTo(cells[..n], s, f);
      CountBound(s, Keyed(f, n));
      CountSplit(s, Below(f, n + 1), Below(f, n), Keyed(f, n));
    }
  }

  /** If no element is assigned past the end, the cells add up to the number of assigned elements. */
  lemma CellTallySum<T(!new)>(cells: seq<u64>, s: seq<T>, f: T -> Option<nat>)
    requires CellTally(cells, s, f) && |s| < U64
    requires forall x :: x in s && f(x).Some? ==> f(x).value < |cells|
    ensures Sum(cells) == Count(s, Assigned(f))
  {
    CellTallySumTo(cells, s, f);
    CountImplies(s, Assigned(f), Below(f, |cells|));
    CountImplies(s, Below(f, |cells|), Assigned(f));
  }
}
