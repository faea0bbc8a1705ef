/** Orders in which n numbered things can happen. */
module Permutations {
  import opened Prelude

  predicate Distinct<T(==)>(s: seq<T>) { forall i, j :: 0 <= i < j < |s| ==> s[i] != s[j] }

  /** Every index below n, once each. */
  predicate IsPermutation(order: seq<nat>, n: nat) {
    |order| == n && Distinct(order) && forall i :: 0 <= i < |order| ==> order[i] < n
  }

  function Identity(n: nat): seq<nat> { seq(n, i => i) }

  lemma {:induction false} DistinctCard<T>(s: seq<T>, elements: set<T>)
    requires Distinct(s) && elements == set x | x in s
    ensures |elements| == |s|
  {
    if s != [] {
      var n := |s| - 1;
      var rest := set x | x in s[..n];
      DistinctCard(s[..n], rest);
      assert elements == rest + {s[n]};
    }
  }

  ghost function Indices(n: nat): (below: set<nat>)
    ensures |below| == n && forall i: nat :: i in below <==> i < n
  {
    if n == 0 then {} else Indices(n - 1) + {n - 1}
  }

  lemma SubsetOfEqualCard<T>(a: set<T>, b: set<T>)
    requires a <= b && |a| == |b|
    ensures a == b
  {
    assert |b| == |a| + |b - a| by { assert b == a + (b - a); }
  }

  /** Pigeonhole: n distinct indices below n reach every one of them. */
  lemma PermutationHits(order: seq<nat>, n: nat, k: nat)
    requires IsPermutation(order, n) && k < n
    ensures exists j :: 0 <= j < |order| && order[j] == k
  {
    var seen := set x | x in order;
    DistinctCard(order, seen);
    SubsetOfEqualCard(seen, Indices(n));
    assert k in Indices(n);
  }

  function Is(k: nat): nat -> bool { x => x == k }

  lemma {:induction false} DistinctCountsOnce(s: seq<nat>, k: nat)
    requires Distinct(s)
    ensures Count(s, Is(k)) == if k in s then 1 else 0
  {
    if s != [] {
      var n := |s| - 1;
      DistinctCountsOnce(s[..n], k);
      assert s == s[..n] + [s[n]];
      assert s[n] !in s[..n];
    }
  }

  // ----- rotations: (start + i) mod n ----------------------------------------

  function Rotation(start: nat, n: nat): seq<nat>
    requires n > 0
  {
    seq(n, i requires 0 <= i < n => (start + i) % n)
  }

  lemma MulGrows(d: nat, n: nat)
    requires d >= 1
    ensures d * n >= n
  {}

  lemma MulShrinks(d: int, n: nat)
    requires d <= -1
    ensures d * n + n <= 0
  {}

  lemma ModUnique(q: nat, n: nat, r: nat)
    requires r < n
    ensures (q * n + r) % n == r && (q * n + r) / n == q
  {
    var a := q * n + r;
    var d := a / n - q;
    assert d * n == r - a % n by {
      assert a == (a / n) * n + a % n;
      assert d * n == (a / n) * n - q * n;
    }
    if d >= 1 {
      MulGrows(d, n);
    } else if d <= -1 {
      MulShrinks(d, n);
    }
  }

  lemma ResiduesDiffer(start: nat, i: nat, j: nat, n: nat)
    requires i < j < n + i
    ensures (start + i) % n != (start + j) % n
  {
    var q, r := (start + i) / n, (start + i) % n;
    assert start + i == q * n + r;
    var r' := r + (j - i);
    assert start + j == q * n + r';
    if r' < n {
      ModUnique(q, n, r');
    } else {
      assert q * n + r' == (q + 1) * n + (r' - n);
      ModUnique(q + 1, n, r' - n);
    }
  }

  /** Trying (start + i) mod n for i < n tries every index once. */
  lemma {:induction false} RotationIsPermutation(start: nat, n: nat)
    requires n > 0
    ensures IsPermutation(Rotation(start, n), n)
  {
    forall i, j | 0 <= i < j < n ensures Rotation(start, n)[i] != Rotation(start, n)[j] {
      ResiduesDiffer(start, i, j, n);
    }
  }
}
