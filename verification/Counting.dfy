/** Sums of sequences and occurrence counts over prefixes. */
module Counting {
  function Sum(s: seq<int>): int { if s == [] then 0 else Sum(s[..|s| - 1]) + s[|s| - 1] }

  lemma {:induction false} SumUpdate(s: seq<int>, k: nat, v: int)
    requires k < |s|
    ensures Sum(s[k := v]) == Sum(s) - s[k] + v
  {
    var t := s[k := v];
    if k == |s| - 1 {
      assert t[..|s| - 1] == s[..|s| - 1];
    } else {
      assert t[..|s| - 1] == s[..|s| - 1][k := v];
      SumUpdate(s[..|s| - 1], k, v);
    }
  }

  /** Pointwise order lifts to sums, and equal sums leave no room between the two. */
  lemma {:induction false} SumOrder(s: seq<int>, t: seq<int>)
    requires |s| == |t| && forall i :: 0 <= i < |s| ==> s[i] <= t[i]
    ensures Sum(s) <= Sum(t)
    ensures Sum(s) == Sum(t) ==> s == t
  {
    if s != [] {
      SumOrder(s[..|s| - 1], t[..|t| - 1]);
      if Sum(s) == Sum(t) {
        assert s == s[..|s| - 1] + [s[|s| - 1]] && t == t[..|t| - 1] + [t[|t| - 1]];
      }
    }
  }

  /** What holds at the start and goes on from step to step holds at the end. */
  lemma {:induction false} HoldsTo(holds: nat -> bool, n: nat)
    requires holds(0) && forall k :: 0 <= k < n && holds(k) ==> holds(k + 1)
    ensures holds(n)
  {
    if n > 0 {
      HoldsTo(holds, n - 1);
      assert holds(n - 1 + 1);
    }
  }

  /** How often v occurs among the first i entries. */
  function Count(m: seq<int>, v: int, i: nat): (n: nat)
    ensures n <= i
  {
    if i == 0 then 0 else Count(m, v, i - 1) + (if i <= |m| && m[i - 1] == v then 1 else 0)
  }

  /** Counting is taking the size of the set of places. */
  lemma {:induction false} CountIsSize(m: seq<int>, v: int, i: nat)
    requires i <= |m|
    ensures Count(m, v, i) == |set k | 0 <= k < i && m[k] == v|
  {
    if i > 0 {
      CountIsSize(m, v, i - 1);
      var before, now := set k | 0 <= k < i - 1 && m[k] == v, set k | 0 <= k < i && m[k] == v;
      assert now == if m[i - 1] == v then before + {i - 1} else before;
    }
  }

  /** Sets that are mapped to each other and back are of one size. */
  lemma {:induction false} SameSize<A, B>(a: set<A>, b: set<B>, f: A -> B, g: B -> A)
    requires forall x :: x in a ==> f(x) in b && g(f(x)) == x
    requires forall y :: y in b ==> g(y) in a && f(g(y)) == y
    ensures |a| == |b|
    decreases |a|
  {
    if a == {} {
      assert forall y :: y !in b;
    } else {
      var x :| x in a;
      SameSize(a - {x}, b - {f(x)}, f, g);
      assert a == (a - {x}) + {x} && b == (b - {f(x)}) + {f(x)};
    }
  }

  lemma {:induction false} CountUpdate(m: seq<int>, k: nat, x: int, v: int, i: nat)
    requires k < |m| && i <= |m|
    ensures Count(m[k := x], v, i) ==
      Count(m, v, i) + (if k < i && x == v then 1 else 0) - (if k < i && m[k] == v then 1 else 0)
  {
    if i > 0 { CountUpdate(m, k, x, v, i - 1); }
  }

  lemma {:induction false} CountMonotone(m: seq<int>, v: int, i: nat, j: nat)
    requires i <= j
    ensures Count(m, v, i) <= Count(m, v, j)
    decreases j
  {
    if i < j { CountMonotone(m, v, i, j - 1); }
  }

  /** The counts of 0 .. n - 1 among the first i entries. */
  function Counts(m: seq<int>, n: nat, i: nat): (c: seq<int>)
    ensures |c| == n && forall v :: 0 <= v < n ==> c[v] == Count(m, v, i)
  {
    seq(n, v => Count(m, v, i))
  }

  lemma {:induction false} SumOfZeros(s: seq<int>)
    requires forall i :: 0 <= i < |s| ==> s[i] == 0
    ensures Sum(s) == 0
  {
    if s != [] { SumOfZeros(s[..|s| - 1]); }
  }

  /** When all entries lie in 0 .. n - 1 the counts add up to the number of entries. */
  lemma {:induction false} CountsAddUp(m: seq<int>, n: nat, i: nat)
    requires i <= |m| && forall k :: 0 <= k < i ==> 0 <= m[k] < n
    ensures Sum(Counts(m, n, i)) == i
  {
    if i == 0 {
      SumOfZeros(Counts(m, n, 0));
    } else {
      CountsAddUp(m, n, i - 1);
      var before := Counts(m, n, i - 1);
      var v := m[i - 1];
      assert Counts(m, n, i) == before[v := before[v] + 1];
      SumUpdate(before, v, before[v] + 1);
    }
  }

  /** One counter changed in place. */
  method AddTo(a: array<int>, i: nat, change: int)
    requires i < a.Length
    modifies a
    ensures a[..] == old(a[..])[i := old(a[i]) + change]
  {
    a[i] := a[i] + change;
  }
}
