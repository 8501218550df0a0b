/**
 Reassigning virtual buckets when the cluster grows (rebalanceBuckets in
 src/sharding/resharding.ts), for any number of buckets.
 */
module Rebalance {
  import opened Counting

  /** The shard of every bucket, each entry below n. */
  predicate IsMap(m: seq<int>, n: nat) { forall b :: 0 <= b < |m| ==> 0 <= m[b] < n }

  /** The number of buckets a shard should hold. */
  function Quota(buckets: nat, to: nat, shard: nat): nat
    requires to >= 1
  {
    buckets / to + (if shard < buckets % to then 1 else 0)
  }

  function Quotas(buckets: nat, to: nat): (q: seq<int>)
    requires to >= 1
    ensures |q| == to && forall s :: 0 <= s < to ==> q[s] == Quota(buckets, to, s)
  {
    seq(to, s requires 0 <= s => Quota(buckets, to, s))
  }

  lemma {:induction false} SumOfSteps(base: nat, extra: nat, n: nat, q: seq<int>)
    requires |q| == n && forall s :: 0 <= s < n ==> q[s] == base + (if s < extra then 1 else 0)
    ensures Sum(q) == base * n + (if n <= extra then n else extra)
  {
    if n > 0 { SumOfSteps(base, extra, n - 1, q[..n - 1]); }
  }

  /** The quotas share out all buckets. */
  lemma QuotasAddUp(buckets: nat, to: nat)
    requires to >= 1
    ensures Sum(Quotas(buckets, to)) == buckets
  {
    SumOfSteps(buckets / to, buckets % to, to, Quotas(buckets, to));
  }

  /** Every entry names a shard with a quota. */
  predicate Fits(m: seq<int>, q: seq<int>) { IsMap(m, |q|) && forall s :: 0 <= s < |q| ==> q[s] >= 0 }

  /** A bucket moves when its shard's quota is already filled by lower-numbered buckets. */
  predicate Moves(m: seq<int>, q: seq<int>, b: nat)
    requires b < |m| && Fits(m, q)
  {
    Count(m, m[b], b) >= q[m[b]]
  }

  /** The moving buckets from i upwards, highest first: the order in which they are set aside. */
  function Spared(m: seq<int>, q: seq<int>, i: nat): (r: seq<nat>)
    requires Fits(m, q) && i <= |m|
    ensures forall j :: 0 <= j < |r| ==> i <= r[j] < |m|
    ensures forall j, k :: 0 <= j < k < |r| ==> r[j] > r[k]
    ensures forall b :: i <= b < |m| ==> (b in r <==> Moves(m, q, b))
    decreases |m| - i
  {
    if i == |m| then [] else Spared(m, q, i + 1) + (if Moves(m, q, i) then [i] else [])
  }

  /** A shard keeps its low-numbered buckets: what is below a bucket that stays, stays. */
  lemma LowestStay(m: seq<int>, q: seq<int>, next: seq<int>, b: nat, c: nat)
    requires Fits(m, q) && IsRebalanced(m, q, next)
    requires b < c < |m| && m[b] == m[c] && next[c] == m[c]
    ensures next[b] == m[b]
  {
    CountMonotone(m, m[b], b, c);
  }

  /** Every shard holds its quota. */
  ghost predicate Meets(m: seq<int>, q: seq<int>) {
    Fits(m, q) && forall s :: 0 <= s < |q| ==> Count(m, s, |m|) == q[s]
  }

  /**
   What the redistribution must achieve: quotas met, exactly the surplus buckets moved (so the
   low-numbered ones stay), and the moved buckets handed to the shards in ascending order.
   */
  ghost predicate IsRebalanced(m: seq<int>, q: seq<int>, next: seq<int>)
    requires Fits(m, q)
  {
    |next| == |m| &&
    Meets(next, q) &&
    (forall b :: 0 <= b < |m| ==> (next[b] != m[b] <==> Moves(m, q, b))) &&
    (forall b, c :: 0 <= b < c < |m| && Moves(m, q, b) && Moves(m, q, c) ==> next[b] <= next[c])
  }

  /** What a shard still holds once all buckets from i upwards have been looked at. */
  function Held(m: seq<int>, quota: int, s: nat, i: nat): int {
    var total, low := Count(m, s, |m|), Count(m, s, i);
    if total <= quota then total else if low <= quota then quota else low
  }

  /** The state while the surplus of the buckets from i upwards is being set aside. */
  ghost predicate Sparing(m: seq<int>, q: seq<int>, spare: seq<nat>, owned: seq<int>, placed: seq<int>, i: nat)
    requires Fits(m, q) && i <= |m|
  {
    spare == Spared(m, q, i) && AllHeld(m, q, owned, i) && Holes(m, q, spare, owned, placed)
  }

  ghost predicate AllHeld(m: seq<int>, q: seq<int>, owned: seq<int>, i: nat) {
    |owned| == |q| && forall s :: 0 <= s < |q| ==> owned[s] == Held(m, q[s], s, i)
  }

  /** The map with a hole for every bucket on the stack shows what every shard owns. */
  ghost predicate Holes(m: seq<int>, q: seq<int>, spare: seq<nat>, owned: seq<int>, placed: seq<int>) {
    |owned| == |q| && |placed| == |m| &&
    Sum(owned) + |spare| == |m| &&
    (forall s :: 0 <= s < |q| ==> owned[s] == Count(placed, s, |m|)) &&
    (forall b :: 0 <= b < |m| ==> placed[b] == if b in spare then -1 else m[b])
  }

  /** The moving buckets, highest first, as a property of the list. */
  ghost predicate SparedAre(m: seq<int>, q: seq<int>, all: seq<nat>)
    requires Fits(m, q)
  {
    (forall j :: 0 <= j < |all| ==> all[j] < |m|) &&
    (forall j, k :: 0 <= j < k < |all| ==> all[j] > all[k]) &&
    (forall b :: 0 <= b < |m| ==> (b in all <==> Moves(m, q, b)))
  }

  /** The state while the stack is emptied into the shards up to the current one. */
  ghost predicate Filling(m: seq<int>, q: seq<int>, all: seq<nat>, spare: seq<nat>, next: seq<int>, owned: seq<int>,
                          placed: seq<int>, shard: nat)
    requires Fits(m, q)
  {
    SparedAre(m, q, all) && |spare| <= |all| && spare == all[..|spare|] &&
    Owning(m, q, spare, owned, placed) && Landing(m, q, all, |spare|, next, shard) && |placed| == |m| &&
    (forall b :: 0 <= b < |m| ==> placed[b] == if b in spare then -1 else next[b])
  }

  /** What the shards own: at most their quota, all of it if they held it before. */
  ghost predicate Owning(m: seq<int>, q: seq<int>, spare: seq<nat>, owned: seq<int>, placed: seq<int>) {
    |placed| == |m| && |owned| == |q| && Sum(owned) + |spare| == |m| &&
    (forall s :: 0 <= s < |q| ==> owned[s] <= q[s] && owned[s] == Count(placed, s, |m|)) &&
    (forall s :: 0 <= s < |q| && Count(m, s, |m|) >= q[s] ==> owned[s] == q[s])
  }

  /** Where the buckets popped so far have landed; all others are where they were. */
  ghost predicate Landing(m: seq<int>, q: seq<int>, all: seq<nat>, left: nat, next: seq<int>, shard: nat)
    requires Fits(m, q)
  {
    |next| == |m| && left <= |all| && (forall j :: 0 <= j < |all| ==> all[j] < |m|) &&
    (forall b :: 0 <= b < |m| && (b in all[..left] || b !in all) ==> next[b] == m[b]) &&
    (forall j :: left <= j < |all| ==> Lands(m, q, next[all[j]], shard)) &&
    (forall j, k :: left <= j < k < |all| ==> next[all[j]] >= next[all[k]])
  }

  /** A popped bucket lands on a shard below its quota, at most the current one. */
  ghost predicate Lands(m: seq<int>, q: seq<int>, s: int, shard: nat) {
    0 <= s <= shard && s < |q| && Count(m, s, |m|) < q[s]
  }

  /**
   Surplus buckets are pushed on a stack from the highest down, then popped into the shards below
   quota. The stack is never popped empty and ends empty.
   */
  method RebalanceBuckets(m: seq<int>, to: nat) returns (r: seq<int>)
    requires to >= 1 && IsMap(m, to)
    ensures IsRebalanced(m, Quotas(|m|, to), r)
  {
    QuotasAddUp(|m|, to);
    r := Redistribute(m, Quotas(|m|, to));
  }

  /** The two passes, for quotas that share out the buckets. */
  method Redistribute(m: seq<int>, quota: seq<int>) returns (r: seq<int>)
    requires Fits(m, quota) && Sum(quota) == |m|
    ensures IsRebalanced(m, quota, r)
  {
    var next := new int[|m|](b requires 0 <= b < |m| => m[b]);
    var owned := new int[|quota|](s => Count(m, s, |m|));
    CountsAddUp(m, |quota|, |m|);
    assert owned[..] == Counts(m, |quota|, |m|);
    assert next[..] == m;
    var spare, placed := SetAside(m, quota, owned);
    Spread(m, quota, spare, owned[..], placed);
    HandOut(m, quota, spare, next, owned, placed);
    r := next[..];
  }

  /** First pass: surplus buckets go on the stack. The ghost result is the map with a hole for each of them. */
  method SetAside(m: seq<int>, quota: seq<int>, owned: array<int>) returns (spare: seq<nat>, ghost placed: seq<int>)
    requires Fits(m, quota) && owned[..] == Counts(m, |quota|, |m|) && Sum(owned[..]) == |m|
    modifies owned
    ensures Sparing(m, quota, spare, owned[..], placed, 0)
  {
    spare, placed := [], m;
    NothingSpared(m, quota, owned[..]);
    var bucket := |m| - 1;
    while bucket >= 0
      invariant -1 <= bucket < |m|
      invariant Sparing(m, quota, spare, owned[..], placed, bucket + 1)
    {
      spare, placed := SetAsideOne(m, quota, owned, spare, placed, bucket);
      bucket := bucket - 1;
    }
  }

  method SetAsideOne(m: seq<int>, quota: seq<int>, owned: array<int>, stack: seq<nat>, ghost holes: seq<int>, bucket: nat)
    returns (spare: seq<nat>, ghost placed: seq<int>)
    requires Fits(m, quota) && bucket < |m| && Sparing(m, quota, stack, owned[..], holes, bucket + 1)
    modifies owned
    ensures Sparing(m, quota, spare, owned[..], placed, bucket)
  {
    spare, placed := stack, holes;
    var shard := m[bucket];
    ghost var was := owned[..];
    if owned[shard] > quota[shard] {
      SpareSurplus(m, quota, stack, was, holes, bucket);
      AddTo(owned, shard, -1);
      spare := spare + [bucket];
      placed := placed[bucket := -1];
    } else {
      KeepHeld(m, quota, stack, was, holes, bucket);
    }
  }

  /** Second pass: every shard below its quota takes buckets from the stack, which suffices exactly. */
  method HandOut(m: seq<int>, quota: seq<int>, all: seq<nat>, next: array<int>, owned: array<int>, ghost holes: seq<int>)
    requires next != owned && next.Length == |m| && owned.Length == |quota|
    requires Fits(m, quota) && Sum(quota) == |m|
    requires Filling(m, quota, all, all, next[..], owned[..], holes, 0)
    modifies next, owned
    ensures IsRebalanced(m, quota, next[..])
  {
    var spare := all;
    ghost var placed := holes;
    var shard := 0;
    while shard < |quota|
      invariant 0 <= shard <= |quota|
      invariant Filling(m, quota, all, spare, next[..], owned[..], placed, shard)
      invariant owned[..shard] == quota[..shard]
    {
      spare, placed := FillShard(m, quota, all, spare, next, owned, placed, shard);
      FillNext(m, quota, all, spare, next[..], owned[..], placed, shard);
      shard := shard + 1;
    }
    assert owned[..] == owned[..shard] == quota[..shard] == quota;
    Filled(m, quota, all, spare, next[..], owned[..], placed, shard);
  }

  method FillShard(m: seq<int>, quota: seq<int>, ghost all: seq<nat>, stack: seq<nat>, next: array<int>, owned: array<int>,
                   ghost holes: seq<int>, shard: nat)
    returns (spare: seq<nat>, ghost placed: seq<int>)
    requires next != owned && next.Length == |m| && owned.Length == |quota| && shard < |quota|
    requires Fits(m, quota) && Sum(quota) == |m|
    requires Filling(m, quota, all, stack, next[..], owned[..], holes, shard)
    modifies next, owned
    ensures Filling(m, quota, all, spare, next[..], owned[..], placed, shard)
    ensures owned[..shard] == old(owned[..shard]) && owned[shard] == quota[shard]
  {
    spare, placed := stack, holes;
    while owned[shard] < quota[shard]
      invariant Filling(m, quota, all, spare, next[..], owned[..], placed, shard)
      invariant owned[..shard] == old(owned[..shard])
      decreases quota[shard] - owned[shard]
    {
      spare, placed := PopInto(m, quota, all, spare, next, owned, placed, shard);
    }
  }

  method PopInto(m: seq<int>, quota: seq<int>, ghost all: seq<nat>, stack: seq<nat>, next: array<int>, owned: array<int>,
                 ghost holes: seq<int>, shard: nat)
    returns (spare: seq<nat>, ghost placed: seq<int>)
    requires next != owned && next.Length == |m| && owned.Length == |quota| && shard < |quota|
    requires Fits(m, quota) && Sum(quota) == |m|
    requires Filling(m, quota, all, stack, next[..], owned[..], holes, shard) && owned[shard] < quota[shard]
    modifies next, owned
    ensures Filling(m, quota, all, spare, next[..], owned[..], placed, shard)
    ensures owned[..] == old(owned[..])[shard := old(owned[shard]) + 1]
  {
    FillOne(m, quota, all, stack, next[..], owned[..], holes, shard);
    var top := stack[|stack| - 1];
    spare := stack[..|stack| - 1];
    next[top] := shard;
    AddTo(owned, shard, 1);
    placed := holes[top := shard];
    assert next[..] == old(next[..])[top := shard];
  }

  lemma NothingSpared(m: seq<int>, q: seq<int>, owned: seq<int>)
    requires Fits(m, q) && owned == Counts(m, |q|, |m|) && Sum(owned) == |m|
    ensures Sparing(m, q, [], owned, m, |m|)
  {}

  lemma HeldAfterSurplus(m: seq<int>, q: seq<int>, owned: seq<int>, i: nat)
    requires Fits(m, q) && i < |m| && AllHeld(m, q, owned, i + 1)
    ensures owned[m[i]] > q[m[i]] <==> Moves(m, q, i)
    ensures owned[m[i]] > q[m[i]] ==> AllHeld(m, q, owned[m[i] := owned[m[i]] - 1], i)
    ensures owned[m[i]] <= q[m[i]] ==> AllHeld(m, q, owned, i)
  {
    CountMonotone(m, m[i], i + 1, |m|);
    forall s | 0 <= s < |q| ensures s != m[i] ==> Count(m, s, i + 1) == Count(m, s, i) {}
  }

  lemma HolesAfterSurplus(m: seq<int>, q: seq<int>, spare: seq<nat>, owned: seq<int>, placed: seq<int>, i: nat)
    requires Fits(m, q) && i < |m| && i !in spare && Holes(m, q, spare, owned, placed)
    ensures Holes(m, q, spare + [i], owned[m[i] := owned[m[i]] - 1], placed[i := -1])
  {
    SumUpdate(owned, m[i], owned[m[i]] - 1);
    forall v | 0 <= v < |q| { CountUpdate(placed, i, -1, v, |m|); }
  }

  lemma SpareSurplus(m: seq<int>, q: seq<int>, spare: seq<nat>, owned: seq<int>, placed: seq<int>, i: nat)
    requires Fits(m, q) && i < |m|
    requires Sparing(m, q, spare, owned, placed, i + 1)
    requires owned[m[i]] > q[m[i]]
    ensures Sparing(m, q, spare + [i], owned[m[i] := owned[m[i]] - 1], placed[i := -1], i)
  {
    HeldAfterSurplus(m, q, owned, i);
    HolesAfterSurplus(m, q, spare, owned, placed, i);
  }

  lemma KeepHeld(m: seq<int>, q: seq<int>, spare: seq<nat>, owned: seq<int>, placed: seq<int>, i: nat)
    requires Fits(m, q) && i < |m|
    requires Sparing(m, q, spare, owned, placed, i + 1)
    requires owned[m[i]] <= q[m[i]]
    ensures Sparing(m, q, spare, owned, placed, i)
  {
    HeldAfterSurplus(m, q, owned, i);
  }

  lemma Spread(m: seq<int>, q: seq<int>, spare: seq<nat>, owned: seq<int>, placed: seq<int>)
    requires Fits(m, q) && Sparing(m, q, spare, owned, placed, 0)
    requires Sum(q) == |m|
    ensures Filling(m, q, spare, spare, m, owned, placed, 0)
  {
  }

  /** The stack lasts: while a shard is below its quota, a bucket is left. */
  lemma StackLasts(m: seq<int>, q: seq<int>, spare: seq<nat>, owned: seq<int>, placed: seq<int>, shard: nat)
    requires Fits(m, q) && shard < |q| && Sum(q) == |m| && Owning(m, q, spare, owned, placed) && owned[shard] < q[shard]
    ensures spare != []
  {
    SumOrder(owned, q);
  }

  lemma OwnOneMore(m: seq<int>, q: seq<int>, rest: seq<nat>, top: nat, owned: seq<int>, placed: seq<int>, shard: nat)
    requires Fits(m, q) && shard < |q| && top < |m| && Owning(m, q, rest + [top], owned, placed)
    requires owned[shard] < q[shard] && placed[top] == -1
    ensures Owning(m, q, rest, owned[shard := owned[shard] + 1], placed[top := shard])
  {
    SumUpdate(owned, shard, owned[shard] + 1);
    forall s | 0 <= s < |q| { CountUpdate(placed, top, shard, s, |m|); }
  }

  lemma LandOneMore(m: seq<int>, q: seq<int>, all: seq<nat>, left: nat, next: seq<int>, shard: nat)
    requires Fits(m, q) && 0 < left <= |all| && Landing(m, q, all, left, next, shard)
    requires forall j, k :: 0 <= j < k < |all| ==> all[j] > all[k]
    requires shard < |q| && Count(m, shard, |m|) < q[shard]
    ensures Landing(m, q, all, left - 1, next[all[left - 1] := shard], shard)
  {
    var top, next' := all[left - 1], next[all[left - 1] := shard];
    assert all[..left] == all[..left - 1] + [top];
    assert forall j :: 0 <= j < |all| && j != left - 1 ==> next'[all[j]] == next[all[j]];
    Unlanded(m, all, left, next, shard);
    assert Lands(m, q, next'[top], shard);
  }

  lemma Unlanded(m: seq<int>, all: seq<nat>, left: nat, next: seq<int>, s: int)
    requires |next| == |m| && 0 < left <= |all| && all[left - 1] < |m|
    requires forall j, k :: 0 <= j < k < |all| ==> all[j] > all[k]
    requires forall b :: 0 <= b < |m| && (b in all[..left] || b !in all) ==> next[b] == m[b]
    ensures forall b :: 0 <= b < |m| && (b in all[..left - 1] || b !in all) ==> next[all[left - 1] := s][b] == m[b]
  {
    var top := all[left - 1];
    assert top in all && all[..left] == all[..left - 1] + [top];
    assert top !in all[..left - 1];
  }

  lemma FillOne(m: seq<int>, q: seq<int>, all: seq<nat>, spare: seq<nat>, next: seq<int>, owned: seq<int>, placed: seq<int>, shard: nat)
    requires Fits(m, q) && shard < |q| && Sum(q) == |m|
    requires Filling(m, q, all, spare, next, owned, placed, shard)
    requires owned[shard] < q[shard]
    ensures spare != []
    ensures var top := spare[|spare| - 1];
      Filling(m, q, all, spare[..|spare| - 1], next[top := shard], owned[shard := owned[shard] + 1], placed[top := shard], shard)
  {
    StackLasts(m, q, spare, owned, placed, shard);
    var rest, top := spare[..|spare| - 1], spare[|spare| - 1];
    assert spare == rest + [top];
    TopOfStack(m, q, all, rest, top, placed);
    OwnOneMore(m, q, rest, top, owned, placed, shard);
    LandOneMore(m, q, all, |spare|, next, shard);
    HolesClose(rest, top, next, placed, shard);
  }

  lemma TopOfStack(m: seq<int>, q: seq<int>, all: seq<nat>, rest: seq<nat>, top: nat, placed: seq<int>)
    requires Fits(m, q) && SparedAre(m, q, all) && |rest| < |all| && rest + [top] == all[..|rest| + 1] && |placed| == |m|
    requires forall b :: 0 <= b < |m| && b in rest + [top] ==> placed[b] == -1
    ensures top == all[|rest|] && rest == all[..|rest|] && top < |m| && top !in rest && placed[top] == -1
  {
    assert (rest + [top])[|rest|] == top;
    assert rest == (rest + [top])[..|rest|];
    assert top in rest + [top];
  }

  lemma HolesClose(rest: seq<nat>, top: nat, next: seq<int>, placed: seq<int>, shard: nat)
    requires |next| == |placed| && top < |next| && top !in rest
    requires forall b :: 0 <= b < |next| ==> placed[b] == if b in rest + [top] then -1 else next[b]
    ensures forall b :: 0 <= b < |next| ==> placed[top := shard][b] == if b in rest then -1 else next[top := shard][b]
  {}

  lemma FillNext(m: seq<int>, q: seq<int>, all: seq<nat>, spare: seq<nat>, next: seq<int>, owned: seq<int>, placed: seq<int>, shard: nat)
    requires Fits(m, q)
    requires Filling(m, q, all, spare, next, owned, placed, shard)
    ensures Filling(m, q, all, spare, next, owned, placed, shard + 1)
  {}

  lemma Filled(m: seq<int>, q: seq<int>, all: seq<nat>, spare: seq<nat>, next: seq<int>, owned: seq<int>, placed: seq<int>, shard: nat)
    requires Fits(m, q)
    requires Filling(m, q, all, spare, next, owned, placed, shard)
    requires owned == q && Sum(q) == |m|
    ensures spare == []
    ensures IsRebalanced(m, q, next)
  {
    assert all[..0] == [];
    assert placed == next;
    forall b | 0 <= b < |m|
      ensures 0 <= next[b] < |q| && (next[b] != m[b] <==> Moves(m, q, b))
    {
      LandedOrStayed(m, q, all, next, shard, b);
    }
    forall b, c | 0 <= b < c < |m| && Moves(m, q, b) && Moves(m, q, c)
      ensures next[b] <= next[c]
    {
      LandedInOrder(m, q, all, next, shard, b, c);
    }
  }

  lemma LandedOrStayed(m: seq<int>, q: seq<int>, all: seq<nat>, next: seq<int>, shard: nat, b: nat)
    requires Fits(m, q) && SparedAre(m, q, all) && Landing(m, q, all, 0, next, shard) && b < |m|
    ensures 0 <= next[b] < |q| && (next[b] != m[b] <==> Moves(m, q, b))
  {
    if b in all {
      var j :| 0 <= j < |all| && all[j] == b;
      assert Lands(m, q, next[all[j]], shard);
      CountMonotone(m, m[b], b, |m|);
    }
  }

  lemma LandedInOrder(m: seq<int>, q: seq<int>, all: seq<nat>, next: seq<int>, shard: nat, b: nat, c: nat)
    requires Fits(m, q) && SparedAre(m, q, all) && Landing(m, q, all, 0, next, shard)
    requires b < c < |m| && Moves(m, q, b) && Moves(m, q, c)
    ensures next[b] <= next[c]
  {
    assert b in all && c in all;
    var j :| 0 <= j < |all| && all[j] == b;
    var k :| 0 <= k < |all| && all[k] == c;
  }

  // ---------------------------------------------------------------- the result is determined

  lemma {:induction false} SameCounts(x: seq<int>, y: seq<int>, v: int, i: nat)
    requires i <= |x| && i <= |y| && forall j :: 0 <= j < i ==> x[j] == y[j]
    ensures Count(x, v, i) == Count(y, v, i)
  {
    if i > 0 { SameCounts(x, y, v, i - 1); }
  }

  lemma {:induction false} CountFallsBehind(x: seq<int>, y: seq<int>, v: int, b: nat, i: nat)
    requires |x| == |y| && b < i <= |x|
    requires forall j :: 0 <= j < b ==> x[j] == y[j]
    requires x[b] == v && y[b] != v
    requires forall j :: b < j < i && y[j] == v ==> x[j] == v
    ensures Count(x, v, i) > Count(y, v, i)
    decreases i
  {
    if i == b + 1 { SameCounts(x, y, v, b); } else { CountFallsBehind(x, y, v, b, i - 1); }
  }

  lemma NotBelow(m: seq<int>, q: seq<int>, x: seq<int>, y: seq<int>, b: nat)
    requires Fits(m, q) && IsRebalanced(m, q, x) && IsRebalanced(m, q, y)
    requires b < |m| && x[..b] == y[..b]
    ensures !(x[b] < y[b])
  {
    if x[b] < y[b] {
      var v := x[b];
      forall j | 0 <= j < b ensures x[j] == y[j] {
        assert x[j] == x[..b][j] && y[j] == y[..b][j];
      }
      assert Moves(m, q, b);
      forall j | b < j < |m| && y[j] == v ensures x[j] == v {
        assert !Moves(m, q, j);
      }
      CountFallsBehind(x, y, v, b, |m|);
    }
  }

  lemma NoFirstDifference(m: seq<int>, q: seq<int>, x: seq<int>, y: seq<int>, b: nat)
    requires Fits(m, q) && IsRebalanced(m, q, x) && IsRebalanced(m, q, y)
    requires b < |m| && x[..b] == y[..b]
    ensures x[b] == y[b]
  {
    NotBelow(m, q, x, y, b);
    NotBelow(m, q, y, x, b);
  }

  lemma {:induction false} SamePrefix(m: seq<int>, q: seq<int>, x: seq<int>, y: seq<int>, i: nat)
    requires Fits(m, q) && IsRebalanced(m, q, x) && IsRebalanced(m, q, y) && i <= |m|
    ensures x[..i] == y[..i]
  {
    if i > 0 {
      SamePrefix(m, q, x, y, i - 1);
      NoFirstDifference(m, q, x, y, i - 1);
      ExtendPrefix(x, y, i);
    }
  }

  lemma ExtendPrefix(x: seq<int>, y: seq<int>, i: nat)
    requires 0 < i <= |x| && i <= |y| && x[..i - 1] == y[..i - 1] && x[i - 1] == y[i - 1]
    ensures x[..i] == y[..i]
  {
    assert x[..i] == x[..i - 1] + [x[i - 1]] && y[..i] == y[..i - 1] + [y[i - 1]];
  }

  /** The specification leaves one answer: quotas, surplus and hand-out order fix every bucket. */
  lemma RebalancedIsUnique(m: seq<int>, q: seq<int>, x: seq<int>, y: seq<int>)
    requires Fits(m, q) && IsRebalanced(m, q, x) && IsRebalanced(m, q, y)
    ensures x == y
  {
    SamePrefix(m, q, x, y, |m|);
    assert x == x[..|m|] && y == y[..|m|];
  }

  // ---------------------------------------------------------------- no smaller change exists

  /** How many of the first i buckets change their shard from m to x. */
  function Changed(m: seq<int>, x: seq<int>, i: nat): nat
    requires i <= |m| == |x|
  {
    if i == 0 then 0 else Changed(m, x, i - 1) + (if m[i - 1] != x[i - 1] then 1 else 0)
  }

  /** The buckets of m that stay where they are, others replaced by -1. */
  function Kept(m: seq<int>, x: seq<int>): (k: seq<int>)
    requires |m| == |x|
    ensures |k| == |m|
  {
    seq(|m|, b requires 0 <= b < |m| => if m[b] == x[b] then m[b] else -1)
  }

  lemma {:induction false} KeptPlusChanged(m: seq<int>, x: seq<int>, n: nat, i: nat)
    requires i <= |m| == |x| && IsMap(m, n)
    ensures Sum(Counts(Kept(m, x), n, i)) + Changed(m, x, i) == i
  {
    if i == 0 {
      SumOfZeros(Counts(Kept(m, x), n, 0));
    } else {
      KeptPlusChanged(m, x, n, i - 1);
      var before, after := Counts(Kept(m, x), n, i - 1), Counts(Kept(m, x), n, i);
      var v := m[i - 1];
      if v == x[i - 1] {
        assert after == before[v := before[v] + 1];
        SumUpdate(before, v, before[v] + 1);
      } else {
        assert after == before;
      }
    }
  }

  lemma {:induction false} KeptAtMost(m: seq<int>, x: seq<int>, s: nat, i: nat)
    requires i <= |m| == |x|
    ensures Count(Kept(m, x), s, i) <= Count(m, s, i) && Count(Kept(m, x), s, i) <= Count(x, s, i)
  {
    if i > 0 { KeptAtMost(m, x, s, i - 1); }
  }

  lemma {:induction false} KeptExactly(m: seq<int>, q: seq<int>, x: seq<int>, s: nat, i: nat)
    requires Fits(m, q) && i <= |m| == |x| && s < |q|
    requires forall b :: 0 <= b < |m| ==> (x[b] == m[b] <==> Count(m, m[b], b) < q[m[b]])
    ensures Count(Kept(m, x), s, i) == if Count(m, s, i) <= q[s] then Count(m, s, i) else q[s]
  {
    if i > 0 {
      KeptExactly(m, q, x, s, i - 1);
      KeptStep(m, x, s, i);
    }
  }

  lemma StaysIff(m: seq<int>, q: seq<int>, x: seq<int>, b: nat)
    requires Fits(m, q) && b < |m| && IsRebalanced(m, q, x)
    ensures x[b] == m[b] <==> Count(m, m[b], b) < q[m[b]]
  {
    assert x[b] != m[b] <==> Moves(m, q, b);
  }

  lemma KeptStep(m: seq<int>, x: seq<int>, s: nat, i: nat)
    requires 0 < i <= |m| == |x|
    ensures Count(m, s, i) == Count(m, s, i - 1) + if m[i - 1] == s then 1 else 0
    ensures Count(Kept(m, x), s, i) == Count(Kept(m, x), s, i - 1) + if m[i - 1] == s && x[i - 1] == s then 1 else 0
  {}

  /** Among all maps that meet the quotas, the redistribution changes the fewest buckets. */
  lemma FewestChanges(m: seq<int>, q: seq<int>, next: seq<int>, other: seq<int>)
    requires Fits(m, q) && IsRebalanced(m, q, next)
    requires |other| == |m| && Meets(other, q)
    ensures Changed(m, next, |m|) <= Changed(m, other, |m|)
  {
    var n := |m|;
    forall b | 0 <= b < |m| ensures next[b] == m[b] <==> Count(m, m[b], b) < q[m[b]] { StaysIff(m, q, next, b); }
    forall s | 0 <= s < |q|
      ensures Count(Kept(m, other), s, n) <= Count(Kept(m, next), s, n)
    {
      KeptAtMost(m, other, s, n);
      KeptExactly(m, q, next, s, n);
    }
    SumOrder(Counts(Kept(m, other), |q|, n), Counts(Kept(m, next), |q|, n));
    KeptPlusChanged(m, next, |q|, n);
    KeptPlusChanged(m, other, |q|, n);
  }

  // ---------------------------------------------------------------- growth

  /** No shard gains buckets unless it was below its quota. */
  lemma GainersWereBelow(m: seq<int>, q: seq<int>, next: seq<int>, b: nat)
    requires Fits(m, q) && IsRebalanced(m, q, next)
    requires b < |m| && next[b] != m[b]
    ensures Count(m, next[b], |m|) < q[next[b]]
  {
    var s := next[b];
    if Count(m, s, |m|) >= q[s] {
      KeptExactly(m, q, next, s, |m|);
      KeptMissesGain(m, next, s, b, |m|);
    }
  }

  lemma {:induction false} KeptMissesGain(m: seq<int>, x: seq<int>, s: nat, b: nat, i: nat)
    requires b < i <= |m| == |x| && x[b] == s != m[b]
    ensures Count(Kept(m, x), s, i) < Count(x, s, i)
  {
    if i - 1 == b { KeptAtMost(m, x, s, b); } else { KeptMissesGain(m, x, s, b, i - 1); }
  }

  /** A cluster of more shards never raises a shard's quota. */
  lemma QuotaFalls(buckets: nat, from: nat, to: nat, s: nat)
    requires 1 <= from <= to && s < from
    ensures Quota(buckets, to, s) <= Quota(buckets, from, s)
  {
    var p, q := buckets / from, buckets / to;
    assert buckets == p * from + buckets % from && buckets == q * to + buckets % to;
    MulOrder(from, to, q);
    if q > p { MulOrder(p + 1, q, from); }
  }

  lemma MulOrder(a: nat, b: nat, n: nat)
    requires a <= b
    ensures a * n <= b * n && n * a <= n * b
  {}

  /** All shards of a cluster of n hold their quota. */
  ghost predicate Balanced(m: seq<int>, n: nat)
    requires n >= 1
  {
    Meets(m, Quotas(|m|, n))
  }

  /**
   Growing a balanced map keeps it balanced, and a bucket leaves its shard only for a new one:
   old shards only lose buckets.
   */
  lemma GrowthOnlyMovesToNewShards(m: seq<int>, from: nat, to: nat, next: seq<int>, b: nat)
    requires 1 <= from <= to && Balanced(m, from) && IsMap(m, to)
    requires IsRebalanced(m, Quotas(|m|, to), next)
    requires b < |m|
    ensures Balanced(next, to)
    ensures next[b] == m[b] < from || from <= next[b] < to
  {
    if next[b] != m[b] && next[b] < from {
      GainersWereBelow(m, Quotas(|m|, to), next, b);
      QuotaFalls(|m|, from, to, next[b]);
    }
  }

  /** The round-robin map of a cluster. */
  function RoundRobin(buckets: nat, n: nat): (m: seq<int>)
    requires n >= 1
    ensures |m| == buckets && IsMap(m, n)
  {
    seq(buckets, b requires 0 <= b => b % n)
  }

  lemma DivisionStep(i: nat, n: nat)
    requires n >= 1
    ensures if i % n == n - 1 then (i + 1) / n == i / n + 1 && (i + 1) % n == 0
            else (i + 1) / n == i / n && (i + 1) % n == i % n + 1
  {
    var d, r := i / n, i % n;
    assert i == d * n + r;
    if r == n - 1 {
      assert i + 1 == (d + 1) * n + 0;
      DivisionIs(i + 1, n, d + 1, 0);
    } else {
      DivisionIs(i + 1, n, d, r + 1);
    }
  }

  lemma MulGap(a: int, b: int, n: nat)
    requires a < b
    ensures a * n + n <= b * n
  {
    var gap: nat := b - a - 1;
    assert b * n == (a + 1 + gap) * n == a * n + n + gap * n;
    assert gap * n >= 0;
  }

  lemma DivisionIs(x: int, n: nat, d: int, r: nat)
    requires n >= 1 && x == d * n + r && r < n
    ensures x / n == d && x % n == r
  {
    var e, t := x / n, x % n;
    assert x == e * n + t;
    if e > d { MulGap(d, e, n); } else if e < d { MulGap(e, d, n); }
  }

  lemma {:induction false} RoundRobinCount(buckets: nat, n: nat, s: nat, i: nat)
    requires n >= 1 && s < n && i <= buckets
    ensures Count(RoundRobin(buckets, n), s, i) == Quota(i, n, s)
  {
    if i > 0 {
      RoundRobinCount(buckets, n, s, i - 1);
      DivisionStep(i - 1, n);
    } else {
      DivisionIs(0, n, 0, 0);
    }
  }

  /** The default map is balanced. */
  lemma RoundRobinIsBalanced(buckets: nat, n: nat)
    requires n >= 1
    ensures Balanced(RoundRobin(buckets, n), n)
  {
    forall s | 0 <= s < n { RoundRobinCount(buckets, n, s, buckets); }
    var q := Quotas(buckets, n);
    forall s | 0 <= s < n ensures q[s] >= 0 {}
  }

  /** A chain of growths: cluster sizes that never fall, and the map after each of them. */
  ghost predicate IsGrowthChain(sizes: seq<nat>, maps: seq<seq<int>>) {
    |sizes| == |maps| >= 1 && sizes[0] >= 1 &&
    (forall k :: 0 < k < |sizes| ==> sizes[k - 1] <= sizes[k]) &&
    Balanced(maps[0], sizes[0]) &&
    (forall k :: 0 < k < |sizes| ==>
      1 <= sizes[k] && |maps[k - 1]| == |maps[k]| && IsMap(maps[k - 1], sizes[k]) &&
      IsRebalanced(maps[k - 1], Quotas(|maps[k - 1]|, sizes[k]), maps[k]))
  }

  /** Over any chain of growths from a balanced map, a bucket is on its first shard or on one added since. */
  lemma {:induction false} ChainOnlyMovesToNewShards(sizes: seq<nat>, maps: seq<seq<int>>, b: nat, k: nat)
    requires IsGrowthChain(sizes, maps) && k < |sizes| && b < |maps[0]|
    ensures |maps[k]| == |maps[0]| && sizes[0] <= sizes[k] && Balanced(maps[k], sizes[k])
    ensures maps[k][b] == maps[0][b] || maps[k][b] >= sizes[0]
  {
    if k > 0 {
      ChainOnlyMovesToNewShards(sizes, maps, b, k - 1);
      GrowthOnlyMovesToNewShards(maps[k - 1], sizes[k - 1], sizes[k], maps[k], b);
    }
  }
}
