/**
 Comparing placement schemes when the cluster grows (placement and simulateResharding in
 src/sharding/resharding.ts). Shares are kept as counts; percentages are not modelled.
 */
module Resharding {
  import opened Wrappers
  import opened Counting
  import R = Rebalance
  import H = HashRing
  import S = Sorting
  import N = RingNearest

  datatype Scheme = Modulo | VirtualBuckets | ConsistentHash

  /** Where a scheme puts a hash. */
  datatype Placement = ByModulo(n: nat) | ByMap(owners: seq<int>) | ByRing(points: seq<H.Point>) {
    predicate Usable() {
      match this
      case ByModulo(n) => n >= 1
      case ByMap(owners) => owners != []
      case ByRing(points) => points != [] && S.Sorted(points)
    }

    /** The closure the simulation calls. */
    function Closure(): (f: nat -> int)
      requires Usable()
      ensures forall h: nat :: f(h) == ShardFor(h)
    {
      (h: nat) requires Usable() => ShardFor(h)
    }

    function ShardFor(hash: nat): int
      requires Usable()
    {
      match this
      case ByModulo(n) => hash % n
      case ByMap(owners) => owners[hash % |owners|]
      case ByRing(points) => H.Owner(points, hash)
    }
  }

  /** Everything a simulation holds fixed. */
  datatype Setting = Setting(buckets: nat, vnodes: nat, position: H.Position)

  predicate Sound(st: Setting) { st.buckets >= 1 && st.vnodes >= 1 }

  /** The placement of a scheme; the previous bucket map, if there is one, is redistributed. */
  ghost predicate IsPlacement(st: Setting, scheme: Scheme, shardCount: nat, previous: Option<seq<int>>, p: Placement)
    requires shardCount >= 1
  {
    match scheme
    case Modulo => p == ByModulo(shardCount)
    case VirtualBuckets =>
      p.ByMap? &&
      (match previous
       case None => p.owners == R.RoundRobin(st.buckets, shardCount)
       case Some(m) =>
         R.Fits(m, R.Quotas(|m|, shardCount)) && R.IsRebalanced(m, R.Quotas(|m|, shardCount), p.owners))
    case ConsistentHash => p == ByRing(H.Ring(shardCount, st.vnodes, st.position))
  }

  method MakePlacement(st: Setting, scheme: Scheme, shardCount: nat, previous: Option<seq<int>>) returns (p: Placement)
    requires Sound(st) && shardCount >= 1
    requires previous.Some? ==> previous.value != [] && R.IsMap(previous.value, shardCount)
    ensures p.Usable() && IsPlacement(st, scheme, shardCount, previous, p)
  {
    match scheme {
      case Modulo => p := ByModulo(shardCount);
      case VirtualBuckets =>
        match previous {
          case None => p := ByMap(R.RoundRobin(st.buckets, shardCount));
          case Some(m) =>
            var owners := R.RebalanceBuckets(m, shardCount);
            p := ByMap(owners);
        }
      case ConsistentHash =>
        H.RingOwns(shardCount, st.vnodes, st.position, 0);
        var ring := new H.HashRing(shardCount, st.vnodes, st.position);
        p := ByRing(ring.points);
    }
  }

  /** From before to after, every key stays or goes to a shard added by the growth. */
  ghost predicate OnlyToNew(before: nat -> int, after: nat -> int, from: nat, to: nat) {
    forall h: nat :: 0 <= before(h) < from && (after(h) == before(h) || from <= after(h)) && after(h) < to
  }

  lemma GrowthPlacements(st: Setting, scheme: Scheme, from: nat, to: nat, before: Placement, after: Placement)
    requires Sound(st) && 1 <= from <= to && scheme != Modulo
    requires before.Usable() && after.Usable()
    requires IsPlacement(st, scheme, from, None, before)
    requires IsPlacement(st, scheme, to, if before.ByMap? then Some(before.owners) else None, after)
    ensures OnlyToNew(before.Closure(), after.Closure(), from, to)
  {
    forall h: nat
      ensures 0 <= before.ShardFor(h) < from
      ensures after.ShardFor(h) == before.ShardFor(h) || from <= after.ShardFor(h)
      ensures after.ShardFor(h) < to
    {
      if scheme == VirtualBuckets {
        R.RoundRobinIsBalanced(st.buckets, from);
        assert R.IsMap(before.owners, from);
        R.GrowthOnlyMovesToNewShards(before.owners, from, to, after.owners, h % st.buckets);
      } else {
        H.RingOwns(from, st.vnodes, st.position, h);
        H.GrowthOnlyMovesToNewShards(from, to, st.vnodes, st.position, h);
      }
    }
  }

  lemma ModuloRange(n: nat, h: nat)
    requires n >= 1
    ensures 0 <= h % n < n
  {}

  /** The shards a placement gives a list of hashes. */
  function Targets(place: nat -> int, hashes: seq<nat>): (r: seq<int>)
    ensures |r| == |hashes| && forall i :: 0 <= i < |hashes| ==> r[i] == place(hashes[i])
  {
    seq(|hashes|, i requires 0 <= i < |hashes| => place(hashes[i]))
  }

  /**
   The counting loop. load[s] is the number of keys on shard s and moved the number of keys whose
   shard changed; when keys only move to new shards, moved is the load of the new shards.
   */
  method CountMoves(hashes: seq<nat>, before: nat -> int, after: nat -> int, from: nat, to: nat)
    returns (moved: nat, load: seq<int>)
    requires 1 <= from <= to && forall h: nat :: 0 <= after(h) < to
    ensures load == Counts(Targets(after, hashes), to, |hashes|)
    ensures moved == R.Changed(Targets(before, hashes), Targets(after, hashes), |hashes|)
    ensures Sum(load) == |hashes|
    ensures OnlyToNew(before, after, from, to) ==> moved == Sum(load[from..])
  {
    var counters := new int[to](_ => 0);
    moved := 0;
    TallyNothing(hashes, before, after, from, to, counters[..]);
    var i := 0;
    while i < |hashes|
      invariant 0 <= i <= |hashes|
      invariant Tallied(hashes, before, after, from, to, i, moved, counters[..])
    {
      var target := after(hashes[i]);
      TallyOne(hashes, before, after, from, to, i, moved, counters[..]);
      AddTo(counters, target, 1);
      if before(hashes[i]) != target { moved := moved + 1; }
      i := i + 1;
    }
    CountsAddUp(Targets(after, hashes), to, |hashes|);
    load := counters[..];
  }

  /** The counters after the first i keys. */
  ghost predicate Tallied(hashes: seq<nat>, before: nat -> int, after: nat -> int, from: nat, to: nat, i: nat, moved: nat, load: seq<int>)
    requires from <= to && i <= |hashes|
  {
    load == Counts(Targets(after, hashes), to, i) &&
    moved == R.Changed(Targets(before, hashes), Targets(after, hashes), i) &&
    (OnlyToNew(before, after, from, to) ==> moved == Sum(load[from..]))
  }

  lemma TallyNothing(hashes: seq<nat>, before: nat -> int, after: nat -> int, from: nat, to: nat, load: seq<int>)
    requires from <= to == |load| && forall s :: 0 <= s < to ==> load[s] == 0
    ensures Tallied(hashes, before, after, from, to, 0, 0, load)
  {
    SumOfZeros(load[from..]);
    assert load == Counts(Targets(after, hashes), to, 0);
  }

  lemma TallyOne(hashes: seq<nat>, before: nat -> int, after: nat -> int, from: nat, to: nat, i: nat, moved: nat, load: seq<int>)
    requires from <= to && i < |hashes| && 0 <= after(hashes[i]) < to
    requires Tallied(hashes, before, after, from, to, i, moved, load)
    ensures var target := after(hashes[i]);
      |load| == to &&
      Tallied(hashes, before, after, from, to, i + 1, if before(hashes[i]) != target then moved + 1 else moved,
        load[target := load[target] + 1])
  {
    CountOneMore(Targets(after, hashes), load, to, i);
    NewLoad(before, after, from, to, hashes[i], load, moved);
  }

  lemma NewLoad(before: nat -> int, after: nat -> int, from: nat, to: nat, hash: nat, was: seq<int>, moved: nat)
    requires from <= to == |was| && 0 <= after(hash) < to
    requires OnlyToNew(before, after, from, to) ==> moved == Sum(was[from..])
    ensures var load := was[after(hash) := was[after(hash)] + 1];
      OnlyToNew(before, after, from, to) ==> Sum(load[from..]) == moved + if before(hash) != after(hash) then 1 else 0
  {
    TailOneMore(was, from, after(hash));
  }

  lemma CountOneMore(targets: seq<int>, was: seq<int>, to: nat, i: nat)
    requires i < |targets| && 0 <= targets[i] < to && was == Counts(targets, to, i)
    ensures Counts(targets, to, i + 1) == was[targets[i] := was[targets[i]] + 1]
  {}

  lemma TailOneMore(was: seq<int>, from: nat, target: nat)
    requires from <= |was| && target < |was|
    ensures Sum(was[target := was[target] + 1][from..]) == Sum(was[from..]) + if target >= from then 1 else 0
  {
    var now := was[target := was[target] + 1];
    if target >= from {
      assert now[from..] == was[from..][target - from := was[target] + 1];
      SumUpdate(was[from..], target - from, was[target] + 1);
    } else {
      assert now[from..] == was[from..];
    }
  }

  datatype Row = Row(scheme: Scheme, from: nat, to: nat, moved: nat, load: seq<int>)

  /** What a row of the comparison reports. */
  ghost predicate Reports(row: Row, keys: nat) {
    |row.load| == row.to && row.from <= row.to && Sum(row.load) == keys &&
    (row.scheme != Modulo ==> row.moved == Sum(row.load[row.from..]))
  }

  // ---------------------------------------------------------------- what a row counts, told without the placements

  /** Where a key starts, in a cluster of n shards. */
  ghost predicate Starts(st: Setting, scheme: Scheme, n: nat, hash: nat, s: nat)
    requires Sound(st) && n >= 1
  {
    match scheme
    case Modulo => s == hash % n
    case VirtualBuckets => s == (hash % st.buckets) % n
    case ConsistentHash => N.OwnsByDistance(n, st.vnodes, st.position, hash, s)
  }

  /** Where a key ends up, with this bucket map. */
  ghost predicate Ends(st: Setting, scheme: Scheme, owners: seq<int>, n: nat, hash: nat, s: nat)
    requires Sound(st) && n >= 1 && |owners| == st.buckets
  {
    match scheme
    case Modulo => s == hash % n
    case VirtualBuckets => s == owners[hash % st.buckets]
    case ConsistentHash => N.OwnsByDistance(n, st.vnodes, st.position, hash, s)
  }

  /** The default map of one cluster, redistributed over another. */
  ghost predicate Regrown(st: Setting, from: nat, to: nat, owners: seq<int>)
    requires Sound(st) && 1 <= from <= to
  {
    var default_ := seq(st.buckets, b requires 0 <= b => b % from);
    |owners| == st.buckets && R.Fits(default_, R.Quotas(st.buckets, to)) && R.IsRebalanced(default_, R.Quotas(st.buckets, to), owners)
  }

  ghost predicate Stays(st: Setting, scheme: Scheme, owners: seq<int>, from: nat, to: nat, hash: nat)
    requires Sound(st) && from >= 1 && to >= 1 && |owners| == st.buckets
  {
    exists s: nat :: Starts(st, scheme, from, hash, s) && Ends(st, scheme, owners, to, hash, s)
  }

  /** The load of each shard is the number of keys that end up there, and moved the number that do not stay. */
  ghost predicate CountsKeys(st: Setting, row: Row, hashes: seq<nat>, owners: seq<int>)
    requires Sound(st) && 1 <= row.from <= row.to && |owners| == st.buckets
  {
    |row.load| == row.to &&
    (forall s: nat :: s < row.to ==> row.load[s] == |set i | 0 <= i < |hashes| && Ends(st, row.scheme, owners, row.to, hashes[i], s)|) &&
    row.moved == |set i | 0 <= i < |hashes| && !Stays(st, row.scheme, owners, row.from, row.to, hashes[i])|
  }

  ghost predicate RowExact(st: Setting, row: Row, hashes: seq<nat>)
    requires Sound(st) && 1 <= row.from <= row.to
  {
    if row.scheme == VirtualBuckets
    then exists owners :: Regrown(st, row.from, row.to, owners) && CountsKeys(st, row, hashes, owners)
    else CountsKeys(st, row, hashes, NoMap(st))
  }

  /** The schemes without buckets use no map. */
  function NoMap(st: Setting): seq<int> { seq(st.buckets, _ => 0) }

  /** Hashes and positions are 32-bit words. */
  ghost predicate Words(st: Setting, hashes: seq<nat>) {
    (forall i :: 0 <= i < |hashes| ==> N.OnCircle(hashes[i])) && forall s, v :: N.OnCircle(st.position(s, v))
  }

  lemma {:induction false} ChangedIsSize(m: seq<int>, x: seq<int>, i: nat)
    requires i <= |m| == |x|
    ensures R.Changed(m, x, i) == |set k | 0 <= k < i && m[k] != x[k]|
  {
    var now := set k | 0 <= k < i && m[k] != x[k];
    if i > 0 {
      ChangedIsSize(m, x, i - 1);
      var before := set k | 0 <= k < i - 1 && m[k] != x[k];
      assert now == if m[i - 1] != x[i - 1] then before + {i - 1} else before;
    } else {
      assert now == {};
    }
  }

  lemma StartsExactly(st: Setting, scheme: Scheme, n: nat, p: Placement, hash: nat, s: nat)
    requires Sound(st) && n >= 1 && p.Usable() && IsPlacement(st, scheme, n, None, p)
    requires N.OnCircle(hash) && forall t, v :: N.OnCircle(st.position(t, v))
    ensures p.ShardFor(hash) == s <==> Starts(st, scheme, n, hash, s)
  {
    if scheme == ConsistentHash { N.OwnerExactly(n, st.vnodes, st.position, hash, s); }
  }

  /** The placement the simulation uses, with this bucket map. */
  ghost predicate PlacesBy(st: Setting, scheme: Scheme, owners: seq<int>, n: nat, p: Placement) {
    match scheme
    case Modulo => p == ByModulo(n)
    case VirtualBuckets => p == ByMap(owners)
    case ConsistentHash => p == ByRing(H.Ring(n, st.vnodes, st.position))
  }

  lemma EndsExactly(st: Setting, scheme: Scheme, owners: seq<int>, n: nat, p: Placement, hash: nat, s: nat)
    requires Sound(st) && n >= 1 && p.Usable() && |owners| == st.buckets
    requires PlacesBy(st, scheme, owners, n, p)
    requires N.OnCircle(hash) && forall t, v :: N.OnCircle(st.position(t, v))
    ensures p.ShardFor(hash) == s <==> Ends(st, scheme, owners, n, hash, s)
  {
    if scheme == ConsistentHash { N.OwnerExactly(n, st.vnodes, st.position, hash, s); }
  }

  lemma RowIsExact(st: Setting, row: Row, hashes: seq<nat>, owners: seq<int>, before: Placement, after: Placement)
    requires Sound(st) && 1 <= row.from <= row.to && Words(st, hashes) && before.Usable() && after.Usable()
    requires IsPlacement(st, row.scheme, row.from, None, before) && |owners| == st.buckets
    requires PlacesBy(st, row.scheme, owners, row.to, after)
    requires row.load == Counts(Targets(after.Closure(), hashes), row.to, |hashes|)
    requires row.moved == R.Changed(Targets(before.Closure(), hashes), Targets(after.Closure(), hashes), |hashes|)
    requires forall h: nat :: 0 <= after.ShardFor(h)
    ensures CountsKeys(st, row, hashes, owners)
  {
    forall s: nat | s < row.to
      ensures row.load[s] == |set i | 0 <= i < |hashes| && Ends(st, row.scheme, owners, row.to, hashes[i], s)|
    {
      LoadIsExact(st, row, hashes, owners, after, s);
    }
    MovedIsExact(st, row, hashes, owners, before, after);
  }

  lemma LoadIsExact(st: Setting, row: Row, hashes: seq<nat>, owners: seq<int>, after: Placement, s: nat)
    requires Sound(st) && 1 <= row.from <= row.to && Words(st, hashes) && after.Usable() && |owners| == st.buckets && s < row.to
    requires PlacesBy(st, row.scheme, owners, row.to, after)
    requires row.load == Counts(Targets(after.Closure(), hashes), row.to, |hashes|)
    ensures row.load[s] == |set i | 0 <= i < |hashes| && Ends(st, row.scheme, owners, row.to, hashes[i], s)|
  {
    var targets := Targets(after.Closure(), hashes);
    CountIsSize(targets, s, |hashes|);
    forall i | 0 <= i < |hashes| ensures targets[i] == s <==> Ends(st, row.scheme, owners, row.to, hashes[i], s) {
      EndsExactly(st, row.scheme, owners, row.to, after, hashes[i], s);
    }
    assert (set i | 0 <= i < |hashes| && targets[i] == s) ==
      set i | 0 <= i < |hashes| && Ends(st, row.scheme, owners, row.to, hashes[i], s);
  }

  lemma MovedIsExact(st: Setting, row: Row, hashes: seq<nat>, owners: seq<int>, before: Placement, after: Placement)
    requires Sound(st) && 1 <= row.from <= row.to && Words(st, hashes) && before.Usable() && after.Usable()
    requires IsPlacement(st, row.scheme, row.from, None, before) && |owners| == st.buckets
    requires PlacesBy(st, row.scheme, owners, row.to, after)
    requires row.moved == R.Changed(Targets(before.Closure(), hashes), Targets(after.Closure(), hashes), |hashes|)
    requires forall h: nat :: 0 <= after.ShardFor(h)
    ensures row.moved == |set i | 0 <= i < |hashes| && !Stays(st, row.scheme, owners, row.from, row.to, hashes[i])|
  {
    var sources, targets := Targets(before.Closure(), hashes), Targets(after.Closure(), hashes);
    forall i | 0 <= i < |hashes| ensures sources[i] == targets[i] <==> Stays(st, row.scheme, owners, row.from, row.to, hashes[i]) {
      assert N.OnCircle(hashes[i]);
      StaysExactly(st, row, owners, before, after, hashes[i]);
    }
    MovedIsSize(st, row, hashes, owners, sources, targets);
  }

  lemma MovedIsSize(st: Setting, row: Row, hashes: seq<nat>, owners: seq<int>, sources: seq<int>, targets: seq<int>)
    requires Sound(st) && 1 <= row.from <= row.to && |owners| == st.buckets && |sources| == |targets| == |hashes|
    requires forall i :: 0 <= i < |hashes| ==>
      (sources[i] == targets[i] <==> Stays(st, row.scheme, owners, row.from, row.to, hashes[i]))
    ensures R.Changed(sources, targets, |hashes|) ==
      |set i | 0 <= i < |hashes| && !Stays(st, row.scheme, owners, row.from, row.to, hashes[i])|
  {
    ChangedIsSize(sources, targets, |hashes|);
    assert (set i | 0 <= i < |hashes| && sources[i] != targets[i]) ==
      set i | 0 <= i < |hashes| && !Stays(st, row.scheme, owners, row.from, row.to, hashes[i]);
  }

  lemma StaysExactly(st: Setting, row: Row, owners: seq<int>, before: Placement, after: Placement, hash: nat)
    requires Sound(st) && 1 <= row.from <= row.to && before.Usable() && after.Usable() && |owners| == st.buckets
    requires IsPlacement(st, row.scheme, row.from, None, before)
    requires PlacesBy(st, row.scheme, owners, row.to, after)
    requires N.OnCircle(hash) && (forall t, v :: N.OnCircle(st.position(t, v))) && 0 <= after.ShardFor(hash)
    ensures before.ShardFor(hash) == after.ShardFor(hash) <==> Stays(st, row.scheme, owners, row.from, row.to, hash)
  {
    var t: nat := after.ShardFor(hash);
    StartsExactly(st, row.scheme, row.from, before, hash, t);
    EndsExactly(st, row.scheme, owners, row.to, after, hash, t);
    if s: nat :| Starts(st, row.scheme, row.from, hash, s) && Ends(st, row.scheme, owners, row.to, hash, s) {
      EndsExactly(st, row.scheme, owners, row.to, after, hash, s);
    }
  }

  // ---------------------------------------------------------------- virtual buckets, told by the row

  predicate Consecutive(hashes: seq<nat>, a: nat, n: nat) { |hashes| == n && forall i :: 0 <= i < n ==> hashes[i] == a + i }

  /** As many consecutive keys as there are buckets load every shard with exactly its quota. */
  lemma ConsecutiveKeysFillQuotas(st: Setting, row: Row, hashes: seq<nat>, a: nat, s: nat)
    requires Sound(st) && 1 <= row.from <= row.to && row.scheme == VirtualBuckets && s < row.to
    requires Consecutive(hashes, a, st.buckets) && RowExact(st, row, hashes)
    ensures |row.load| == row.to && row.load[s] == R.Quota(st.buckets, row.to, s)
  {
    var owners :| Regrown(st, row.from, row.to, owners) && CountsKeys(st, row, hashes, owners);
    LoadIsQuota(st, row, hashes, owners, a, s);
  }

  lemma LoadIsQuota(st: Setting, row: Row, hashes: seq<nat>, owners: seq<int>, a: nat, s: nat)
    requires Sound(st) && 1 <= row.from <= row.to && row.scheme == VirtualBuckets && s < row.to
    requires Consecutive(hashes, a, st.buckets) && Regrown(st, row.from, row.to, owners)
    requires |row.load| == row.to && row.load[s] == |set i | 0 <= i < |hashes| && Ends(st, row.scheme, owners, row.to, hashes[i], s)|
    ensures row.load[s] == R.Quota(st.buckets, row.to, s)
  {
    var keys := set i | 0 <= i < |hashes| && Ends(st, row.scheme, owners, row.to, hashes[i], s);
    ShiftedKeys(st, row, hashes, owners, a, s, keys);
    KeysFillQuota(st, row, owners, a, s, keys);
  }

  lemma ShiftedKeys(st: Setting, row: Row, hashes: seq<nat>, owners: seq<int>, a: nat, s: nat, keys: set<int>)
    requires Sound(st) && row.to >= 1 && |owners| == st.buckets && Consecutive(hashes, a, st.buckets)
    requires keys == set i | 0 <= i < |hashes| && Ends(st, row.scheme, owners, row.to, hashes[i], s)
    ensures forall i :: i in keys <==> 0 <= i < st.buckets && Ends(st, row.scheme, owners, row.to, a + i, s)
  {}

  lemma KeysFillQuota(st: Setting, row: Row, owners: seq<int>, a: nat, s: nat, keys: set<int>)
    requires Sound(st) && 1 <= row.from <= row.to && row.scheme == VirtualBuckets && s < row.to
    requires Regrown(st, row.from, row.to, owners)
    requires forall i :: i in keys <==> 0 <= i < st.buckets && Ends(st, row.scheme, owners, row.to, a + i, s)
    ensures |keys| == R.Quota(st.buckets, row.to, s)
  {
    var held := set b | 0 <= b < st.buckets && owners[b] == s;
    RotationIsOneToOne(st, row, owners, a, s, keys, held);
    HeldIsQuota(st, row.from, row.to, owners, s);
  }

  lemma HeldIsQuota(st: Setting, from: nat, to: nat, owners: seq<int>, s: nat)
    requires Sound(st) && 1 <= from <= to && s < to && Regrown(st, from, to, owners)
    ensures |set b | 0 <= b < st.buckets && owners[b] == s| == R.Quota(st.buckets, to, s)
  {
    CountIsSize(owners, s, st.buckets);
  }

  /** The bucket of the i-th of consecutive keys, and the key of a bucket. */
  function Turn(n: nat, a: int): int -> int
    requires n >= 1
  {
    i => (a + i) % n
  }

  function Back(n: nat, a: int): int -> int
    requires n >= 1
  {
    b => (b - a) % n
  }

  lemma RotationIsOneToOne(st: Setting, row: Row, owners: seq<int>, a: nat, s: nat, keys: set<int>, held: set<int>)
    requires Sound(st) && row.to >= 1 && row.scheme == VirtualBuckets && |owners| == st.buckets
    requires forall i :: i in keys <==> 0 <= i < st.buckets && Ends(st, row.scheme, owners, row.to, a + i, s)
    requires forall b :: b in held <==> 0 <= b < st.buckets && owners[b] == s
    ensures |keys| == |held|
  {
    var f, g := Turn(st.buckets, a), Back(st.buckets, a);
    forall i | i in keys ensures f(i) in held && g(f(i)) == i { KeyTurns(st, row, owners, a, s, i); }
    forall b | b in held ensures g(b) in keys && f(g(b)) == b { BucketTurnsBack(st, row, owners, a, s, b); }
    SameSize(keys, held, f, g);
  }

  lemma KeyTurns(st: Setting, row: Row, owners: seq<int>, a: nat, s: nat, i: int)
    requires Sound(st) && row.to >= 1 && row.scheme == VirtualBuckets && |owners| == st.buckets
    requires 0 <= i < st.buckets && Ends(st, row.scheme, owners, row.to, a + i, s)
    ensures var b := Turn(st.buckets, a)(i); 0 <= b < st.buckets && owners[b] == s && Back(st.buckets, a)(b) == i
  {
    Unrotate(st.buckets, a, i);
  }

  lemma BucketTurnsBack(st: Setting, row: Row, owners: seq<int>, a: nat, s: nat, b: int)
    requires Sound(st) && row.to >= 1 && row.scheme == VirtualBuckets && |owners| == st.buckets
    requires 0 <= b < st.buckets && owners[b] == s
    ensures var i := Back(st.buckets, a)(b);
      0 <= i < st.buckets && Ends(st, row.scheme, owners, row.to, a + i, s) && Turn(st.buckets, a)(i) == b
  {
    Rotate(st.buckets, a, b);
  }

  lemma Rotate(n: nat, a: int, b: int)
    requires n >= 1 && 0 <= b < n
    ensures (a + (b - a) % n) % n == b
  {
    var q := (b - a) / n;
    assert a + (b - a) % n == b + (-q) * n;
    R.DivisionIs(a + (b - a) % n, n, -q, b);
  }

  lemma Unrotate(n: nat, a: int, i: int)
    requires n >= 1 && 0 <= i < n
    ensures ((a + i) % n - a) % n == i
  {
    var q := (a + i) / n;
    assert (a + i) % n - a == i + (-q) * n;
    R.DivisionIs((a + i) % n - a, n, -q, i);
  }

  /** Two keys of one bucket are on one shard: it carries them both. */
  lemma OneBucketOneShard(st: Setting, row: Row, h: nat, g: nat)
    requires Sound(st) && 1 <= row.from <= row.to && row.scheme == VirtualBuckets && h % st.buckets == g % st.buckets
    requires RowExact(st, row, [h, g])
    ensures |row.load| == row.to && exists s: nat :: s < row.to && row.load[s] == 2
  {
    var owners :| Regrown(st, row.from, row.to, owners) && CountsKeys(st, row, [h, g], owners);
    var owner := owners[h % st.buckets];
    var s: nat := owner;
    assert (set i | 0 <= i < 2 && Ends(st, row.scheme, owners, row.to, [h, g][i], s)) == {0, 1};
    assert s < row.to && row.load[s] == 2;
  }

  /** A key starts on the shard of its bucket's number: it moves exactly when that is not where it ends up. */
  lemma StartsOnItsBucketsNumber(st: Setting, row: Row, h: nat)
    requires Sound(st) && 1 <= row.from <= row.to && row.scheme == VirtualBuckets && RowExact(st, row, [h])
    ensures |row.load| == row.to && (row.moved == 0 <==> row.load[(h % st.buckets) % row.from] == 1)
  {
    var owners :| Regrown(st, row.from, row.to, owners) && CountsKeys(st, row, [h], owners);
    var s: nat := (h % st.buckets) % row.from;
    assert Starts(st, row.scheme, row.from, h, s);
    assert Stays(st, row.scheme, owners, row.from, row.to, h) <==> Ends(st, row.scheme, owners, row.to, h, s);
    assert (set i | 0 <= i < 1 && Ends(st, row.scheme, owners, row.to, [h][i], s)) ==
      if Ends(st, row.scheme, owners, row.to, h, s) then {0} else {};
    assert (set i | 0 <= i < 1 && !Stays(st, row.scheme, owners, row.from, row.to, [h][i])) ==
      if Ends(st, row.scheme, owners, row.to, h, s) then {} else {0};
  }

  /** One transition under one scheme. */
  method SimulateOne(st: Setting, scheme: Scheme, from: nat, to: nat, hashes: seq<nat>) returns (row: Row)
    requires Sound(st) && 1 <= from <= to
    ensures row.scheme == scheme && row.from == from && row.to == to && Reports(row, |hashes|)
    ensures Words(st, hashes) ==> RowExact(st, row, hashes)
    ensures scheme == Modulo ==>
      row.moved == R.Changed(Targets(h => h % from, hashes), Targets(h => h % to, hashes), |hashes|)
  {
    var before := MakePlacement(st, scheme, from, None);
    var previous := None;
    match before {
      case ByMap(owners) => previous := Some(owners);
      case _ =>
    }
    var after := MakePlacement(st, scheme, to, previous);
    if scheme != Modulo {
      GrowthPlacements(st, scheme, from, to, before, after);
    } else {
      forall h: nat ensures 0 <= after.ShardFor(h) < to { ModuloRange(to, h); }
    }
    var moved, load := CountMoves(hashes, before.Closure(), after.Closure(), from, to);
    row := Row(scheme, from, to, moved, load);
    ghost var owners := if after.ByMap? then after.owners else NoMap(st);
    assert R.RoundRobin(st.buckets, from) == seq(st.buckets, b requires 0 <= b => b % from);
    if Words(st, hashes) {
      RowIsExact(st, row, hashes, owners, before, after);
      assert scheme == VirtualBuckets ==> Regrown(st, from, to, owners) && CountsKeys(st, row, hashes, owners);
    }
    if scheme == Modulo {
      assert Targets(before.Closure(), hashes) == Targets(h => h % from, hashes);
      assert Targets(after.Closure(), hashes) == Targets(h => h % to, hashes);
    }
  }

  /** The row of a transition under a scheme: its sums, and the keys it counts. */
  ghost predicate IsRow(st: Setting, transition: (nat, nat), scheme: Scheme, hashes: seq<nat>, row: Row)
    requires Sound(st)
  {
    row.scheme == scheme && (row.from, row.to) == transition && 1 <= row.from && Reports(row, |hashes|) &&
    (Words(st, hashes) ==> RowExact(st, row, hashes))
  }

  method SimulateRow(st: Setting, transition: (nat, nat), scheme: Scheme, hashes: seq<nat>) returns (row: Row)
    requires Sound(st) && 1 <= transition.0 <= transition.1
    ensures IsRow(st, transition, scheme, hashes, row)
  {
    row := SimulateOne(st, scheme, transition.0, transition.1, hashes);
  }

  method SimulateResharding(st: Setting, transitions: seq<(nat, nat)>, hashes: seq<nat>) returns (rows: seq<Row>)
    requires Sound(st)
    requires forall t :: 0 <= t < |transitions| ==> 1 <= transitions[t].0 <= transitions[t].1
    ensures |rows| == 3 * |transitions|
    ensures forall k :: 0 <= k < |rows| ==>
      IsRow(st, transitions[k / 3], [Modulo, VirtualBuckets, ConsistentHash][k % 3], hashes, rows[k])
  {
    rows := [];
    var t := 0;
    while t < |transitions|
      invariant 0 <= t <= |transitions|
      invariant |rows| == 3 * t
      invariant forall k :: 0 <= k < |rows| ==>
        IsRow(st, transitions[k / 3], [Modulo, VirtualBuckets, ConsistentHash][k % 3], hashes, rows[k])
    {
      var a := SimulateRow(st, transitions[t], Modulo, hashes);
      var b := SimulateRow(st, transitions[t], VirtualBuckets, hashes);
      var c := SimulateRow(st, transitions[t], ConsistentHash, hashes);
      rows := rows + [a, b, c];
      t := t + 1;
    }
  }

  // ---------------------------------------------------------------- the modulo scheme

  predicate CommonMultiple(x: nat, n: nat, m: nat)
    requires n >= 1 && m >= 1
  {
    x % n == 0 && x % m == 0
  }

  predicate IsLcm(l: nat, n: nat, m: nat)
    requires n >= 1 && m >= 1
  {
    l >= 1 && CommonMultiple(l, n, m) && forall k :: 0 < k < l ==> !CommonMultiple(k, n, m)
  }

  lemma MultipleMod(d: nat, n: nat)
    requires n >= 1
    ensures (d * n) % n == 0
  {
    R.DivisionIs(d * n, n, d, 0);
  }

  /** Adding or removing a multiple of n does not change the remainder. */
  lemma ShiftMod(x: nat, y: nat, n: nat)
    requires n >= 1 && y % n == 0
    ensures (x + y) % n == x % n
  {
    var d, e := x / n, y / n;
    assert x == d * n + x % n && y == e * n;
    assert x + y == (d + e) * n + x % n;
    R.DivisionIs(x + y, n, d + e, x % n);
  }

  lemma {:induction false} MultiplesStay(l: nat, q: nat, n: nat)
    requires n >= 1 && l % n == 0
    ensures (q * l) % n == 0
  {
    if q == 0 {
      MultipleMod(0, n);
    } else {
      MultiplesStay(l, q - 1, n);
      assert q * l == (q - 1) * l + l;
      ShiftMod((q - 1) * l, l, n);
    }
  }

  /** The remainder of h by n or m depends only on the remainder of h by their least common multiple. */
  lemma ReduceByLcm(h: nat, l: nat, n: nat)
    requires n >= 1 && l >= 1 && l % n == 0
    ensures h % n == (h % l) % n
  {
    var q := h / l;
    assert h == q * l + h % l;
    MultiplesStay(l, q, n);
    ShiftMod(h % l, q * l, n);
    assert h % l + q * l == h;
  }

  lemma LcmIsLarge(l: nat, n: nat, m: nat)
    requires n >= 1 && m >= 1 && IsLcm(l, n, m)
    ensures n <= l && m <= l
  {
    if l < n { R.DivisionIs(l, n, 0, l); }
    if l < m { R.DivisionIs(l, m, 0, l); }
  }

  /** Equal remainders by n and m leave a common multiple once taken off. */
  lemma EqualRemainders(r: nat, n: nat, m: nat)
    requires n >= 1 && m >= 1 && r % n == r % m
    ensures var x := r - r % n; 0 <= x && CommonMultiple(x, n, m)
  {
    MultipleMod(r / n, n);
    MultipleMod(r / m, m);
    assert r - r % n == (r / n) * n && r - r % m == (r / m) * m;
  }

  /** Under modulo placement a hash stays put from n to m shards exactly when its remainder by lcm(n, m) is below both. */
  lemma ModuloStaysExactly(h: nat, n: nat, m: nat, l: nat)
    requires n >= 1 && m >= 1 && IsLcm(l, n, m)
    ensures h % n == h % m <==> h % l < (if n < m then n else m)
  {
    ReduceByLcm(h, l, n);
    ReduceByLcm(h, l, m);
    ModuloRange(l, h);
    BelowBothStays(h % l, n, m);
    NotBelowBothMoves(h % l, n, m, l);
  }

  lemma BelowBothStays(r: nat, n: nat, m: nat)
    requires n >= 1 && m >= 1
    ensures r < n && r < m ==> r % n == r % m
  {
    if r < n && r < m {
      R.DivisionIs(r, n, 0, r);
      R.DivisionIs(r, m, 0, r);
    }
  }

  lemma NotBelowBothMoves(r: nat, n: nat, m: nat, l: nat)
    requires n >= 1 && m >= 1 && IsLcm(l, n, m) && r < l
    ensures r >= n || r >= m ==> r % n != r % m
  {
    if (r >= n || r >= m) && r % n == r % m {
      EqualRemainders(r, n, m);
      ModuloRange(n, r);
      ModuloRange(m, r);
    }
  }

  /** How many of len consecutive hashes from a stay put. */
  function Stayers(a: nat, len: nat, n: nat, m: nat): nat
    requires n >= 1 && m >= 1
  {
    if len == 0 then 0
    else Stayers(a, len - 1, n, m) + (if (a + len - 1) % n == (a + len - 1) % m then 1 else 0)
  }

  lemma {:induction false} StayersShift(a: nat, len: nat, n: nat, m: nat)
    requires n >= 1 && m >= 1
    ensures Stayers(a, len + 1, n, m) == (if a % n == a % m then 1 else 0) + Stayers(a + 1, len, n, m)
  {
    if len > 0 {
      StayersShift(a, len - 1, n, m);
      assert a + 1 + len - 1 == a + len;
    }
  }

  lemma {:induction false} FirstStayers(len: nat, n: nat, m: nat, l: nat)
    requires n >= 1 && m >= 1 && IsLcm(l, n, m) && len <= l
    ensures var low := if n < m then n else m; Stayers(0, len, n, m) == if len <= low then len else low
  {
    if len > 0 {
      FirstStayers(len - 1, n, m, l);
      ModuloStaysExactly(len - 1, n, m, l);
      R.DivisionIs(len - 1, l, 0, len - 1);
    }
  }

  /** Any lcm(n, m) consecutive hashes contain exactly min(n, m) that stay. */
  lemma {:induction false} StayersPerPeriod(a: nat, n: nat, m: nat, l: nat)
    requires n >= 1 && m >= 1 && IsLcm(l, n, m)
    ensures Stayers(a, l, n, m) == if n < m then n else m
  {
    LcmIsLarge(l, n, m);
    if a == 0 {
      FirstStayers(l, n, m, l);
    } else {
      StayersPerPeriod(a - 1, n, m, l);
      StayersShift(a - 1, l, n, m);
      StayersShift(a - 1, l - 1, n, m);
      ShiftMod(a - 1, l, n);
      ShiftMod(a - 1, l, m);
    }
  }

  /**
   For every two cluster sizes there is a period, their least common multiple: of any so many consecutive
   hashes exactly the smaller size stay put, and these are the ones with the least remainders.
   */
  lemma StayersShare(n: nat, m: nat) returns (l: nat)
    requires n >= 1 && m >= 1
    ensures IsLcm(l, n, m) && l <= n * m
    ensures forall a: nat :: Stayers(a, l, n, m) == if n < m then n else m
    ensures forall h: nat :: h % n == h % m <==> h % l < if n < m then n else m
  {
    assert n * m >= 1 by { MultipleAtLeast(n, m); }
    l := LcmExists(n, m, 1);
    forall a: nat ensures Stayers(a, l, n, m) == if n < m then n else m { StayersPerPeriod(a, n, m, l); }
    forall h: nat ensures h % n == h % m <==> h % l < if n < m then n else m { ModuloStaysExactly(h, n, m, l); }
  }

  lemma MultipleAtLeast(n: nat, m: nat)
    requires n >= 1 && m >= 1
    ensures n * m >= 1
  {}

  /** Two cluster sizes have a least common multiple. */
  lemma {:induction false} LcmExists(n: nat, m: nat, k: nat) returns (l: nat)
    requires n >= 1 && m >= 1 && 1 <= k <= n * m
    requires forall x :: 0 < x < k ==> !CommonMultiple(x, n, m)
    ensures IsLcm(l, n, m) && l <= n * m
    decreases n * m - k
  {
    MultipleMod(n, m);
    MultipleMod(m, n);
    if CommonMultiple(k, n, m) { l := k; } else { l := LcmExists(n, m, k + 1); }
  }
}
