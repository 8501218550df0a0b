/**
 The owner of a key on the consistent-hash ring, told by distances instead of by order (HashRing in
 src/sharding/resharding.ts, lines 33 to 52): the shard of the nearest virtual node clockwise on a
 circle of 2^32 positions, the lowest shard when several are equally near.
 */
module RingNearest {
  import opened Sorting
  import opened HashRing

  const CIRCLE: int := 0x1_0000_0000

  predicate OnCircle(x: int) { 0 <= x < CIRCLE }

  ghost predicate PositionsOnCircle(n: nat, vnodes: nat, position: Position) {
    forall s: nat, v: nat :: s < n && v < vnodes ==> OnCircle(position(s, v))
  }

  /** How far clockwise a position lies from a key. */
  function Clockwise(key: int, at: int): int { (at - key) % CIRCLE }

  /** This virtual node is nearest clockwise from the key, and of the lowest shard among the nearest. */
  ghost predicate IsNearest(n: nat, vnodes: nat, position: Position, key: int, s: nat, v: nat) {
    s < n && v < vnodes &&
    forall t: nat, u: nat :: t < n && u < vnodes ==> NoNearer(position, key, s, v, t, u)
  }

  predicate NoNearer(position: Position, key: int, s: nat, v: nat, t: nat, u: nat) {
    var here, there := Clockwise(key, position(s, v)), Clockwise(key, position(t, u));
    here < there || (here == there && s <= t)
  }

  /** The shard has a nearest node. */
  ghost predicate OwnsByDistance(n: nat, vnodes: nat, position: Position, key: int, s: nat) {
    exists v: nat :: IsNearest(n, vnodes, position, key, s, v)
  }

  // ---------------------------------------------------------------- the points of the ring

  lemma {:induction false} PushedIs(n: nat, vnodes: nat, position: Position, p: Point)
    ensures p in Pushed(n, vnodes, position) <==> exists v: nat :: v < vnodes && p.item < n && p == Keyed(position(p.item, v), p.item)
  {
    if n > 0 {
      PushedIs(n - 1, vnodes, position, p);
      var nodes := NodesOf(n - 1, vnodes, position);
      if v: nat :| v < vnodes && p.item < n && p == Keyed(position(p.item, v), p.item) {
        if p.item == n - 1 { assert nodes[v] == p; }
      }
    }
  }

  lemma {:induction false} WithKeyHas(s: seq<Point>, p: Point)
    ensures p in WithKey<nat>(s, p.key) <==> p in s
  {
    if s != [] {
      WithKeyHas(s[..|s| - 1], p);
      assert s == s[..|s| - 1] + [s[|s| - 1]];
    }
  }

  lemma SortHas(s: seq<Point>, p: Point)
    ensures p in StableSort(s) <==> p in s
  {
    WithKeyHas(StableSort(s), p);
    WithKeyHas(s, p);
    SortIsStable(s, p.key);
  }

  /** Every virtual node is on the ring, and nothing else. */
  lemma RingIs(n: nat, vnodes: nat, position: Position, p: Point)
    ensures p in Ring(n, vnodes, position) <==> exists v: nat :: v < vnodes && p.item < n && p == Keyed(position(p.item, v), p.item)
  {
    PushedIs(n, vnodes, position, p);
    SortHas(Pushed(n, vnodes, position), p);
  }

  // ---------------------------------------------------------------- equal positions

  predicate ByShard(s: seq<Point>) { forall i, j :: 0 <= i < j < |s| ==> s[i].item <= s[j].item }

  lemma {:induction false} PushedByShard(n: nat, vnodes: nat, position: Position)
    ensures ByShard(Pushed(n, vnodes, position))
    ensures forall p :: p in Pushed(n, vnodes, position) ==> p.item < n
  {
    if n > 0 {
      PushedByShard(n - 1, vnodes, position);
      var init, nodes := Pushed(n - 1, vnodes, position), NodesOf(n - 1, vnodes, position);
      var s := init + nodes;
      forall i | 0 <= i < |s| ensures s[i].item == (if i < |init| then init[i].item else n - 1) && s[i].item < n {
        if i < |init| { assert init[i] in init; }
      }
    }
  }

  lemma {:induction false} WithKeyByShard(s: seq<Point>, h: int)
    requires ByShard(s)
    ensures ByShard(WithKey<nat>(s, h))
  {
    if s != [] {
      var init, last := s[..|s| - 1], s[|s| - 1];
      WithKeyByShard(init, h);
      var kin := WithKey<nat>(init, h);
      forall k | 0 <= k < |kin| ensures kin[k].item <= last.item { WithKeyIn(init, h, kin[k]); }
    }
  }

  lemma {:induction false} WithKeyIn(s: seq<Point>, h: int, p: Point)
    requires p in WithKey<nat>(s, h)
    ensures p in s && p.key == h
  {
    if p !in WithKey<nat>(s[..|s| - 1], h) { assert p == s[|s| - 1]; } else { WithKeyIn(s[..|s| - 1], h, p); }
  }

  /** Points of one key stand in the order of their class. */
  lemma {:induction false} ClassOrder(s: seq<Point>, h: int, i: nat, j: nat)
    requires ByShard(WithKey<nat>(s, h)) && i < j < |s| && s[i].key == s[j].key == h
    ensures s[i].item <= s[j].item
  {
    var init, last := s[..|s| - 1], s[|s| - 1];
    var kin := WithKey<nat>(init, h);
    if j < |s| - 1 {
      assert forall a, b :: 0 <= a < b < |kin| ==> kin[a] == WithKey<nat>(s, h)[a] && kin[b] == WithKey<nat>(s, h)[b];
      ClassOrder(init, h, i, j);
    } else {
      WithKeyHas(init, init[i]);
      var a :| 0 <= a < |kin| && kin[a] == init[i];
      assert WithKey<nat>(s, h)[a] == init[i] && WithKey<nat>(s, h)[|kin|] == last;
    }
  }

  lemma RingOrder(n: nat, vnodes: nat, position: Position, i: nat, j: nat)
    requires var ring := Ring(n, vnodes, position); i < j < |ring| && ring[i].key == ring[j].key
    ensures Ring(n, vnodes, position)[i].item <= Ring(n, vnodes, position)[j].item
  {
    var pushed, h := Pushed(n, vnodes, position), Ring(n, vnodes, position)[i].key;
    PushedByShard(n, vnodes, position);
    WithKeyByShard(pushed, h);
    SortIsStable(pushed, h);
    ClassOrder(Ring(n, vnodes, position), h, i, j);
  }

  // ---------------------------------------------------------------- the owner is the nearest

  lemma ClockwiseIs(key: int, at: int)
    requires OnCircle(key) && OnCircle(at)
    ensures Clockwise(key, at) == if at >= key then at - key else at - key + CIRCLE
  {}

  /** Which point of a sorted ring the owner is. */
  function OwnerIndex(s: seq<Point>, key: int): (i: nat)
    requires s != []
    ensures i < |s| && s[i].item == Owner(s, key)
  {
    if FirstAtLeast(s, key) == |s| then 0 else FirstAtLeast(s, key)
  }

  lemma NoPointIsNearer(s: seq<Point>, key: int, j: nat)
    requires s != [] && Sorted(s) && OnCircle(key) && j < |s| && forall k :: 0 <= k < |s| ==> OnCircle(s[k].key)
    ensures var i := OwnerIndex(s, key);
      Clockwise(key, s[i].key) < Clockwise(key, s[j].key) || (s[i].key == s[j].key && i <= j)
  {
    ClockwiseIs(key, s[OwnerIndex(s, key)].key);
    ClockwiseIs(key, s[j].key);
  }

  /**
   On a ring with at least one shard and one virtual node, the owner of a key is the shard of the nearest
   virtual node clockwise, wrapping around the circle; of several equally near ones, the lowest shard.
   */
  lemma OwnerIsNearest(n: nat, vnodes: nat, position: Position, key: int)
    requires n >= 1 && vnodes >= 1 && PositionsOnCircle(n, vnodes, position) && OnCircle(key)
    ensures Ring(n, vnodes, position) != []
    ensures OwnsByDistance(n, vnodes, position, key, Owner(Ring(n, vnodes, position), key))
  {
    RingOwns(n, vnodes, position, key);
    var ring := Ring(n, vnodes, position);
    SortSorts(Pushed(n, vnodes, position));
    forall k | 0 <= k < |ring| ensures OnCircle(ring[k].key) { RingIs(n, vnodes, position, ring[k]); }
    var i := OwnerIndex(ring, key);
    RingIs(n, vnodes, position, ring[i]);
    var v: nat :| v < vnodes && ring[i].item < n && ring[i] == Keyed(position(ring[i].item, v), ring[i].item);
    forall t: nat, u: nat | t < n && u < vnodes ensures NoNearer(position, key, ring[i].item, v, t, u) {
      var p := Keyed(position(t, u), t);
      RingIs(n, vnodes, position, p);
      assert p in ring;
      var j :| 0 <= j < |ring| && ring[j] == p;
      NoPointIsNearer(ring, key, j);
      if ring[i].key == ring[j].key && i < j { RingOrder(n, vnodes, position, i, j); }
    }
    assert IsNearest(n, vnodes, position, key, ring[i].item, v);
  }

  /** Only one shard owns a key by distance. */
  lemma NearestIsUnique(n: nat, vnodes: nat, position: Position, key: int, s: nat, t: nat)
    requires OwnsByDistance(n, vnodes, position, key, s) && OwnsByDistance(n, vnodes, position, key, t)
    ensures s == t
  {
    var v: nat :| IsNearest(n, vnodes, position, key, s, v);
    var u: nat :| IsNearest(n, vnodes, position, key, t, u);
    assert NoNearer(position, key, s, v, t, u) && NoNearer(position, key, t, u, s, v);
  }

  /** The owner is exactly the shard that owns the key by distance. */
  lemma OwnerExactly(n: nat, vnodes: nat, position: Position, key: int, s: nat)
    requires n >= 1 && vnodes >= 1 && PositionsOnCircle(n, vnodes, position) && OnCircle(key)
    ensures Ring(n, vnodes, position) != []
    ensures Owner(Ring(n, vnodes, position), key) == s <==> OwnsByDistance(n, vnodes, position, key, s)
  {
    OwnerIsNearest(n, vnodes, position, key);
    if OwnsByDistance(n, vnodes, position, key, s) {
      NearestIsUnique(n, vnodes, position, key, s, Owner(Ring(n, vnodes, position), key));
    }
  }
}
