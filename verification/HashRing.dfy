/**
 The consistent-hash ring (HashRing in src/sharding/resharding.ts). The position of a virtual
 node is an arbitrary function of its shard and number, so collisions are allowed.
 */
module HashRing {
  import opened Sorting

  /** A virtual node: its position, and its shard. */
  type Point = Keyed<nat>

  // ---------------------------------------------------------------- the ring

  type Position = (nat, nat) -> int

  function NodesOf(shard: nat, vnodes: nat, position: Position): (ps: seq<Point>)
    ensures |ps| == vnodes && forall v :: 0 <= v < vnodes ==> ps[v] == Keyed(position(shard, v), shard)
  {
    seq(vnodes, v requires 0 <= v => Keyed(position(shard, v), shard))
  }

  /** The points in the order the constructor pushes them. */
  function Pushed(shardCount: nat, vnodes: nat, position: Position): seq<Point> {
    if shardCount == 0 then []
    else Pushed(shardCount - 1, vnodes, position) + NodesOf(shardCount - 1, vnodes, position)
  }

  function Ring(shardCount: nat, vnodes: nat, position: Position): seq<Point> {
    StableSort(Pushed(shardCount, vnodes, position))
  }

  /** The first point at or after the key, or the number of points: one after the other. */
  function FirstAtLeast(s: seq<Point>, key: int): (i: nat)
    ensures i <= |s|
    ensures forall j :: 0 <= j < i ==> s[j].key < key
    ensures i < |s| ==> s[i].key >= key
  {
    if s == [] || s[0].key >= key then 0
    else
      var rest := FirstAtLeast(s[1..], key);
      assert forall j :: 1 <= j < 1 + rest ==> s[j] == s[1..][j - 1];
      1 + rest
  }

  /** The shard of the first point clockwise from the key, wrapping to the first point of the ring. */
  function Owner(s: seq<Point>, key: int): nat
    requires s != []
  {
    var i := FirstAtLeast(s, key);
    s[if i == |s| then 0 else i].item
  }

  class HashRing {
    const points: seq<Point>
    const vnodes: nat

    constructor (shardCount: nat, vnodes: nat, position: Position)
      ensures points == Ring(shardCount, vnodes, position) && Sorted(points)
      ensures this.vnodes == vnodes
    {
      var pushed: seq<Point> := [];
      var shard := 0;
      while shard < shardCount
        invariant 0 <= shard <= shardCount
        invariant pushed == Pushed(shard, vnodes, position)
      {
        ghost var before := pushed;
        var v := 0;
        while v < vnodes
          invariant 0 <= v <= vnodes
          invariant pushed == before + NodesOf(shard, vnodes, position)[..v]
        {
          pushed := pushed + [Keyed(position(shard, v), shard)];
          v := v + 1;
        }
        assert NodesOf(shard, vnodes, position)[..v] == NodesOf(shard, vnodes, position);
        shard := shard + 1;
      }
      SortSorts(pushed);
      this.points := StableSort(pushed);
      this.vnodes := vnodes;
    }

    /** Binary search for the first point at or after the key. */
    method ShardOf(keyHash: int) returns (r: nat)
      requires points != [] && Sorted(points)
      ensures r == Owner(points, keyHash)
    {
      var lo, hi := 0, |points|;
      while lo < hi
        invariant 0 <= lo <= hi <= |points|
        invariant forall j :: 0 <= j < lo ==> points[j].key < keyHash
        invariant forall j :: hi <= j < |points| ==> points[j].key >= keyHash
      {
        var mid := (lo + hi) / 2;
        if points[mid].key < keyHash { lo := mid + 1; } else { hi := mid; }
      }
      FirstAtLeastIs(points, keyHash, lo);
      r := points[if lo == |points| then 0 else lo].item;
    }
  }

  // ---------------------------------------------------------------- growth

  lemma FirstAtLeastIs(s: seq<Point>, key: int, i: nat)
    requires i <= |s| && (forall j :: 0 <= j < i ==> s[j].key < key) && (i < |s| ==> s[i].key >= key)
    ensures FirstAtLeast(s, key) == i
  {}

  /** A point put in at k, in the order of the ring. */
  ghost predicate PutAt(s: seq<Point>, p: Point, k: nat, r: seq<Point>) {
    k <= |s| && |r| == |s| + 1 && r[k] == p &&
    (forall i :: 0 <= i < k ==> r[i] == s[i] && s[i].key <= p.key) &&
    (forall i :: k < i < |r| ==> r[i] == s[i - 1] && s[i - 1].key > p.key)
  }

  lemma PutKeepsOrTakes(s: seq<Point>, p: Point, k: nat, r: seq<Point>, key: int)
    requires s != [] && PutAt(s, p, k, r)
    ensures Owner(r, key) == Owner(s, key) || Owner(r, key) == p.item
  {
    var f := FirstAtLeast(s, key);
    FirstAtLeastIs(r, key, if p.key < key then f + 1 else if f < k then f else k);
  }

  /** One more point takes over a key or leaves its owner alone. */
  lemma InsertKeepsOrTakes(s: seq<Point>, p: Point, key: int)
    requires s != [] && Sorted(s)
    ensures Owner(Insert(s, p), key) == Owner(s, key) || Owner(Insert(s, p), key) == p.item
  {
    var k := InsertPosition(s, p);
    assert PutAt(s, p, k, Insert(s, p));
    PutKeepsOrTakes(s, p, k, Insert(s, p), key);
  }

  lemma {:induction false} AddingPoints(ps: seq<Point>, qs: seq<Point>, key: int, bound: nat)
    requires ps != [] && forall j :: 0 <= j < |qs| ==> qs[j].item >= bound
    ensures Owner(StableSort(ps + qs), key) == Owner(StableSort(ps), key) || Owner(StableSort(ps + qs), key) >= bound
    decreases |qs|
  {
    if qs == [] {
      assert ps + qs == ps;
    } else {
      var init, last := qs[..|qs| - 1], qs[|qs| - 1];
      AddingPoints(ps, init, key, bound);
      assert (ps + qs)[..|ps + qs| - 1] == ps + init && (ps + qs)[|ps + qs| - 1] == last;
      SortSorts(ps + init);
      InsertKeepsOrTakes(StableSort(ps + init), last, key);
    }
  }

  lemma {:induction false} PushedGrows(n: nat, m: nat, vnodes: nat, position: Position) returns (more: seq<Point>)
    requires n <= m
    ensures Pushed(m, vnodes, position) == Pushed(n, vnodes, position) + more
    ensures forall j :: 0 <= j < |more| ==> n <= more[j].item < m
    decreases m
  {
    if n == m {
      more := [];
    } else {
      var init := PushedGrows(n, m - 1, vnodes, position);
      more := init + NodesOf(m - 1, vnodes, position);
    }
  }

  lemma {:induction false} SortKeepsShardBound(ps: seq<Point>, n: nat)
    requires forall j :: 0 <= j < |ps| ==> ps[j].item < n
    ensures forall j :: 0 <= j < |ps| ==> StableSort(ps)[j].item < n
  {
    if ps != [] {
      SortKeepsShardBound(ps[..|ps| - 1], n);
      SortSorts(ps[..|ps| - 1]);
      var k := InsertPosition(StableSort(ps[..|ps| - 1]), ps[|ps| - 1]);
    }
  }

  /** Every key has an owner among the shards of the ring. */
  lemma RingOwns(n: nat, vnodes: nat, position: Position, key: int)
    requires n >= 1 && vnodes >= 1
    ensures Ring(n, vnodes, position) != [] && Owner(Ring(n, vnodes, position), key) < n
  {
    var more := PushedGrows(0, n, vnodes, position);
    assert Pushed(0, vnodes, position) + more == more;
    assert |Pushed(n, vnodes, position)| >= vnodes;
    SortKeepsShardBound(Pushed(n, vnodes, position), n);
  }

  /** Growing the ring from n to m shards, a key keeps its shard or moves to one of the new shards. */
  lemma GrowthOnlyMovesToNewShards(n: nat, m: nat, vnodes: nat, position: Position, key: int)
    requires 1 <= n <= m && vnodes >= 1
    ensures Ring(n, vnodes, position) != [] && Ring(m, vnodes, position) != []
    ensures var before, after := Owner(Ring(n, vnodes, position), key), Owner(Ring(m, vnodes, position), key);
      before == after < n || n <= after < m
  {
    RingOwns(n, vnodes, position, key);
    RingOwns(m, vnodes, position, key);
    var more := PushedGrows(n, m, vnodes, position);
    AddingPoints(Pushed(n, vnodes, position), more, key, n);
  }
}
