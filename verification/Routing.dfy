/**
 Routing of keys to shards (forKey, newHotelId, childId and shardForCity in
 src/sharding/shard-router.service.ts; bucketForNewHotel in src/sharding/shard-key.ts).
 The functions are values, so that what is proved about the cluster rests only on their stated laws.
 */
module Routing {
  import opened Wrappers
  import opened JsText
  import ShardKey
  import BucketMap

  datatype Routing = Routing(
    shardCount: nat,
    bucketMap: seq<nat>,
    bucketOf: Id -> nat,
    childId: (Id, JsString) -> Id,
    hotelId: (JsString, JsString) -> Id)

  /** The shard a key belongs to. */
  function ForKey(rt: Routing, id: Id): nat {
    var b := rt.bucketOf(id);
    if b < |rt.bucketMap| then rt.bucketMap[b] else 0
  }

  /** Every key routes to a shard, and a child lives in its parent's bucket. */
  ghost predicate Sound(rt: Routing) {
    rt.shardCount >= 1 &&
    (forall b :: 0 <= b < |rt.bucketMap| ==> rt.bucketMap[b] < rt.shardCount) &&
    (forall id :: rt.bucketOf(id) < |rt.bucketMap|) &&
    (forall p, u :: rt.bucketOf(rt.childId(p, u)) == rt.bucketOf(p))
  }

  lemma KeysRoute(rt: Routing, id: Id)
    requires Sound(rt)
    ensures ForKey(rt, id) < rt.shardCount
  {
    assert rt.bucketOf(id) < |rt.bucketMap|;
  }

  lemma ChildrenStay(rt: Routing, parent: Id, uuid: JsString)
    requires Sound(rt)
    ensures rt.bucketOf(rt.childId(parent, uuid)) == rt.bucketOf(parent)
    ensures ForKey(rt, rt.childId(parent, uuid)) == ForKey(rt, parent)
  {}

  // ---------------------------------------------------------------- the application's routing

  datatype Strategy = Hash | City

  /** The bucket of a city; lower-casing is an arbitrary function of the trimmed name. */
  function CityBucket(lower: JsString -> JsString, city: JsString): nat {
    ShardKey.Fnv(lower(Trim(city))) % ShardKey.BUCKETS
  }

  function BucketForNewHotel(strategy: Strategy, lower: JsString -> JsString, uuid: JsString, city: JsString): nat {
    if strategy == City then CityBucket(lower, city) else ShardKey.Fnv(uuid) % ShardKey.BUCKETS
  }

  function NewHotelId(strategy: Strategy, lower: JsString -> JsString, uuid: JsString, city: JsString): Id {
    ShardKey.IdInBucket(BucketForNewHotel(strategy, lower, uuid, city), uuid)
  }

  function AppRouting(owners: seq<nat>, shardCount: nat, strategy: Strategy, lower: JsString -> JsString): Routing {
    Routing(shardCount, owners, id => ShardKey.BucketOf(id), (p, u) => ShardKey.ChildId(p, u),
            (city, uuid) => NewHotelId(strategy, lower, uuid, city))
  }

  /** Whatever map the specification gives, the application's routing obeys the laws. */
  lemma AppRoutingIsSound(shardCount: nat, spec: Option<JsString>, strategy: Strategy, lower: JsString -> JsString)
    requires shardCount >= 1 && BucketMap.MapOf(shardCount, spec).Ok?
    ensures Sound(AppRouting(BucketMap.MapOf(shardCount, spec).value, shardCount, strategy, lower))
  {
    var owners := BucketMap.MapOf(shardCount, spec).value;
    var rt := AppRouting(owners, shardCount, strategy, lower);
    BucketMap.EveryKeyRoutes(shardCount, spec, []);
    forall id ensures rt.bucketOf(id) < |owners| { ShardKey.BucketOfInRange(id); }
    forall p, u ensures rt.bucketOf(rt.childId(p, u)) == rt.bucketOf(p) { ShardKey.ChildKeepsBucket(p, u); }
  }

  /** A new hotel is created in the bucket of its city's normalised name, or of its random part, by their hashes. */
  lemma NewHotelsBucket(strategy: Strategy, lower: JsString -> JsString, uuid: JsString, city: JsString)
    ensures ShardKey.IsResidue(
      ShardKey.Fnv(if strategy == City then lower(Trim(city)) else uuid), ShardKey.BucketOf(NewHotelId(strategy, lower, uuid, city)))
  {
    var n := ShardKey.Fnv(if strategy == City then lower(Trim(city)) else uuid);
    assert n == 64 * (n / 64) + n % 64;
    ShardKey.BucketRoundTrip(n % 64, uuid);
  }

  /** A key routes to the shard that the last part of the specification covering its bucket orders, else round robin. */
  lemma RoutesAsSpelled(shardCount: nat, spec: JsString, strategy: Strategy, lower: JsString -> JsString, id: Id)
    requires shardCount >= 1 && Trim(spec) != [] && BucketMap.MapOf(shardCount, Some(spec)).Ok?
    ensures var parts, b := Split(spec, COMMA), ShardKey.BucketOf(id);
      var shard := ForKey(AppRouting(BucketMap.MapOf(shardCount, Some(spec)).value, shardCount, strategy, lower), id);
      (forall k: nat, f :: BucketMap.LastWord(parts, shardCount, b, k, f) ==> shard == f.shard) &&
      (BucketMap.Unmentioned(parts, shardCount, b) ==> shard == b % shardCount)
  {
    ShardKey.BucketOfInRange(id);
    BucketMap.AcceptedExactly(shardCount, spec, ShardKey.BucketOf(id));
  }

  /** Under strategy city, all hotels of a city are created in the bucket the search looks up. */
  ghost predicate CityHomes(rt: Routing, cityBucket: JsString -> nat) {
    forall city, uuid :: rt.bucketOf(rt.hotelId(city, uuid)) == cityBucket(city)
  }

  lemma AppCityHomes(owners: seq<nat>, shardCount: nat, lower: JsString -> JsString)
    ensures CityHomes(AppRouting(owners, shardCount, City, lower), city => CityBucket(lower, city))
  {
    var rt := AppRouting(owners, shardCount, City, lower);
    forall city, uuid ensures rt.bucketOf(rt.hotelId(city, uuid)) == CityBucket(lower, city) {
      ShardKey.BucketRoundTrip(CityBucket(lower, city), uuid);
    }
  }
}
