/**
 When the one-shard search of strategy city misses rooms (search in src/rooms/rooms.service.ts, line
 129, with shardForCity in src/sharding/shard-router.service.ts): exactly when a room lies away from
 the shard of its hotel's city, which only an edit of the city, or a room put into such a hotel, brings about.
 */
module CitySearch {
  import opened Wrappers
  import opened JsText
  import opened Cluster
  import opened Routing
  import opened BookingRuns
  import opened Search

  type CityBucket = JsString -> nat

  lemma CityShardExists(rt: Routing, cityBucket: CityBucket, city: JsString)
    requires Sound(rt)
    ensures CityShard(rt, cityBucket, city) < rt.shardCount
  {}

  /** Every search by city finds on the city's shard what one database holding all rows would find. */
  ghost predicate Complete(rt: Routing, cityBucket: CityBucket, w: World)
    requires Sized(rt, w)
  {
    forall q: Query :: q.city != [] ==>
      CityShard(rt, cityBucket, q.city) < |w.shards| &&
      Found(w.shards[CityShard(rt, cityBucket, q.city)], q) == Found(Whole(w), q)
  }

  /** The shard is where a search for the city looks; a hotel without a city is never searched for. */
  predicate Belongs(rt: Routing, cityBucket: CityBucket, city: JsString, i: nat) { city == [] || CityShard(rt, cityBucket, city) == i }

  /** Every room lies on the shard of its hotel's city. */
  ghost predicate RoomsAtHome(rt: Routing, cityBucket: CityBucket, w: World) {
    forall i, r :: 0 <= i < |w.shards| && r in w.shards[i].rooms ==> RoomAtHome(rt, cityBucket, w.shards[i], i, r)
  }

  predicate RoomAtHome(rt: Routing, cityBucket: CityBucket, sh: Shard, i: nat, r: Id)
    requires r in sh.rooms
  {
    sh.rooms[r].hotelId in sh.hotels ==> Belongs(rt, cityBucket, sh.hotels[sh.rooms[r].hotelId].city, i)
  }

  // ---------------------------------------------------------------- a query that finds a room

  lemma {:induction false} EarlierThanAll(bookings: map<Id, Booking>) returns (t: int)
    ensures forall b :: b in bookings ==> t <= bookings[b].checkIn
    decreases |bookings|
  {
    if bookings == map[] {
      t := 0;
    } else {
      var b :| b in bookings;
      var rest := bookings - {b};
      assert b !in rest && bookings.Keys == rest.Keys + {b};
      assert |bookings.Keys| == |rest.Keys| + 1;
      var u := EarlierThanAll(rest);
      t := if u <= bookings[b].checkIn then u else bookings[b].checkIn;
      forall c | c in bookings ensures t <= bookings[c].checkIn { if c != b { assert c in rest; } }
    }
  }

  /** A night before all bookings, for nobody in particular, in the hotel's city: the room is found. */
  lemma SomeQueryFinds(sh: Shard, r: Id) returns (q: Query)
    requires r in sh.rooms && sh.rooms[r].hotelId in sh.hotels
    ensures q.city == sh.hotels[sh.rooms[r].hotelId].city && q.checkIn < q.checkOut && r in Found(sh, q)
  {
    var t := EarlierThanAll(sh.bookings);
    q := Query(sh.hotels[sh.rooms[r].hotelId].city, t - DAY, t, 0);
  }

  // ---------------------------------------------------------------- complete exactly when rooms are at home

  lemma HomelessIsMissed(rt: Routing, cityBucket: CityBucket, w: World, i: nat, r: Id)
    requires Sized(rt, w) && Placed(rt, w) && i < |w.shards| && r in w.shards[i].rooms
    requires !RoomAtHome(rt, cityBucket, w.shards[i], i, r)
    ensures !Complete(rt, cityBucket, w)
  {
    var q := SomeQueryFinds(w.shards[i], r);
    var j := CityShard(rt, cityBucket, q.city);
    CityShardExists(rt, cityBucket, q.city);
    assert ShardPlaced(rt, i, w.shards[i], w.used);
    LocalSearchExactly(rt, w, q, i);
    LocalSearchExactly(rt, w, q, j);
    assert r in Found(Whole(w), q) && r !in Found(w.shards[j], q);
  }

  lemma HomeIsSearched(rt: Routing, cityBucket: CityBucket, w: World, q: Query)
    requires Sized(rt, w) && Placed(rt, w) && RoomsAtHome(rt, cityBucket, w) && q.city != []
    ensures var i := CityShard(rt, cityBucket, q.city);
      i < |w.shards| && Found(w.shards[i], q) == Found(Whole(w), q)
  {
    var i := CityShard(rt, cityBucket, q.city);
    CityShardExists(rt, cityBucket, q.city);
    LocalSearchExactly(rt, w, q, i);
    forall r | r in Found(Whole(w), q) ensures ForKey(rt, r) == i {
      KeysRoute(rt, r);
      FoundLocally(rt, w, q, r);
      var j := ForKey(rt, r);
      assert ShardPlaced(rt, j, w.shards[j], w.used);
      assert RoomAtHome(rt, cityBucket, w.shards[j], j, r);
    }
  }

  /** The one-shard search is complete for every query exactly when every room lies on the shard of its hotel's city. */
  lemma CompleteExactly(rt: Routing, cityBucket: CityBucket, w: World)
    requires Sized(rt, w) && Placed(rt, w)
    ensures Complete(rt, cityBucket, w) <==> RoomsAtHome(rt, cityBucket, w)
  {
    if RoomsAtHome(rt, cityBucket, w) {
      forall q: Query | q.city != []
        ensures var i := CityShard(rt, cityBucket, q.city); i < |w.shards| && Found(w.shards[i], q) == Found(Whole(w), q)
      {
        HomeIsSearched(rt, cityBucket, w, q);
      }
    } else {
      var i, r :| 0 <= i < |w.shards| && r in w.shards[i].rooms && !RoomAtHome(rt, cityBucket, w.shards[i], i, r);
      HomelessIsMissed(rt, cityBucket, w, i, r);
    }
  }

  // ---------------------------------------------------------------- which events lose a room

  /**
   The event loses no room: an edited city has its home where the hotel's rooms are, if it has any; and
   a room that is created, or moved to another hotel, is put into a hotel whose city has its home there.
   */
  predicate KeepsHome(rt: Routing, cityBucket: CityBucket, w: World, e: Event)
    requires Sized(rt, w)
  {
    match e
    case UpdateHotel(id, Some(city)) =>
      KeysRoute(rt, id);
      var sh := At(rt, w, id);
      id in sh.hotels && (exists r :: r in sh.rooms && sh.rooms[r].hotelId == id) ==> Belongs(rt, cityBucket, city, ForKey(rt, id))
    case CreateRoom(room, uuid) =>
      KeysRoute(rt, room.hotelId);
      var sh, id := At(rt, w, room.hotelId), rt.childId(room.hotelId, uuid);
      id !in w.used && InsertRoom(sh, id, room).Ok? ==>
        Belongs(rt, cityBucket, sh.hotels[room.hotelId].city, ForKey(rt, room.hotelId))
    case UpdateRoom(id, p) =>
      KeysRoute(rt, id);
      var sh := At(rt, w, id);
      p.hotelId.Some? && rt.bucketOf(p.hotelId.value) == rt.bucketOf(id) && PatchRoom(sh, id, p).Ok? ==>
        Belongs(rt, cityBucket, sh.hotels[p.hotelId.value].city, ForKey(rt, id))
    case _ => true
  }

  /** All rooms of one shard are at home. */
  ghost predicate ShardAtHome(rt: Routing, cityBucket: CityBucket, sh: Shard, i: nat) {
    forall r :: r in sh.rooms ==> RoomAtHome(rt, cityBucket, sh, i, r)
  }

  /** A statement on one shard keeps rooms at home exactly when that shard's rooms are at home afterwards. */
  lemma OneShardDecides(rt: Routing, cityBucket: CityBucket, w: World, w': World, i: nat, sh: Shard)
    requires RoomsAtHome(rt, cityBucket, w) && i < |w.shards| && w'.shards == w.shards[i := sh]
    ensures RoomsAtHome(rt, cityBucket, w') <==> ShardAtHome(rt, cityBucket, sh, i)
  {
    if ShardAtHome(rt, cityBucket, sh, i) {
      forall j, r | 0 <= j < |w'.shards| && r in w'.shards[j].rooms ensures RoomAtHome(rt, cityBucket, w'.shards[j], j, r) {
        if j != i { assert w'.shards[j] == w.shards[j]; }
      }
    } else {
      var r :| r in sh.rooms && !RoomAtHome(rt, cityBucket, sh, i, r);
      assert r in w'.shards[i].rooms && !RoomAtHome(rt, cityBucket, w'.shards[i], i, r);
    }
  }

  /** An edit of a hotel's city, on its shard. */
  lemma EditDecides(rt: Routing, cityBucket: CityBucket, sh: Shard, i: nat, id: Id, city: JsString)
    requires ShardAtHome(rt, cityBucket, sh, i) && id in sh.hotels
    ensures PatchHotel(sh, id, Some(city)).Ok?
    ensures ShardAtHome(rt, cityBucket, PatchHotel(sh, id, Some(city)).value, i) <==>
      ((exists r :: r in sh.rooms && sh.rooms[r].hotelId == id) ==> Belongs(rt, cityBucket, city, i))
  {
    var sh' := PatchHotel(sh, id, Some(city)).value;
    if Belongs(rt, cityBucket, city, i) || !(exists r :: r in sh.rooms && sh.rooms[r].hotelId == id) {
      forall r | r in sh'.rooms ensures RoomAtHome(rt, cityBucket, sh', i, r) { assert RoomAtHome(rt, cityBucket, sh, i, r); }
    } else {
      var r :| r in sh.rooms && sh.rooms[r].hotelId == id;
      assert !RoomAtHome(rt, cityBucket, sh', i, r);
    }
  }

  /** A room written into a hotel, on its shard. */
  lemma RoomDecides(rt: Routing, cityBucket: CityBucket, sh: Shard, i: nat, id: Id, room: Room)
    requires ShardAtHome(rt, cityBucket, sh, i) && room.hotelId in sh.hotels
    ensures ShardAtHome(rt, cityBucket, sh.(rooms := sh.rooms[id := room]), i) <==>
      Belongs(rt, cityBucket, sh.hotels[room.hotelId].city, i)
  {
    var sh' := sh.(rooms := sh.rooms[id := room]);
    assert RoomAtHome(rt, cityBucket, sh', i, id) <==> Belongs(rt, cityBucket, sh.hotels[room.hotelId].city, i);
    forall r | r in sh'.rooms && r != id ensures RoomAtHome(rt, cityBucket, sh', i, r) { assert RoomAtHome(rt, cityBucket, sh, i, r); }
  }

  lemma ShardsAtHome(rt: Routing, cityBucket: CityBucket, w: World, i: nat)
    requires RoomsAtHome(rt, cityBucket, w) && i < |w.shards|
    ensures ShardAtHome(rt, cityBucket, w.shards[i], i)
  {}

  lemma HotelEventKeeps(rt: Routing, cityBucket: CityBucket, w: World, e: Event)
    requires Sized(rt, w) && Placed(rt, w) && RoomsAtHome(rt, cityBucket, w)
    requires e.CreateHotel? || e.RemoveHotel? || (e.UpdateHotel? && e.newCity.None?)
    ensures RoomsAtHome(rt, cityBucket, Apply(rt, w, e))
  {
    var w' := Apply(rt, w, e);
    forall j, r | 0 <= j < |w'.shards| && r in w'.shards[j].rooms ensures RoomAtHome(rt, cityBucket, w'.shards[j], j, r) {
      assert ShardPlaced(rt, j, w.shards[j], w.used);
      assert RoomAtHome(rt, cityBucket, w.shards[j], j, r);
    }
  }

  /** An edit of a city keeps every room on the shard of its hotel's city exactly when it keeps the hotel's rooms there. */
  lemma EditKeepsExactly(rt: Routing, cityBucket: CityBucket, w: World, e: Event)
    requires Sized(rt, w) && Placed(rt, w) && RoomsAtHome(rt, cityBucket, w)
    requires e.UpdateHotel? && e.newCity.Some?
    ensures RoomsAtHome(rt, cityBucket, Apply(rt, w, e)) <==> KeepsHome(rt, cityBucket, w, e)
  {
    KeysRoute(rt, e.id);
    var i := ForKey(rt, e.id);
    if e.id in w.shards[i].hotels {
      ShardsAtHome(rt, cityBucket, w, i);
      EditDecides(rt, cityBucket, w.shards[i], i, e.id, e.newCity.value);
      OneShardDecides(rt, cityBucket, w, Apply(rt, w, e), i, PatchHotel(w.shards[i], e.id, e.newCity).value);
    }
  }

  lemma CreateRoomKeepsExactly(rt: Routing, cityBucket: CityBucket, w: World, e: Event)
    requires Sized(rt, w) && RoomsAtHome(rt, cityBucket, w) && e.CreateRoom?
    ensures RoomsAtHome(rt, cityBucket, Apply(rt, w, e)) <==> KeepsHome(rt, cityBucket, w, e)
  {
    var id := rt.childId(e.room.hotelId, e.uuid);
    KeysRoute(rt, e.room.hotelId);
    var i := ForKey(rt, e.room.hotelId);
    var r := InsertRoom(w.shards[i], id, e.room);
    if id !in w.used && r.Ok? {
      ShardsAtHome(rt, cityBucket, w, i);
      RoomDecides(rt, cityBucket, w.shards[i], i, id, e.room);
      OneShardDecides(rt, cityBucket, w, Apply(rt, w, e), i, r.value);
    }
  }

  lemma UpdateRoomKeepsExactly(rt: Routing, cityBucket: CityBucket, w: World, e: Event)
    requires Sized(rt, w) && Placed(rt, w) && RoomsAtHome(rt, cityBucket, w) && e.UpdateRoom?
    ensures RoomsAtHome(rt, cityBucket, Apply(rt, w, e)) <==> KeepsHome(rt, cityBucket, w, e)
  {
    KeysRoute(rt, e.id);
    var i := ForKey(rt, e.id);
    var sh := w.shards[i];
    var r := PatchRoom(sh, e.id, e.roomPatch);
    if (e.roomPatch.hotelId.Some? ==> rt.bucketOf(e.roomPatch.hotelId.value) == rt.bucketOf(e.id)) && r.Ok? {
      ShardsAtHome(rt, cityBucket, w, i);
      assert RoomAtHome(rt, cityBucket, sh, i, e.id);
      RoomDecides(rt, cityBucket, sh, i, e.id, PatchedRoom(sh.rooms[e.id], e.roomPatch));
      OneShardDecides(rt, cityBucket, w, Apply(rt, w, e), i, r.value);
    }
  }

  lemma RemoveRoomKeeps(rt: Routing, cityBucket: CityBucket, w: World, e: Event)
    requires Sized(rt, w) && RoomsAtHome(rt, cityBucket, w) && e.RemoveRoom?
    ensures RoomsAtHome(rt, cityBucket, Apply(rt, w, e))
  {
    var w' := Apply(rt, w, e);
    forall j, r | 0 <= j < |w'.shards| && r in w'.shards[j].rooms ensures RoomAtHome(rt, cityBucket, w'.shards[j], j, r) {
      assert RoomAtHome(rt, cityBucket, w.shards[j], j, r);
    }
  }

  predicate OnBookings(e: Event) {
    !e.CreateHotel? && !e.UpdateHotel? && !e.RemoveHotel? && !e.CreateRoom? && !e.UpdateRoom? && !e.RemoveRoom?
  }

  ghost predicate SameRooms(w: World, w': World) {
    |w.shards| == |w'.shards| &&
    forall i :: 0 <= i < |w.shards| ==> w'.shards[i].rooms == w.shards[i].rooms && w'.shards[i].hotels == w.shards[i].hotels
  }

  predicate IsSagaStep(e: Event) { e.LocalTx? || e.T1? || e.T2? || e.C1? || e.T3? }

  lemma SagaLeavesRooms(rt: Routing, w: World, e: Event)
    requires Sized(rt, w) && IsSagaStep(e)
    ensures SameRooms(w, Apply(rt, w, e))
  {
    if e.LocalTx? || e.T1? { InsertLeavesRooms(rt, w, e); } else { StatusLeavesRooms(rt, w, e); }
  }

  lemma InsertLeavesRooms(rt: Routing, w: World, e: Event)
    requires Sized(rt, w) && (e.LocalTx? || e.T1?)
    ensures SameRooms(w, Apply(rt, w, e))
  {}

  lemma StatusLeavesRooms(rt: Routing, w: World, e: Event)
    requires Sized(rt, w) && (e.T2? || e.C1? || e.T3?)
    ensures SameRooms(w, Apply(rt, w, e))
  {}

  lemma OthersLeaveRooms(rt: Routing, w: World, e: Event)
    requires Sized(rt, w) && OnBookings(e) && !IsSagaStep(e)
    ensures SameRooms(w, Apply(rt, w, e))
  {}

  lemma RoomsUntouched(rt: Routing, w: World, e: Event)
    requires Sized(rt, w) && OnBookings(e)
    ensures SameRooms(w, Apply(rt, w, e))
  {
    if IsSagaStep(e) { SagaLeavesRooms(rt, w, e); } else { OthersLeaveRooms(rt, w, e); }
  }

  lemma BookingEventKeeps(rt: Routing, cityBucket: CityBucket, w: World, e: Event)
    requires Sized(rt, w) && RoomsAtHome(rt, cityBucket, w) && OnBookings(e)
    ensures RoomsAtHome(rt, cityBucket, Apply(rt, w, e))
  {
    var w' := Apply(rt, w, e);
    RoomsUntouched(rt, w, e);
    forall j, r | 0 <= j < |w'.shards| && r in w'.shards[j].rooms ensures RoomAtHome(rt, cityBucket, w'.shards[j], j, r) {
      assert RoomAtHome(rt, cityBucket, w.shards[j], j, r);
    }
  }

  lemma HomeKeptExactly(rt: Routing, cityBucket: CityBucket, w: World, e: Event)
    requires Sized(rt, w) && Placed(rt, w) && RoomsAtHome(rt, cityBucket, w)
    ensures RoomsAtHome(rt, cityBucket, Apply(rt, w, e)) <==> KeepsHome(rt, cityBucket, w, e)
  {
    match e
    case UpdateHotel(_, Some(_)) => EditKeepsExactly(rt, cityBucket, w, e);
    case CreateHotel(_, _) => HotelEventKeeps(rt, cityBucket, w, e);
    case UpdateHotel(_, None) => HotelEventKeeps(rt, cityBucket, w, e);
    case RemoveHotel(_) => HotelEventKeeps(rt, cityBucket, w, e);
    case CreateRoom(_, _) => CreateRoomKeepsExactly(rt, cityBucket, w, e);
    case UpdateRoom(_, _) => UpdateRoomKeepsExactly(rt, cityBucket, w, e);
    case RemoveRoom(_) => RemoveRoomKeeps(rt, cityBucket, w, e);
    case _ => BookingEventKeeps(rt, cityBucket, w, e);
  }

  /** An event leaves the one-shard search complete exactly when it loses no room. */
  lemma EventKeepsSearchExactly(rt: Routing, cityBucket: CityBucket, w: World, e: Event)
    requires Base(rt, w) && Complete(rt, cityBucket, w)
    ensures Complete(rt, cityBucket, Apply(rt, w, e)) <==> KeepsHome(rt, cityBucket, w, e)
  {
    PlacedKept(rt, w, e);
    CompleteExactly(rt, cityBucket, w);
    HomeKeptExactly(rt, cityBucket, w, e);
    CompleteExactly(rt, cityBucket, Apply(rt, w, e));
  }

  // ---------------------------------------------------------------- runs

  ghost predicate CompleteThroughout(rt: Routing, cityBucket: CityBucket, w: World, es: seq<Event>)
    requires Sized(rt, w)
  {
    Complete(rt, cityBucket, Run(rt, w, es)) && (es != [] ==> CompleteThroughout(rt, cityBucket, w, es[..|es| - 1]))
  }

  ghost predicate KeepsThroughout(rt: Routing, cityBucket: CityBucket, w: World, es: seq<Event>)
    requires Sized(rt, w)
  {
    es != [] ==>
      KeepsThroughout(rt, cityBucket, w, es[..|es| - 1]) &&
      KeepsHome(rt, cityBucket, Run(rt, w, es[..|es| - 1]), es[|es| - 1])
  }

  /**
   In every run, edits of cities included, the one-shard search is complete throughout exactly when no
   edit of a city, and no room put into a hotel, leaves a room away from the shard of its hotel's city.
   */
  lemma {:induction false} CitySearchExactly(rt: Routing, cityBucket: CityBucket, w: World, es: seq<Event>)
    requires AtRest(rt, w) && Complete(rt, cityBucket, w)
    ensures CompleteThroughout(rt, cityBucket, w, es) <==> KeepsThroughout(rt, cityBucket, w, es)
    decreases |es|
  {
    if es != [] {
      var init := es[..|es| - 1];
      CitySearchExactly(rt, cityBucket, w, init);
      BaseAlways(rt, w, init);
      if Complete(rt, cityBucket, Run(rt, w, init)) {
        EventKeepsSearchExactly(rt, cityBucket, Run(rt, w, init), es[|es| - 1]);
      }
      if CompleteThroughout(rt, cityBucket, w, init) { assert Complete(rt, cityBucket, Run(rt, w, init)); }
    }
  }

  // ---------------------------------------------------------------- an edit that loses a room

  /** A city belongs to bucket 1 when its name begins with unit 1, to bucket 0 otherwise; identifiers likewise. */
  function HomeOf(text: JsString): CodeUnit { if text != [] && text[0] == 1 then 1 else 0 }

  function ByCity(): Routing {
    Routing(2, [0, 1], id => HomeOf(id), (p, u) => [HomeOf(p)] + u, (city, uuid) => [HomeOf(city)] + uuid)
  }

  function CityOf(): CityBucket { city => HomeOf(city) }

  const HOTEL: Id := [0, 5]
  const ROOM: Id := [0, 6]
  const OLD_CITY: JsString := [0]
  const NEW_CITY: JsString := [1]

  /** Two shards with one hotel of this city and its room on the first. */
  function Town(city: JsString): World {
    World([Shard(map[HOTEL := Hotel(city)], map[ROOM := Room(HOTEL, [], 100, 2)], map[]), Shard(map[], map[], map[])],
      map[], {HOTEL, ROOM})
  }

  lemma TownRests(city: JsString)
    ensures AtRest(ByCity(), Town(city)) && CityHomes(ByCity(), CityOf())
  {
    var rt := ByCity();
    forall p, u ensures rt.bucketOf(rt.childId(p, u)) == rt.bucketOf(p) { assert ([HomeOf(p)] + u)[0] == HomeOf(p); }
    forall c, u ensures rt.bucketOf(rt.hotelId(c, u)) == CityOf()(c) { assert ([HomeOf(c)] + u)[0] == HomeOf(c); }
    assert ShardPlaced(rt, 0, Town(city).shards[0], {HOTEL, ROOM});
    assert ShardPlaced(rt, 1, Town(city).shards[1], {HOTEL, ROOM});
  }

  lemma EditMoves()
    requires Sized(ByCity(), Town(OLD_CITY))
    ensures Apply(ByCity(), Town(OLD_CITY), UpdateHotel(HOTEL, Some(NEW_CITY))) == Town(NEW_CITY)
  {
    var sh := Town(OLD_CITY).shards[0];
    assert sh.hotels[HOTEL := Hotel(NEW_CITY)] == Town(NEW_CITY).shards[0].hotels;
    assert Town(OLD_CITY).shards[0 := Town(NEW_CITY).shards[0]] == Town(NEW_CITY).shards;
  }

  /** A search for the new city looks on the other shard and misses the room, which one database would find. */
  lemma EditLosesARoom(q: Query)
    requires q.city == NEW_CITY && q.guests <= 2
    ensures AtRest(ByCity(), Town(OLD_CITY)) && CityHomes(ByCity(), CityOf()) && Complete(ByCity(), CityOf(), Town(OLD_CITY))
    ensures var w := Apply(ByCity(), Town(OLD_CITY), UpdateHotel(HOTEL, Some(NEW_CITY)));
      ROOM in Found(Whole(w), q) && CityShard(ByCity(), CityOf(), q.city) == 1 && ROOM !in Found(w.shards[1], q)
  {
    TownRests(OLD_CITY);
    TownRests(NEW_CITY);
    CompleteExactly(ByCity(), CityOf(), Town(OLD_CITY));
    EditMoves();
    LocalSearchExactly(ByCity(), Town(NEW_CITY), q, 0);
    assert ROOM in Found(Town(NEW_CITY).shards[0], q);
  }
}
