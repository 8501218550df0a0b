/**
 Rooms and hotels under their constraints (src/rooms/rooms.service.ts, lines 26 to 65 and 133 to 156;
 src/hotels/hotels.service.ts, lines 66 to 86; the unique pair of hotel and room number and the foreign
 keys in prisma/schema.prisma): what each statement writes, when it is refused, and the numbers in all runs.
 */
module Rooms {
  import opened Wrappers
  import opened JsText
  import opened Cluster
  import opened Routing
  import opened BookingRuns

  /** Another room of the hotel has the number. */
  ghost predicate NumberTaken(sh: Shard, hotelId: Id, number: JsString, except: Id) {
    exists r :: r in sh.rooms && r != except && sh.rooms[r].hotelId == hotelId && sh.rooms[r].number == number
  }

  /** A room is inserted, and nothing else changed, exactly when its hotel is there and neither its number nor its identifier is in use. */
  lemma InsertRoomExactly(sh: Shard, id: Id, room: Room)
    ensures var r := InsertRoom(sh, id, room);
      (r.Ok? <==> room.hotelId in sh.hotels && !NumberTaken(sh, room.hotelId, room.number, id) && id !in sh.rooms) &&
      (r == Err(NotFound) <==> room.hotelId !in sh.hotels) &&
      (r.Ok? ==>
        r.value.hotels == sh.hotels && r.value.bookings == sh.bookings && r.value.rooms.Keys == sh.rooms.Keys + {id} &&
        r.value.rooms[id] == room && forall k :: k in sh.rooms ==> r.value.rooms[k] == sh.rooms[k])
  {}

  /** A patch sets exactly the given fields, and goes through exactly when the room and its new hotel are there and the number is free. */
  lemma PatchRoomExactly(sh: Shard, id: Id, p: RoomPatch)
    ensures var r := PatchRoom(sh, id, p);
      (r == Err(NotFound) <==> id !in sh.rooms) &&
      (id in sh.rooms ==>
        var old_ := sh.rooms[id];
        var hotelId, number := if p.hotelId.Some? then p.hotelId.value else old_.hotelId, if p.number.Some? then p.number.value else old_.number;
        (r.Ok? <==> hotelId in sh.hotels && !NumberTaken(sh, hotelId, number, id)) &&
        (r.Ok? ==>
          r.value.hotels == sh.hotels && r.value.bookings == sh.bookings && r.value.rooms.Keys == sh.rooms.Keys &&
          (forall k :: k in sh.rooms && k != id ==> r.value.rooms[k] == sh.rooms[k]) &&
          var now := r.value.rooms[id];
          now.hotelId == hotelId && now.number == number &&
          now.pricePerNight == (if p.pricePerNight.Some? then p.pricePerNight.value else old_.pricePerNight) &&
          now.capacity == (if p.capacity.Some? then p.capacity.value else old_.capacity)))
  {}

  /** A room goes exactly when it has no booking, a hotel exactly when it has no room. */
  lemma RemovalsExactly(sh: Shard, id: Id)
    ensures DeleteRoom(sh, id).Ok? <==> id in sh.rooms && forall b :: b in sh.bookings ==> sh.bookings[b].roomId != id
    ensures DeleteRoom(sh, id).Ok? ==> DeleteRoom(sh, id).value == Shard(sh.hotels, sh.rooms - {id}, sh.bookings)
    ensures DeleteHotel(sh, id).Ok? <==> id in sh.hotels && forall r :: r in sh.rooms ==> sh.rooms[r].hotelId != id
    ensures DeleteHotel(sh, id).Ok? ==> DeleteHotel(sh, id).value == Shard(sh.hotels - {id}, sh.rooms, sh.bookings)
  {}

  // ---------------------------------------------------------------- numbers in runs

  /** No hotel has two rooms of one number. */
  ghost predicate NumbersDiffer(rooms: map<Id, Room>) {
    forall r, s :: r in rooms && s in rooms && r != s ==> !(rooms[r].hotelId == rooms[s].hotelId && rooms[r].number == rooms[s].number)
  }

  ghost predicate AllNumbersDiffer(w: World) { forall i :: 0 <= i < |w.shards| ==> NumbersDiffer(w.shards[i].rooms) }

  /** Writing one room keeps the numbers apart exactly when no other room of its hotel has its number. */
  lemma PutRoomExactly(sh: Shard, id: Id, room: Room)
    requires NumbersDiffer(sh.rooms)
    ensures NumbersDiffer(sh.rooms[id := room]) <==> !NumberTaken(sh, room.hotelId, room.number, id)
  {
    var rooms' := sh.rooms[id := room];
    if NumberTaken(sh, room.hotelId, room.number, id) {
      var r :| r in sh.rooms && r != id && sh.rooms[r].hotelId == room.hotelId && sh.rooms[r].number == room.number;
      assert r in rooms' && id in rooms' && rooms'[r] == sh.rooms[r];
    }
  }

  lemma RoomEventKeeps(rt: Routing, w: World, e: Event)
    requires Sized(rt, w) && AllNumbersDiffer(w) && (e.CreateRoom? || e.UpdateRoom?)
    ensures AllNumbersDiffer(Apply(rt, w, e))
  {
    if e.CreateRoom? {
      KeysRoute(rt, e.room.hotelId);
      var sh := w.shards[ForKey(rt, e.room.hotelId)];
      InsertRoomExactly(sh, rt.childId(e.room.hotelId, e.uuid), e.room);
      PutRoomExactly(sh, rt.childId(e.room.hotelId, e.uuid), e.room);
    } else {
      KeysRoute(rt, e.id);
      var sh := w.shards[ForKey(rt, e.id)];
      PatchRoomExactly(sh, e.id, e.roomPatch);
      if e.id in sh.rooms { PutRoomExactly(sh, e.id, PatchedRoom(sh.rooms[e.id], e.roomPatch)); }
    }
  }

  lemma SagaLeavesRooms(rt: Routing, w: World, e: Event)
    requires Sized(rt, w) && (e.LocalTx? || e.T1? || e.T2? || e.C1? || e.T3?)
    ensures forall i :: 0 <= i < |w.shards| ==> Apply(rt, w, e).shards[i].rooms == w.shards[i].rooms
  {}

  lemma OthersOnlyRemove(rt: Routing, w: World, e: Event)
    requires Sized(rt, w) && !e.CreateRoom? && !e.UpdateRoom? && !e.LocalTx? && !e.T1? && !e.T2? && !e.C1? && !e.T3?
    ensures forall i, r :: 0 <= i < |w.shards| && r in Apply(rt, w, e).shards[i].rooms ==>
      r in w.shards[i].rooms && Apply(rt, w, e).shards[i].rooms[r] == w.shards[i].rooms[r]
  {}

  lemma NumbersKept(rt: Routing, w: World, e: Event)
    requires Sized(rt, w) && AllNumbersDiffer(w)
    ensures AllNumbersDiffer(Apply(rt, w, e))
  {
    if e.CreateRoom? || e.UpdateRoom? {
      RoomEventKeeps(rt, w, e);
    } else if e.LocalTx? || e.T1? || e.T2? || e.C1? || e.T3? {
      SagaLeavesRooms(rt, w, e);
    } else {
      OthersOnlyRemove(rt, w, e);
    }
  }

  /** In every run no hotel ever has two rooms of one number. */
  lemma {:induction false} NumbersAlwaysDiffer(rt: Routing, w: World, es: seq<Event>)
    requires Sized(rt, w) && AllNumbersDiffer(w)
    ensures AllNumbersDiffer(Run(rt, w, es))
    decreases |es|
  {
    if es != [] {
      NumbersAlwaysDiffer(rt, w, es[..|es| - 1]);
      NumbersKept(rt, Run(rt, w, es[..|es| - 1]), es[|es| - 1]);
    }
  }

  /** Some shard holds a room of the hotel with the number. */
  ghost predicate NumberUsed(w: World, hotelId: Id, number: JsString) {
    exists i, r :: 0 <= i < |w.shards| && r in w.shards[i].rooms && w.shards[i].rooms[r].hotelId == hotelId && w.shards[i].rooms[r].number == number
  }

  ghost predicate HotelStored(w: World, hotelId: Id) { exists i :: 0 <= i < |w.shards| && hotelId in w.shards[i].hotels }

  /**
   A create request with a new identifier stores the room exactly when its hotel is stored and no room of
   that hotel, on any shard, has the number.
   */
  lemma CreateRoomExactly(rt: Routing, w: World, room: Room, uuid: JsString)
    requires Sized(rt, w) && Placed(rt, w) && rt.childId(room.hotelId, uuid) !in w.used
    ensures var id, i := rt.childId(room.hotelId, uuid), ForKey(rt, room.hotelId);
      i < |w.shards| &&
      var sh' := Apply(rt, w, CreateRoom(room, uuid)).shards[i];
      (id in sh'.rooms <==> HotelStored(w, room.hotelId) && !NumberUsed(w, room.hotelId, room.number)) &&
      (id in sh'.rooms ==> sh'.rooms[id] == room)
  {
    var id, i := rt.childId(room.hotelId, uuid), ForKey(rt, room.hotelId);
    KeysRoute(rt, room.hotelId);
    HotelsAreLocal(rt, w, room.hotelId, room.number, id);
    assert ShardPlaced(rt, i, w.shards[i], w.used);
    InsertRoomExactly(w.shards[i], id, room);
  }

  lemma HotelsAreLocal(rt: Routing, w: World, hotelId: Id, number: JsString, id: Id)
    requires Sized(rt, w) && Placed(rt, w) && ForKey(rt, hotelId) < |w.shards| && id !in w.used
    ensures var sh := w.shards[ForKey(rt, hotelId)];
      (HotelStored(w, hotelId) <==> hotelId in sh.hotels) && (NumberUsed(w, hotelId, number) <==> NumberTaken(sh, hotelId, number, id))
  {
    forall j | 0 <= j < |w.shards|
      ensures hotelId in w.shards[j].hotels ==> j == ForKey(rt, hotelId)
      ensures forall r :: r in w.shards[j].rooms ==> r != id && (w.shards[j].rooms[r].hotelId == hotelId ==> j == ForKey(rt, hotelId))
    {
      assert ShardPlaced(rt, j, w.shards[j], w.used);
    }
  }
}
