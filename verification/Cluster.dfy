/**
 The rows of the sharded booking database and the statements and transactions the services run
 on one shard (src/bookings, src/rooms, src/hotels; constraints from prisma/schema.prisma).
 Times are milliseconds, prices are integer cents.
 */
module Cluster {
  import opened Wrappers
  import opened JsText

  datatype Status = PENDING | CONFIRMED | CANCELLED | COMPLETED

  predicate Active(s: Status) { s == PENDING || s == CONFIRMED }

  datatype Hotel = Hotel(city: JsString)

  datatype Room = Room(hotelId: Id, number: JsString, pricePerNight: nat, capacity: nat)

  datatype Booking = Booking(roomId: Id, guestId: Id, checkIn: int, checkOut: int, status: Status, totalPrice: int)

  datatype Shard = Shard(hotels: map<Id, Hotel>, rooms: map<Id, Room>, bookings: map<Id, Booking>)

  /** Why a statement or a transaction has no effect. */
  datatype DbError = NotFound | Taken | Constraint

  // ---------------------------------------------------------------- stays

  const DAY: int := 86_400_000

  /** Math.ceil of the stay in days. */
  function Nights(checkIn: int, checkOut: int): int { (checkOut - checkIn + DAY - 1) / DAY }

  /** The charged nights cover the stay and no night is charged beyond it. */
  lemma NightsCoverStay(checkIn: int, checkOut: int)
    ensures (Nights(checkIn, checkOut) - 1) * DAY < checkOut - checkIn <= Nights(checkIn, checkOut) * DAY
  {}

  /** The overlap test of the availability query. */
  predicate Overlaps(b: Booking, checkIn: int, checkOut: int) { b.checkIn < checkOut && b.checkOut > checkIn }

  predicate Within(t: int, checkIn: int, checkOut: int) { checkIn <= t < checkOut }

  /** For proper stays the test says exactly that the half-open intervals share an instant. */
  lemma OverlapIsSharedInstant(b: Booking, checkIn: int, checkOut: int)
    requires b.checkIn < b.checkOut && checkIn < checkOut
    ensures Overlaps(b, checkIn, checkOut) <==> exists t :: Within(t, b.checkIn, b.checkOut) && Within(t, checkIn, checkOut)
  {
    if Overlaps(b, checkIn, checkOut) {
      var t := if b.checkIn < checkIn then checkIn else b.checkIn;
      assert Within(t, b.checkIn, b.checkOut) && Within(t, checkIn, checkOut);
    }
  }

  /** A booking that blocks the room for the stay. */
  predicate Blocks(b: Booking, roomId: Id, checkIn: int, checkOut: int) {
    b.roomId == roomId && Active(b.status) && Overlaps(b, checkIn, checkOut)
  }

  predicate IsTaken(bookings: map<Id, Booking>, roomId: Id, checkIn: int, checkOut: int, exclude: Option<Id>) {
    exists id :: id in bookings && exclude != Some(id) && Blocks(bookings[id], roomId, checkIn, checkOut)
  }

  /** No room is promised twice. */
  ghost predicate NoOverlap(bookings: map<Id, Booking>) {
    forall a, b :: a in bookings && b in bookings && a != b && Active(bookings[b].status) ==>
      !Blocks(bookings[a], bookings[b].roomId, bookings[b].checkIn, bookings[b].checkOut)
  }

  // ---------------------------------------------------------------- booking statements

  /** What the reservation transaction needs to know. */
  datatype Request = Request(id: Id, roomId: Id, guestId: Id, checkIn: int, checkOut: int, status: Status)

  function NewRow(room: Room, q: Request): Booking {
    Booking(q.roomId, q.guestId, q.checkIn, q.checkOut, q.status, room.pricePerNight * Nights(q.checkIn, q.checkOut))
  }

  /** Availability check and insert, in one transaction. */
  function Reserve(sh: Shard, q: Request, exclude: Option<Id>): Result<Shard, DbError> {
    if q.roomId !in sh.rooms then Err(NotFound)
    else if IsTaken(sh.bookings, q.roomId, q.checkIn, q.checkOut, exclude) then Err(Taken)
    else if q.id in sh.bookings then Err(Constraint)
    else Ok(sh.(bookings := sh.bookings[q.id := NewRow(sh.rooms[q.roomId], q)]))
  }

  /** A booking of another room, of no more use, over by then, or later. */
  predicate LeavesFree(b: Booking, roomId: Id, checkIn: int, checkOut: int) {
    b.roomId != roomId || (b.status != PENDING && b.status != CONFIRMED) || b.checkOut <= checkIn || checkOut <= b.checkIn
  }

  /**
   The room's pending and confirmed bookings, but for the excepted one, all end before the stay begins
   or begin after it ends.
   */
  predicate IsFree(bookings: map<Id, Booking>, roomId: Id, checkIn: int, checkOut: int, except: Option<Id>) {
    forall b :: b in bookings && except != Some(b) ==> LeavesFree(bookings[b], roomId, checkIn, checkOut)
  }

  /** The availability query finds nothing exactly when the room is free. */
  lemma TakenExactly(bookings: map<Id, Booking>, roomId: Id, checkIn: int, checkOut: int, exclude: Option<Id>)
    ensures IsTaken(bookings, roomId, checkIn, checkOut, exclude) <==> !IsFree(bookings, roomId, checkIn, checkOut, exclude)
  {
    if !IsFree(bookings, roomId, checkIn, checkOut, exclude) {
      var b :| b in bookings && exclude != Some(b) && !LeavesFree(bookings[b], roomId, checkIn, checkOut);
      assert Blocks(bookings[b], roomId, checkIn, checkOut);
    }
  }

  /** A stay's price for a room: the fewest whole days that cover it, at the room's price. */
  ghost predicate IsPrice(price: int, room: Room, checkIn: int, checkOut: int) {
    exists n: int :: PricedFor(price, n, room.pricePerNight) && (n - 1) * DAY < checkOut - checkIn <= n * DAY
  }

  predicate PricedFor(price: int, nights: int, perNight: int) { price == nights * perNight }

  /**
   The reservation transaction in terms of the rows: it inserts exactly this row when the room is there,
   free and the identifier new, and fails by what is missing otherwise.
   */
  lemma ReserveExactly(sh: Shard, q: Request, exclude: Option<Id>)
    ensures var r := Reserve(sh, q, exclude);
      var free := IsFree(sh.bookings, q.roomId, q.checkIn, q.checkOut, exclude);
      (r.Ok? <==> q.roomId in sh.rooms && free && q.id !in sh.bookings) &&
      (r == Err(NotFound) <==> q.roomId !in sh.rooms) &&
      (r == Err(Taken) <==> q.roomId in sh.rooms && !free) &&
      (r.Ok? ==>
        r.value.hotels == sh.hotels && r.value.rooms == sh.rooms && r.value.bookings.Keys == sh.bookings.Keys + {q.id} &&
        (forall b :: b in sh.bookings ==> r.value.bookings[b] == sh.bookings[b]) &&
        var row := r.value.bookings[q.id];
        row.roomId == q.roomId && row.guestId == q.guestId && row.checkIn == q.checkIn && row.checkOut == q.checkOut &&
        row.status == q.status && IsPrice(row.totalPrice, sh.rooms[q.roomId], q.checkIn, q.checkOut))
  {
    TakenExactly(sh.bookings, q.roomId, q.checkIn, q.checkOut, exclude);
    if Reserve(sh, q, exclude).Ok? {
      NightsCoverStay(q.checkIn, q.checkOut);
      assert PricedFor(NewRow(sh.rooms[q.roomId], q).totalPrice, Nights(q.checkIn, q.checkOut), sh.rooms[q.roomId].pricePerNight);
    }
  }

  function SetStatus(sh: Shard, id: Id, status: Status): Result<Shard, DbError> {
    if id !in sh.bookings then Err(NotFound)
    else Ok(sh.(bookings := sh.bookings[id := sh.bookings[id].(status := status)]))
  }

  /** updateMany on one id: the status changes only if it is one of the given; the number of rows changed. */
  function SetStatusIf(sh: Shard, id: Id, among: set<Status>, status: Status): (r: (Shard, nat)) {
    if id in sh.bookings && sh.bookings[id].status in among
    then (sh.(bookings := sh.bookings[id := sh.bookings[id].(status := status)]), 1)
    else (sh, 0)
  }

  function DeleteBooking(sh: Shard, id: Id): Result<Shard, DbError> {
    if id !in sh.bookings then Err(NotFound) else Ok(sh.(bookings := sh.bookings - {id}))
  }

  /** Setting a status, deciding on the old one or not, changes that column of that row alone. */
  lemma StatusExactly(sh: Shard, id: Id, among: set<Status>, status: Status)
    ensures SetStatus(sh, id, status).Ok? <==> id in sh.bookings
    ensures SetStatus(sh, id, status).Ok? ==> OnlyStatus(sh, SetStatus(sh, id, status).value, id, status)
    ensures var (after, count) := SetStatusIf(sh, id, among, status);
      if exists old_ :: old_ in among && id in sh.bookings && sh.bookings[id].status == old_
      then count == 1 && OnlyStatus(sh, after, id, status)
      else count == 0 && after == sh
  {}

  /** The second shard is the first with another status in one row. */
  ghost predicate OnlyStatus(was: Shard, now: Shard, id: Id, status: Status)
    requires id in was.bookings
  {
    now.hotels == was.hotels && now.rooms == was.rooms && now.bookings.Keys == was.bookings.Keys &&
    (forall b :: b in was.bookings && b != id ==> now.bookings[b] == was.bookings[b]) &&
    var old_, row := was.bookings[id], now.bookings[id];
    row.status == status && row.roomId == old_.roomId && row.guestId == old_.guestId && row.checkIn == old_.checkIn &&
    row.checkOut == old_.checkOut && row.totalPrice == old_.totalPrice
  }

  /** The local relocation: reserve, ignoring the old booking, and cancel the old one, in one transaction. */
  function ReserveAndCancel(sh: Shard, q: Request, oldId: Id): Result<Shard, DbError> {
    match Reserve(sh, q, Some(oldId))
    case Err(e) => Err(e)
    case Ok(sh') => SetStatus(sh', oldId, CANCELLED)
  }

  datatype BookingPatch = BookingPatch(roomId: Option<Id>, guestId: Option<Id>, checkIn: Option<int>, checkOut: Option<int>)

  function Or<T>(o: Option<T>, old_: T): T { if o.Some? then o.value else old_ }

  function Patched(b: Booking, p: BookingPatch): Booking {
    b.(roomId := Or(p.roomId, b.roomId), guestId := Or(p.guestId, b.guestId),
       checkIn := Or(p.checkIn, b.checkIn), checkOut := Or(p.checkOut, b.checkOut))
  }

  /** The PATCH statement; the database refuses a room it does not hold. */
  function PatchBooking(sh: Shard, id: Id, p: BookingPatch): Result<Shard, DbError> {
    if id !in sh.bookings then Err(NotFound)
    else if Patched(sh.bookings[id], p).roomId !in sh.rooms then Err(Constraint)
    else Ok(sh.(bookings := sh.bookings[id := Patched(sh.bookings[id], p)]))
  }

  /** PATCH sets exactly the given fields of exactly this row; status and price stay. */
  lemma PatchExactly(sh: Shard, id: Id, p: BookingPatch)
    requires PatchBooking(sh, id, p).Ok?
    ensures id in sh.bookings
    ensures var was, rows := sh.bookings[id], PatchBooking(sh, id, p).value.bookings;
      rows.Keys == sh.bookings.Keys && (forall b :: b in sh.bookings && b != id ==> rows[b] == sh.bookings[b]) &&
      var now := rows[id];
      now.roomId == (if p.roomId.Some? then p.roomId.value else was.roomId) &&
      now.guestId == (if p.guestId.Some? then p.guestId.value else was.guestId) &&
      now.checkIn == (if p.checkIn.Some? then p.checkIn.value else was.checkIn) &&
      now.checkOut == (if p.checkOut.Some? then p.checkOut.value else was.checkOut) &&
      now.status == was.status && now.totalPrice == was.totalPrice
  {}

  // ---------------------------------------------------------------- room and hotel statements

  predicate NumberFree(sh: Shard, hotelId: Id, number: JsString, except: Id) {
    forall r :: r in sh.rooms && r != except ==> !(sh.rooms[r].hotelId == hotelId && sh.rooms[r].number == number)
  }

  function InsertRoom(sh: Shard, id: Id, room: Room): Result<Shard, DbError> {
    if room.hotelId !in sh.hotels then Err(NotFound)
    else if !NumberFree(sh, room.hotelId, room.number, id) || id in sh.rooms then Err(Taken)
    else Ok(sh.(rooms := sh.rooms[id := room]))
  }

  datatype RoomPatch = RoomPatch(hotelId: Option<Id>, number: Option<JsString>, pricePerNight: Option<nat>, capacity: Option<nat>)

  function PatchedRoom(r: Room, p: RoomPatch): Room {
    Room(Or(p.hotelId, r.hotelId), Or(p.number, r.number), Or(p.pricePerNight, r.pricePerNight), Or(p.capacity, r.capacity))
  }

  function PatchRoom(sh: Shard, id: Id, p: RoomPatch): Result<Shard, DbError> {
    if id !in sh.rooms then Err(NotFound)
    else
      var room := PatchedRoom(sh.rooms[id], p);
      if room.hotelId !in sh.hotels then Err(Constraint)
      else if !NumberFree(sh, room.hotelId, room.number, id) then Err(Taken)
      else Ok(sh.(rooms := sh.rooms[id := room]))
  }

  function DeleteRoom(sh: Shard, id: Id): Result<Shard, DbError> {
    if id !in sh.rooms then Err(NotFound)
    else if exists b :: b in sh.bookings && sh.bookings[b].roomId == id then Err(Constraint)
    else Ok(sh.(rooms := sh.rooms - {id}))
  }

  function InsertHotel(sh: Shard, id: Id, hotel: Hotel): Result<Shard, DbError> {
    if id in sh.hotels then Err(Constraint) else Ok(sh.(hotels := sh.hotels[id := hotel]))
  }

  function PatchHotel(sh: Shard, id: Id, city: Option<JsString>): Result<Shard, DbError> {
    if id !in sh.hotels then Err(NotFound)
    else Ok(sh.(hotels := sh.hotels[id := Hotel(Or(city, sh.hotels[id].city))]))
  }

  function DeleteHotel(sh: Shard, id: Id): Result<Shard, DbError> {
    if id !in sh.hotels then Err(NotFound)
    else if exists r :: r in sh.rooms && sh.rooms[r].hotelId == id then Err(Constraint)
    else Ok(sh.(hotels := sh.hotels - {id}))
  }

  // ---------------------------------------------------------------- no double booking, statement by statement

  /** Writing one row keeps rooms from being promised twice exactly when the row clashes with no other. */
  lemma PutKeepsNoOverlap(m: map<Id, Booking>, id: Id, b: Booking)
    requires NoOverlap(m)
    ensures NoOverlap(m[id := b]) <==>
      (Active(b.status) ==> !IsTaken(m, b.roomId, b.checkIn, b.checkOut, Some(id)))
  {
    var m' := m[id := b];
    if Active(b.status) && IsTaken(m, b.roomId, b.checkIn, b.checkOut, Some(id)) {
      var x :| x in m && x != id && Blocks(m[x], b.roomId, b.checkIn, b.checkOut);
      assert x in m' && Blocks(m'[x], m'[id].roomId, m'[id].checkIn, m'[id].checkOut);
    } else {
      forall x, y | x in m' && y in m' && x != y && Active(m'[y].status)
        ensures !Blocks(m'[x], m'[y].roomId, m'[y].checkIn, m'[y].checkOut)
      {
        if x == id { assert y in m; } else { assert x in m; }
      }
    }
  }

  lemma DropKeepsNoOverlap(m: map<Id, Booking>, id: Id)
    requires NoOverlap(m)
    ensures NoOverlap(m - {id})
  {}

  /** The reservation transaction never promises a room twice. */
  lemma ReserveKeepsNoOverlap(sh: Shard, q: Request)
    requires NoOverlap(sh.bookings) && Reserve(sh, q, None).Ok?
    ensures NoOverlap(Reserve(sh, q, None).value.bookings)
  {
    PutKeepsNoOverlap(sh.bookings, q.id, NewRow(sh.rooms[q.roomId], q));
  }

  /** Nor does the local relocation, although its check looks past the old booking. */
  lemma RelocateKeepsNoOverlap(sh: Shard, q: Request, oldId: Id)
    requires NoOverlap(sh.bookings) && ReserveAndCancel(sh, q, oldId).Ok?
    ensures NoOverlap(ReserveAndCancel(sh, q, oldId).value.bookings)
  {
    var m := sh.bookings;
    var row := NewRow(sh.rooms[q.roomId], q);
    if oldId == q.id {
      assert ReserveAndCancel(sh, q, oldId).value.bookings == m[q.id := row.(status := CANCELLED)];
      PutKeepsNoOverlap(m, q.id, row.(status := CANCELLED));
    } else {
      var cancelled := m[oldId].(status := CANCELLED);
      PutKeepsNoOverlap(m, oldId, cancelled);
      var m1 := m[oldId := cancelled];
      PutKeepsNoOverlap(m1, q.id, row);
      assert ReserveAndCancel(sh, q, oldId).value.bookings == m1[q.id := row];
    }
  }

  /**
   PATCH has no overlap check. It keeps rooms from being promised twice exactly when the patched
   booking is inactive or its new room is free for its new dates.
   */
  lemma PatchKeepsNoOverlapExactly(sh: Shard, id: Id, p: BookingPatch)
    requires NoOverlap(sh.bookings) && PatchBooking(sh, id, p).Ok?
    ensures var b := Patched(sh.bookings[id], p);
      NoOverlap(PatchBooking(sh, id, p).value.bookings) <==>
        (Active(b.status) ==> !IsTaken(sh.bookings, b.roomId, b.checkIn, b.checkOut, Some(id)))
  {
    PutKeepsNoOverlap(sh.bookings, id, Patched(sh.bookings[id], p));
  }

  /**
   Setting a status without looking, as the last saga step does, keeps rooms from being promised
   twice exactly when the status set is inactive or the booking's room is free of others for its dates.
   */
  lemma SetStatusKeepsNoOverlapExactly(sh: Shard, id: Id, status: Status)
    requires NoOverlap(sh.bookings) && id in sh.bookings
    ensures var b := sh.bookings[id];
      NoOverlap(SetStatus(sh, id, status).value.bookings) <==>
        (Active(status) ==> !IsTaken(sh.bookings, b.roomId, b.checkIn, b.checkOut, Some(id)))
  {
    PutKeepsNoOverlap(sh.bookings, id, sh.bookings[id].(status := status));
  }

  /** A change between active statuses is always safe. */
  lemma ActiveStaysSafe(sh: Shard, id: Id, status: Status)
    requires NoOverlap(sh.bookings) && id in sh.bookings
    requires Active(sh.bookings[id].status) || !Active(status)
    ensures NoOverlap(SetStatus(sh, id, status).value.bookings)
  {
    SetStatusKeepsNoOverlapExactly(sh, id, status);
  }
}
