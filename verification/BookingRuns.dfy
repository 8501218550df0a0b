/**
 Interleaved runs of the hotel, room and booking operations over the shards
 (src/bookings/bookings.service.ts, src/rooms/rooms.service.ts, src/hotels/hotels.service.ts).

 A Serializable transaction and a single statement are one atomic step. Operations that read first
 and write later are processes: cancel, and relocate with its saga steps T1, T2, C1 and T3. A
 process may stop between any two steps, and a failed write has no effect. Identifiers are fresh.
 */
module BookingRuns {
  import opened Wrappers
  import opened JsText
  import opened Cluster
  import opened Routing

  /** What a relocation read before it wrote anything, and the identifier it drew. */
  datatype Plan = Plan(id: Id, original: Booking, newId: Id, roomId: Id)

  datatype Outcome = LocalDone | LocalFailed | T1Failed | Relocated | T3Failed | Aborted(compensated: bool)

  /** How far a relocation has come. */
  datatype Stage = Read | Reserved | SourceCancelled | Aborting | Finished(outcome: Outcome)

  datatype Proc = Cancelling(id: Id) | Moving(plan: Plan, stage: Stage, crashed: bool)

  /** The shards, the processes by request number, and all identifiers drawn so far. */
  datatype World = World(shards: seq<Shard>, procs: map<nat, Proc>, used: set<Id>)

  datatype Event =
    | CreateHotel(city: JsString, uuid: JsString)
    | UpdateHotel(id: Id, newCity: Option<JsString>)
    | RemoveHotel(id: Id)
    | CreateRoom(room: Room, uuid: JsString)
    | UpdateRoom(id: Id, roomPatch: RoomPatch)
    | RemoveRoom(id: Id)
    | CreateBooking(roomId: Id, guestId: Id, checkIn: int, checkOut: int, uuid: JsString)
    | UpdateBooking(id: Id, patch: BookingPatch)
    | RemoveBooking(id: Id)
    | BeginCancel(req: nat, id: Id)
    | CommitCancel(req: nat)
    | BeginRelocate(req: nat, id: Id, roomId: Id, uuid: JsString)
    | LocalTx(req: nat, works: bool)
    | T1(req: nat, works: bool)
    | T2(req: nat, works: bool)
    | C1(req: nat, works: bool)
    | T3(req: nat, works: bool)
    | Crash(req: nat)

  // ---------------------------------------------------------------- steps

  ghost predicate Sized(rt: Routing, w: World) { Sound(rt) && |w.shards| == rt.shardCount }

  /** The shard that owns a key. */
  function At(rt: Routing, w: World, key: Id): Shard
    requires ForKey(rt, key) < |w.shards|
  {
    w.shards[ForKey(rt, key)]
  }

  /** The world after a statement on the shard that owns a key; a refused statement changes nothing. */
  function Commit(rt: Routing, w: World, key: Id, r: Result<Shard, DbError>): World
    requires ForKey(rt, key) < |w.shards|
  {
    if r.Ok? then w.(shards := w.shards[ForKey(rt, key) := r.value]) else w
  }

  function Draw(w: World, id: Id): World { w.(used := w.used + {id}) }

  function Advance(w: World, req: nat, stage: Stage): World
    requires req in w.procs && w.procs[req].Moving?
  {
    w.(procs := w.procs[req := w.procs[req].(stage := stage)])
  }

  predicate AtStage(w: World, req: nat, stage: Stage) {
    req in w.procs && w.procs[req].Moving? && w.procs[req].stage == stage && !w.procs[req].crashed
  }

  function Reservation(plan: Plan, status: Status): Request {
    Request(plan.newId, plan.roomId, plan.original.guestId, plan.original.checkIn, plan.original.checkOut, status)
  }

  predicate IsLocal(rt: Routing, plan: Plan) { ForKey(rt, plan.id) == ForKey(rt, plan.roomId) }

  const ACTIVE: set<Status> := {PENDING, CONFIRMED}

  /** One step. An event that is not enabled leaves the world as it is. */
  function Apply(rt: Routing, w: World, e: Event): (w': World)
    requires Sized(rt, w)
    ensures Sized(rt, w')
  {
    match e
    case CreateHotel(city, uuid) =>
      var id := rt.hotelId(city, uuid);
      KeysRoute(rt, id);
      if id in w.used then w else Draw(Commit(rt, w, id, InsertHotel(At(rt, w, id), id, Hotel(city))), id)
    case UpdateHotel(id, city) =>
      KeysRoute(rt, id);
      Commit(rt, w, id, PatchHotel(At(rt, w, id), id, city))
    case RemoveHotel(id) =>
      KeysRoute(rt, id);
      Commit(rt, w, id, DeleteHotel(At(rt, w, id), id))
    case CreateRoom(room, uuid) =>
      var id := rt.childId(room.hotelId, uuid);
      KeysRoute(rt, room.hotelId);
      if id in w.used then w
      else Draw(Commit(rt, w, room.hotelId, InsertRoom(At(rt, w, room.hotelId), id, room)), id)
    case UpdateRoom(id, p) =>
      KeysRoute(rt, id);
      if p.hotelId.Some? && rt.bucketOf(p.hotelId.value) != rt.bucketOf(id) then w
      else Commit(rt, w, id, PatchRoom(At(rt, w, id), id, p))
    case RemoveRoom(id) =>
      KeysRoute(rt, id);
      Commit(rt, w, id, DeleteRoom(At(rt, w, id), id))
    case CreateBooking(roomId, guestId, checkIn, checkOut, uuid) =>
      var id := rt.childId(roomId, uuid);
      KeysRoute(rt, roomId);
      if checkOut <= checkIn || id in w.used then w
      else Draw(Commit(rt, w, roomId,
        Reserve(At(rt, w, roomId), Request(id, roomId, guestId, checkIn, checkOut, PENDING), None)), id)
    case UpdateBooking(id, p) =>
      KeysRoute(rt, id);
      if p.roomId.Some? && rt.bucketOf(p.roomId.value) != rt.bucketOf(id) then w
      else Commit(rt, w, id, PatchBooking(At(rt, w, id), id, p))
    case RemoveBooking(id) =>
      KeysRoute(rt, id);
      Commit(rt, w, id, DeleteBooking(At(rt, w, id), id))
    case BeginCancel(req, id) =>
      KeysRoute(rt, id);
      var rows := At(rt, w, id).bookings;
      if req in w.procs || id !in rows || !Active(rows[id].status) then w
      else w.(procs := w.procs[req := Cancelling(id)])
    case CommitCancel(req) =>
      if req !in w.procs || !w.procs[req].Cancelling? then w
      else
        var id := w.procs[req].id;
        KeysRoute(rt, id);
        Commit(rt, w, id, SetStatus(At(rt, w, id), id, CANCELLED)).(procs := w.procs - {req})
    case BeginRelocate(req, id, roomId, uuid) =>
      KeysRoute(rt, id);
      var rows := At(rt, w, id).bookings;
      var newId := rt.childId(roomId, uuid);
      if req in w.procs || newId in w.used || id !in rows || !Active(rows[id].status) || rows[id].roomId == roomId then w
      else Draw(w.(procs := w.procs[req := Moving(Plan(id, rows[id], newId, roomId), Read, false)]), newId)
    case LocalTx(req, works) =>
      if !AtStage(w, req, Read) || !IsLocal(rt, w.procs[req].plan) then w
      else
        var plan := w.procs[req].plan;
        KeysRoute(rt, plan.id);
        var r := ReserveAndCancel(At(rt, w, plan.id), Reservation(plan, plan.original.status), plan.id);
        if works && r.Ok? then Advance(Commit(rt, w, plan.id, r), req, Finished(LocalDone))
        else Advance(w, req, Finished(LocalFailed))
    case T1(req, works) =>
      if !AtStage(w, req, Read) || IsLocal(rt, w.procs[req].plan) then w
      else
        var plan := w.procs[req].plan;
        KeysRoute(rt, plan.roomId);
        var r := Reserve(At(rt, w, plan.roomId), Reservation(plan, PENDING), None);
        if works && r.Ok? then Advance(Commit(rt, w, plan.roomId, r), req, Reserved)
        else Advance(w, req, Finished(T1Failed))
    case T2(req, works) =>
      if !AtStage(w, req, Reserved) then w
      else
        var plan := w.procs[req].plan;
        KeysRoute(rt, plan.id);
        var (sh, count) := SetStatusIf(At(rt, w, plan.id), plan.id, ACTIVE, CANCELLED);
        if works && count > 0 then Advance(Commit(rt, w, plan.id, Ok(sh)), req, SourceCancelled)
        else Advance(w, req, Aborting)
    case C1(req, works) =>
      if !AtStage(w, req, Aborting) then w
      else
        var plan := w.procs[req].plan;
        KeysRoute(rt, plan.roomId);
        var (sh, count) := SetStatusIf(At(rt, w, plan.roomId), plan.newId, {PENDING}, CANCELLED);
        if works then Advance(Commit(rt, w, plan.roomId, Ok(sh)), req, Finished(Aborted(true)))
        else Advance(w, req, Finished(Aborted(false)))
    case T3(req, works) =>
      if !AtStage(w, req, SourceCancelled) then w
      else
        var plan := w.procs[req].plan;
        KeysRoute(rt, plan.roomId);
        var r := SetStatus(At(rt, w, plan.roomId), plan.newId, plan.original.status);
        if works && r.Ok? then Advance(Commit(rt, w, plan.roomId, r), req, Finished(Relocated))
        else Advance(w, req, Finished(T3Failed))
    case Crash(req) =>
      if req in w.procs && w.procs[req].Moving? then w.(procs := w.procs[req := w.procs[req].(crashed := true)]) else w
  }

  /** The world after a sequence of events. */
  function Run(rt: Routing, w: World, es: seq<Event>): (w': World)
    requires Sized(rt, w)
    ensures Sized(rt, w')
  {
    if es == [] then w else Apply(rt, Run(rt, w, es[..|es| - 1]), es[|es| - 1])
  }

  // ---------------------------------------------------------------- placement

  /** Rows on their shard, children beside their parents and in the same bucket, identifiers drawn. */
  ghost predicate ShardPlaced(rt: Routing, i: nat, sh: Shard, used: set<Id>) {
    (forall h :: h in sh.hotels ==> ForKey(rt, h) == i && h in used) &&
    (forall r :: r in sh.rooms ==>
      ForKey(rt, r) == i && r in used && sh.rooms[r].hotelId in sh.hotels &&
      rt.bucketOf(r) == rt.bucketOf(sh.rooms[r].hotelId)) &&
    (forall b :: b in sh.bookings ==>
      ForKey(rt, b) == i && b in used && sh.bookings[b].roomId in sh.rooms &&
      rt.bucketOf(b) == rt.bucketOf(sh.bookings[b].roomId))
  }

  ghost predicate Placed(rt: Routing, w: World) {
    forall i :: 0 <= i < |w.shards| ==> ShardPlaced(rt, i, w.shards[i], w.used)
  }

  /** A statement on one shard keeps the placement when its new content is placed. */
  lemma CommitPlaced(rt: Routing, w: World, key: Id, r: Result<Shard, DbError>, used: set<Id>)
    requires Sized(rt, w) && ForKey(rt, key) < |w.shards| && Placed(rt, w) && w.used <= used
    requires r.Ok? ==> ShardPlaced(rt, ForKey(rt, key), r.value, used)
    ensures Placed(rt, Commit(rt, w, key, r).(used := used))
  {
    var w' := Commit(rt, w, key, r).(used := used);
    forall i | 0 <= i < |w'.shards| ensures ShardPlaced(rt, i, w'.shards[i], used) {
      assert ShardPlaced(rt, i, w.shards[i], w.used);
    }
  }

  lemma HotelStatementsPlaced(rt: Routing, i: nat, sh: Shard, used: set<Id>, id: Id, hotel: Hotel, city: Option<JsString>)
    requires ShardPlaced(rt, i, sh, used) && ForKey(rt, id) == i
    ensures InsertHotel(sh, id, hotel).Ok? ==> ShardPlaced(rt, i, InsertHotel(sh, id, hotel).value, used + {id})
    ensures PatchHotel(sh, id, city).Ok? ==> ShardPlaced(rt, i, PatchHotel(sh, id, city).value, used)
    ensures DeleteHotel(sh, id).Ok? ==> ShardPlaced(rt, i, DeleteHotel(sh, id).value, used)
  {}

  lemma RoomStatementsPlaced(rt: Routing, i: nat, sh: Shard, used: set<Id>, id: Id, room: Room, p: RoomPatch)
    requires ShardPlaced(rt, i, sh, used) && ForKey(rt, id) == i
    ensures rt.bucketOf(id) == rt.bucketOf(room.hotelId) && InsertRoom(sh, id, room).Ok? ==>
      ShardPlaced(rt, i, InsertRoom(sh, id, room).value, used + {id})
    ensures (p.hotelId.Some? ==> rt.bucketOf(p.hotelId.value) == rt.bucketOf(id)) && PatchRoom(sh, id, p).Ok? ==>
      ShardPlaced(rt, i, PatchRoom(sh, id, p).value, used)
    ensures DeleteRoom(sh, id).Ok? ==> ShardPlaced(rt, i, DeleteRoom(sh, id).value, used)
  {}

  /** Writing a booking row, or removing one. */
  lemma BookingRowPlaced(rt: Routing, i: nat, sh: Shard, used: set<Id>, id: Id, b: Booking)
    requires ShardPlaced(rt, i, sh, used) && ForKey(rt, id) == i
    ensures b.roomId in sh.rooms && rt.bucketOf(id) == rt.bucketOf(b.roomId) && id in used ==>
      ShardPlaced(rt, i, sh.(bookings := sh.bookings[id := b]), used)
    ensures ShardPlaced(rt, i, sh.(bookings := sh.bookings - {id}), used)
  {}

  lemma MoreUsed(rt: Routing, i: nat, sh: Shard, used: set<Id>, more: set<Id>)
    requires ShardPlaced(rt, i, sh, used) && used <= more
    ensures ShardPlaced(rt, i, sh, more)
  {}

  lemma ReservePlaced(rt: Routing, i: nat, sh: Shard, used: set<Id>, q: Request, exclude: Option<Id>)
    requires ShardPlaced(rt, i, sh, used) && ForKey(rt, q.id) == i && rt.bucketOf(q.id) == rt.bucketOf(q.roomId)
    ensures Reserve(sh, q, exclude).Ok? ==> ShardPlaced(rt, i, Reserve(sh, q, exclude).value, used + {q.id})
  {
    if Reserve(sh, q, exclude).Ok? {
      MoreUsed(rt, i, sh, used, used + {q.id});
      BookingRowPlaced(rt, i, sh, used + {q.id}, q.id, NewRow(sh.rooms[q.roomId], q));
    }
  }

  /** Status changes, deletions and permitted patches of one booking. */
  lemma BookingStatementsPlaced(rt: Routing, i: nat, sh: Shard, used: set<Id>, id: Id, status: Status, among: set<Status>, p: BookingPatch)
    requires ShardPlaced(rt, i, sh, used) && ForKey(rt, id) == i
    ensures SetStatus(sh, id, status).Ok? ==> ShardPlaced(rt, i, SetStatus(sh, id, status).value, used)
    ensures ShardPlaced(rt, i, SetStatusIf(sh, id, among, status).0, used)
    ensures DeleteBooking(sh, id).Ok? ==> ShardPlaced(rt, i, DeleteBooking(sh, id).value, used)
    ensures (p.roomId.Some? ==> rt.bucketOf(p.roomId.value) == rt.bucketOf(id)) && PatchBooking(sh, id, p).Ok? ==>
      ShardPlaced(rt, i, PatchBooking(sh, id, p).value, used)
  {
    if id in sh.bookings {
      var b := sh.bookings[id];
      BookingRowPlaced(rt, i, sh, used, id, b.(status := status));
      BookingRowPlaced(rt, i, sh, used, id, Patched(b, p));
    }
  }

  lemma ReserveAndCancelPlaced(rt: Routing, i: nat, sh: Shard, used: set<Id>, q: Request, oldId: Id)
    requires ShardPlaced(rt, i, sh, used) && ForKey(rt, q.id) == i && rt.bucketOf(q.id) == rt.bucketOf(q.roomId)
    requires ForKey(rt, oldId) == i && q.id in used
    ensures ReserveAndCancel(sh, q, oldId).Ok? ==> ShardPlaced(rt, i, ReserveAndCancel(sh, q, oldId).value, used)
  {
    ReservePlaced(rt, i, sh, used, q, Some(oldId));
    if Reserve(sh, q, Some(oldId)).Ok? {
      assert used + {q.id} == used;
      BookingStatementsPlaced(rt, i, Reserve(sh, q, Some(oldId)).value, used, oldId, CANCELLED, {}, BookingPatch(None, None, None, None));
    }
  }

  // ---------------------------------------------------------------- processes

  /** The row of a booking, wherever it lives. */
  ghost function Row(rt: Routing, w: World, id: Id): Option<Booking>
    requires Sized(rt, w)
  {
    KeysRoute(rt, id);
    if id in At(rt, w, id).bookings then Some(At(rt, w, id).bookings[id]) else None
  }

  /** What holds of a relocation in flight whatever the other requests do. */
  ghost predicate PlanOk(rt: Routing, w: World, plan: Plan, stage: Stage)
    requires Sized(rt, w)
  {
    plan.id in w.used && plan.newId in w.used && plan.id != plan.newId &&
    rt.bucketOf(plan.newId) == rt.bucketOf(plan.roomId) &&
    Active(plan.original.status) &&
    (stage == Read ==> Row(rt, w, plan.newId) == None)
  }

  ghost predicate ProcsOk(rt: Routing, w: World)
    requires Sized(rt, w)
  {
    (forall r :: r in w.procs && w.procs[r].Moving? ==> PlanOk(rt, w, w.procs[r].plan, w.procs[r].stage)) &&
    (forall r, s :: r in w.procs && s in w.procs && r != s && w.procs[r].Moving? && w.procs[s].Moving? ==>
      w.procs[r].plan.newId != w.procs[s].plan.newId &&
      (w.procs[r].stage == Read ==> w.procs[s].plan.id != w.procs[r].plan.newId))
  }

  /** Placement and well-formed processes: kept by every event. */
  ghost predicate Base(rt: Routing, w: World) { Sized(rt, w) && Placed(rt, w) && ProcsOk(rt, w) }

  /** The bookings whose rows an event may touch. */
  function Touched(rt: Routing, w: World, e: Event): set<Id> {
    match e
    case CreateBooking(roomId, _, _, _, uuid) => {rt.childId(roomId, uuid)} - w.used
    case UpdateBooking(id, _) => {id}
    case RemoveBooking(id) => {id}
    case CommitCancel(req) => if req in w.procs && w.procs[req].Cancelling? then {w.procs[req].id} else {}
    case LocalTx(req, _) => if AtStage(w, req, Read) && IsLocal(rt, w.procs[req].plan) then {w.procs[req].plan.id, w.procs[req].plan.newId} else {}
    case T1(req, _) => if AtStage(w, req, Read) && !IsLocal(rt, w.procs[req].plan) then {w.procs[req].plan.newId} else {}
    case T2(req, _) => if AtStage(w, req, Reserved) then {w.procs[req].plan.id} else {}
    case C1(req, _) => if AtStage(w, req, Aborting) then {w.procs[req].plan.newId} else {}
    case T3(req, _) => if AtStage(w, req, SourceCancelled) then {w.procs[req].plan.newId} else {}
    case _ => {}
  }

  /** An event leaves every row alone that it does not touch. */
  lemma RowFrame(rt: Routing, w: World, e: Event, id: Id)
    requires Sized(rt, w)
    requires id !in Touched(rt, w, e)
    ensures Row(rt, Apply(rt, w, e), id) == Row(rt, w, id)
  {
    KeysRoute(rt, id);
  }

  /** The identifiers an event may give a row to. */
  function Inserted(rt: Routing, w: World, e: Event): set<Id> {
    match e
    case CreateBooking(roomId, _, _, _, uuid) => {rt.childId(roomId, uuid)} - w.used
    case LocalTx(req, _) => if AtStage(w, req, Read) && IsLocal(rt, w.procs[req].plan) then {w.procs[req].plan.newId} else {}
    case T1(req, _) => if AtStage(w, req, Read) && !IsLocal(rt, w.procs[req].plan) then {w.procs[req].plan.newId} else {}
    case _ => {}
  }

  /** Rows appear by insertion only. */
  lemma OnlyInsertsAppear(rt: Routing, w: World, e: Event, id: Id)
    requires Sized(rt, w)
    requires id !in Inserted(rt, w, e) && Row(rt, w, id) == None
    ensures Row(rt, Apply(rt, w, e), id) == None
  {
    KeysRoute(rt, id);
  }

  lemma UsedGrows(rt: Routing, w: World, e: Event)
    requires Sized(rt, w)
    ensures w.used <= Apply(rt, w, e).used
  {}

  lemma HotelEventsPlaced(rt: Routing, w: World, e: Event)
    requires Base(rt, w) && (e.CreateHotel? || e.UpdateHotel? || e.RemoveHotel?)
    ensures Placed(rt, Apply(rt, w, e))
  {
    match e
    case CreateHotel(city, uuid) =>
      var id := rt.hotelId(city, uuid);
      KeysRoute(rt, id);
      HotelStatementsPlaced(rt, ForKey(rt, id), At(rt, w, id), w.used, id, Hotel(city), None);
      CommitPlaced(rt, w, id, InsertHotel(At(rt, w, id), id, Hotel(city)), w.used + {id});
    case UpdateHotel(id, city) =>
      KeysRoute(rt, id);
      HotelStatementsPlaced(rt, ForKey(rt, id), At(rt, w, id), w.used, id, Hotel([]), city);
      CommitPlaced(rt, w, id, PatchHotel(At(rt, w, id), id, city), w.used);
    case RemoveHotel(id) =>
      KeysRoute(rt, id);
      HotelStatementsPlaced(rt, ForKey(rt, id), At(rt, w, id), w.used, id, Hotel([]), None);
      CommitPlaced(rt, w, id, DeleteHotel(At(rt, w, id), id), w.used);
  }

  lemma RoomEventsPlaced(rt: Routing, w: World, e: Event)
    requires Base(rt, w) && (e.CreateRoom? || e.UpdateRoom? || e.RemoveRoom?)
    ensures Placed(rt, Apply(rt, w, e))
  {
    match e
    case CreateRoom(room, uuid) =>
      var id := rt.childId(room.hotelId, uuid);
      KeysRoute(rt, room.hotelId);
      ChildrenStay(rt, room.hotelId, uuid);
      var patch := RoomPatch(None, None, None, None);
      RoomStatementsPlaced(rt, ForKey(rt, id), At(rt, w, room.hotelId), w.used, id, room, patch);
      CommitPlaced(rt, w, room.hotelId, InsertRoom(At(rt, w, room.hotelId), id, room), w.used + {id});
    case UpdateRoom(id, p) =>
      KeysRoute(rt, id);
      RoomStatementsPlaced(rt, ForKey(rt, id), At(rt, w, id), w.used, id, Room(id, [], 0, 0), p);
      if !(p.hotelId.Some? && rt.bucketOf(p.hotelId.value) != rt.bucketOf(id)) {
        CommitPlaced(rt, w, id, PatchRoom(At(rt, w, id), id, p), w.used);
      }
    case RemoveRoom(id) =>
      KeysRoute(rt, id);
      RoomStatementsPlaced(rt, ForKey(rt, id), At(rt, w, id), w.used, id, Room(id, [], 0, 0), RoomPatch(None, None, None, None));
      CommitPlaced(rt, w, id, DeleteRoom(At(rt, w, id), id), w.used);
  }

  lemma BookingEventsPlaced(rt: Routing, w: World, e: Event)
    requires Base(rt, w) && (e.CreateBooking? || e.UpdateBooking? || e.RemoveBooking? || e.CommitCancel?)
    ensures Placed(rt, Apply(rt, w, e))
  {
    match e
    case CreateBooking(roomId, guestId, checkIn, checkOut, uuid) =>
      var id := rt.childId(roomId, uuid);
      KeysRoute(rt, roomId);
      ChildrenStay(rt, roomId, uuid);
      var q := Request(id, roomId, guestId, checkIn, checkOut, PENDING);
      ReservePlaced(rt, ForKey(rt, id), At(rt, w, roomId), w.used, q, None);
      CommitPlaced(rt, w, roomId, Reserve(At(rt, w, roomId), q, None), w.used + {id});
    case UpdateBooking(id, p) =>
      KeysRoute(rt, id);
      BookingStatementsPlaced(rt, ForKey(rt, id), At(rt, w, id), w.used, id, PENDING, {}, p);
      if !(p.roomId.Some? && rt.bucketOf(p.roomId.value) != rt.bucketOf(id)) {
        CommitPlaced(rt, w, id, PatchBooking(At(rt, w, id), id, p), w.used);
      }
    case RemoveBooking(id) =>
      KeysRoute(rt, id);
      BookingStatementsPlaced(rt, ForKey(rt, id), At(rt, w, id), w.used, id, PENDING, {}, NOPATCH);
      CommitPlaced(rt, w, id, DeleteBooking(At(rt, w, id), id), w.used);
    case CommitCancel(req) =>
      if req in w.procs && w.procs[req].Cancelling? {
        var id := w.procs[req].id;
        KeysRoute(rt, id);
        BookingStatementsPlaced(rt, ForKey(rt, id), At(rt, w, id), w.used, id, CANCELLED, {}, NOPATCH);
        CommitPlaced(rt, w, id, SetStatus(At(rt, w, id), id, CANCELLED), w.used);
      }
  }

  /** Every event keeps rows where forKey finds them and aggregates in one bucket. */
  lemma PlacedKept(rt: Routing, w: World, e: Event)
    requires Base(rt, w)
    ensures Placed(rt, Apply(rt, w, e))
  {
    if e.CreateHotel? || e.UpdateHotel? || e.RemoveHotel? {
      HotelEventsPlaced(rt, w, e);
    } else if e.CreateRoom? || e.UpdateRoom? || e.RemoveRoom? {
      RoomEventsPlaced(rt, w, e);
    } else if e.CreateBooking? || e.UpdateBooking? || e.RemoveBooking? || e.CommitCancel? {
      BookingEventsPlaced(rt, w, e);
    } else if e.LocalTx? || e.T1? || e.T2? || e.C1? || e.T3? {
      SagaPlaced(rt, w, e);
    } else {
      OnlyDraws(rt, w, e);
    }
  }

  /** Reading, planning and stopping write no rows. */
  lemma OnlyDraws(rt: Routing, w: World, e: Event)
    requires Base(rt, w) && (e.BeginCancel? || e.BeginRelocate? || e.Crash?)
    ensures Placed(rt, Apply(rt, w, e))
  {
    var w' := Apply(rt, w, e);
    assert w'.shards == w.shards && w.used <= w'.used;
    forall i | 0 <= i < |w'.shards| ensures ShardPlaced(rt, i, w'.shards[i], w'.used) {
      MoreUsed(rt, i, w.shards[i], w.used, w'.used);
    }
  }

  const NOPATCH: BookingPatch := BookingPatch(None, None, None, None)

  lemma SagaPlaced(rt: Routing, w: World, e: Event)
    requires Base(rt, w) && (e.LocalTx? || e.T1? || e.T2? || e.C1? || e.T3?)
    ensures Placed(rt, Apply(rt, w, e))
  {
    if e.req in w.procs && w.procs[e.req].Moving? {
      assert PlanOk(rt, w, w.procs[e.req].plan, w.procs[e.req].stage);
      if e.LocalTx? || e.T1? { InsertStepPlaced(rt, w, e); } else { StatusStepPlaced(rt, w, e); }
    }
  }

  lemma InsertStepPlaced(rt: Routing, w: World, e: Event)
    requires Base(rt, w) && (e.LocalTx? || e.T1?) && e.req in w.procs && w.procs[e.req].Moving?
    requires PlanOk(rt, w, w.procs[e.req].plan, w.procs[e.req].stage)
    ensures Placed(rt, Apply(rt, w, e))
  {
    var plan := w.procs[e.req].plan;
    KeysRoute(rt, plan.roomId);
    assert ForKey(rt, plan.newId) == ForKey(rt, plan.roomId);
    var j := ForKey(rt, plan.roomId);
    var target := w.shards[j];
    assert ShardPlaced(rt, j, target, w.used);
    assert w.used + {plan.newId} == w.used;
    if e.T1? {
      ReservePlaced(rt, j, target, w.used, Reservation(plan, PENDING), None);
      CommitPlaced(rt, w, plan.roomId, Reserve(target, Reservation(plan, PENDING), None), w.used);
    } else if IsLocal(rt, plan) {
      ReserveAndCancelPlaced(rt, j, target, w.used, Reservation(plan, plan.original.status), plan.id);
      CommitPlaced(rt, w, plan.id, ReserveAndCancel(target, Reservation(plan, plan.original.status), plan.id), w.used);
    }
  }

  lemma StatusStepPlaced(rt: Routing, w: World, e: Event)
    requires Base(rt, w) && (e.T2? || e.C1? || e.T3?) && e.req in w.procs && w.procs[e.req].Moving?
    requires PlanOk(rt, w, w.procs[e.req].plan, w.procs[e.req].stage)
    ensures Placed(rt, Apply(rt, w, e))
  {
    var plan := w.procs[e.req].plan;
    var key := if e.T2? then plan.id else plan.newId;
    KeysRoute(rt, plan.id);
    KeysRoute(rt, plan.roomId);
    assert ForKey(rt, plan.newId) == ForKey(rt, plan.roomId);
    var i := ForKey(rt, key);
    var sh := w.shards[i];
    assert ShardPlaced(rt, i, sh, w.used);
    if e.T2? {
      BookingStatementsPlaced(rt, i, sh, w.used, key, CANCELLED, ACTIVE, NOPATCH);
      CommitPlaced(rt, w, key, Ok(SetStatusIf(sh, key, ACTIVE, CANCELLED).0), w.used);
    } else if e.C1? {
      BookingStatementsPlaced(rt, i, sh, w.used, key, CANCELLED, {PENDING}, NOPATCH);
      CommitPlaced(rt, w, plan.roomId, Ok(SetStatusIf(sh, key, {PENDING}, CANCELLED).0), w.used);
    } else {
      BookingStatementsPlaced(rt, i, sh, w.used, key, plan.original.status, {}, NOPATCH);
      CommitPlaced(rt, w, plan.roomId, SetStatus(sh, key, plan.original.status), w.used);
    }
  }

  /** A booking row sits beside its room and under a drawn identifier. */
  lemma RowsArePlaced(rt: Routing, w: World, id: Id)
    requires Sized(rt, w) && Placed(rt, w) && Row(rt, w, id).Some?
    ensures id in w.used
    ensures var b := Row(rt, w, id).value;
      rt.bucketOf(id) == rt.bucketOf(b.roomId) && b.roomId in At(rt, w, b.roomId).rooms
  {
    KeysRoute(rt, id);
    assert ShardPlaced(rt, ForKey(rt, id), At(rt, w, id), w.used);
  }

  /** The relocation an event starts, if it starts one. */
  predicate Starts(rt: Routing, w: World, e: Event, r: nat)
    requires Sized(rt, w)
  {
    e.BeginRelocate? && e.req == r && r !in w.procs && Apply(rt, w, e) != w
  }

  /** A relocation after an event is one from before, with the same plan, or just started. */
  lemma ProcHistory(rt: Routing, w: World, e: Event, r: nat)
    requires Sized(rt, w)
    requires r in Apply(rt, w, e).procs && Apply(rt, w, e).procs[r].Moving?
    ensures var p' := Apply(rt, w, e).procs[r];
      if Starts(rt, w, e, r)
      then p'.stage == Read && p'.plan.newId !in w.used && p'.plan == Plan(e.id, p'.plan.original, rt.childId(e.roomId, e.uuid), e.roomId) &&
           Row(rt, w, e.id) == Some(p'.plan.original) && Active(p'.plan.original.status) && !p'.crashed
      else r in w.procs && w.procs[r].Moving? && p'.plan == w.procs[r].plan && (p'.stage == Read ==> w.procs[r].stage == Read)
  {}

  lemma NoInsertUnderRead(rt: Routing, w: World, e: Event, r: nat)
    requires Base(rt, w)
    requires r in w.procs && w.procs[r].Moving? && w.procs[r].stage == Read
    requires r in Apply(rt, w, e).procs && Apply(rt, w, e).procs[r].Moving? && Apply(rt, w, e).procs[r].stage == Read
    ensures w.procs[r].plan.newId !in Inserted(rt, w, e)
  {
    assert PlanOk(rt, w, w.procs[r].plan, Read);
  }

  lemma PlanKept(rt: Routing, w: World, e: Event, r: nat)
    requires Base(rt, w)
    requires r in Apply(rt, w, e).procs && Apply(rt, w, e).procs[r].Moving?
    ensures var p' := Apply(rt, w, e).procs[r]; PlanOk(rt, Apply(rt, w, e), p'.plan, p'.stage)
  {
    var w' := Apply(rt, w, e);
    var p' := w'.procs[r];
    ProcHistory(rt, w, e, r);
    UsedGrows(rt, w, e);
    if Starts(rt, w, e, r) {
      RowsArePlaced(rt, w, e.id);
      ChildrenStay(rt, e.roomId, e.uuid);
      if Row(rt, w, p'.plan.newId).Some? { RowsArePlaced(rt, w, p'.plan.newId); }
      RowFrame(rt, w, e, p'.plan.newId);
    } else {
      assert PlanOk(rt, w, w.procs[r].plan, w.procs[r].stage);
      if p'.stage == Read {
        NoInsertUnderRead(rt, w, e, r);
        OnlyInsertsAppear(rt, w, e, p'.plan.newId);
      }
    }
  }

  lemma PairKept(rt: Routing, w: World, e: Event, r: nat, s: nat)
    requires Base(rt, w) && r != s
    requires r in Apply(rt, w, e).procs && Apply(rt, w, e).procs[r].Moving?
    requires s in Apply(rt, w, e).procs && Apply(rt, w, e).procs[s].Moving?
    ensures var p, q := Apply(rt, w, e).procs[r], Apply(rt, w, e).procs[s];
      p.plan.newId != q.plan.newId && (p.stage == Read ==> q.plan.id != p.plan.newId)
  {
    ProcHistory(rt, w, e, r);
    ProcHistory(rt, w, e, s);
    if Starts(rt, w, e, r) {
      assert PlanOk(rt, w, w.procs[s].plan, w.procs[s].stage);
    } else {
      assert PlanOk(rt, w, w.procs[r].plan, w.procs[r].stage);
    }
  }

  /** Placement and well-formed processes survive every event. */
  lemma BaseKept(rt: Routing, w: World, e: Event)
    requires Base(rt, w)
    ensures Base(rt, Apply(rt, w, e))
  {
    PlacedKept(rt, w, e);
    var w' := Apply(rt, w, e);
    forall r | r in w'.procs && w'.procs[r].Moving?
      ensures PlanOk(rt, w', w'.procs[r].plan, w'.procs[r].stage)
    {
      PlanKept(rt, w, e, r);
    }
    forall r, s | r in w'.procs && s in w'.procs && r != s && w'.procs[r].Moving? && w'.procs[s].Moving?
      ensures w'.procs[r].plan.newId != w'.procs[s].plan.newId
      ensures w'.procs[r].stage == Read ==> w'.procs[s].plan.id != w'.procs[r].plan.newId
    {
      PairKept(rt, w, e, r, s);
    }
  }

  lemma {:induction false} BaseAlways(rt: Routing, w: World, es: seq<Event>)
    requires Base(rt, w)
    ensures Base(rt, Run(rt, w, es))
  {
    if es != [] {
      BaseAlways(rt, w, es[..|es| - 1]);
      BaseKept(rt, Run(rt, w, es[..|es| - 1]), es[|es| - 1]);
    }
  }

  /** A world at rest: no request in flight. */
  ghost predicate AtRest(rt: Routing, w: World) { Sized(rt, w) && Placed(rt, w) && w.procs == map[] }

  /**
   In every run from a cluster at rest, PATCH included: a booking, its room and its hotel share one
   bucket and lie on the shard their keys route to.
   */
  lemma AggregatesStayTogether(rt: Routing, w: World, es: seq<Event>, id: Id)
    requires AtRest(rt, w)
    requires Row(rt, Run(rt, w, es), id).Some?
    ensures var w' := Run(rt, w, es);
      var b := Row(rt, w', id).value;
      b.roomId in At(rt, w', b.roomId).rooms &&
      var room := At(rt, w', b.roomId).rooms[b.roomId];
      room.hotelId in At(rt, w', room.hotelId).hotels &&
      rt.bucketOf(id) == rt.bucketOf(b.roomId) == rt.bucketOf(room.hotelId) &&
      ForKey(rt, id) == ForKey(rt, b.roomId) == ForKey(rt, room.hotelId)
  {
    BaseAlways(rt, w, es);
    var w' := Run(rt, w, es);
    RowsArePlaced(rt, w', id);
    KeysRoute(rt, id);
    assert ShardPlaced(rt, ForKey(rt, id), At(rt, w', id), w'.used);
  }

  /** No row ever lies on a shard other than the one its key routes to. */
  lemma NothingStrays(rt: Routing, w: World, es: seq<Event>, i: nat, id: Id)
    requires AtRest(rt, w) && i < rt.shardCount
    ensures var sh := Run(rt, w, es).shards[i];
      id in sh.hotels || id in sh.rooms || id in sh.bookings ==> ForKey(rt, id) == i
  {
    BaseAlways(rt, w, es);
    assert ShardPlaced(rt, i, Run(rt, w, es).shards[i], Run(rt, w, es).used);
  }
}
