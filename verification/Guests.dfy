/**
 Referential integrity across nodes (src/guests/guests.service.ts, assertGuestExists in
 src/bookings/bookings.service.ts): guests live on the global node, their bookings on the shards,
 and no foreign key joins them.
 */
module Guests {
  import opened Wrappers
  import opened JsText
  import opened Cluster
  import opened Routing
  import opened BookingRuns
  import opened SagaRuns
  import opened BookingsService
  import opened FanOut

  /** Every stored booking names an existing guest. */
  ghost predicate Stored(w: World, guests: set<Id>) {
    forall i, b :: 0 <= i < |w.shards| && b in w.shards[i].bookings ==> w.shards[i].bookings[b].guestId in guests
  }

  /** Some shard holds a booking of the guest. */
  ghost predicate HasBookings(shards: seq<Shard>, guestId: Id) {
    exists i, b :: 0 <= i < |shards| && b in shards[i].bookings && shards[i].bookings[b].guestId == guestId
  }

  /** A relocation that has read its booking and may still copy it. */
  predicate Copying(p: Proc) { p.Moving? && p.stage == Read && !p.crashed }

  /** Every stored booking, and every booking a relocation is about to copy, names an existing guest. */
  ghost predicate Intact(w: World, guests: set<Id>) {
    Stored(w, guests) &&
    (forall r :: r in w.procs && Copying(w.procs[r]) ==> w.procs[r].plan.original.guestId in guests)
  }

  /** The guest an event brings in: the services check it before the event. */
  function Introduces(e: Event): Option<Id> {
    match e
    case CreateBooking(_, guestId, _, _, _) => Some(guestId)
    case UpdateBooking(_, patch) => patch.guestId
    case _ => None
  }

  /** The guest an event writes into a booking, if it goes through now. */
  function Writes(rt: Routing, w: World, e: Event): Option<Id>
    requires Sized(rt, w)
  {
    match e
    case CreateBooking(roomId, guestId, checkIn, checkOut, uuid) =>
      var id := rt.childId(roomId, uuid);
      KeysRoute(rt, roomId);
      if checkOut > checkIn && id !in w.used &&
        Reserve(At(rt, w, roomId), Request(id, roomId, guestId, checkIn, checkOut, PENDING), None).Ok?
      then Some(guestId) else None
    case UpdateBooking(id, p) =>
      KeysRoute(rt, id);
      if (p.roomId.Some? ==> rt.bucketOf(p.roomId.value) == rt.bucketOf(id)) && PatchBooking(At(rt, w, id), id, p).Ok?
      then p.guestId else None
    case LocalTx(req, works) =>
      if AtStage(w, req, Read) && IsLocal(rt, w.procs[req].plan) && works then
        var plan := w.procs[req].plan;
        KeysRoute(rt, plan.id);
        if ReserveAndCancel(At(rt, w, plan.id), Reservation(plan, plan.original.status), plan.id).Ok?
        then Some(plan.original.guestId) else None
      else None
    case T1(req, works) =>
      if AtStage(w, req, Read) && !IsLocal(rt, w.procs[req].plan) && works then
        var plan := w.procs[req].plan;
        KeysRoute(rt, plan.roomId);
        if Reserve(At(rt, w, plan.roomId), Reservation(plan, PENDING), None).Ok? then Some(plan.original.guestId) else None
      else None
    case _ => None
  }

  // ---------------------------------------------------------------- one event

  /** The rows after an event name the guests of the rows before it, and the one it writes. */
  ghost predicate NamesOnly(w: World, w': World, written: Option<Id>) {
    forall i, b :: 0 <= i < |w'.shards| && b in w'.shards[i].bookings ==>
      written == Some(w'.shards[i].bookings[b].guestId) ||
      (i < |w.shards| && b in w.shards[i].bookings && w.shards[i].bookings[b].guestId == w'.shards[i].bookings[b].guestId)
  }

  lemma BookingEventNames(rt: Routing, w: World, e: Event)
    requires Sized(rt, w) && (e.CreateBooking? || e.UpdateBooking?)
    ensures NamesOnly(w, Apply(rt, w, e), Writes(rt, w, e))
    ensures Writes(rt, w, e).Some? ==> HasBookings(Apply(rt, w, e).shards, Writes(rt, w, e).value)
  {
    var id := if e.CreateBooking? then rt.childId(e.roomId, e.uuid) else e.id;
    var i := ForKey(rt, if e.CreateBooking? then e.roomId else e.id);
    KeysRoute(rt, if e.CreateBooking? then e.roomId else e.id);
    if Writes(rt, w, e).Some? {
      assert id in Apply(rt, w, e).shards[i].bookings;
    }
  }

  lemma CopyEventNames(rt: Routing, w: World, e: Event)
    requires Sized(rt, w) && (e.LocalTx? || e.T1?)
    ensures NamesOnly(w, Apply(rt, w, e), Writes(rt, w, e))
    ensures Writes(rt, w, e).Some? ==> HasBookings(Apply(rt, w, e).shards, Writes(rt, w, e).value)
  {
    if AtStage(w, e.req, Read) {
      var plan := w.procs[e.req].plan;
      KeysRoute(rt, plan.id);
      KeysRoute(rt, plan.roomId);
      if Writes(rt, w, e).Some? {
        assert plan.newId in Apply(rt, w, e).shards[ForKey(rt, plan.roomId)].bookings;
      }
    }
  }

  /** A change of status or a deletion names nobody new. */
  lemma StatusNames(rt: Routing, w: World, key: Id, id: Id, among: set<Status>, status: Status)
    requires Sized(rt, w) && ForKey(rt, key) < |w.shards|
    ensures var sh := At(rt, w, key);
      NamesOnly(w, Commit(rt, w, key, SetStatus(sh, id, status)), None) &&
      NamesOnly(w, Commit(rt, w, key, Ok(SetStatusIf(sh, id, among, status).0)), None) &&
      NamesOnly(w, Commit(rt, w, key, DeleteBooking(sh, id)), None)
  {}

  lemma StatusEventNames(rt: Routing, w: World, e: Event)
    requires Sized(rt, w) && (e.RemoveBooking? || e.CommitCancel?)
    ensures NamesOnly(w, Apply(rt, w, e), None)
  {
    if e.RemoveBooking? {
      KeysRoute(rt, e.id);
      StatusNames(rt, w, e.id, e.id, {}, CANCELLED);
    } else if e.req in w.procs && w.procs[e.req].Cancelling? {
      KeysRoute(rt, w.procs[e.req].id);
      StatusNames(rt, w, w.procs[e.req].id, w.procs[e.req].id, {}, CANCELLED);
    }
  }

  lemma T2Names(rt: Routing, w: World, e: Event)
    requires Sized(rt, w) && e.T2?
    ensures NamesOnly(w, Apply(rt, w, e), None)
  {
    if AtStage(w, e.req, Reserved) {
      var plan := w.procs[e.req].plan;
      KeysRoute(rt, plan.id);
      StatusNames(rt, w, plan.id, plan.id, ACTIVE, CANCELLED);
      var after := Commit(rt, w, plan.id, Ok(SetStatusIf(At(rt, w, plan.id), plan.id, ACTIVE, CANCELLED).0));
      assert Apply(rt, w, e).shards == after.shards || Apply(rt, w, e).shards == w.shards;
    }
  }

  lemma C1Names(rt: Routing, w: World, e: Event)
    requires Sized(rt, w) && e.C1?
    ensures NamesOnly(w, Apply(rt, w, e), None)
  {
    if AtStage(w, e.req, Aborting) {
      var plan := w.procs[e.req].plan;
      KeysRoute(rt, plan.roomId);
      StatusNames(rt, w, plan.roomId, plan.newId, {PENDING}, CANCELLED);
      var after := Commit(rt, w, plan.roomId, Ok(SetStatusIf(At(rt, w, plan.roomId), plan.newId, {PENDING}, CANCELLED).0));
      assert Apply(rt, w, e).shards == after.shards || Apply(rt, w, e).shards == w.shards;
    }
  }

  lemma T3Names(rt: Routing, w: World, e: Event)
    requires Sized(rt, w) && e.T3?
    ensures NamesOnly(w, Apply(rt, w, e), None)
  {
    if AtStage(w, e.req, SourceCancelled) {
      var plan := w.procs[e.req].plan;
      KeysRoute(rt, plan.roomId);
      StatusNames(rt, w, plan.roomId, plan.newId, {}, plan.original.status);
      var after := Commit(rt, w, plan.roomId, SetStatus(At(rt, w, plan.roomId), plan.newId, plan.original.status));
      assert Apply(rt, w, e).shards == after.shards || Apply(rt, w, e).shards == w.shards;
    }
  }

  lemma OtherEventNames(rt: Routing, w: World, e: Event)
    requires Sized(rt, w) && !e.CreateBooking? && !e.UpdateBooking? && !e.LocalTx? && !e.T1?
    ensures NamesOnly(w, Apply(rt, w, e), None)
  {
    if e.RemoveBooking? || e.CommitCancel? {
      StatusEventNames(rt, w, e);
    } else if e.T2? {
      T2Names(rt, w, e);
    } else if e.C1? {
      C1Names(rt, w, e);
    } else if e.T3? {
      T3Names(rt, w, e);
    } else {
      BookingsUntouched(rt, w, e);
    }
  }

  /** An event keeps every stored booking's guest existing exactly when the guest it writes exists. */
  lemma StoredKeptExactly(rt: Routing, w: World, e: Event, guests: set<Id>)
    requires Sized(rt, w) && Stored(w, guests)
    ensures Stored(Apply(rt, w, e), guests) <==> (Writes(rt, w, e).Some? ==> Writes(rt, w, e).value in guests)
  {
    if e.CreateBooking? || e.UpdateBooking? {
      BookingEventNames(rt, w, e);
    } else if e.LocalTx? || e.T1? {
      CopyEventNames(rt, w, e);
    } else {
      OtherEventNames(rt, w, e);
    }
    NamesDecide(w, Apply(rt, w, e), Writes(rt, w, e), guests);
  }

  lemma NamesDecide(w: World, w': World, written: Option<Id>, guests: set<Id>)
    requires Stored(w, guests) && NamesOnly(w, w', written) && (written.Some? ==> HasBookings(w'.shards, written.value))
    ensures Stored(w', guests) <==> (written.Some? ==> written.value in guests)
  {}

  /** A relocation after an event has been under way before, or just read a stored booking. */
  lemma CopyHistory(rt: Routing, w: World, e: Event, r: nat)
    requires Sized(rt, w) && r in Apply(rt, w, e).procs && Copying(Apply(rt, w, e).procs[r])
    ensures var p := Apply(rt, w, e).procs[r];
      (r in w.procs && Copying(w.procs[r]) && w.procs[r].plan == p.plan) ||
      (ForKey(rt, p.plan.id) < |w.shards| && p.plan.id in At(rt, w, p.plan.id).bookings &&
       At(rt, w, p.plan.id).bookings[p.plan.id] == p.plan.original)
  {
    ProcHistory(rt, w, e, r);
    if Starts(rt, w, e, r) { KeysRoute(rt, e.id); }
  }

  /** An event keeps integrity exactly when the guest it writes exists; relocations copy existing guests. */
  lemma IntactKeptExactly(rt: Routing, w: World, e: Event, guests: set<Id>)
    requires Sized(rt, w) && Intact(w, guests)
    ensures Intact(Apply(rt, w, e), guests) <==> (Writes(rt, w, e).Some? ==> Writes(rt, w, e).value in guests)
  {
    StoredKeptExactly(rt, w, e, guests);
    forall r | r in Apply(rt, w, e).procs && Copying(Apply(rt, w, e).procs[r])
      ensures Apply(rt, w, e).procs[r].plan.original.guestId in guests
    {
      CopyHistory(rt, w, e, r);
    }
  }

  /** Only a create or an update can write a guest that does not exist. */
  lemma CopiesAreKnown(rt: Routing, w: World, e: Event, guests: set<Id>)
    requires Sized(rt, w) && Intact(w, guests) && Writes(rt, w, e).Some?
    ensures Writes(rt, w, e).value in guests || Introduces(e) == Writes(rt, w, e)
  {}

  /** No event but a checked create or update can bring in a guest. */
  lemma IntactKept(rt: Routing, w: World, e: Event, guests: set<Id>)
    requires Sized(rt, w) && Intact(w, guests)
    requires Introduces(e).Some? ==> Introduces(e).value in guests
    ensures Intact(Apply(rt, w, e), guests)
  {
    IntactKeptExactly(rt, w, e, guests);
    if Writes(rt, w, e).Some? { CopiesAreKnown(rt, w, e, guests); }
  }

  lemma {:induction false} IntactAlways(rt: Routing, w: World, es: seq<Event>, guests: set<Id>)
    requires Sized(rt, w) && Intact(w, guests)
    requires forall k :: 0 <= k < |es| && Introduces(es[k]).Some? ==> Introduces(es[k]).value in guests
    ensures Intact(Run(rt, w, es), guests)
  {
    if es != [] {
      IntactAlways(rt, w, es[..|es| - 1], guests);
      IntactKept(rt, Run(rt, w, es[..|es| - 1]), es[|es| - 1], guests);
    }
  }

  // ---------------------------------------------------------------- the guest service

  function BookingsOf(sh: Shard, guestId: Id): set<Id> { set b | b in sh.bookings && sh.bookings[b].guestId == guestId }

  function SumOf(parts: seq<Part<nat>>): nat {
    if parts == [] then 0 else SumOf(parts[..|parts| - 1]) + parts[|parts| - 1].result
  }

  lemma {:induction false} ZeroSum(parts: seq<Part<nat>>)
    ensures SumOf(parts) == 0 <==> forall k :: 0 <= k < |parts| ==> parts[k].result == 0
  {
    if parts != [] { ZeroSum(parts[..|parts| - 1]); }
  }

  /** The counts of the shards that are up. */
  function CountsOf(shards: seq<Shard>, up: seq<bool>, guestId: Id): (answers: seq<Option<nat>>)
    requires |up| == |shards|
    ensures |answers| == |shards|
  {
    seq(|shards|, i requires 0 <= i < |shards| => if up[i] then Some(|BookingsOf(shards[i], guestId)|) else None)
  }

  lemma NoneCounted(shards: seq<Shard>, up: seq<bool>, guestId: Id)
    requires |up| == |shards| && AllAnswered(CountsOf(shards, up, guestId))
    ensures SumOf(Parts(CountsOf(shards, up, guestId))) == 0 <==> !HasBookings(shards, guestId)
  {
    var answers := CountsOf(shards, up, guestId);
    CompleteParts(answers);
    ZeroSum(Parts(answers));
    forall i | 0 <= i < |shards|
      ensures Parts(answers)[i].result == 0 <==> forall b :: b in shards[i].bookings ==> shards[i].bookings[b].guestId != guestId
    {
      var found := BookingsOf(shards[i], guestId);
      assert answers[i] == Some(|found|);
      if found == {} {
        forall b | b in shards[i].bookings ensures shards[i].bookings[b].guestId != guestId { assert b !in found; }
      } else {
        var b :| b in found;
      }
    }
  }

  class GuestsService {
    var guests: set<Id>

    constructor (guests: set<Id>)
      ensures this.guests == guests
    {
      this.guests := guests;
    }

    /**
     Removal asks every shard for the guest's bookings. It goes through exactly when the guest
     exists, the global node takes both reads and the write, every shard answered and none holds
     a booking of the guest.
     */
    method Remove(router: Router, shards: seq<Shard>, guestId: Id, up: seq<bool>, globalUp: bool) returns (removed: bool)
      requires |up| == |shards| == |router.fanOutQueries|
      modifies this, router
      ensures removed <==> globalUp && guestId in old(guests) && (forall i :: 0 <= i < |up| ==> up[i]) && !HasBookings(shards, guestId)
      ensures guests == if removed then old(guests) - {guestId} else old(guests)
    {
      if !globalUp || guestId !in guests { return false; }
      var answers := CountsOf(shards, up, guestId);
      assert AllAnswered(answers) <==> forall i :: 0 <= i < |up| ==> up[i] by {
        assert forall i :: 0 <= i < |up| ==> (answers[i].Some? <==> up[i]);
      }
      var r := router.Gather(answers, false);
      if r.Err? { return false; }
      NoneCounted(shards, up, guestId);
      var bookings := SumOf(r.value.parts);
      if bookings > 0 { return false; }
      guests := guests - {guestId};
      removed := true;
    }
  }

  // ---------------------------------------------------------------- one operation at a time

  datatype Op =
    | CreateGuest(guestId: Id, works: bool)
    | RemoveGuest(guestId: Id, up: seq<bool>, globalUp: bool)
    | Book(roomId: Id, guestId: Id, checkIn: int, checkOut: int, uuid: JsString, works: bool)
    | Patch(id: Id, patch: BookingPatch, works: bool)
    | Relocate(id: Id, roomId: Id, uuid: JsString, fates: Fates, taken: nat)
    | Other(events: seq<Event>)

  datatype State = State(guests: set<Id>, w: World)

  /** The first events of a request. */
  function Begun(events: seq<Event>, taken: nat): seq<Event> { if taken < |events| then events[..taken] else events }

  /** The world once a request has been served. */
  function Rested(w: World): World { w.(procs := map[]) }

  predicate IntroducesNobody(events: seq<Event>) { forall k :: 0 <= k < |events| ==> Introduces(events[k]).None? }

  /**
   One request, served alone. An operation whose checks fail, or whose nodes are down, changes
   nothing; a relocation may stop after any of its steps; any other requests, such as cancellations,
   are the events they consist of.
   */
  ghost function Serve(rt: Routing, s: State, op: Op): (s': State)
    requires Sized(rt, s.w)
    ensures Sized(rt, s'.w)
  {
    match op
    case CreateGuest(g, works) => if works then s.(guests := s.guests + {g}) else s
    case RemoveGuest(g, up, globalUp) =>
      if globalUp && g in s.guests && |up| == |s.w.shards| && (forall i :: 0 <= i < |up| ==> up[i]) && !HasBookings(s.w.shards, g)
      then s.(guests := s.guests - {g}) else s
    case Book(roomId, g, checkIn, checkOut, uuid, works) =>
      if works && g in s.guests then s.(w := Run(rt, s.w, [CreateBooking(roomId, g, checkIn, checkOut, uuid)])) else s
    case Patch(id, patch, works) =>
      if works && (patch.guestId.Some? ==> patch.guestId.value in s.guests) then s.(w := Run(rt, s.w, [UpdateBooking(id, patch)])) else s
    case Relocate(id, roomId, uuid, fates, taken) =>
      s.(w := Rested(Run(rt, s.w, Begun(RelocateEvents(id, roomId, uuid, fates), taken))))
    case Other(events) =>
      if IntroducesNobody(events) then s.(w := Rested(Run(rt, s.w, events))) else s
  }

  lemma ServeKeeps(rt: Routing, s: State, op: Op)
    requires Sized(rt, s.w) && s.w.procs == map[] && Intact(s.w, s.guests)
    ensures var s' := Serve(rt, s, op); s'.w.procs == map[] && Intact(s'.w, s'.guests)
  {
    match op
    case CreateGuest(_, _) =>
    case RemoveGuest(g, up, globalUp) =>
    case Book(roomId, g, checkIn, checkOut, uuid, works) =>
      var e := CreateBooking(roomId, g, checkIn, checkOut, uuid);
      RunOne(rt, s.w, e);
      if g in s.guests { IntactKept(rt, s.w, e, s.guests); }
    case Patch(id, patch, works) =>
      RunOne(rt, s.w, UpdateBooking(id, patch));
      if patch.guestId.Some? ==> patch.guestId.value in s.guests { IntactKept(rt, s.w, UpdateBooking(id, patch), s.guests); }
    case Relocate(id, roomId, uuid, fates, taken) =>
      IntactAlways(rt, s.w, Begun(RelocateEvents(id, roomId, uuid, fates), taken), s.guests);
    case Other(events) =>
      if IntroducesNobody(events) { IntactAlways(rt, s.w, events, s.guests); }
  }

  ghost function ServeAll(rt: Routing, s: State, ops: seq<Op>): (s': State)
    requires Sized(rt, s.w)
    ensures Sized(rt, s'.w)
  {
    if ops == [] then s else Serve(rt, ServeAll(rt, s, ops[..|ops| - 1]), ops[|ops| - 1])
  }

  /**
   Served one at a time, with shards failing at will, no sequence of requests ever leaves a booking
   whose guest does not exist.
   */
  lemma {:induction false} NoOrphanBookings(rt: Routing, s: State, ops: seq<Op>)
    requires Sized(rt, s.w) && s.w.procs == map[] && Intact(s.w, s.guests)
    ensures var s' := ServeAll(rt, s, ops); s'.w.procs == map[] && Intact(s'.w, s'.guests)
  {
    if ops != [] {
      NoOrphanBookings(rt, s, ops[..|ops| - 1]);
      ServeKeeps(rt, ServeAll(rt, s, ops[..|ops| - 1]), ops[|ops| - 1]);
    }
  }
}
