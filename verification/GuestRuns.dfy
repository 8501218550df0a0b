/**
 Guests and bookings in interleaved runs. The check of a guest and the write of a booking are on
 different nodes, and so are the reading and the copying of a relocation; a removal of the guest may
 come between them. Which removals do harm is settled exactly, for every run.
 */
module GuestRuns {
  import opened Wrappers
  import opened JsText
  import opened Cluster
  import opened Routing
  import opened BookingRuns
  import opened SagaRuns
  import opened Guests
  import R = RelyIsNeeded

  /** The guests, the shards, and the booking requests whose guest has been checked. */
  datatype Site = Site(guests: set<Id>, w: World, checked: map<nat, Event>)

  datatype Act =
    | AddGuest(guestId: Id)
    | DropGuest(guestId: Id)
    | Check(req: nat, e: Event)
    | Execute(req: nat)
    | Abandon(req: nat)
    | Step(e: Event)

  /** One act. DropGuest is the DELETE on the global node; Step is any event that brings in no guest. */
  function Do(rt: Routing, s: Site, a: Act): (s': Site)
    requires Sized(rt, s.w)
    ensures Sized(rt, s'.w)
  {
    match a
    case AddGuest(g) => s.(guests := s.guests + {g})
    case DropGuest(g) => s.(guests := s.guests - {g})
    case Check(req, e) =>
      if req !in s.checked && Introduces(e).Some? && Introduces(e).value in s.guests then s.(checked := s.checked[req := e]) else s
    case Execute(req) =>
      if req in s.checked then s.(w := Apply(rt, s.w, s.checked[req]), checked := s.checked - {req}) else s
    case Abandon(req) => s.(checked := s.checked - {req})
    case Step(e) => if Introduces(e).None? then s.(w := Apply(rt, s.w, e)) else s
  }

  function DoAll(rt: Routing, s: Site, acts: seq<Act>): (s': Site)
    requires Sized(rt, s.w)
    ensures Sized(rt, s'.w)
  {
    if acts == [] then s else Do(rt, DoAll(rt, s, acts[..|acts| - 1]), acts[|acts| - 1])
  }

  // ---------------------------------------------------------------- no booking without its guest

  /** The event an act runs on the shards. */
  function Runs(s: Site, a: Act): Option<Event> {
    match a
    case Execute(req) => if req in s.checked then Some(s.checked[req]) else None
    case Step(e) => if Introduces(e).None? then Some(e) else None
    case _ => None
  }

  /** The act does not orphan a booking: it writes no missing guest and removes no guest that has a booking. */
  ghost predicate Spares(rt: Routing, s: Site, a: Act)
    requires Sized(rt, s.w)
  {
    (a.DropGuest? ==> !HasBookings(s.w.shards, a.guestId)) &&
    (Runs(s, a).Some? && Writes(rt, s.w, Runs(s, a).value).Some? ==> Writes(rt, s.w, Runs(s, a).value).value in s.guests)
  }

  lemma SparesExactly(rt: Routing, s: Site, a: Act)
    requires Sized(rt, s.w) && Stored(s.w, s.guests)
    ensures Stored(Do(rt, s, a).w, Do(rt, s, a).guests) <==> Spares(rt, s, a)
  {
    if Runs(s, a).Some? { StoredKeptExactly(rt, s.w, Runs(s, a).value, s.guests); }
  }

  ghost predicate StoredThroughout(rt: Routing, s: Site, acts: seq<Act>)
    requires Sized(rt, s.w)
  {
    Stored(DoAll(rt, s, acts).w, DoAll(rt, s, acts).guests) && (acts != [] ==> StoredThroughout(rt, s, acts[..|acts| - 1]))
  }

  ghost predicate SparesThroughout(rt: Routing, s: Site, acts: seq<Act>)
    requires Sized(rt, s.w)
  {
    acts != [] ==>
      SparesThroughout(rt, s, acts[..|acts| - 1]) && Spares(rt, DoAll(rt, s, acts[..|acts| - 1]), acts[|acts| - 1])
  }

  /**
   In every interleaved run, each stored booking names an existing guest throughout exactly when every
   write finds its guest still there and every removal finds no stored booking of its guest.
   */
  lemma {:induction false} NoOrphansExactly(rt: Routing, s: Site, acts: seq<Act>)
    requires Sized(rt, s.w) && Stored(s.w, s.guests)
    ensures StoredThroughout(rt, s, acts) <==> SparesThroughout(rt, s, acts)
    decreases |acts|
  {
    if acts != [] {
      var before := DoAll(rt, s, acts[..|acts| - 1]);
      NoOrphansExactly(rt, s, acts[..|acts| - 1]);
      if Stored(before.w, before.guests) { SparesExactly(rt, before, acts[|acts| - 1]); }
      if StoredThroughout(rt, s, acts[..|acts| - 1]) { assert Stored(before.w, before.guests); }
    }
  }

  // ---------------------------------------------------------------- nor one on its way

  /** Every stored booking, every checked request and every relocation about to copy names an existing guest. */
  ghost predicate Guarded(s: Site) {
    Intact(s.w, s.guests) &&
    forall req :: req in s.checked ==> Introduces(s.checked[req]).Some? && Introduces(s.checked[req]).value in s.guests
  }

  /** Somebody still needs the guest. */
  ghost predicate Needed(s: Site, guestId: Id) {
    HasBookings(s.w.shards, guestId) ||
    (exists req :: req in s.checked && Introduces(s.checked[req]) == Some(guestId)) ||
    (exists r :: r in s.w.procs && Copying(s.w.procs[r]) && s.w.procs[r].plan.original.guestId == guestId)
  }

  /** Only a removal can do harm, and it does exactly when somebody still needs the guest. */
  lemma RemovalSafeExactly(rt: Routing, s: Site, a: Act)
    requires Sized(rt, s.w) && Guarded(s)
    ensures Guarded(Do(rt, s, a)) <==> (a.DropGuest? ==> !Needed(s, a.guestId))
  {
    if Runs(s, a).Some? {
      var e := Runs(s, a).value;
      IntactKept(rt, s.w, e, s.guests);
    }
  }

  ghost predicate GuardedThroughout(rt: Routing, s: Site, acts: seq<Act>)
    requires Sized(rt, s.w)
  {
    Guarded(DoAll(rt, s, acts)) && (acts != [] ==> GuardedThroughout(rt, s, acts[..|acts| - 1]))
  }

  ghost predicate RemovesUnneeded(rt: Routing, s: Site, acts: seq<Act>)
    requires Sized(rt, s.w)
  {
    acts != [] ==>
      RemovesUnneeded(rt, s, acts[..|acts| - 1]) &&
      (acts[|acts| - 1].DropGuest? ==> !Needed(DoAll(rt, s, acts[..|acts| - 1]), acts[|acts| - 1].guestId))
  }

  /**
   In every interleaved run, bookings, checked requests and copies under way name existing guests
   throughout exactly when each guest is removed at a time when none of them names it.
   */
  lemma {:induction false} IntegrityExactly(rt: Routing, s: Site, acts: seq<Act>)
    requires Sized(rt, s.w) && Guarded(s)
    ensures GuardedThroughout(rt, s, acts) <==> RemovesUnneeded(rt, s, acts)
    ensures GuardedThroughout(rt, s, acts) ==> StoredThroughout(rt, s, acts)
    decreases |acts|
  {
    if acts != [] {
      var before := DoAll(rt, s, acts[..|acts| - 1]);
      IntegrityExactly(rt, s, acts[..|acts| - 1]);
      if Guarded(before) { RemovalSafeExactly(rt, before, acts[|acts| - 1]); }
      if GuardedThroughout(rt, s, acts[..|acts| - 1]) { assert Guarded(before); }
    }
  }

  // ---------------------------------------------------------------- the removals that do harm

  /**
   A guest without bookings is removed between a request's check, or a relocation's reading, and its
   write: a booking without its guest is left exactly when the write goes through.
   */
  lemma RemovalBeforeTheWrite(rt: Routing, s: Site, guestId: Id, a: Act)
    requires Sized(rt, s.w) && Guarded(s) && !HasBookings(s.w.shards, guestId)
    requires a.Execute? || a.Step?
    ensures var s' := Do(rt, Do(rt, s, DropGuest(guestId)), a);
      Stored(s'.w, s'.guests) <==>
        !(Runs(s, a).Some? && Writes(rt, s.w, Runs(s, a).value) == Some(guestId))
  {
    var removed := Do(rt, s, DropGuest(guestId));
    SparesExactly(rt, s, DropGuest(guestId));
    SparesExactly(rt, removed, a);
    if Runs(s, a).Some? && Writes(rt, s.w, Runs(s, a).value).Some? {
      CopiesAreKnown(rt, s.w, Runs(s, a).value, s.guests);
    }
  }

  const GUEST: Id := []

  /** A relocation reads its booking, the booking and then its guest are removed, T1 copies it, T2 finds nothing, C1 cancels the copy. */
  const LEFTOVER: seq<Act> :=
    [] + [Step(R.E1)] + [Step(RemoveBooking(R.SOURCE))] + [DropGuest(GUEST)] + [Step(T1(0, true))] + [Step(T2(0, true))] +
    [Step(C1(0, true))]

  function Halfway(guests: set<Id>, first: map<Id, Booking>, second: map<Id, Booking>, stage: Stage): Site {
    Site(guests, R.Scene(first, second, map[0 := R.Moved(stage)], R.MORE), map[])
  }

  function Opening(): Site { Site({GUEST}, R.Begin(), map[]) }

  lemma Cut<T>(s: seq<T>, x: T)
    ensures (s + [x])[..|s + [x]| - 1] == s && (s + [x])[|s + [x]| - 1] == x
  {}

  lemma DoSnoc(rt: Routing, s: Site, acts: seq<Act>, a: Act)
    requires Sized(rt, s.w)
    ensures DoAll(rt, s, acts + [a]) == Do(rt, DoAll(rt, s, acts), a)
  {
    Cut(acts, a);
  }

  lemma DoThen(rt: Routing, s: Site, acts: seq<Act>, s1: Site, a: Act, s2: Site)
    requires Sized(rt, s.w) && Sized(rt, s1.w)
    requires DoAll(rt, s, acts) == s1 && Do(rt, s1, a) == s2
    ensures DoAll(rt, s, acts + [a]) == s2
  {
    DoSnoc(rt, s, acts, a);
  }

  lemma SourceRemoved()
    requires Sized(R.Two(), R.Begin())
    ensures Apply(R.Two(), R.W1(), RemoveBooking(R.SOURCE)) == Halfway({}, map[], map[], Read).w
  {
    assert R.Lone(PENDING) - {R.SOURCE} == map[];
    R.SameScene(Apply(R.Two(), R.W1(), RemoveBooking(R.SOURCE)), map[], map[], map[0 := R.Moved(Read)], R.MORE);
  }

  lemma Copied()
    requires Sized(R.Two(), R.Begin())
    ensures Apply(R.Two(), Halfway({}, map[], map[], Read).w, T1(0, true)) == Halfway({}, map[], R.Target(PENDING), Reserved).w
    ensures Apply(R.Two(), Halfway({}, map[], R.Target(PENDING), Reserved).w, T2(0, true)) ==
            Halfway({}, map[], R.Target(PENDING), Aborting).w
  {
    R.SameScene(Apply(R.Two(), Halfway({}, map[], map[], Read).w, T1(0, true)), map[], R.Target(PENDING), map[0 := R.Moved(Reserved)], R.MORE);
    R.SameScene(Apply(R.Two(), Halfway({}, map[], R.Target(PENDING), Reserved).w, T2(0, true)), map[], R.Target(PENDING),
      map[0 := R.Moved(Aborting)], R.MORE);
  }

  lemma CopyCancelled()
    requires Sized(R.Two(), R.Begin())
    ensures Apply(R.Two(), Halfway({}, map[], R.Target(PENDING), Aborting).w, C1(0, true)) ==
            Halfway({}, map[], R.Target(CANCELLED), Finished(Aborted(true))).w
  {
    assert R.Target(PENDING)[R.TARGET := R.Night(R.ROOM_1, CANCELLED)] == R.Target(CANCELLED);
    R.SameScene(Apply(R.Two(), Halfway({}, map[], R.Target(PENDING), Aborting).w, C1(0, true)), map[], R.Target(CANCELLED),
      map[0 := R.Moved(Finished(Aborted(true)))], R.MORE);
  }

  lemma LeftoverRun()
    requires Sized(R.Two(), R.Begin())
    ensures DoAll(R.Two(), Opening(), LEFTOVER) == Halfway({}, map[], R.Target(CANCELLED), Finished(Aborted(true)))
  {
    var s0, removal := Opening(), RemoveBooking(R.SOURCE);
    R.Step1();
    DoThen(R.Two(), s0, [], s0, Step(R.E1), Site({GUEST}, R.W1(), map[]));
    SourceRemoved();
    DoThen(R.Two(), s0, [] + [Step(R.E1)], Site({GUEST}, R.W1(), map[]), Step(removal), Halfway({GUEST}, map[], map[], Read));
    DoThen(R.Two(), s0, [] + [Step(R.E1)] + [Step(removal)], Halfway({GUEST}, map[], map[], Read), DropGuest(GUEST), Halfway({}, map[], map[], Read));
    Copied();
    var acts := [] + [Step(R.E1)] + [Step(removal)] + [DropGuest(GUEST)];
    DoThen(R.Two(), s0, acts, Halfway({}, map[], map[], Read), Step(T1(0, true)), Halfway({}, map[], R.Target(PENDING), Reserved));
    DoThen(R.Two(), s0, acts + [Step(T1(0, true))], Halfway({}, map[], R.Target(PENDING), Reserved), Step(T2(0, true)),
      Halfway({}, map[], R.Target(PENDING), Aborting));
    CopyCancelled();
    DoThen(R.Two(), s0, acts + [Step(T1(0, true))] + [Step(T2(0, true))], Halfway({}, map[], R.Target(PENDING), Aborting), Step(C1(0, true)),
      Halfway({}, map[], R.Target(CANCELLED), Finished(Aborted(true))));
  }

  lemma NobodyBooked()
    requires Sized(R.Two(), R.Begin())
    ensures DoAll(R.Two(), Opening(), [] + [Step(R.E1)] + [Step(RemoveBooking(R.SOURCE))]) == Halfway({GUEST}, map[], map[], Read)
    ensures !HasBookings(Halfway({GUEST}, map[], map[], Read).w.shards, GUEST)
  {
    R.Step1();
    DoThen(R.Two(), Opening(), [], Opening(), Step(R.E1), Site({GUEST}, R.W1(), map[]));
    SourceRemoved();
    DoThen(R.Two(), Opening(), [] + [Step(R.E1)], Site({GUEST}, R.W1(), map[]), Step(RemoveBooking(R.SOURCE)),
      Halfway({GUEST}, map[], map[], Read));
  }

  lemma OrphanStays()
    requires Sized(R.Two(), R.Begin())
    ensures var s := Halfway({}, map[], R.Target(CANCELLED), Finished(Aborted(true)));
      !Stored(s.w, s.guests) && Row(R.Two(), s.w, R.TARGET) == Some(R.Night(R.ROOM_1, CANCELLED))
  {
    var s := Halfway({}, map[], R.Target(CANCELLED), Finished(Aborted(true)));
    assert s.w.shards[1].bookings[R.TARGET].guestId == GUEST;
    KeysRoute(R.Two(), R.TARGET);
  }

  lemma OpensGuarded()
    ensures Sized(R.Two(), R.Begin()) && Guarded(Opening())
  {
    R.BeginsAtRest();
  }

  /**
   The run starts sound, no shard holds a booking of the guest when it is removed, and though the
   relocation aborts and compensates, a cancelled booking of the guest remains.
   */
  lemma RelocationLeavesAnOrphan()
    ensures Sized(R.Two(), R.Begin()) && Guarded(Opening())
    ensures !HasBookings(DoAll(R.Two(), Opening(), [] + [Step(R.E1)] + [Step(RemoveBooking(R.SOURCE))]).w.shards, GUEST)
    ensures var s := DoAll(R.Two(), Opening(), LEFTOVER);
      !Stored(s.w, s.guests) && Row(R.Two(), s.w, R.TARGET) == Some(R.Night(R.ROOM_1, CANCELLED))
  {
    OpensGuarded();
    NobodyBooked();
    LeftoverRun();
    OrphanStays();
  }
}
