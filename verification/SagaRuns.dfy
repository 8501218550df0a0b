/**
 What interleaved runs with relocations keep (relocate and compensate in
 src/bookings/bookings.service.ts): no double booking, one winner among racing relocations, and
 the states a saga can leave behind.
 */
module SagaRuns {
  import opened Wrappers
  import opened JsText
  import opened Cluster
  import opened Routing
  import opened BookingRuns

  // ---------------------------------------------------------------- the rely condition

  /** A reservation whose saga may still reach T3. */
  predicate InWindow(p: Proc) { p.Moving? && !p.crashed && (p.stage == Reserved || p.stage == SourceCancelled) }

  ghost predicate Reserving(w: World, id: Id) {
    exists r :: r in w.procs && InWindow(w.procs[r]) && w.procs[r].plan.newId == id
  }

  /** The booking an event cancels or relocates away. */
  function Cancels(w: World, e: Event): Option<Id> {
    if e.CommitCancel? && e.req in w.procs && w.procs[e.req].Cancelling? then Some(w.procs[e.req].id)
    else if e.LocalTx? && AtStage(w, e.req, Read) then Some(w.procs[e.req].plan.id)
    else if e.T2? && AtStage(w, e.req, Reserved) then Some(w.procs[e.req].plan.id)
    else None
  }

  /** Nobody cancels or relocates a reservation between T1 and T3. */
  ghost predicate Rely(w: World, e: Event) { Cancels(w, e).Some? ==> !Reserving(w, Cancels(w, e).value) }

  /** The rely condition at every event of a run. */
  ghost predicate RelyRun(rt: Routing, w: World, es: seq<Event>)
    requires Sized(rt, w)
  {
    es != [] ==> RelyRun(rt, w, es[..|es| - 1]) && Rely(Run(rt, w, es[..|es| - 1]), es[|es| - 1])
  }

  // ---------------------------------------------------------------- how a status may change

  /** The booking is gone or in one of the given statuses. */
  ghost predicate StatusIn(rt: Routing, w: World, id: Id, among: set<Status>)
    requires Sized(rt, w)
  {
    Row(rt, w, id).Some? ==> Row(rt, w, id).value.status in among
  }

  /** The event is the last saga step on this reservation. */
  predicate Confirms(w: World, e: Event, id: Id) {
    e.T3? && AtStage(w, e.req, SourceCancelled) && w.procs[e.req].plan.newId == id
  }

  /** A step leaves a status alone, cancels it, or is the T3 of that reservation. */
  lemma StatusStep(rt: Routing, w: World, e: Event, id: Id)
    requires Sized(rt, w)
    requires Row(rt, w, id).Some? && Row(rt, Apply(rt, w, e), id).Some?
    ensures var old_, new_ := Row(rt, w, id).value.status, Row(rt, Apply(rt, w, e), id).value.status;
      new_ == old_ || (new_ == CANCELLED && !Confirms(w, e, id)) || Confirms(w, e, id)
  {
    KeysRoute(rt, id);
  }

  /** A cancellation comes from a cancel, a relocation of that booking, or a compensation. */
  lemma CancelSource(rt: Routing, w: World, e: Event, id: Id)
    requires Sized(rt, w)
    requires Row(rt, w, id).Some? && Row(rt, Apply(rt, w, e), id).Some?
    requires Row(rt, w, id).value.status != CANCELLED && Row(rt, Apply(rt, w, e), id).value.status == CANCELLED
    requires !Confirms(w, e, id)
    ensures Cancels(w, e) == Some(id) || (e.C1? && AtStage(w, e.req, Aborting) && w.procs[e.req].plan.newId == id)
  {
    KeysRoute(rt, id);
  }

  /** Statuses that T3 cannot disturb: a set holding CANCELLED is never left. */
  lemma StaysAmong(rt: Routing, w: World, e: Event, id: Id, among: set<Status>)
    requires Sized(rt, w) && StatusIn(rt, w, id, among) && CANCELLED in among
    requires id !in Inserted(rt, w, e) && !Confirms(w, e, id)
    ensures StatusIn(rt, Apply(rt, w, e), id, among)
  {
    if Row(rt, w, id).Some? {
      if Row(rt, Apply(rt, w, e), id).Some? { StatusStep(rt, w, e, id); }
    } else {
      OnlyInsertsAppear(rt, w, e, id);
    }
  }

  predicate IsActive(row: Option<Booking>) { row.Some? && Active(row.value.status) }

  // ---------------------------------------------------------------- steps of a relocation

  /** A cross-shard relocation that passed T2. */
  predicate Winner(p: Proc) {
    p.Moving? && (p.stage == SourceCancelled || p.stage == Finished(Relocated) || p.stage == Finished(T3Failed))
  }

  /** The step that takes a relocation to its present stage, or none of its own. */
  predicate Own(e: Event, r: nat) {
    (e.LocalTx? || e.T1? || e.T2? || e.C1? || e.T3? || e.Crash?) && e.req == r
  }

  lemma OthersLeaveStage(rt: Routing, w: World, e: Event, r: nat)
    requires Sized(rt, w) && r in w.procs && w.procs[r].Moving? && !Own(e, r)
    ensures r in Apply(rt, w, e).procs && Apply(rt, w, e).procs[r] == w.procs[r]
  {}

  /** Relocations are never forgotten. */
  lemma PlansPersist(rt: Routing, w: World, e: Event, r: nat)
    requires Sized(rt, w) && r in w.procs && w.procs[r].Moving?
    ensures r in Apply(rt, w, e).procs && Apply(rt, w, e).procs[r].Moving? && Apply(rt, w, e).procs[r].plan == w.procs[r].plan
  {}

  /** The window of a relocation is only entered by its T1. */
  lemma WindowHistory(rt: Routing, w: World, e: Event, r: nat)
    requires Sized(rt, w)
    requires r in Apply(rt, w, e).procs && Apply(rt, w, e).procs[r].Moving?
    ensures var p' := Apply(rt, w, e).procs[r];
      InWindow(p') ==>
        r in w.procs && w.procs[r].Moving? && w.procs[r].plan == p'.plan &&
        (InWindow(w.procs[r]) || (w.procs[r].stage == Read && e.T1? && e.req == r))
  {}

  /** A relocation only wins by a T2 that finds the booking active. */
  lemma WinnerHistory(rt: Routing, w: World, e: Event, r: nat)
    requires Sized(rt, w)
    requires r in Apply(rt, w, e).procs && Apply(rt, w, e).procs[r].Moving? && Winner(Apply(rt, w, e).procs[r])
    ensures r in w.procs && w.procs[r].Moving? && w.procs[r].plan == Apply(rt, w, e).procs[r].plan
    ensures Winner(w.procs[r]) ||
      (e.T2? && e.req == r && IsActive(Row(rt, w, w.procs[r].plan.id)) &&
       StatusIn(rt, Apply(rt, w, e), w.procs[r].plan.id, {CANCELLED}))
  {
    if r in w.procs && w.procs[r].Moving? { KeysRoute(rt, w.procs[r].plan.id); }
  }

  lemma NotInserted(rt: Routing, w: World, e: Event, r: nat)
    requires Base(rt, w) && r in w.procs && w.procs[r].Moving?
    ensures w.procs[r].plan.id !in Inserted(rt, w, e)
    ensures w.procs[r].stage != Read ==> w.procs[r].plan.newId !in Inserted(rt, w, e)
  {
    assert PlanOk(rt, w, w.procs[r].plan, w.procs[r].stage);
    if (e.LocalTx? || e.T1?) && AtStage(w, e.req, Read) {
      assert PlanOk(rt, w, w.procs[e.req].plan, Read);
    }
  }

  // ---------------------------------------------------------------- losers

  /** Before T3 a reservation is pending or cancelled; after a compensation that worked it is cancelled. */
  ghost predicate LoserOk(rt: Routing, w: World, p: Proc)
    requires Sized(rt, w) && p.Moving?
  {
    (p.stage in {Reserved, SourceCancelled, Aborting} ==> StatusIn(rt, w, p.plan.newId, {PENDING, CANCELLED})) &&
    (p.stage == Finished(Aborted(true)) ==> StatusIn(rt, w, p.plan.newId, {CANCELLED}))
  }

  ghost predicate Losers(rt: Routing, w: World)
    requires Sized(rt, w)
  {
    forall r :: r in w.procs && w.procs[r].Moving? ==> LoserOk(rt, w, w.procs[r])
  }

  /** T1 leaves a pending row, C1 no pending one; T2 and a crash leave the reservation alone. */
  lemma OwnLoserStep(rt: Routing, w: World, e: Event, r: nat)
    requires Base(rt, w) && Own(e, r)
    requires r in w.procs && w.procs[r].Moving? && LoserOk(rt, w, w.procs[r])
    requires r in Apply(rt, w, e).procs && Apply(rt, w, e).procs[r].Moving?
    ensures LoserOk(rt, Apply(rt, w, e), Apply(rt, w, e).procs[r])
  {
    var id := w.procs[r].plan.newId;
    PlansPersist(rt, w, e, r);
    assert PlanOk(rt, w, w.procs[r].plan, w.procs[r].stage);
    KeysRoute(rt, id);
    if id !in Touched(rt, w, e) { RowFrame(rt, w, e, id); }
  }

  lemma LoserKept(rt: Routing, w: World, e: Event, r: nat)
    requires Base(rt, w) && Losers(rt, w)
    requires r in Apply(rt, w, e).procs && Apply(rt, w, e).procs[r].Moving?
    ensures LoserOk(rt, Apply(rt, w, e), Apply(rt, w, e).procs[r])
  {
    ProcHistory(rt, w, e, r);
    if !Starts(rt, w, e, r) {
      var p, id := w.procs[r], w.procs[r].plan.newId;
      assert LoserOk(rt, w, p);
      if Own(e, r) {
        OwnLoserStep(rt, w, e, r);
      } else {
        OthersLeaveStage(rt, w, e, r);
        NotInserted(rt, w, e, r);
        if p.stage in {Reserved, SourceCancelled, Aborting} { StaysAmong(rt, w, e, id, {PENDING, CANCELLED}); }
        if p.stage == Finished(Aborted(true)) { StaysAmong(rt, w, e, id, {CANCELLED}); }
      }
    }
  }

  lemma {:induction false} LosersAlways(rt: Routing, w: World, es: seq<Event>)
    requires AtRest(rt, w)
    ensures Base(rt, Run(rt, w, es)) && Losers(rt, Run(rt, w, es))
    decreases |es|
  {
    if es != [] {
      LosersAlways(rt, w, es[..|es| - 1]);
      var w1, e := Run(rt, w, es[..|es| - 1]), es[|es| - 1];
      BaseKept(rt, w1, e);
      forall r | r in Apply(rt, w1, e).procs && Apply(rt, w1, e).procs[r].Moving?
        ensures LoserOk(rt, Apply(rt, w1, e), Apply(rt, w1, e).procs[r])
      {
        LoserKept(rt, w1, e, r);
      }
    }
  }

  /** In every run whatever: a loser whose compensation succeeded leaves no active reservation. */
  lemma LosersLeaveNothing(rt: Routing, w: World, es: seq<Event>, r: nat)
    requires AtRest(rt, w)
    requires r in Run(rt, w, es).procs && Run(rt, w, es).procs[r].Moving?
    requires Run(rt, w, es).procs[r].stage == Finished(Aborted(true))
    ensures StatusIn(rt, Run(rt, w, es), Run(rt, w, es).procs[r].plan.newId, {CANCELLED})
  {
    LosersAlways(rt, w, es);
    assert LoserOk(rt, Run(rt, w, es), Run(rt, w, es).procs[r]);
  }

  // ---------------------------------------------------------------- one winner

  predicate Won(w: World, r: nat, id: Id) { r in w.procs && Winner(w.procs[r]) && w.procs[r].plan.id == id }

  /** At most one relocation of the booking has won, and it left the booking cancelled. */
  ghost predicate OneWinner(rt: Routing, w: World, id: Id)
    requires Sized(rt, w)
  {
    (forall r :: Won(w, r, id) ==> StatusIn(rt, w, id, {CANCELLED})) &&
    (forall r, s :: Won(w, r, id) && Won(w, s, id) ==> r == s)
  }

  /** A T3 that takes effect on the booking, as a reservation, after a relocation has taken it away. */
  ghost predicate Revives(rt: Routing, w: World, e: Event, id: Id)
    requires Sized(rt, w)
  {
    Confirms(w, e, id) && e.works && Row(rt, w, id).Some? && exists r :: Won(w, r, id)
  }

  /** A T3 without effect leaves the booking alone. */
  lemma FailedConfirm(rt: Routing, w: World, e: Event, id: Id)
    requires Base(rt, w) && Confirms(w, e, id) && !(e.works && Row(rt, w, id).Some?)
    ensures Row(rt, Apply(rt, w, e), id) == Row(rt, w, id)
  {
    var plan := w.procs[e.req].plan;
    assert PlanOk(rt, w, plan, SourceCancelled);
    KeysRoute(rt, id);
    assert ForKey(rt, plan.roomId) == ForKey(rt, id);
    assert Apply(rt, w, e).shards == w.shards;
  }

  lemma WinnerKept(rt: Routing, w: World, e: Event, id: Id, r: nat)
    requires Base(rt, w) && OneWinner(rt, w, id) && !Revives(rt, w, e, id) && Won(Apply(rt, w, e), r, id)
    ensures StatusIn(rt, Apply(rt, w, e), id, {CANCELLED})
  {
    WinnerHistory(rt, w, e, r);
    if Winner(w.procs[r]) {
      assert Won(w, r, id);
      NotInserted(rt, w, e, r);
      if Confirms(w, e, id) { FailedConfirm(rt, w, e, id); } else { StaysAmong(rt, w, e, id, {CANCELLED}); }
    }
  }

  lemma SameWinner(rt: Routing, w: World, e: Event, id: Id, r: nat, s: nat)
    requires Sized(rt, w) && OneWinner(rt, w, id) && Won(Apply(rt, w, e), r, id) && Won(Apply(rt, w, e), s, id)
    ensures r == s
  {
    WinnerHistory(rt, w, e, r);
    WinnerHistory(rt, w, e, s);
    assert Won(w, r, id) || e.req == r;
    assert Won(w, s, id) || e.req == s;
  }

  /** The T3 writes an active status, and the relocation that took the booking away is still on record. */
  lemma RevivedIsActive(rt: Routing, w: World, e: Event, id: Id)
    requires Base(rt, w) && Revives(rt, w, e, id)
    ensures !OneWinner(rt, Apply(rt, w, e), id)
  {
    var plan := w.procs[e.req].plan;
    assert PlanOk(rt, w, plan, SourceCancelled);
    KeysRoute(rt, id);
    assert ForKey(rt, plan.roomId) == ForKey(rt, id);
    var r :| Won(w, r, id);
    assert r != e.req;
    OthersLeaveStage(rt, w, e, r);
    assert Won(Apply(rt, w, e), r, id);
    assert !StatusIn(rt, Apply(rt, w, e), id, {CANCELLED});
  }

  /** An event keeps the one winner exactly when it is no T3 that revives the booking. */
  lemma OneWinnerKeptExactly(rt: Routing, w: World, e: Event, id: Id)
    requires Base(rt, w) && OneWinner(rt, w, id)
    ensures OneWinner(rt, Apply(rt, w, e), id) <==> !Revives(rt, w, e, id)
  {
    var w' := Apply(rt, w, e);
    if Revives(rt, w, e, id) {
      RevivedIsActive(rt, w, e, id);
    } else {
      forall r | Won(w', r, id) ensures StatusIn(rt, w', id, {CANCELLED}) { WinnerKept(rt, w, e, id, r); }
      forall r, s | Won(w', r, id) && Won(w', s, id) ensures r == s { SameWinner(rt, w, e, id, r, s); }
    }
  }

  ghost predicate OneWinnerThroughout(rt: Routing, w: World, es: seq<Event>, id: Id)
    requires Sized(rt, w)
  {
    OneWinner(rt, Run(rt, w, es), id) && (es != [] ==> OneWinnerThroughout(rt, w, es[..|es| - 1], id))
  }

  ghost predicate NeverRevived(rt: Routing, w: World, es: seq<Event>, id: Id)
    requires Sized(rt, w)
  {
    es != [] ==> NeverRevived(rt, w, es[..|es| - 1], id) && !Revives(rt, Run(rt, w, es[..|es| - 1]), es[|es| - 1], id)
  }

  /**
   Among the cross-shard relocations of one booking, however interleaved, at most one ever passes T2,
   and the booking stays cancelled, exactly when no T3 takes effect on the booking after a relocation
   has taken it away.
   */
  lemma {:induction false} OneWinnerExactly(rt: Routing, w: World, es: seq<Event>, id: Id)
    requires AtRest(rt, w)
    ensures OneWinnerThroughout(rt, w, es, id) <==> NeverRevived(rt, w, es, id)
    decreases |es|
  {
    if es != [] {
      var init := es[..|es| - 1];
      OneWinnerExactly(rt, w, init, id);
      BaseAlways(rt, w, init);
      if OneWinner(rt, Run(rt, w, init), id) { OneWinnerKeptExactly(rt, Run(rt, w, init), es[|es| - 1], id); }
      if OneWinnerThroughout(rt, w, init, id) { assert OneWinner(rt, Run(rt, w, init), id); }
    }
  }

  /** At most one winner, for a booking that no T3 revives. */
  lemma AtMostOneWinner(rt: Routing, w: World, es: seq<Event>, id: Id, r: nat, s: nat)
    requires AtRest(rt, w) && NeverRevived(rt, w, es, id)
    requires Won(Run(rt, w, es), r, id) && Won(Run(rt, w, es), s, id)
    ensures r == s && StatusIn(rt, Run(rt, w, es), id, {CANCELLED})
  {
    OneWinnerExactly(rt, w, es, id);
    assert OneWinnerThroughout(rt, w, es, id);
  }

  /** The booking is no relocation's reservation. */
  ghost predicate IsOriginal(w: World, id: Id) {
    forall r :: r in w.procs && w.procs[r].Moving? ==> w.procs[r].plan.newId != id
  }

  lemma {:induction false} OriginalsAreNeverRevived(rt: Routing, w: World, es: seq<Event>, id: Id)
    requires Sized(rt, w) && IsOriginal(Run(rt, w, es), id)
    ensures NeverRevived(rt, w, es, id)
    decreases |es|
  {
    if es != [] {
      var w1 := Run(rt, w, es[..|es| - 1]);
      forall r | r in w1.procs && w1.procs[r].Moving? ensures w1.procs[r].plan.newId != id {
        PlansPersist(rt, w1, es[|es| - 1], r);
      }
      OriginalsAreNeverRevived(rt, w, es[..|es| - 1], id);
    }
  }

  /** For every booking that is no reservation, in every run whatever, at most one relocation wins. */
  lemma OriginalsHaveOneWinner(rt: Routing, w: World, es: seq<Event>, id: Id, r: nat, s: nat)
    requires AtRest(rt, w) && IsOriginal(Run(rt, w, es), id)
    requires Won(Run(rt, w, es), r, id) && Won(Run(rt, w, es), s, id)
    ensures r == s && StatusIn(rt, Run(rt, w, es), id, {CANCELLED})
  {
    OriginalsAreNeverRevived(rt, w, es, id);
    AtMostOneWinner(rt, w, es, id, r, s);
  }

  /** A booking known before the run is no reservation of it. */
  lemma {:induction false} KnownBookingsAreOriginals(rt: Routing, w: World, es: seq<Event>, id: Id)
    requires AtRest(rt, w) && id in w.used
    ensures IsOriginal(Run(rt, w, es), id) && id in Run(rt, w, es).used
    decreases |es|
  {
    if es != [] {
      KnownBookingsAreOriginals(rt, w, es[..|es| - 1], id);
      var w1, e := Run(rt, w, es[..|es| - 1]), es[|es| - 1];
      UsedGrows(rt, w1, e);
      forall r | r in Apply(rt, w1, e).procs && Apply(rt, w1, e).procs[r].Moving?
        ensures Apply(rt, w1, e).procs[r].plan.newId != id
      {
        ProcHistory(rt, w1, e, r);
      }
    }
  }

  // ---------------------------------------------------------------- windows under the rely condition

  /** While T3 is still to come, the reservation is pending, unless it has been deleted. */
  ghost predicate Windows(rt: Routing, w: World)
    requires Sized(rt, w)
  {
    forall r :: r in w.procs && InWindow(w.procs[r]) ==> StatusIn(rt, w, w.procs[r].plan.newId, {PENDING})
  }

  /** In the window the reservation stays pending or disappears. */
  lemma WindowStays(rt: Routing, w: World, e: Event, r: nat)
    requires Base(rt, w) && Windows(rt, w) && Rely(w, e)
    requires r in w.procs && InWindow(w.procs[r])
    requires r in Apply(rt, w, e).procs && InWindow(Apply(rt, w, e).procs[r])
    ensures StatusIn(rt, Apply(rt, w, e), w.procs[r].plan.newId, {PENDING})
  {
    var id := w.procs[r].plan.newId;
    NotInserted(rt, w, e, r);
    assert Reserving(w, id);
    if Row(rt, w, id).None? {
      OnlyInsertsAppear(rt, w, e, id);
    } else if Row(rt, Apply(rt, w, e), id).Some? {
      StatusStep(rt, w, e, id);
      WindowNotConfirmed(rt, w, e, r);
      if Row(rt, Apply(rt, w, e), id).value.status == CANCELLED { CancelSource(rt, w, e, id); }
    }
  }

  lemma WindowNotConfirmed(rt: Routing, w: World, e: Event, r: nat)
    requires Base(rt, w)
    requires r in w.procs && InWindow(w.procs[r])
    requires r in Apply(rt, w, e).procs && InWindow(Apply(rt, w, e).procs[r])
    ensures !Confirms(w, e, w.procs[r].plan.newId)
  {}

  /** T1 opens a window over a pending row. */
  lemma WindowOpens(rt: Routing, w: World, e: Event, r: nat)
    requires Base(rt, w) && r in w.procs && w.procs[r].Moving? && w.procs[r].stage == Read && e.T1? && e.req == r
    requires r in Apply(rt, w, e).procs && InWindow(Apply(rt, w, e).procs[r])
    ensures StatusIn(rt, Apply(rt, w, e), w.procs[r].plan.newId, {PENDING})
  {
    assert PlanOk(rt, w, w.procs[r].plan, Read);
    KeysRoute(rt, w.procs[r].plan.newId);
  }

  /** Each event keeps the reservations in their windows pending, under the rely condition. */
  lemma WindowsKept(rt: Routing, w: World, e: Event)
    requires Base(rt, w) && Windows(rt, w) && Rely(w, e)
    ensures Windows(rt, Apply(rt, w, e))
  {
    var w' := Apply(rt, w, e);
    forall r | r in w'.procs && InWindow(w'.procs[r]) ensures StatusIn(rt, w', w'.procs[r].plan.newId, {PENDING}) {
      WindowHistory(rt, w, e, r);
      if InWindow(w.procs[r]) { WindowStays(rt, w, e, r); } else { WindowOpens(rt, w, e, r); }
    }
  }

  lemma {:induction false} WindowsAlways(rt: Routing, w: World, es: seq<Event>)
    requires AtRest(rt, w) && RelyRun(rt, w, es)
    ensures Base(rt, Run(rt, w, es)) && Windows(rt, Run(rt, w, es))
    decreases |es|
  {
    if es != [] {
      WindowsAlways(rt, w, es[..|es| - 1]);
      BaseKept(rt, Run(rt, w, es[..|es| - 1]), es[|es| - 1]);
      WindowsKept(rt, Run(rt, w, es[..|es| - 1]), es[|es| - 1]);
    }
  }

  // ---------------------------------------------------------------- no double booking

  ghost predicate Free(w: World) { forall i :: 0 <= i < |w.shards| ==> NoOverlap(w.shards[i].bookings) }

  lemma CommitFree(rt: Routing, w: World, key: Id, r: Result<Shard, DbError>)
    requires ForKey(rt, key) < |w.shards| && Free(w)
    requires r.Ok? ==> NoOverlap(r.value.bookings)
    ensures Free(Commit(rt, w, key, r))
  {}

  /** The statements that cancel, delete or touch no booking at all are harmless. */
  lemma HarmlessStatements(sh: Shard, id: Id, among: set<Status>)
    requires NoOverlap(sh.bookings)
    ensures SetStatus(sh, id, CANCELLED).Ok? ==> NoOverlap(SetStatus(sh, id, CANCELLED).value.bookings)
    ensures NoOverlap(SetStatusIf(sh, id, among, CANCELLED).0.bookings)
    ensures DeleteBooking(sh, id).Ok? ==> NoOverlap(DeleteBooking(sh, id).value.bookings)
  {
    DropKeepsNoOverlap(sh.bookings, id);
    if id in sh.bookings { ActiveStaysSafe(sh, id, CANCELLED); }
  }

  lemma BookingEventFree(rt: Routing, w: World, e: Event)
    requires Base(rt, w) && Free(w)
    requires e.CreateBooking? || e.RemoveBooking? || e.CommitCancel?
    ensures Free(Apply(rt, w, e))
  {
    match e
    case CreateBooking(roomId, guestId, checkIn, checkOut, uuid) =>
      KeysRoute(rt, roomId);
      var q := Request(rt.childId(roomId, uuid), roomId, guestId, checkIn, checkOut, PENDING);
      var r := Reserve(At(rt, w, roomId), q, None);
      if r.Ok? { ReserveKeepsNoOverlap(At(rt, w, roomId), q); }
      CommitFree(rt, w, roomId, r);
    case RemoveBooking(id) =>
      KeysRoute(rt, id);
      HarmlessStatements(At(rt, w, id), id, {});
      CommitFree(rt, w, id, DeleteBooking(At(rt, w, id), id));
    case CommitCancel(req) =>
      if req in w.procs && w.procs[req].Cancelling? {
        var id := w.procs[req].id;
        KeysRoute(rt, id);
        HarmlessStatements(At(rt, w, id), id, {});
        CommitFree(rt, w, id, SetStatus(At(rt, w, id), id, CANCELLED));
      }
  }

  lemma LocalStepFree(rt: Routing, w: World, e: Event)
    requires Base(rt, w) && Free(w) && e.LocalTx? && AtStage(w, e.req, Read)
    ensures Free(Apply(rt, w, e))
  {
    var plan := w.procs[e.req].plan;
    KeysRoute(rt, plan.id);
    var q, source := Reservation(plan, plan.original.status), At(rt, w, plan.id);
    var r := ReserveAndCancel(source, q, plan.id);
    if r.Ok? { RelocateKeepsNoOverlap(source, q, plan.id); }
    CommitFree(rt, w, plan.id, r);
  }

  lemma ReserveStepFree(rt: Routing, w: World, e: Event)
    requires Base(rt, w) && Free(w) && e.T1? && AtStage(w, e.req, Read)
    ensures Free(Apply(rt, w, e))
  {
    var plan := w.procs[e.req].plan;
    KeysRoute(rt, plan.roomId);
    var q, target := Reservation(plan, PENDING), At(rt, w, plan.roomId);
    var r := Reserve(target, q, None);
    if r.Ok? { ReserveKeepsNoOverlap(target, q); }
    CommitFree(rt, w, plan.roomId, r);
  }

  lemma CancelStepFree(rt: Routing, w: World, e: Event)
    requires Base(rt, w) && Free(w)
    requires (e.T2? && AtStage(w, e.req, Reserved)) || (e.C1? && AtStage(w, e.req, Aborting))
    ensures Free(Apply(rt, w, e))
  {
    var plan := w.procs[e.req].plan;
    KeysRoute(rt, plan.id);
    KeysRoute(rt, plan.roomId);
    if e.T2? {
      HarmlessStatements(At(rt, w, plan.id), plan.id, ACTIVE);
      CommitFree(rt, w, plan.id, Ok(SetStatusIf(At(rt, w, plan.id), plan.id, ACTIVE, CANCELLED).0));
    } else {
      HarmlessStatements(At(rt, w, plan.roomId), plan.newId, {PENDING});
      CommitFree(rt, w, plan.roomId, Ok(SetStatusIf(At(rt, w, plan.roomId), plan.newId, {PENDING}, CANCELLED).0));
    }
  }

  /**
   T3 itself is unconditional: whatever happened before, it keeps rooms from being promised twice
   exactly when it has no effect or no other active booking blocks the reserved room for those dates.
   */
  lemma ConfirmIsSafeExactly(rt: Routing, w: World, req: nat)
    requires Base(rt, w) && Free(w) && AtStage(w, req, SourceCancelled)
    ensures var plan := w.procs[req].plan;
      Free(Apply(rt, w, T3(req, true))) <==>
        (Row(rt, w, plan.newId).Some? ==>
          var b := Row(rt, w, plan.newId).value;
          !IsTaken(At(rt, w, plan.newId).bookings, b.roomId, b.checkIn, b.checkOut, Some(plan.newId)))
  {
    var plan := w.procs[req].plan;
    assert PlanOk(rt, w, plan, SourceCancelled);
    KeysRoute(rt, plan.roomId);
    var i := ForKey(rt, plan.roomId);
    assert ForKey(rt, plan.newId) == i;
    var target := w.shards[i];
    var r := SetStatus(target, plan.newId, plan.original.status);
    var w' := Apply(rt, w, T3(req, true));
    if r.Ok? {
      SetStatusKeepsNoOverlapExactly(target, plan.newId, plan.original.status);
      assert w'.shards == w.shards[i := r.value];
      assert w'.shards[i] == r.value;
    } else {
      assert w'.shards == w.shards;
    }
  }

  /**
   The two writes that look at no availability would do no harm now: the room of the reservation that
   T3 is about to activate, or of the patched booking, is not taken by another booking.
   */
  predicate Fits(rt: Routing, w: World, e: Event)
    requires Sized(rt, w)
  {
    match e
    case T3(req, works) =>
      works && AtStage(w, req, SourceCancelled) ==>
        var plan := w.procs[req].plan;
        KeysRoute(rt, plan.newId);
        var rows := At(rt, w, plan.newId).bookings;
        plan.newId in rows ==>
          !IsTaken(rows, rows[plan.newId].roomId, rows[plan.newId].checkIn, rows[plan.newId].checkOut, Some(plan.newId))
    case UpdateBooking(id, p) =>
      KeysRoute(rt, id);
      var sh := At(rt, w, id);
      (p.roomId.Some? ==> rt.bucketOf(p.roomId.value) == rt.bucketOf(id)) && PatchBooking(sh, id, p).Ok? ==>
        var b := Patched(sh.bookings[id], p);
        Active(b.status) ==> !IsTaken(sh.bookings, b.roomId, b.checkIn, b.checkOut, Some(id))
    case _ => true
  }

  /** PATCH keeps rooms from being promised twice exactly when it fits. */
  lemma PatchIsSafeExactly(rt: Routing, w: World, e: Event)
    requires Base(rt, w) && Free(w) && e.UpdateBooking?
    ensures Free(Apply(rt, w, e)) <==> Fits(rt, w, e)
  {
    KeysRoute(rt, e.id);
    var i := ForKey(rt, e.id);
    var r := PatchBooking(w.shards[i], e.id, e.patch);
    if (e.patch.roomId.Some? ==> rt.bucketOf(e.patch.roomId.value) == rt.bucketOf(e.id)) && r.Ok? {
      PatchKeepsNoOverlapExactly(w.shards[i], e.id, e.patch);
      assert Apply(rt, w, e).shards == w.shards[i := r.value];
      assert Apply(rt, w, e).shards[i] == r.value;
    } else {
      assert Apply(rt, w, e) == w;
    }
  }

  lemma ConfirmStepFree(rt: Routing, w: World, e: Event)
    requires Base(rt, w) && Free(w) && e.T3? && AtStage(w, e.req, SourceCancelled)
    ensures Free(Apply(rt, w, e)) <==> Fits(rt, w, e)
  {
    if e.works {
      ConfirmIsSafeExactly(rt, w, e.req);
      KeysRoute(rt, w.procs[e.req].plan.newId);
    }
  }

  /** An event keeps rooms from being promised twice exactly when it fits: only T3 and PATCH ever do not. */
  lemma FreeKeptExactly(rt: Routing, w: World, e: Event)
    requires Base(rt, w) && Free(w)
    ensures Free(Apply(rt, w, e)) <==> Fits(rt, w, e)
  {
    if e.UpdateBooking? {
      PatchIsSafeExactly(rt, w, e);
    } else if e.T3? && AtStage(w, e.req, SourceCancelled) {
      ConfirmStepFree(rt, w, e);
    } else if e.CreateBooking? || e.RemoveBooking? || e.CommitCancel? {
      BookingEventFree(rt, w, e);
    } else if e.LocalTx? && AtStage(w, e.req, Read) {
      LocalStepFree(rt, w, e);
    } else if e.T1? && AtStage(w, e.req, Read) {
      ReserveStepFree(rt, w, e);
    } else if (e.T2? && AtStage(w, e.req, Reserved)) || (e.C1? && AtStage(w, e.req, Aborting)) {
      CancelStepFree(rt, w, e);
    } else {
      BookingsUntouched(rt, w, e);
    }
  }

  lemma BookingsUntouched(rt: Routing, w: World, e: Event)
    requires Sized(rt, w) && !e.UpdateBooking?
    requires !(e.CreateBooking? || e.RemoveBooking? || e.CommitCancel?)
    requires (e.LocalTx? || e.T1?) ==> !AtStage(w, e.req, Read)
    requires e.T2? ==> !AtStage(w, e.req, Reserved)
    requires e.C1? ==> !AtStage(w, e.req, Aborting)
    requires e.T3? ==> !AtStage(w, e.req, SourceCancelled)
    ensures forall i :: 0 <= i < |w.shards| ==> Apply(rt, w, e).shards[i].bookings == w.shards[i].bookings
  {}

  /** Free of double bookings after every prefix of the run. */
  ghost predicate FreeThroughout(rt: Routing, w: World, es: seq<Event>)
    requires Sized(rt, w)
  {
    Free(Run(rt, w, es)) && (es != [] ==> FreeThroughout(rt, w, es[..|es| - 1]))
  }

  /** Every T3 and every PATCH of the run fits when it comes. */
  ghost predicate FitsThroughout(rt: Routing, w: World, es: seq<Event>)
    requires Sized(rt, w)
  {
    es != [] ==> FitsThroughout(rt, w, es[..|es| - 1]) && Fits(rt, Run(rt, w, es[..|es| - 1]), es[|es| - 1])
  }

  /**
   In every interleaved run, PATCH included, no room is ever promised twice exactly when each T3 and
   each PATCH comes at a time when the room it books is not taken.
   */
  lemma {:induction false} FreeExactlyWhenWritesFit(rt: Routing, w: World, es: seq<Event>)
    requires AtRest(rt, w) && Free(w)
    ensures FreeThroughout(rt, w, es) <==> FitsThroughout(rt, w, es)
    decreases |es|
  {
    if es != [] {
      var init := es[..|es| - 1];
      FreeExactlyWhenWritesFit(rt, w, init);
      BaseAlways(rt, w, init);
      if Free(Run(rt, w, init)) { FreeKeptExactly(rt, Run(rt, w, init), es[|es| - 1]); }
      if FreeThroughout(rt, w, init) { assert Free(Run(rt, w, init)); }
    }
  }

  predicate NoPatch(es: seq<Event>) { forall k :: 0 <= k < |es| ==> !es[k].UpdateBooking? }

  /** Under the rely condition T3 fits: its reservation is pending, so nobody else has the room. */
  lemma PendingFits(rt: Routing, w: World, e: Event)
    requires Base(rt, w) && Windows(rt, w) && Free(w) && !e.UpdateBooking?
    ensures Fits(rt, w, e)
  {
    if e.T3? && e.works && AtStage(w, e.req, SourceCancelled) {
      var id := w.procs[e.req].plan.newId;
      KeysRoute(rt, id);
      var rows := At(rt, w, id).bookings;
      assert InWindow(w.procs[e.req]);
      if id in rows {
        assert Row(rt, w, id) == Some(rows[id]);
        assert NoOverlap(rows) && Active(rows[id].status);
      }
    }
  }

  lemma {:induction false} RelyFits(rt: Routing, w: World, es: seq<Event>)
    requires AtRest(rt, w) && Free(w) && RelyRun(rt, w, es) && NoPatch(es)
    ensures FitsThroughout(rt, w, es)
    decreases |es|
  {
    if es != [] {
      var init := es[..|es| - 1];
      RelyFits(rt, w, init);
      WindowsAlways(rt, w, init);
      FreeExactlyWhenWritesFit(rt, w, init);
      assert FreeThroughout(rt, w, init);
      PendingFits(rt, Run(rt, w, init), es[|es| - 1]);
    }
  }

  /**
   In every interleaved run without PATCH, under the rely condition, no room has two pending or
   confirmed bookings that overlap, on whatever shards they lie.
   */
  lemma NoRoomIsPromisedTwice(rt: Routing, w: World, es: seq<Event>, i: nat, a: Id, j: nat, b: Id)
    requires AtRest(rt, w) && Free(w) && RelyRun(rt, w, es) && NoPatch(es)
    requires i < rt.shardCount && j < rt.shardCount
    requires var w' := Run(rt, w, es);
      a in w'.shards[i].bookings && b in w'.shards[j].bookings && (i, a) != (j, b)
    ensures var x, y := Run(rt, w, es).shards[i].bookings[a], Run(rt, w, es).shards[j].bookings[b];
      x.roomId == y.roomId && Active(x.status) && Active(y.status) ==> !Overlaps(x, y.checkIn, y.checkOut)
  {
    var w' := Run(rt, w, es);
    RelyFits(rt, w, es);
    FreeExactlyWhenWritesFit(rt, w, es);
    assert FreeThroughout(rt, w, es);
    BaseAlways(rt, w, es);
    assert ShardPlaced(rt, i, w'.shards[i], w'.used) && ShardPlaced(rt, j, w'.shards[j], w'.used);
    var x, y := w'.shards[i].bookings[a], w'.shards[j].bookings[b];
    if x.roomId == y.roomId && Active(x.status) && Active(y.status) {
      assert i == ForKey(rt, x.roomId) == j;
      assert NoOverlap(w'.shards[i].bookings);
    }
  }

  // ---------------------------------------------------------------- what a saga leaves behind

  /** The rows of the two bookings at every stage, when nobody else touches them. */
  ghost predicate Shape(rt: Routing, w: World, p: Proc)
    requires Sized(rt, w) && p.Moving?
  {
    var plan := p.plan;
    var old_, new_ := Row(rt, w, plan.id), Row(rt, w, plan.newId);
    var kept := old_ == Some(plan.original);
    var cancelled := old_ == Some(plan.original.(status := CANCELLED));
    match p.stage
    case Read => kept && new_ == None
    case Reserved => kept && IsReservation(plan, new_, PENDING)
    case SourceCancelled => cancelled && IsReservation(plan, new_, PENDING)
    case Aborting => kept && IsReservation(plan, new_, PENDING)
    case Finished(LocalDone) => cancelled && IsReservation(plan, new_, plan.original.status)
    case Finished(LocalFailed) => kept && new_ == None
    case Finished(T1Failed) => kept && new_ == None
    case Finished(Relocated) => cancelled && IsReservation(plan, new_, plan.original.status)
    case Finished(T3Failed) => cancelled && IsReservation(plan, new_, PENDING)
    case Finished(Aborted(true)) => kept && IsReservation(plan, new_, CANCELLED)
    case Finished(Aborted(false)) => kept && IsReservation(plan, new_, PENDING)
  }

  /** A booking of the new room for the old guest and dates. */
  ghost predicate IsReservation(plan: Plan, row: Option<Booking>, status: Status) {
    row.Some? && row.value.roomId == plan.roomId && row.value.guestId == plan.original.guestId &&
    row.value.checkIn == plan.original.checkIn && row.value.checkOut == plan.original.checkOut &&
    row.value.status == status
  }

  /** The event is a step of this relocation, or touches neither of its bookings. */
  ghost predicate Isolates(rt: Routing, w: World, e: Event, r: nat) {
    r in w.procs && w.procs[r].Moving? &&
    (Own(e, r) || (w.procs[r].plan.id !in Touched(rt, w, e) && w.procs[r].plan.newId !in Touched(rt, w, e)))
  }

  lemma LocalStepShapes(rt: Routing, w: World, e: Event, r: nat)
    requires Base(rt, w) && AtStage(w, r, Read) && e.LocalTx? && e.req == r
    requires Shape(rt, w, w.procs[r])
    ensures r in Apply(rt, w, e).procs && Apply(rt, w, e).procs[r].Moving?
    ensures Shape(rt, Apply(rt, w, e), Apply(rt, w, e).procs[r])
  {
    var plan := w.procs[r].plan;
    assert PlanOk(rt, w, plan, Read);
    KeysRoute(rt, plan.id);
    KeysRoute(rt, plan.roomId);
    assert ForKey(rt, plan.newId) == ForKey(rt, plan.roomId);
  }

  lemma ReserveStepShapes(rt: Routing, w: World, e: Event, r: nat)
    requires Base(rt, w) && AtStage(w, r, Read) && e.T1? && e.req == r
    requires Shape(rt, w, w.procs[r])
    ensures r in Apply(rt, w, e).procs && Apply(rt, w, e).procs[r].Moving?
    ensures Shape(rt, Apply(rt, w, e), Apply(rt, w, e).procs[r])
  {
    var plan := w.procs[r].plan;
    assert PlanOk(rt, w, plan, Read);
    KeysRoute(rt, plan.id);
    KeysRoute(rt, plan.roomId);
    assert ForKey(rt, plan.newId) == ForKey(rt, plan.roomId);
    RowFrame(rt, w, e, plan.id);
  }

  lemma CancelStepShapes(rt: Routing, w: World, e: Event, r: nat)
    requires Base(rt, w) && r in w.procs && w.procs[r].Moving? && e.T2? && e.req == r
    requires Shape(rt, w, w.procs[r])
    ensures r in Apply(rt, w, e).procs && Apply(rt, w, e).procs[r].Moving?
    ensures Shape(rt, Apply(rt, w, e), Apply(rt, w, e).procs[r])
  {
    var plan := w.procs[r].plan;
    assert PlanOk(rt, w, plan, w.procs[r].stage);
    KeysRoute(rt, plan.id);
    RowFrame(rt, w, e, plan.newId);
  }

  lemma CompensateStepShapes(rt: Routing, w: World, e: Event, r: nat)
    requires Base(rt, w) && r in w.procs && w.procs[r].Moving? && e.C1? && e.req == r
    requires Shape(rt, w, w.procs[r])
    ensures r in Apply(rt, w, e).procs && Apply(rt, w, e).procs[r].Moving?
    ensures Shape(rt, Apply(rt, w, e), Apply(rt, w, e).procs[r])
  {
    var plan := w.procs[r].plan;
    assert PlanOk(rt, w, plan, w.procs[r].stage);
    KeysRoute(rt, plan.roomId);
    assert ForKey(rt, plan.newId) == ForKey(rt, plan.roomId);
    RowFrame(rt, w, e, plan.id);
  }

  lemma ConfirmStepShapes(rt: Routing, w: World, e: Event, r: nat)
    requires Base(rt, w) && r in w.procs && w.procs[r].Moving? && e.T3? && e.req == r
    requires Shape(rt, w, w.procs[r])
    ensures r in Apply(rt, w, e).procs && Apply(rt, w, e).procs[r].Moving?
    ensures Shape(rt, Apply(rt, w, e), Apply(rt, w, e).procs[r])
  {
    var plan := w.procs[r].plan;
    assert PlanOk(rt, w, plan, w.procs[r].stage);
    KeysRoute(rt, plan.roomId);
    assert ForKey(rt, plan.newId) == ForKey(rt, plan.roomId);
    RowFrame(rt, w, e, plan.id);
  }

  lemma SameRowsSameShape(rt: Routing, w: World, w': World, p: Proc)
    requires Sized(rt, w) && Sized(rt, w') && p.Moving? && Shape(rt, w, p)
    requires Row(rt, w', p.plan.id) == Row(rt, w, p.plan.id) && Row(rt, w', p.plan.newId) == Row(rt, w, p.plan.newId)
    ensures Shape(rt, w', p)
  {}

  lemma CrashShapes(rt: Routing, w: World, e: Event, r: nat)
    requires Base(rt, w) && r in w.procs && w.procs[r].Moving? && e == Crash(r)
    requires Shape(rt, w, w.procs[r])
    ensures r in Apply(rt, w, e).procs && Apply(rt, w, e).procs[r].Moving?
    ensures Shape(rt, Apply(rt, w, e), Apply(rt, w, e).procs[r])
  {
    RowFrame(rt, w, e, w.procs[r].plan.id);
    RowFrame(rt, w, e, w.procs[r].plan.newId);
    SameRowsSameShape(rt, w, Apply(rt, w, e), w.procs[r]);
    assert Apply(rt, w, e).procs[r] == w.procs[r].(crashed := true);
  }

  lemma OwnStepShapes(rt: Routing, w: World, e: Event, r: nat)
    requires Base(rt, w) && r in w.procs && w.procs[r].Moving? && Own(e, r)
    requires Shape(rt, w, w.procs[r])
    ensures r in Apply(rt, w, e).procs && Apply(rt, w, e).procs[r].Moving?
    ensures Shape(rt, Apply(rt, w, e), Apply(rt, w, e).procs[r])
  {
    if e.LocalTx? {
      if AtStage(w, r, Read) { LocalStepShapes(rt, w, e, r); }
    } else if e.T1? {
      if AtStage(w, r, Read) { ReserveStepShapes(rt, w, e, r); }
    } else if e.Crash? {
      CrashShapes(rt, w, e, r);
    } else if e.T2? {
      CancelStepShapes(rt, w, e, r);
    } else if e.C1? {
      CompensateStepShapes(rt, w, e, r);
    } else {
      ConfirmStepShapes(rt, w, e, r);
    }
  }

  lemma ShapeKept(rt: Routing, w: World, e: Event, r: nat)
    requires Base(rt, w) && Isolates(rt, w, e, r) && Shape(rt, w, w.procs[r])
    ensures r in Apply(rt, w, e).procs && Apply(rt, w, e).procs[r].Moving?
    ensures Apply(rt, w, e).procs[r].plan == w.procs[r].plan
    ensures Shape(rt, Apply(rt, w, e), Apply(rt, w, e).procs[r])
  {
    PlansPersist(rt, w, e, r);
    if Own(e, r) {
      OwnStepShapes(rt, w, e, r);
    } else {
      OthersKeepShape(rt, w, e, r);
    }
  }

  lemma OthersKeepShape(rt: Routing, w: World, e: Event, r: nat)
    requires Base(rt, w) && r in w.procs && w.procs[r].Moving? && !Own(e, r) && Shape(rt, w, w.procs[r])
    requires w.procs[r].plan.id !in Touched(rt, w, e) && w.procs[r].plan.newId !in Touched(rt, w, e)
    ensures r in Apply(rt, w, e).procs && Apply(rt, w, e).procs[r] == w.procs[r]
    ensures Shape(rt, Apply(rt, w, e), w.procs[r])
  {
    OthersLeaveStage(rt, w, e, r);
    RowFrame(rt, w, e, w.procs[r].plan.id);
    RowFrame(rt, w, e, w.procs[r].plan.newId);
    SameRowsSameShape(rt, w, Apply(rt, w, e), w.procs[r]);
  }

  ghost predicate IsolatedRun(rt: Routing, w: World, es: seq<Event>, r: nat)
    requires Sized(rt, w)
  {
    es != [] ==> IsolatedRun(rt, w, es[..|es| - 1], r) && Isolates(rt, Run(rt, w, es[..|es| - 1]), es[|es| - 1], r)
  }

  /** A relocation starts in shape. */
  lemma StartShapes(rt: Routing, w: World, e: Event, r: nat)
    requires Base(rt, w) && Starts(rt, w, e, r)
    ensures r in Apply(rt, w, e).procs && Apply(rt, w, e).procs[r].Moving?
    ensures Shape(rt, Apply(rt, w, e), Apply(rt, w, e).procs[r])
  {
    BaseKept(rt, w, e);
    var plan := Apply(rt, w, e).procs[r].plan;
    assert PlanOk(rt, Apply(rt, w, e), plan, Read);
    RowFrame(rt, w, e, plan.id);
  }

  lemma {:induction false} ShapeAlways(rt: Routing, w: World, es: seq<Event>, r: nat)
    requires Base(rt, w) && r in w.procs && w.procs[r].Moving? && Shape(rt, w, w.procs[r])
    requires IsolatedRun(rt, w, es, r)
    ensures var w' := Run(rt, w, es);
      Base(rt, w') && r in w'.procs && w'.procs[r].Moving? && w'.procs[r].plan == w.procs[r].plan && Shape(rt, w', w'.procs[r])
  {
    if es != [] {
      var init := es[..|es| - 1];
      ShapeAlways(rt, w, init, r);
      BaseKept(rt, Run(rt, w, init), es[|es| - 1]);
      ShapeKept(rt, Run(rt, w, init), es[|es| - 1], r);
    }
  }

  /** What the rows say at a stage: which of the two bookings are active, and what the new one carries. */
  lemma ShapeTells(rt: Routing, w: World, p: Proc)
    requires Sized(rt, w) && p.Moving? && Active(p.plan.original.status) && Shape(rt, w, p)
    ensures var old_, new_ := IsActive(Row(rt, w, p.plan.id)), IsActive(Row(rt, w, p.plan.newId));
      (old_ || new_) &&
      (!old_ <==> p.stage in {SourceCancelled, Finished(T3Failed), Finished(Relocated), Finished(LocalDone)}) &&
      (!new_ <==> p.stage in {Read, Finished(T1Failed), Finished(LocalFailed), Finished(Aborted(true))}) &&
      (old_ ==> Row(rt, w, p.plan.id) == Some(p.plan.original)) &&
      (p.stage in {Finished(Relocated), Finished(LocalDone)} ==>
        IsReservation(p.plan, Row(rt, w, p.plan.newId), p.plan.original.status))
  {}

  /**
   From the moment it starts, through any interleaving that leaves its two bookings alone, stopping
   anywhere and with any failed writes, a relocation never leaves the guest without an active
   booking. The new one stands alone exactly when the original was cancelled, with the old guest,
   dates and status on success; the original stands alone, unchanged, exactly when nothing was
   reserved or the compensation succeeded.
   */
  lemma GuestKeepsABooking(rt: Routing, w: World, start: Event, es: seq<Event>, r: nat)
    requires Base(rt, w) && Starts(rt, w, start, r)
    requires IsolatedRun(rt, Apply(rt, w, start), es, r)
    ensures var w' := Run(rt, Apply(rt, w, start), es);
      r in w'.procs && w'.procs[r].Moving? &&
      var p := w'.procs[r];
      var old_, new_ := IsActive(Row(rt, w', p.plan.id)), IsActive(Row(rt, w', p.plan.newId));
      (old_ || new_) &&
      (!old_ <==> p.stage in {SourceCancelled, Finished(T3Failed), Finished(Relocated), Finished(LocalDone)}) &&
      (!new_ <==> p.stage in {Read, Finished(T1Failed), Finished(LocalFailed), Finished(Aborted(true))}) &&
      (old_ ==> Row(rt, w', p.plan.id) == Some(p.plan.original)) &&
      (p.stage in {Finished(Relocated), Finished(LocalDone)} ==>
        IsReservation(p.plan, Row(rt, w', p.plan.newId), p.plan.original.status))
  {
    StartShapes(rt, w, start, r);
    BaseKept(rt, w, start);
    var w1 := Apply(rt, w, start);
    ShapeAlways(rt, w1, es, r);
    var w' := Run(rt, w1, es);
    assert PlanOk(rt, w', w'.procs[r].plan, w'.procs[r].stage);
    ShapeTells(rt, w', w'.procs[r]);
  }
}
