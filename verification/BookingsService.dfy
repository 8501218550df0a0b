/**
 The booking service as the program runs it (src/bookings/bookings.service.ts): requests served one
 after the other over the shards, each write with its own fate. Every method is tied to a run of
 the interleaved machine, so what is proved about runs holds of the code.
 */
module BookingsService {
  import opened Wrappers
  import opened JsText
  import opened Cluster
  import opened Routing
  import opened BookingRuns
  import opened SagaRuns

  /** How one attempt at a Serializable transaction ends. */
  datatype TxFate = Commits | Conflicts | Breaks

  datatype TxError = Refused(why: DbError) | Exhausted | Broken

  const SERIALIZATION_RETRIES: nat := 5

  /** The attempt that settles the transaction: the first without a serialization conflict, or the last allowed. */
  function Settling(fates: nat -> TxFate, attempt: nat): (k: nat)
    requires 1 <= attempt <= SERIALIZATION_RETRIES
    ensures attempt <= k <= SERIALIZATION_RETRIES
    ensures forall j :: attempt <= j < k ==> fates(j) == Conflicts
    ensures k < SERIALIZATION_RETRIES ==> fates(k) != Conflicts
    decreases SERIALIZATION_RETRIES - attempt
  {
    if fates(attempt) != Conflicts || attempt == SERIALIZATION_RETRIES then attempt else Settling(fates, attempt + 1)
  }

  /** Whether a transaction with these fates commits when its body allows it. */
  predicate TxWorks(fates: nat -> TxFate) { fates(Settling(fates, 1)) == Commits }

  /** The transaction commits at its first attempt without a conflict, the fifth at the latest. */
  ghost predicate CommitsInTime(fates: nat -> TxFate) {
    exists k :: 1 <= k <= 5 && fates(k) == Commits && forall j :: 1 <= j < k ==> fates(j) == Conflicts
  }

  lemma WorksExactly(fates: nat -> TxFate)
    ensures TxWorks(fates) <==> CommitsInTime(fates)
  {
    var s := Settling(fates, 1);
    if CommitsInTime(fates) {
      var k :| 1 <= k <= 5 && fates(k) == Commits && forall j :: 1 <= j < k ==> fates(j) == Conflicts;
      assert !(s < k) && !(k < s);
    }
  }

  /** Every allowed attempt ends in a conflict. */
  ghost predicate ConflictsThroughout(fates: nat -> TxFate) { forall k :: 1 <= k <= 5 ==> fates(k) == Conflicts }

  /** A transaction commits, breaks off, or has used up its five attempts. */
  lemma SettlesExactly(fates: nat -> TxFate)
    ensures var end := fates(Settling(fates, 1));
      (end == Commits <==> CommitsInTime(fates)) &&
      (end == Conflicts <==> ConflictsThroughout(fates)) &&
      (end == Breaks <==> !CommitsInTime(fates) && !ConflictsThroughout(fates))
  {
    WorksExactly(fates);
    var s := Settling(fates, 1);
    if fates(s) == Conflicts {
      assert forall k :: 1 <= k <= 5 ==> fates(k) == Conflicts;
    }
  }

  /** A shard changed by others before each attempt up to k. */
  function Drift(sh: Shard, others: (nat, Shard) -> Shard, k: nat): Shard {
    if k == 0 then sh else others(k, Drift(sh, others, k - 1))
  }

  /** One PostgreSQL shard. */
  class ShardDb {
    var content: Shard

    constructor (content: Shard)
      ensures this.content == content
    {
      this.content := content;
    }

    /**
     A Serializable transaction with retries, while others keep committing between attempts. The
     body takes effect once, on the content of the settling attempt, or not at all; the attempts
     before it left no trace, and there are at most five.
     */
    method Serializable(fates: nat -> TxFate, others: (nat, Shard) -> Shard, body: Shard -> Result<Shard, DbError>)
      returns (r: Result<Shard, TxError>, attempts: nat)
      modifies this
      ensures attempts == Settling(fates, 1)
      ensures var seen := Drift(old(content), others, attempts);
        content == (if r.Ok? then r.value else seen) &&
        r == match fates(attempts) {
          case Commits => (match body(seen) case Ok(sh) => Ok(sh) case Err(e) => Err(Refused(e)))
          case Conflicts => Err(Exhausted)
          case Breaks => Err(Broken)
        }
    {
      attempts := 1;
      while true
        invariant 1 <= attempts <= SERIALIZATION_RETRIES
        invariant Settling(fates, 1) == Settling(fates, attempts)
        invariant content == Drift(old(content), others, attempts - 1)
        decreases SERIALIZATION_RETRIES - attempts
      {
        content := others(attempts, content);
        match fates(attempts) {
          case Commits =>
            var result := body(content);
            if result.Err? { return Err(Refused(result.error)), attempts; }
            content := result.value;
            return Ok(result.value), attempts;
          case Breaks =>
            return Err(Broken), attempts;
          case Conflicts =>
            if attempts >= SERIALIZATION_RETRIES { return Err(Exhausted), attempts; }
        }
        attempts := attempts + 1;
      }
    }
  }

  // ---------------------------------------------------------------- the service

  datatype StepName = StepT1 | StepT2 | StepT3 | StepC1 | StepLocal

  datatype StepStatus = Done | Failed | Compensated

  datatype SagaStep = SagaStep(step: StepName, shard: nat, status: StepStatus)

  datatype Refusal = BadRequest | Missing | Conflict | Unavailable | Internal

  datatype Reply = Accepted | Rejected(why: Refusal) | SagaAborted | Unfinished

  /** The fates of the writes of one request. */
  datatype Fates = Fates(tx: nat -> TxFate, t2: bool, c1: bool, t3: bool)

  /** The log a relocation returns for its outcome. */
  function SagaLog(outcome: Outcome, source: nat, target: nat): seq<SagaStep> {
    match outcome
    case LocalDone => [SagaStep(StepLocal, source, Done)]
    case LocalFailed => []
    case T1Failed => [SagaStep(StepT1, target, Failed)]
    case Relocated => [SagaStep(StepT1, target, Done), SagaStep(StepT2, source, Done), SagaStep(StepT3, target, Done)]
    case T3Failed => []
    case Aborted(ok) =>
      [SagaStep(StepT1, target, Done), SagaStep(StepT2, source, Failed),
       SagaStep(StepC1, target, if ok then Compensated else Failed)]
  }

  /** The reply an outcome gets; a failed local transaction gets the transaction's own. */
  function ReplyFor(outcome: Outcome, local: Reply): Reply {
    match outcome
    case LocalDone => Accepted
    case Relocated => Accepted
    case LocalFailed => local
    case T1Failed => SagaAborted
    case Aborted(_) => SagaAborted
    case T3Failed => Unfinished
  }

  /** A relocation request as a run: steps that do not apply leave the world alone. */
  function RelocateEvents(id: Id, roomId: Id, uuid: JsString, f: Fates): seq<Event> {
    [BeginRelocate(0, id, roomId, uuid)] + Steps(f)
  }

  lemma RunOne(rt: Routing, w: World, e: Event)
    requires Sized(rt, w)
    ensures Run(rt, w, [e]) == Apply(rt, w, e)
  {
    assert [e][..0] == [];
  }

  lemma RunSnoc(rt: Routing, w: World, es: seq<Event>, e: Event)
    requires Sized(rt, w)
    ensures Run(rt, w, es + [e]) == Apply(rt, Run(rt, w, es), e)
  {
    assert (es + [e])[..|es|] == es;
  }

  /** Read and cancel with nothing in between: an active booking is cancelled, any other left alone. */
  lemma CancelRun(rt: Routing, w: World, id: Id)
    requires AtRest(rt, w)
    ensures ForKey(rt, id) < |w.shards|
    ensures var sh := At(rt, w, id);
      var w' := Run(rt, w, [BeginCancel(0, id), CommitCancel(0)]);
      w'.shards == (if id in sh.bookings && Active(sh.bookings[id].status)
                    then w.shards[ForKey(rt, id) := SetStatus(sh, id, CANCELLED).value] else w.shards) &&
      (w'.shards != w.shards <==> id in sh.bookings && Active(sh.bookings[id].status)) &&
      AtRest(rt, World(w'.shards, map[], w.used))
  {
    KeysRoute(rt, id);
    var e1, e2 := BeginCancel(0, id), CommitCancel(0);
    RunOne(rt, w, e1);
    RunSnoc(rt, w, [e1], e2);
    assert [e1] + [e2] == [e1, e2];
    BaseKept(rt, w, e1);
    BaseKept(rt, Apply(rt, w, e1), e2);
    var w' := Apply(rt, Apply(rt, w, e1), e2);
    assert w'.used == w.used;
    RestPlaced(rt, w');
    CancellingChanges(w.shards, ForKey(rt, id), id);
  }

  lemma CancellingChanges(shards: seq<Shard>, i: nat, id: Id)
    requires i < |shards|
    ensures id in shards[i].bookings && Active(shards[i].bookings[id].status) ==>
      shards[i := SetStatus(shards[i], id, CANCELLED).value] != shards
  {
    if id in shards[i].bookings && Active(shards[i].bookings[id].status) {
      var after := shards[i := SetStatus(shards[i], id, CANCELLED).value];
      assert after[i].bookings[id].status != shards[i].bookings[id].status;
    }
  }

  /** One row of one shard, until now active, has become cancelled, and nothing else has changed. */
  ghost predicate CancelledOnly(was: seq<Shard>, now: seq<Shard>, i: nat, id: Id) {
    i < |was| == |now| && id in was[i].bookings && was[i].bookings[id].status in {PENDING, CONFIRMED} &&
    OnlyStatus(was[i], now[i], id, CANCELLED) && forall j :: 0 <= j < |was| && j != i ==> now[j] == was[j]
  }

  /** A cancellation served alone turns a pending or confirmed booking into a cancelled one and changes nothing else, and leaves any other booking alone. */
  lemma CancelExactly(rt: Routing, w: World, id: Id)
    requires AtRest(rt, w)
    ensures var row, shards := Row(rt, w, id), Run(rt, w, [BeginCancel(0, id), CommitCancel(0)]).shards;
      if row.Some? && row.value.status in {PENDING, CONFIRMED} then CancelledOnly(w.shards, shards, ForKey(rt, id), id)
      else shards == w.shards
  {
    CancelRun(rt, w, id);
  }

  /** Removing with nothing in between. */
  lemma RemoveRun(rt: Routing, w: World, id: Id)
    requires AtRest(rt, w)
    ensures ForKey(rt, id) < |w.shards|
    ensures var r := DeleteBooking(At(rt, w, id), id);
      var w' := Run(rt, w, [RemoveBooking(id)]);
      w'.shards == (if r.Ok? then w.shards[ForKey(rt, id) := r.value] else w.shards) &&
      AtRest(rt, World(w'.shards, map[], w.used)) && Row(rt, World(w'.shards, map[], w.used), id) == None
  {
    KeysRoute(rt, id);
    RunOne(rt, w, RemoveBooking(id));
    BaseKept(rt, w, RemoveBooking(id));
    RestPlaced(rt, Apply(rt, w, RemoveBooking(id)));
  }

  lemma RestPlaced(rt: Routing, w: World)
    requires Sized(rt, w) && Placed(rt, w)
    ensures AtRest(rt, World(w.shards, map[], w.used))
  {
    forall i | 0 <= i < |w.shards| ensures ShardPlaced(rt, i, w.shards[i], w.used) {}
  }

  // ---------------------------------------------------------------- relocation as a run

  /** The request is turned down before a relocation starts. */
  predicate Declined(rt: Routing, w: World, id: Id, roomId: Id)
    requires ForKey(rt, id) < |w.shards|
  {
    var rows := At(rt, w, id).bookings;
    id !in rows || !Active(rows[id].status) || rows[id].roomId == roomId
  }

  /** A relocation with no other request in flight. */
  datatype Lone = Lone(shards: seq<Shard>, stage: Stage)

  ghost predicate LoneOk(rt: Routing, plan: Plan, s: Lone) {
    Sound(rt) && |s.shards| == rt.shardCount && ForKey(rt, plan.id) < rt.shardCount && ForKey(rt, plan.roomId) < rt.shardCount
  }

  function LoneWorld(plan: Plan, s: Lone, used: set<Id>): World { World(s.shards, map[0 := Moving(plan, s.stage, false)], used) }

  /** A write of the lone relocation. */
  predicate IsStep(e: Event) { (e.LocalTx? || e.T1? || e.T2? || e.C1? || e.T3?) && e.req == 0 }

  /** One step of the machine, seen on the shards and the stage alone. */
  function LoneStep(rt: Routing, plan: Plan, s: Lone, e: Event): (s': Lone)
    requires LoneOk(rt, plan, s) && IsStep(e)
    ensures LoneOk(rt, plan, s')
  {
    var w := Apply(rt, LoneWorld(plan, s, {}), e);
    Lone(w.shards, w.procs[0].stage)
  }

  /** The identifiers drawn make no difference to a step, and the relocation stays alone. */
  lemma LoneStepIs(rt: Routing, plan: Plan, s: Lone, used: set<Id>, e: Event)
    requires LoneOk(rt, plan, s) && IsStep(e)
    ensures Apply(rt, LoneWorld(plan, s, used), e) == LoneWorld(plan, LoneStep(rt, plan, s, e), used)
  {
    assert forall st :: map[0 := Moving(plan, s.stage, false)][0 := Moving(plan, st, false)] == map[0 := Moving(plan, st, false)];
  }

  /** The stage at which a step is taken; at any other it does nothing. */
  predicate TakenAt(rt: Routing, plan: Plan, e: Event, stage: Stage) {
    match e
    case LocalTx(_, _) => stage == Read && IsLocal(rt, plan)
    case T1(_, _) => stage == Read && !IsLocal(rt, plan)
    case T2(_, _) => stage == Reserved
    case C1(_, _) => stage == Aborting
    case T3(_, _) => stage == SourceCancelled
    case _ => false
  }

  lemma NotTaken(rt: Routing, plan: Plan, s: Lone, e: Event)
    requires LoneOk(rt, plan, s) && IsStep(e) && !TakenAt(rt, plan, e, s.stage)
    ensures LoneStep(rt, plan, s, e) == s
  {}

  /** Where a step that is taken leads. */
  lemma StepLeads(rt: Routing, plan: Plan, s: Lone, e: Event)
    requires LoneOk(rt, plan, s) && IsStep(e) && TakenAt(rt, plan, e, s.stage)
    ensures LoneStep(rt, plan, s, e).stage in (
      match e
      case LocalTx(_, _) => {Finished(LocalDone), Finished(LocalFailed)}
      case T1(_, _) => {Reserved, Finished(T1Failed)}
      case T2(_, _) => {SourceCancelled, Aborting}
      case C1(_, _) => {Finished(Aborted(true)), Finished(Aborted(false))}
      case _ => {Finished(Relocated), Finished(T3Failed)})
  {}

  function Steps(f: Fates): (es: seq<Event>)
    ensures forall k :: 0 <= k < |es| ==> IsStep(es[k]) && Own(es[k], 0)
  {
    [LocalTx(0, TxWorks(f.tx)), T1(0, TxWorks(f.tx)), T2(0, f.t2), C1(0, f.c1), T3(0, f.t3)]
  }

  /** The steps that may follow a reservation. */
  function SagaTail(rt: Routing, plan: Plan, s: Lone, f: Fates): (s': Lone)
    requires LoneOk(rt, plan, s)
    ensures LoneOk(rt, plan, s')
  {
    LoneStep(rt, plan, LoneStep(rt, plan, LoneStep(rt, plan, s, T2(0, f.t2)), C1(0, f.c1)), T3(0, f.t3))
  }

  /** All steps of a lone relocation. */
  function LoneEnd(rt: Routing, plan: Plan, s: Lone, f: Fates): (s': Lone)
    requires LoneOk(rt, plan, s)
    ensures LoneOk(rt, plan, s')
  {
    var s2 := LoneStep(rt, plan, s, LocalTx(0, TxWorks(f.tx)));
    SagaTail(rt, plan, LoneStep(rt, plan, s2, T1(0, TxWorks(f.tx))), f)
  }

  /** The plan of a relocation that is not declined. */
  function PlanFor(rt: Routing, w: World, id: Id, roomId: Id, uuid: JsString): Plan
    requires ForKey(rt, id) < |w.shards| && !Declined(rt, w, id, roomId)
  {
    Plan(id, At(rt, w, id).bookings[id], rt.childId(roomId, uuid), roomId)
  }

  lemma BeginIs(rt: Routing, w: World, id: Id, roomId: Id, uuid: JsString)
    requires AtRest(rt, w) && rt.childId(roomId, uuid) !in w.used
    requires ForKey(rt, id) < |w.shards| && !Declined(rt, w, id, roomId)
    ensures var plan := PlanFor(rt, w, id, roomId, uuid);
      Starts(rt, w, BeginRelocate(0, id, roomId, uuid), 0) &&
      Apply(rt, w, BeginRelocate(0, id, roomId, uuid)) == LoneWorld(plan, Lone(w.shards, Read), w.used + {plan.newId})
  {}

  lemma StepIn(rt: Routing, w: World, es: seq<Event>, plan: Plan, s: Lone, used: set<Id>, e: Event)
    requires Sized(rt, w) && LoneOk(rt, plan, s) && IsStep(e) && Run(rt, w, es) == LoneWorld(plan, s, used)
    ensures Run(rt, w, es + [e]) == LoneWorld(plan, LoneStep(rt, plan, s, e), used)
  {
    LoneStepIs(rt, plan, s, used, e);
    RunSnoc(rt, w, es, e);
  }

  /** The steps after the reading, whatever the reading found. */
  lemma StepsIn(rt: Routing, w: World, es: seq<Event>, plan: Plan, s: Lone, used: set<Id>, f: Fates)
    requires Sized(rt, w) && LoneOk(rt, plan, s) && Run(rt, w, es) == LoneWorld(plan, s, used)
    ensures Run(rt, w, es + [LocalTx(0, TxWorks(f.tx))] + [T1(0, TxWorks(f.tx))] + [T2(0, f.t2)] + [C1(0, f.c1)] + [T3(0, f.t3)]) ==
      LoneWorld(plan, LoneEnd(rt, plan, s, f), used)
  {
    var e1, e2, e3, e4 := LocalTx(0, TxWorks(f.tx)), T1(0, TxWorks(f.tx)), T2(0, f.t2), C1(0, f.c1);
    var s2 := LoneStep(rt, plan, s, e1);
    var s3 := LoneStep(rt, plan, s2, e2);
    var s4 := LoneStep(rt, plan, s3, e3);
    StepIn(rt, w, es, plan, s, used, e1);
    StepIn(rt, w, es + [e1], plan, s2, used, e2);
    StepIn(rt, w, es + [e1] + [e2], plan, s3, used, e3);
    StepIn(rt, w, es + [e1] + [e2] + [e3], plan, s4, used, e4);
    StepIn(rt, w, es + [e1] + [e2] + [e3] + [e4], plan, LoneStep(rt, plan, s4, e4), used, T3(0, f.t3));
  }

  lemma AsSteps(id: Id, roomId: Id, uuid: JsString, f: Fates)
    ensures RelocateEvents(id, roomId, uuid, f) ==
      [] + [BeginRelocate(0, id, roomId, uuid)] + [LocalTx(0, TxWorks(f.tx))] + [T1(0, TxWorks(f.tx))] + [T2(0, f.t2)] +
      [C1(0, f.c1)] + [T3(0, f.t3)]
  {}

  /** The events of a request run to the end of the lone relocation. */
  lemma RunIsLoneEnd(rt: Routing, w: World, id: Id, roomId: Id, uuid: JsString, f: Fates)
    requires AtRest(rt, w) && rt.childId(roomId, uuid) !in w.used
    requires ForKey(rt, id) < |w.shards| && !Declined(rt, w, id, roomId)
    ensures var plan := PlanFor(rt, w, id, roomId, uuid);
      LoneOk(rt, plan, Lone(w.shards, Read)) &&
      Run(rt, w, RelocateEvents(id, roomId, uuid, f)) ==
        LoneWorld(plan, LoneEnd(rt, plan, Lone(w.shards, Read), f), w.used + {plan.newId})
  {
    var plan := PlanFor(rt, w, id, roomId, uuid);
    KeysRoute(rt, id);
    KeysRoute(rt, roomId);
    BeginIs(rt, w, id, roomId, uuid);
    RunSnoc(rt, w, [], BeginRelocate(0, id, roomId, uuid));
    StepsIn(rt, w, [] + [BeginRelocate(0, id, roomId, uuid)], plan, Lone(w.shards, Read), w.used + {plan.newId}, f);
    AsSteps(id, roomId, uuid, f);
  }

  /** A lone relocation runs to an end, in shape, and leaves every row placed. */
  lemma RelocationRests(rt: Routing, w: World, id: Id, roomId: Id, uuid: JsString, f: Fates)
    requires AtRest(rt, w) && rt.childId(roomId, uuid) !in w.used
    requires ForKey(rt, id) < |w.shards| && !Declined(rt, w, id, roomId)
    ensures var w' := Run(rt, w, RelocateEvents(id, roomId, uuid, f));
      var plan := PlanFor(rt, w, id, roomId, uuid);
      AtRest(rt, World(w'.shards, map[], w'.used)) &&
      0 in w'.procs && w'.procs[0].Moving? && w'.procs[0].plan == plan && w'.procs[0].stage.Finished? &&
      Active(plan.original.status) && Shape(rt, w', w'.procs[0])
  {
    var es := RelocateEvents(id, roomId, uuid, f);
    var plan := PlanFor(rt, w, id, roomId, uuid);
    RunIsLoneEnd(rt, w, id, roomId, uuid, f);
    LoneEnds(rt, plan, w.shards, f);
    BaseAlways(rt, w, es);
    RestPlaced(rt, Run(rt, w, es));
    BeginIs(rt, w, id, roomId, uuid);
    OwnRunShapes(rt, w, BeginRelocate(0, id, roomId, uuid), Steps(f));
  }

  /** What the service needs of a lone relocation: its end, and that the shards are at rest. */
  lemma LoneRelocation(rt: Routing, w: World, id: Id, roomId: Id, uuid: JsString, f: Fates)
    requires AtRest(rt, w) && rt.childId(roomId, uuid) !in w.used
    requires ForKey(rt, id) < |w.shards| && !Declined(rt, w, id, roomId)
    ensures var w' := Run(rt, w, RelocateEvents(id, roomId, uuid, f));
      var plan := PlanFor(rt, w, id, roomId, uuid);
      LoneOk(rt, plan, Lone(w.shards, Read)) &&
      var end := LoneEnd(rt, plan, Lone(w.shards, Read), f);
      w'.shards == end.shards && w'.used == w.used + {plan.newId} && end.stage.Finished? &&
      w'.procs == map[0 := Moving(plan, end.stage, false)] && AtRest(rt, World(end.shards, map[], w'.used))
  {
    RunIsLoneEnd(rt, w, id, roomId, uuid, f);
    RelocationRests(rt, w, id, roomId, uuid, f);
  }

  /** A relocation whose steps are the only events ends in shape. */
  lemma OwnRunShapes(rt: Routing, w: World, e: Event, es: seq<Event>)
    requires Base(rt, w) && Starts(rt, w, e, 0) && forall k :: 0 <= k < |es| ==> Own(es[k], 0)
    ensures var w' := Run(rt, w, [e] + es);
      0 in w'.procs && w'.procs[0].Moving? && Shape(rt, w', w'.procs[0])
  {
    StartShapes(rt, w, e, 0);
    BaseKept(rt, w, e);
    RunSplit(rt, w, e, es);
    OwnRun(rt, Apply(rt, w, e), es);
    ShapeAlways(rt, Apply(rt, w, e), es, 0);
  }

  lemma {:induction false} RunSplit(rt: Routing, w: World, e: Event, es: seq<Event>)
    requires Sized(rt, w)
    ensures Run(rt, w, [e] + es) == Run(rt, Apply(rt, w, e), es)
    decreases |es|
  {
    if es == [] {
      assert [e] + es == [e];
      RunOne(rt, w, e);
    } else {
      RunSplit(rt, w, e, es[..|es| - 1]);
      assert [e] + es == ([e] + es[..|es| - 1]) + [es[|es| - 1]];
      RunSnoc(rt, w, [e] + es[..|es| - 1], es[|es| - 1]);
    }
  }

  /** A local relocation ends with its one transaction. */
  lemma LocalEnds(rt: Routing, plan: Plan, s: Lone, f: Fates)
    requires LoneOk(rt, plan, s) && s.stage == Read && IsLocal(rt, plan)
    ensures LoneEnd(rt, plan, s, f) == LoneStep(rt, plan, s, LocalTx(0, TxWorks(f.tx)))
    ensures LoneEnd(rt, plan, s, f).stage.Finished?
  {
    StepLeads(rt, plan, s, LocalTx(0, TxWorks(f.tx)));
    var s2 := LoneStep(rt, plan, s, LocalTx(0, TxWorks(f.tx)));
    NotTaken(rt, plan, s2, T1(0, TxWorks(f.tx)));
    NotTaken(rt, plan, s2, T2(0, f.t2));
    NotTaken(rt, plan, s2, C1(0, f.c1));
    NotTaken(rt, plan, s2, T3(0, f.t3));
  }

  /** How a saga ends: at T1, or as its tail does. */
  lemma SagaEnds(rt: Routing, plan: Plan, s: Lone, f: Fates)
    requires LoneOk(rt, plan, s) && s.stage == Read && !IsLocal(rt, plan)
    ensures var end, s3 := LoneEnd(rt, plan, s, f), LoneStep(rt, plan, s, T1(0, TxWorks(f.tx)));
      end == (if s3.stage == Reserved then SagaTail(rt, plan, s3, f) else s3) && end.stage.Finished?
  {
    NotTaken(rt, plan, s, LocalTx(0, TxWorks(f.tx)));
    var s3 := LoneStep(rt, plan, s, T1(0, TxWorks(f.tx)));
    StepLeads(rt, plan, s, T1(0, TxWorks(f.tx)));
    if s3.stage == Reserved { TailEnds(rt, plan, s3, f); } else { NoTail(rt, plan, s3, f); }
  }

  lemma NoTail(rt: Routing, plan: Plan, s: Lone, f: Fates)
    requires LoneOk(rt, plan, s) && s.stage.Finished?
    ensures SagaTail(rt, plan, s, f) == s
  {
    NotTaken(rt, plan, s, T2(0, f.t2));
    NotTaken(rt, plan, s, C1(0, f.c1));
    NotTaken(rt, plan, s, T3(0, f.t3));
  }

  /** After T2 comes C1 when it did not cancel the original, T3 when it did. */
  lemma TailEnds(rt: Routing, plan: Plan, s: Lone, f: Fates)
    requires LoneOk(rt, plan, s) && s.stage == Reserved
    ensures var s4, end := LoneStep(rt, plan, s, T2(0, f.t2)), SagaTail(rt, plan, s, f);
      end.stage.Finished? && (s4.stage == Aborting || s4.stage == SourceCancelled) &&
      end == LoneStep(rt, plan, s4, if s4.stage == Aborting then C1(0, f.c1) else T3(0, f.t3))
  {
    var s4 := LoneStep(rt, plan, s, T2(0, f.t2));
    StepLeads(rt, plan, s, T2(0, f.t2));
    if s4.stage == Aborting {
      StepLeads(rt, plan, s4, C1(0, f.c1));
      NotTaken(rt, plan, LoneStep(rt, plan, s4, C1(0, f.c1)), T3(0, f.t3));
    } else {
      NotTaken(rt, plan, s4, C1(0, f.c1));
      StepLeads(rt, plan, s4, T3(0, f.t3));
    }
  }

  lemma LoneEnds(rt: Routing, plan: Plan, shards: seq<Shard>, f: Fates)
    requires LoneOk(rt, plan, Lone(shards, Read))
    ensures LoneEnd(rt, plan, Lone(shards, Read), f).stage.Finished?
  {
    var s := Lone(shards, Read);
    if IsLocal(rt, plan) { LocalEnds(rt, plan, s, f); } else { SagaEnds(rt, plan, s, f); }
  }

  lemma OwnStep(rt: Routing, w: World, e: Event)
    requires Sized(rt, w) && 0 in w.procs && w.procs[0].Moving? && Own(e, 0)
    ensures Isolates(rt, w, e, 0) && 0 in Apply(rt, w, e).procs && Apply(rt, w, e).procs[0].Moving?
  {}

  lemma {:induction false} OwnRun(rt: Routing, w: World, es: seq<Event>)
    requires Sized(rt, w) && 0 in w.procs && w.procs[0].Moving?
    requires forall k :: 0 <= k < |es| ==> Own(es[k], 0)
    ensures IsolatedRun(rt, w, es, 0)
    ensures 0 in Run(rt, w, es).procs && Run(rt, w, es).procs[0].Moving?
  {
    if es != [] {
      OwnRun(rt, w, es[..|es| - 1]);
      OwnStep(rt, Run(rt, w, es[..|es| - 1]), es[|es| - 1]);
    }
  }

  /** The reply to a local relocation: the one transaction decides. */
  function LocalReply(plan: Plan, sh: Shard, f: Fates): Reply {
    TxReply(f.tx, ReserveAndCancel(sh, Reservation(plan, plan.original.status), plan.id))
  }

  /** Why a relocation is turned down before it writes: its booking is missing or inactive, or already in the room. */
  function Decline(rt: Routing, w: World, id: Id, roomId: Id): Refusal
    requires ForKey(rt, id) < |w.shards|
  {
    var rows := At(rt, w, id).bookings;
    if id !in rows then Missing else if !Active(rows[id].status) then Conflict else BadRequest
  }

  /** The reply to a refusal by the database: a row that is not there, a room that is taken, a broken constraint. */
  function RefusedReply(why: DbError): Reply {
    match why
    case NotFound => Rejected(Missing)
    case Taken => Rejected(Conflict)
    case Constraint => Rejected(Internal)
  }

  /** The reply to a transaction of the given fates over a body of the given result. */
  function TxReply(fates: nat -> TxFate, body: Result<Shard, DbError>): Reply {
    match fates(Settling(fates, 1))
    case Commits => if body.Ok? then Accepted else RefusedReply(body.error)
    case Conflicts => Rejected(Conflict)
    case Breaks => Rejected(Unavailable)
  }

  /** The reply to how a transaction ended. */
  function ReplyTo(r: Result<Shard, TxError>): Reply {
    match r
    case Ok(_) => Accepted
    case Err(Refused(why)) => RefusedReply(why)
    case Err(Exhausted) => Rejected(Conflict)
    case Err(Broken) => Rejected(Unavailable)
  }

  /**
   The reply tells why: a row was missing, the room was taken or all attempts met a conflict, the database
   refused the row, or the shard failed.
   */
  lemma TxReplyExactly(fates: nat -> TxFate, body: Result<Shard, DbError>)
    ensures var reply := TxReply(fates, body);
      (reply == Accepted <==> CommitsInTime(fates) && body.Ok?) &&
      (reply == Rejected(Missing) <==> CommitsInTime(fates) && body == Err(NotFound)) &&
      (reply == Rejected(Conflict) <==> ConflictsThroughout(fates) || (CommitsInTime(fates) && body == Err(Taken))) &&
      (reply == Rejected(Internal) <==> CommitsInTime(fates) && body == Err(Constraint)) &&
      (reply == Rejected(Unavailable) <==> !CommitsInTime(fates) && !ConflictsThroughout(fates))
  {
    SettlesExactly(fates);
  }

  /** A relocation is turned down when the booking is not there, is cancelled or completed, or is in the room already; the reply says which. */
  lemma DeclinedExactly(rt: Routing, w: World, id: Id, roomId: Id)
    requires Sized(rt, w) && ForKey(rt, id) < |w.shards|
    ensures var row := Row(rt, w, id);
      (!Declined(rt, w, id, roomId) <==>
        row.Some? && row.value.status in {PENDING, CONFIRMED} && row.value.roomId != roomId) &&
      (Decline(rt, w, id, roomId) == Missing <==> row.None?) &&
      (Decline(rt, w, id, roomId) == Conflict <==> row.Some? && row.value.status in {CANCELLED, COMPLETED})
  {}

  /** The others of a transaction that is served alone. */
  function Nobody(): (nat, Shard) -> Shard { (k: nat, sh: Shard) => sh }

  lemma {:induction false} NobodyDrifts(sh: Shard, k: nat)
    ensures Drift(sh, Nobody(), k) == sh
  {
    if k > 0 { NobodyDrifts(sh, k - 1); }
  }

  /** Some shard holds the room. */
  ghost predicate RoomStored(shards: seq<Shard>, roomId: Id) { exists i :: 0 <= i < |shards| && roomId in shards[i].rooms }

  /** No booking on any shard takes the room for the stay. */
  ghost predicate FreeEverywhere(shards: seq<Shard>, roomId: Id, checkIn: int, checkOut: int, except: Option<Id>) {
    forall i :: 0 <= i < |shards| ==> IsFree(shards[i].bookings, roomId, checkIn, checkOut, except)
  }

  /** A room and its bookings are on the room's own shard. */
  lemma RoomIsLocal(rt: Routing, w: World, roomId: Id, checkIn: int, checkOut: int, except: Option<Id>)
    requires AtRest(rt, w)
    ensures var i := ForKey(rt, roomId);
      i < |w.shards| &&
      (RoomStored(w.shards, roomId) <==> roomId in w.shards[i].rooms) &&
      (FreeEverywhere(w.shards, roomId, checkIn, checkOut, except) <==>
       IsFree(w.shards[i].bookings, roomId, checkIn, checkOut, except))
  {
    KeysRoute(rt, roomId);
    forall i | 0 <= i < |w.shards| && i != ForKey(rt, roomId)
      ensures roomId !in w.shards[i].rooms && IsFree(w.shards[i].bookings, roomId, checkIn, checkOut, except)
    {
      assert ShardPlaced(rt, i, w.shards[i], w.used);
    }
  }

  /** A pending booking of the room for the guest and the stay, at the room's price. */
  ghost predicate IsNewBooking(sh: Shard, b: Booking, roomId: Id, guestId: Id, checkIn: int, checkOut: int) {
    b.roomId == roomId && b.guestId == guestId && b.checkIn == checkIn && b.checkOut == checkOut && b.status == PENDING &&
    roomId in sh.rooms && IsPrice(b.totalPrice, sh.rooms[roomId], checkIn, checkOut)
  }

  /** A reservation with a new identifier is accepted exactly when its transaction commits, the room is stored and nobody has it for the stay. */
  lemma CreateOutcome(rt: Routing, w: World, q: Request, tx: nat -> TxFate)
    requires AtRest(rt, w) && q.id !in w.used && q.status == PENDING
    ensures ForKey(rt, q.roomId) < |w.shards|
    ensures var sh := w.shards[ForKey(rt, q.roomId)];
      var r := Reserve(sh, q, None);
      (TxReply(tx, r).Accepted? <==> TxWorks(tx) && r.Ok?) &&
      (TxReply(tx, r).Accepted? <==>
        CommitsInTime(tx) && RoomStored(w.shards, q.roomId) && FreeEverywhere(w.shards, q.roomId, q.checkIn, q.checkOut, None)) &&
      (r.Ok? ==> IsNewBooking(sh, r.value.bookings[q.id], q.roomId, q.guestId, q.checkIn, q.checkOut))
  {
    WorksExactly(tx);
    RoomIsLocal(rt, w, q.roomId, q.checkIn, q.checkOut, None);
    FreshIsNowhere(rt, w, q.id, ForKey(rt, q.roomId));
    ReserveExactly(w.shards[ForKey(rt, q.roomId)], q, None);
  }

  class BookingsService {
    const rt: Routing
    var shards: seq<Shard>
    /** How often the search version was raised. */
    var bumps: nat
    /** Every identifier drawn so far. */
    ghost var used: set<Id>

    ghost function Rest(): World
      reads this
    {
      World(shards, map[], used)
    }

    ghost predicate Valid()
      reads this
    {
      AtRest(rt, Rest())
    }

    constructor (rt: Routing, shards: seq<Shard>, ghost used: set<Id>)
      requires AtRest(rt, World(shards, map[], used))
      ensures Valid() && this.rt == rt && this.shards == shards && this.used == used && bumps == 0
    {
      this.rt := rt;
      this.shards := shards;
      this.used := used;
      bumps := 0;
    }

    /** A single statement on one shard. */
    method Write(i: nat, works: bool, r: Result<Shard, DbError>) returns (ok: bool)
      requires i < |shards|
      modifies this`shards
      ensures ok == (works && r.Ok?)
      ensures shards == if ok then old(shards)[i := r.value] else old(shards)
    {
      ok := works && r.Ok?;
      if ok { shards := shards[i := r.value]; }
    }

    /** A Serializable transaction on one shard, with its retries. */
    method Transact(i: nat, fates: nat -> TxFate, body: Shard -> Result<Shard, DbError>) returns (r: Result<Shard, TxError>)
      requires i < |shards|
      modifies this`shards
      ensures r.Ok? == (TxWorks(fates) && body(old(shards)[i]).Ok?)
      ensures shards == if r.Ok? then old(shards)[i := body(old(shards)[i]).value] else old(shards)
      ensures ReplyTo(r) == TxReply(fates, body(old(shards)[i]))
    {
      var db := new ShardDb(shards[i]);
      var attempts;
      r, attempts := db.Serializable(fates, Nobody(), body);
      NobodyDrifts(shards[i], attempts);
      assert shards[i := shards[i]] == shards;
      shards := shards[i := db.content];
    }

    method Create(guests: set<Id>, roomId: Id, guestId: Id, checkIn: int, checkOut: int, uuid: JsString, guestReads: bool, tx: nat -> TxFate)
      returns (reply: Reply)
      requires Valid() && rt.childId(roomId, uuid) !in used
      modifies this
      ensures Valid()
      ensures var e := CreateBooking(roomId, guestId, checkIn, checkOut, uuid);
        shards == if guestReads && guestId in guests && TxWorks(tx) then Run(rt, old(Rest()), [e]).shards else old(shards)
      ensures used == old(used) || used == old(used) + {rt.childId(roomId, uuid)}
      ensures ForKey(rt, roomId) < |old(shards)|
      ensures reply == (
        if checkOut <= checkIn then Rejected(BadRequest)
        else if !guestReads then Rejected(Unavailable)
        else if guestId !in guests then Rejected(Missing)
        else TxReply(tx, Reserve(old(shards)[ForKey(rt, roomId)],
          Request(rt.childId(roomId, uuid), roomId, guestId, checkIn, checkOut, PENDING), None)))
      ensures reply.Accepted? <==>
        checkOut > checkIn && guestReads && guestId in guests && CommitsInTime(tx) &&
        RoomStored(old(shards), roomId) && FreeEverywhere(old(shards), roomId, checkIn, checkOut, None)
      ensures reply.Accepted? ==>
        var row := Row(rt, Rest(), rt.childId(roomId, uuid));
        row.Some? && IsNewBooking(old(shards)[ForKey(rt, roomId)], row.value, roomId, guestId, checkIn, checkOut)
      ensures reply.Accepted? <==> Row(rt, Rest(), rt.childId(roomId, uuid)).Some?
      ensures bumps == old(bumps) + if reply.Accepted? then 1 else 0
      ensures reply.Accepted? <==> shards != old(shards)
    {
      ghost var w := Rest();
      ghost var e := CreateBooking(roomId, guestId, checkIn, checkOut, uuid);
      var id := rt.childId(roomId, uuid);
      KeysRoute(rt, roomId);
      ChildrenStay(rt, roomId, uuid);
      RunOne(rt, w, e);
      BaseKept(rt, w, e);
      assert Row(rt, w, id) == None by {
        if Row(rt, w, id).Some? { RowsArePlaced(rt, w, id); }
      }
      if checkOut <= checkIn { return Rejected(BadRequest); }
      if !guestReads { return Rejected(Unavailable); }
      if guestId !in guests { return Rejected(Missing); }
      var i := ForKey(rt, roomId);
      var q := Request(id, roomId, guestId, checkIn, checkOut, PENDING);
      CreateOutcome(rt, w, q, tx);
      var result := Transact(i, tx, sh => Reserve(sh, q, None));
      if result.Err? { return ReplyTo(result); }
      assert shards[i].bookings[id] == NewRow(w.shards[i].rooms[roomId], q);
      used := used + {id};
      bumps := bumps + 1;
      assert Rest() == Apply(rt, w, e);
      reply := Accepted;
    }

    method Cancel(id: Id, rowReads: bool, works: bool) returns (reply: Reply)
      requires Valid()
      modifies this
      ensures Valid() && used == old(used)
      ensures shards == if rowReads && works then Run(rt, old(Rest()), [BeginCancel(0, id), CommitCancel(0)]).shards else old(shards)
      ensures bumps == old(bumps) + if reply.Accepted? then 1 else 0
      ensures reply.Accepted? <==> shards != old(shards)
      ensures var row := Row(rt, old(Rest()), id);
        reply == (
          if !rowReads then Rejected(Unavailable)
          else if row.None? then Rejected(Missing)
          else if !Active(row.value.status) then Rejected(Conflict)
          else if works then Accepted else Rejected(Unavailable))
    {
      CancelRun(rt, Rest(), id);
      KeysRoute(rt, id);
      var i := ForKey(rt, id);
      if !rowReads { return Rejected(Unavailable); }
      if id !in shards[i].bookings { return Rejected(Missing); }
      var status := shards[i].bookings[id].status;
      if status == CANCELLED || status == COMPLETED { return Rejected(Conflict); }
      var ok := Write(i, works, SetStatus(shards[i], id, CANCELLED));
      if !ok { return Rejected(Unavailable); }
      bumps := bumps + 1;
      reply := Accepted;
    }

    method Remove(id: Id, rowReads: bool, works: bool) returns (reply: Reply)
      requires Valid()
      modifies this
      ensures Valid() && used == old(used)
      ensures shards == if rowReads && works then Run(rt, old(Rest()), [RemoveBooking(id)]).shards else old(shards)
      ensures bumps == old(bumps) + if reply.Accepted? then 1 else 0
      ensures reply == (
        if !rowReads then Rejected(Unavailable)
        else if Row(rt, old(Rest()), id).None? then Rejected(Missing) else if works then Accepted else Rejected(Unavailable))
      ensures reply.Accepted? ==> Row(rt, Rest(), id) == None
    {
      RemoveRun(rt, Rest(), id);
      var i := ForKey(rt, id);
      if !rowReads { return Rejected(Unavailable); }
      if id !in shards[i].bookings { return Rejected(Missing); }
      var ok := Write(i, works, DeleteBooking(shards[i], id));
      if !ok { return Rejected(Unavailable); }
      bumps := bumps + 1;
      reply := Accepted;
    }

    method Update(guests: set<Id>, id: Id, patch: BookingPatch, guestReads: bool, rowReads: bool, works: bool) returns (reply: Reply)
      requires Valid()
      modifies this
      ensures Valid() && used == old(used)
      ensures shards == if rowReads && works && (patch.guestId.Some? ==> guestReads && patch.guestId.value in guests)
        then Run(rt, old(Rest()), [UpdateBooking(id, patch)]).shards else old(shards)
      ensures bumps == old(bumps) + if reply.Accepted? then 1 else 0
      ensures ForKey(rt, id) < |old(shards)|
      ensures reply == (
        if patch.roomId.Some? && rt.bucketOf(patch.roomId.value) != rt.bucketOf(id) then Rejected(BadRequest)
        else if patch.guestId.Some? && !guestReads then Rejected(Unavailable)
        else if patch.guestId.Some? && patch.guestId.value !in guests then Rejected(Missing)
        else if !rowReads then Rejected(Unavailable)
        else if Row(rt, old(Rest()), id).None? then Rejected(Missing)
        else if !works then Rejected(Unavailable)
        else if PatchBooking(old(shards)[ForKey(rt, id)], id, patch).Ok? then Accepted
        else Rejected(Internal))
      ensures reply.Accepted? ==> Row(rt, Rest(), id).Some? && rt.bucketOf(Row(rt, Rest(), id).value.roomId) == rt.bucketOf(id)
      ensures reply.Accepted? ==> shards == old(shards)[ForKey(rt, id) := PatchBooking(old(shards)[ForKey(rt, id)], id, patch).value]
    {
      ghost var w := Rest();
      KeysRoute(rt, id);
      RunOne(rt, w, UpdateBooking(id, patch));
      BaseKept(rt, w, UpdateBooking(id, patch));
      var i := ForKey(rt, id);
      if patch.roomId.Some? && rt.bucketOf(patch.roomId.value) != rt.bucketOf(id) { return Rejected(BadRequest); }
      if patch.guestId.Some? && !guestReads { return Rejected(Unavailable); }
      if patch.guestId.Some? && patch.guestId.value !in guests { return Rejected(Missing); }
      if !rowReads { return Rejected(Unavailable); }
      if id !in shards[i].bookings { return Rejected(Missing); }
      if !works { return Rejected(Unavailable); }
      var ok := Write(i, works, PatchBooking(shards[i], id, patch));
      if !ok { return Rejected(Internal); }
      bumps := bumps + 1;
      assert Rest() == Apply(rt, w, UpdateBooking(id, patch));
      RowsArePlaced(rt, Rest(), id);
      reply := Accepted;
    }

    /** The end of a relocation: rows, reply, log and search version. */
    ghost predicate Concluded(plan: Plan, end: Lone, bumpsBefore: nat, local: Reply, reply: Reply, steps: seq<SagaStep>)
      reads this
    {
      shards == end.shards && end.stage.Finished? &&
      reply == ReplyFor(end.stage.outcome, local) &&
      steps == SagaLog(end.stage.outcome, ForKey(rt, plan.id), ForKey(rt, plan.roomId)) &&
      bumps == bumpsBefore + (if end.stage.outcome in {LocalFailed, T1Failed, T3Failed} then 0 else 1)
    }

    /** Both bookings on one shard: reserve and cancel in one transaction. */
    method RelocateLocally(plan: Plan, f: Fates) returns (reply: Reply, steps: seq<SagaStep>)
      requires LoneOk(rt, plan, Lone(shards, Read)) && IsLocal(rt, plan)
      modifies `shards, `bumps
      ensures Concluded(plan, LoneEnd(rt, plan, Lone(old(shards), Read), f), old(bumps),
        LocalReply(plan, old(shards)[ForKey(rt, plan.id)], f), reply, steps)
    {
      LocalEnds(rt, plan, Lone(shards, Read), f);
      var i := ForKey(rt, plan.id);
      var result := Transact(i, f.tx, sh => ReserveAndCancel(sh, Reservation(plan, plan.original.status), plan.id));
      if result.Err? { return ReplyTo(result), []; }
      bumps := bumps + 1;
      return Accepted, [SagaStep(StepLocal, i, Done)];
    }

    method ReserveTarget(plan: Plan, tx: nat -> TxFate) returns (ok: bool)
      requires LoneOk(rt, plan, Lone(shards, Read)) && !IsLocal(rt, plan)
      modifies `shards
      ensures Lone(shards, if ok then Reserved else Finished(T1Failed)) == LoneStep(rt, plan, Lone(old(shards), Read), T1(0, TxWorks(tx)))
    {
      var target := ForKey(rt, plan.roomId);
      var result := Transact(target, tx, sh => Reserve(sh, Reservation(plan, PENDING), None));
      ok := result.Ok?;
    }

    method CancelSource(plan: Plan, works: bool) returns (ok: bool)
      requires LoneOk(rt, plan, Lone(shards, Reserved))
      modifies `shards
      ensures Lone(shards, if ok then SourceCancelled else Aborting) == LoneStep(rt, plan, Lone(old(shards), Reserved), T2(0, works))
    {
      var source := ForKey(rt, plan.id);
      var (cancelled, count) := SetStatusIf(shards[source], plan.id, ACTIVE, CANCELLED);
      ok := Write(source, works && count > 0, Ok(cancelled));
    }

    /** Best effort: a failed compensation is logged, not raised. */
    method Compensate(plan: Plan, works: bool) returns (step: SagaStep)
      requires LoneOk(rt, plan, Lone(shards, Aborting))
      modifies `shards
      ensures step == SagaStep(StepC1, ForKey(rt, plan.roomId), if works then Compensated else Failed)
      ensures Lone(shards, Finished(Aborted(works))) == LoneStep(rt, plan, Lone(old(shards), Aborting), C1(0, works))
    {
      var target := ForKey(rt, plan.roomId);
      var (released, _) := SetStatusIf(shards[target], plan.newId, {PENDING}, CANCELLED);
      var ok := Write(target, works, Ok(released));
      step := SagaStep(StepC1, target, if ok then Compensated else Failed);
    }

    method ConfirmTarget(plan: Plan, works: bool) returns (ok: bool)
      requires LoneOk(rt, plan, Lone(shards, SourceCancelled))
      modifies `shards
      ensures Lone(shards, Finished(if ok then Relocated else T3Failed)) ==
        LoneStep(rt, plan, Lone(old(shards), SourceCancelled), T3(0, works))
    {
      var target := ForKey(rt, plan.roomId);
      ok := Write(target, works, SetStatus(shards[target], plan.newId, plan.original.status));
    }

    /** The saga: T1, T2, then T3, or C1 when T2 did not cancel the original. */
    method RelocateBySaga(plan: Plan, f: Fates) returns (reply: Reply, steps: seq<SagaStep>)
      requires LoneOk(rt, plan, Lone(shards, Read)) && !IsLocal(rt, plan)
      modifies `shards, `bumps
      ensures Concluded(plan, LoneEnd(rt, plan, Lone(old(shards), Read), f), old(bumps),
        LocalReply(plan, old(shards)[ForKey(rt, plan.id)], f), reply, steps)
    {
      SagaEnds(rt, plan, Lone(shards, Read), f);
      var target := ForKey(rt, plan.roomId);
      ghost var local := LocalReply(plan, shards[ForKey(rt, plan.id)], f);
      var reserved := ReserveTarget(plan, f.tx);
      if !reserved { return SagaAborted, [SagaStep(StepT1, target, Failed)]; }
      steps := [SagaStep(StepT1, target, Done)];
      reply, steps := AfterReservation(plan, f, steps, local);
    }

    /** T2, then T3, or C1 when T2 did not cancel the original. */
    method AfterReservation(plan: Plan, f: Fates, log: seq<SagaStep>, ghost local: Reply) returns (reply: Reply, steps: seq<SagaStep>)
      requires LoneOk(rt, plan, Lone(shards, Reserved)) && !IsLocal(rt, plan)
      requires log == [SagaStep(StepT1, ForKey(rt, plan.roomId), Done)]
      modifies `shards, `bumps
      ensures Concluded(plan, SagaTail(rt, plan, Lone(old(shards), Reserved), f), old(bumps), local, reply, steps)
    {
      TailEnds(rt, plan, Lone(shards, Reserved), f);
      var source, target := ForKey(rt, plan.id), ForKey(rt, plan.roomId);
      steps := log;
      var passed := CancelSource(plan, f.t2);
      if !passed {
        steps := steps + [SagaStep(StepT2, source, Failed)];
        var step := Compensate(plan, f.c1);
        steps := steps + [step];
        bumps := bumps + 1;
        return SagaAborted, steps;
      }
      steps := steps + [SagaStep(StepT2, source, Done)];
      var confirmed := ConfirmTarget(plan, f.t3);
      if !confirmed { return Unfinished, []; }
      steps := steps + [SagaStep(StepT3, target, Done)];
      bumps := bumps + 1;
      return Accepted, steps;
    }

    /**
     Relocation: one local transaction on a shared shard, the saga otherwise. The shards end as the
     machine's run leaves them, the reply and the log tell its outcome, and the search version is
     raised exactly when the request ran to a reply; after a failed T3 it is not, although two
     bookings changed.
     */
    method Relocate(id: Id, roomId: Id, uuid: JsString, simulateFailure: bool, faultInjection: bool, rowReads: bool, f: Fates)
      returns (reply: Reply, steps: seq<SagaStep>)
      requires Valid() && rt.childId(roomId, uuid) !in used
      modifies this
      ensures Valid()
      ensures ForKey(rt, id) < |old(shards)|
      ensures (simulateFailure && !faultInjection) || !rowReads || Declined(rt, old(Rest()), id, roomId) ==>
        steps == [] && shards == old(shards) && used == old(used) && bumps == old(bumps) &&
        reply == Rejected(
          if simulateFailure && !faultInjection then BadRequest
          else if !rowReads then Unavailable else Decline(rt, old(Rest()), id, roomId))
      ensures !(simulateFailure && !faultInjection) && rowReads && !Declined(rt, old(Rest()), id, roomId) ==>
        var w' := Run(rt, old(Rest()), RelocateEvents(id, roomId, uuid, f.(t2 := f.t2 && !simulateFailure)));
        shards == w'.shards && used == w'.used &&
        0 in w'.procs && w'.procs[0].Moving? && w'.procs[0].stage.Finished? &&
        var outcome := w'.procs[0].stage.outcome;
        reply == ReplyFor(outcome, LocalReply(w'.procs[0].plan, old(shards)[ForKey(rt, id)], f)) &&
        steps == SagaLog(outcome, ForKey(rt, id), ForKey(rt, roomId)) &&
        bumps == old(bumps) + (if outcome in {LocalFailed, T1Failed, T3Failed} then 0 else 1)
    {
      KeysRoute(rt, id);
      KeysRoute(rt, roomId);
      if simulateFailure && !faultInjection { return Rejected(BadRequest), []; }
      if !rowReads { return Rejected(Unavailable), []; }
      var source := ForKey(rt, id);
      if id !in shards[source].bookings { return Rejected(Missing), []; }
      var original := shards[source].bookings[id];
      if !Active(original.status) { return Rejected(Conflict), []; }
      if original.roomId == roomId { return Rejected(BadRequest), []; }
      reply, steps := Move(id, roomId, uuid, f.(t2 := f.t2 && !simulateFailure));
    }

    /** A relocation that is not turned down. */
    method Move(id: Id, roomId: Id, uuid: JsString, f: Fates) returns (reply: Reply, steps: seq<SagaStep>)
      requires Valid() && rt.childId(roomId, uuid) !in used
      requires ForKey(rt, id) < |shards| && !Declined(rt, Rest(), id, roomId)
      modifies this
      ensures Valid()
      ensures var w' := Run(rt, old(Rest()), RelocateEvents(id, roomId, uuid, f));
        shards == w'.shards && used == w'.used &&
        0 in w'.procs && w'.procs[0].Moving? && w'.procs[0].stage.Finished? &&
        var outcome := w'.procs[0].stage.outcome;
        reply == ReplyFor(outcome, LocalReply(w'.procs[0].plan, old(shards)[ForKey(rt, id)], f)) &&
        steps == SagaLog(outcome, ForKey(rt, id), ForKey(rt, roomId)) &&
        bumps == old(bumps) + (if outcome in {LocalFailed, T1Failed, T3Failed} then 0 else 1)
    {
      LoneRelocation(rt, Rest(), id, roomId, uuid, f);
      var plan := Plan(id, shards[ForKey(rt, id)].bookings[id], rt.childId(roomId, uuid), roomId);
      if IsLocal(rt, plan) {
        reply, steps := RelocateLocally(plan, f);
      } else {
        reply, steps := RelocateBySaga(plan, f);
      }
      used := used + {plan.newId};
    }
  }

  /** What the client learns of a relocation is what the rows say. */
  lemma ReplyTellsTheRows(rt: Routing, w: World, id: Id, roomId: Id, uuid: JsString, f: Fates)
    requires AtRest(rt, w) && rt.childId(roomId, uuid) !in w.used
    requires ForKey(rt, id) < |w.shards| && !Declined(rt, w, id, roomId)
    ensures var w' := Run(rt, w, RelocateEvents(id, roomId, uuid, f));
      var plan := PlanFor(rt, w, id, roomId, uuid);
      0 in w'.procs && w'.procs[0].Moving? && w'.procs[0].stage.Finished? &&
      RowsMatch(rt, w', plan, w'.procs[0].stage.outcome)
  {
    RelocationRests(rt, w, id, roomId, uuid, f);
    var w' := Run(rt, w, RelocateEvents(id, roomId, uuid, f));
    ShapeMatches(rt, w', w'.procs[0]);
  }

  /** The two rows that go with a reply. */
  ghost predicate RowsMatch(rt: Routing, w: World, plan: Plan, outcome: Outcome)
    requires Sized(rt, w)
  {
    var old_, new_ := Row(rt, w, plan.id), Row(rt, w, plan.newId);
    forall local: Reply :: local.Rejected? ==>
      match ReplyFor(outcome, local)
      case Accepted => !IsActive(old_) && IsReservation(plan, new_, plan.original.status)
      case Unfinished => !IsActive(old_) && IsReservation(plan, new_, PENDING)
      case _ => old_ == Some(plan.original) && (IsActive(new_) <==> outcome == Aborted(false))
  }

  /** What the steps of a log say about the two rows, and on which shard each step ran. */
  ghost predicate LogMatches(rt: Routing, w: World, plan: Plan, log: seq<SagaStep>)
    requires Sized(rt, w)
  {
    var old_, new_ := Row(rt, w, plan.id), Row(rt, w, plan.newId);
    (forall k :: 0 <= k < |log| ==>
      log[k].shard == ForKey(rt, if log[k].step == StepT2 || log[k].step == StepLocal then plan.id else plan.roomId) &&
      match (log[k].step, log[k].status)
      case (StepT1, Failed) => old_ == Some(plan.original) && new_ == None
      case (StepT1, _) => new_.Some?
      case (StepT2, Done) => !IsActive(old_)
      case (StepT2, _) => old_ == Some(plan.original)
      case (StepT3, Done) => IsReservation(plan, new_, plan.original.status)
      case (StepT3, _) => false
      case (StepC1, Compensated) => new_.Some? && new_.value.status == CANCELLED
      case (StepC1, _) => IsReservation(plan, new_, PENDING)
      case (StepLocal, _) => !IsActive(old_) && IsReservation(plan, new_, plan.original.status))
  }

  /** Each step of the log a relocation returns is what the rows show, and a log ends with the step that decided. */
  lemma LogTellsTheRows(rt: Routing, w: World, id: Id, roomId: Id, uuid: JsString, f: Fates)
    requires AtRest(rt, w) && rt.childId(roomId, uuid) !in w.used
    requires ForKey(rt, id) < |w.shards| && !Declined(rt, w, id, roomId)
    ensures var w' := Run(rt, w, RelocateEvents(id, roomId, uuid, f));
      var plan := PlanFor(rt, w, id, roomId, uuid);
      0 in w'.procs && w'.procs[0].Moving? && w'.procs[0].stage.Finished? &&
      var outcome := w'.procs[0].stage.outcome;
      var log := SagaLog(outcome, ForKey(rt, id), ForKey(rt, roomId));
      LogMatches(rt, w', plan, log) &&
      (log == [] <==> outcome == LocalFailed || outcome == T3Failed) &&
      (log != [] ==>
        match log[|log| - 1].step
        case StepLocal => outcome == LocalDone
        case StepT1 => outcome == T1Failed
        case StepT3 => outcome == Relocated
        case StepC1 => outcome == Aborted(log[|log| - 1].status == Compensated)
        case StepT2 => false)
  {
    RelocationRests(rt, w, id, roomId, uuid, f);
    var w' := Run(rt, w, RelocateEvents(id, roomId, uuid, f));
    ShapeLogs(rt, w', w'.procs[0]);
    LocalOutcomesAreLocal(rt, w, id, roomId, uuid, f);
  }

  /** Only a relocation within one shard ends with the local transaction. */
  lemma LocalOutcomesAreLocal(rt: Routing, w: World, id: Id, roomId: Id, uuid: JsString, f: Fates)
    requires AtRest(rt, w) && rt.childId(roomId, uuid) !in w.used
    requires ForKey(rt, id) < |w.shards| && !Declined(rt, w, id, roomId)
    ensures var w' := Run(rt, w, RelocateEvents(id, roomId, uuid, f));
      0 in w'.procs && w'.procs[0].Moving? &&
      (w'.procs[0].stage == Finished(LocalDone) ==> ForKey(rt, id) == ForKey(rt, roomId))
  {
    RelocationEndsAsExpected(rt, w, id, roomId, uuid, f);
  }

  lemma ShapeLogs(rt: Routing, w: World, p: Proc)
    requires Sized(rt, w) && p.Moving? && Active(p.plan.original.status) && Shape(rt, w, p) && p.stage.Finished?
    ensures LogMatches(rt, w, p.plan, SagaLog(p.stage.outcome, ForKey(rt, p.plan.id), ForKey(rt, p.plan.roomId)))
  {}

  lemma ShapeMatches(rt: Routing, w: World, p: Proc)
    requires Sized(rt, w) && p.Moving? && Active(p.plan.original.status) && Shape(rt, w, p) && p.stage.Finished?
    ensures RowsMatch(rt, w, p.plan, p.stage.outcome)
  {}

  // ---------------------------------------------------------------- when a relocation succeeds

  /** The target room is there and free for the stay; a local relocation may take over from the old booking. */
  predicate RoomFree(rt: Routing, w: World, plan: Plan)
    requires ForKey(rt, plan.roomId) < |w.shards|
  {
    var sh := At(rt, w, plan.roomId);
    plan.roomId in sh.rooms &&
    IsFree(sh.bookings, plan.roomId, plan.original.checkIn, plan.original.checkOut, if IsLocal(rt, plan) then Some(plan.id) else None)
  }

  /** The outcome the conditions of a relocation call for. */
  function Expected(rt: Routing, w: World, plan: Plan, f: Fates): Outcome
    requires ForKey(rt, plan.roomId) < |w.shards|
  {
    var reserved := TxWorks(f.tx) && RoomFree(rt, w, plan);
    if IsLocal(rt, plan) then (if reserved then LocalDone else LocalFailed)
    else if !reserved then T1Failed
    else if !f.t2 then Aborted(f.c1)
    else if !f.t3 then T3Failed
    else Relocated
  }

  /** A fresh identifier is on no shard. */
  lemma FreshIsNowhere(rt: Routing, w: World, id: Id, i: nat)
    requires AtRest(rt, w) && id !in w.used && i < |w.shards|
    ensures id !in w.shards[i].bookings
  {
    assert ShardPlaced(rt, i, w.shards[i], w.used);
  }

  lemma LocalOutcome(rt: Routing, w: World, plan: Plan, f: Fates)
    requires AtRest(rt, w) && LoneOk(rt, plan, Lone(w.shards, Read)) && IsLocal(rt, plan)
    requires plan.newId !in w.used && plan.id in At(rt, w, plan.id).bookings
    ensures LoneEnd(rt, plan, Lone(w.shards, Read), f).stage == Finished(Expected(rt, w, plan, f))
  {
    FreshIsNowhere(rt, w, plan.newId, ForKey(rt, plan.id));
    ReserveExactly(At(rt, w, plan.id), Reservation(plan, plan.original.status), Some(plan.id));
    LocalEnds(rt, plan, Lone(w.shards, Read), f);
  }

  lemma ReserveOutcome(rt: Routing, w: World, plan: Plan, works: bool)
    requires AtRest(rt, w) && LoneOk(rt, plan, Lone(w.shards, Read)) && !IsLocal(rt, plan) && plan.newId !in w.used
    ensures var s3 := LoneStep(rt, plan, Lone(w.shards, Read), T1(0, works));
      if works && RoomFree(rt, w, plan)
      then s3.stage == Reserved && plan.newId in s3.shards[ForKey(rt, plan.roomId)].bookings &&
           s3.shards[ForKey(rt, plan.id)] == At(rt, w, plan.id)
      else s3.stage == Finished(T1Failed)
  {
    FreshIsNowhere(rt, w, plan.newId, ForKey(rt, plan.roomId));
    ReserveExactly(At(rt, w, plan.roomId), Reservation(plan, PENDING), None);
  }

  lemma CancelOutcome(rt: Routing, plan: Plan, s: Lone, works: bool)
    requires LoneOk(rt, plan, s) && s.stage == Reserved && !IsLocal(rt, plan)
    requires var rows := s.shards[ForKey(rt, plan.id)].bookings; plan.id in rows && Active(rows[plan.id].status)
    ensures var s4 := LoneStep(rt, plan, s, T2(0, works));
      s4.stage == (if works then SourceCancelled else Aborting) &&
      s4.shards[ForKey(rt, plan.roomId)] == s.shards[ForKey(rt, plan.roomId)]
  {}

  lemma LastOutcome(rt: Routing, plan: Plan, s: Lone, works: bool)
    requires LoneOk(rt, plan, s) && plan.newId in s.shards[ForKey(rt, plan.roomId)].bookings
    ensures s.stage == SourceCancelled ==>
      LoneStep(rt, plan, s, T3(0, works)).stage == Finished(if works then Relocated else T3Failed)
    ensures s.stage == Aborting ==> LoneStep(rt, plan, s, C1(0, works)).stage == Finished(Aborted(works))
  {}

  lemma SagaOutcome(rt: Routing, w: World, plan: Plan, f: Fates)
    requires AtRest(rt, w) && LoneOk(rt, plan, Lone(w.shards, Read)) && !IsLocal(rt, plan) && plan.newId !in w.used
    requires plan.id in At(rt, w, plan.id).bookings && Active(At(rt, w, plan.id).bookings[plan.id].status)
    ensures LoneEnd(rt, plan, Lone(w.shards, Read), f).stage == Finished(Expected(rt, w, plan, f))
  {
    ReserveOutcome(rt, w, plan, TxWorks(f.tx));
    SagaEnds(rt, plan, Lone(w.shards, Read), f);
    var s3 := LoneStep(rt, plan, Lone(w.shards, Read), T1(0, TxWorks(f.tx)));
    if s3.stage == Reserved {
      TailEnds(rt, plan, s3, f);
      CancelOutcome(rt, plan, s3, f.t2);
      var s4 := LoneStep(rt, plan, s3, T2(0, f.t2));
      LastOutcome(rt, plan, s4, if f.t2 then f.t3 else f.c1);
    }
  }

  /**
   A relocation served alone ends as its conditions call for: it succeeds exactly when the room is
   there and free and its writes work, and otherwise stops at the first that does not.
   */
  lemma RelocationEndsAsExpected(rt: Routing, w: World, id: Id, roomId: Id, uuid: JsString, f: Fates)
    requires AtRest(rt, w) && rt.childId(roomId, uuid) !in w.used
    requires ForKey(rt, id) < |w.shards| && !Declined(rt, w, id, roomId)
    ensures var w' := Run(rt, w, RelocateEvents(id, roomId, uuid, f));
      var plan := PlanFor(rt, w, id, roomId, uuid);
      ForKey(rt, plan.roomId) < |w.shards| && 0 in w'.procs && w'.procs[0].Moving? &&
      w'.procs[0].stage == Finished(Expected(rt, w, plan, f))
  {
    var plan := PlanFor(rt, w, id, roomId, uuid);
    KeysRoute(rt, roomId);
    RunIsLoneEnd(rt, w, id, roomId, uuid, f);
    if IsLocal(rt, plan) { LocalOutcome(rt, w, plan, f); } else { SagaOutcome(rt, w, plan, f); }
  }
}
