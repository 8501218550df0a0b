/**
 Read-your-own-writes over runs with time: several instances of the router, one Redis, a primary
 whose commits form a log and a replica that has applied a prefix of it
 (src/database/db-router.service.ts, write, read, rememberWrite, isSticky and probeNodes).

 A write commits, is remembered by its instance, then in Redis, and only then acknowledged. A read
 looks at its instance's memory, then at Redis, and asks a node some time later. Steps of all
 requests interleave; clocks agree.
 */
module ReadYourWrites {
  import opened Wrappers
  import opened Cache
  import opened DbRouter

  datatype Phase = Committed | RememberedHere | Flagged(inRedis: bool) | Acknowledged(inRedis: bool)

  datatype WriteRec = WriteRec(session: Session, instance: nat, time: nat, phase: Phase)

  /** A read in progress: the writes it was promised, and what its checks have found so far. */
  datatype ReadStage = Begun | NotHere | Checked(sticky: bool, redisAnswered: bool) | Done(redisAnswered: bool, reply: Reply<nat>)

  datatype ReadRec = ReadRec(session: Session, instance: nat, promised: set<nat>, stage: ReadStage)

  datatype World = World(
    now: nat,
    log: seq<WriteRec>,
    applied: nat,
    memory: seq<Stickies>,
    flags: map<Session, int>,
    queries: map<nat, ReadRec>)

  datatype Event =
    | Tick(ms: nat)
    | Replicate
    | CommitWrite(session: Session, instance: nat)
    | Remember(k: nat)
    | SetFlag(k: nat, works: bool)
    | Acknowledge(k: nat)
    | Probe(instance: nat)
    | BeginRead(req: nat, session: Session, instance: nat)
    | LookHere(req: nat)
    | LookInRedis(req: nat, works: bool)
    | AskNodes(req: nat, looks: Looks, primaryFails: bool, replicaFails: Answer<nat>)

  type Millis = n: nat | n > 0 witness 1

  /** The timing of a deployment: the sticky time to live and the age at which a commit has been applied. */
  datatype Timing = Timing(stickyTtl: nat, lag: Millis)

  /** Every commit the replica has not applied is younger than the lag bound. */
  ghost predicate LagBounded(log: seq<WriteRec>, applied: nat, now: nat, lag: nat) {
    forall k :: applied <= k < |log| ==> now < log[k].time + lag
  }

  predicate InPhase(w: World, k: nat, phase: Phase) { k < |w.log| && w.log[k].phase == phase }

  function Move(w: World, k: nat, phase: Phase): World
    requires k < |w.log|
  {
    w.(log := w.log[k := w.log[k].(phase := phase)])
  }

  predicate AtStage(w: World, req: nat, stage: ReadStage) { req in w.queries && w.queries[req].stage == stage }

  function Proceed(w: World, req: nat, stage: ReadStage): World
    requires req in w.queries
  {
    w.(queries := w.queries[req := w.queries[req].(stage := stage)])
  }

  /** The session's writes the client has been told of. */
  function Promised(log: seq<WriteRec>, session: Session): set<nat> {
    set k | 0 <= k < |log| && log[k].session == session && log[k].phase.Acknowledged?
  }

  /** What the nodes would answer: how much of the log they hold. */
  function Nodes(w: World, primaryFails: bool, replicaFails: Answer<nat>): Node -> Answer<nat> {
    (n: Node) =>
      if n == PRIMARY then (if primaryFails then ConnectionError else Value(|w.log|))
      else if replicaFails.Value? then Value(w.applied) else replicaFails
  }

  /** One step. An event that is not enabled leaves the world as it is. */
  ghost function Apply(t: Timing, w: World, e: Event): World {
    match e
    case Tick(ms) => if LagBounded(w.log, w.applied, w.now + ms, t.lag) then w.(now := w.now + ms) else w
    case Replicate => if w.applied < |w.log| then w.(applied := w.applied + 1) else w
    case CommitWrite(session, i) =>
      if i < |w.memory| then w.(log := w.log + [WriteRec(session, i, w.now, Committed)]) else w
    case Remember(k) =>
      if !InPhase(w, k, Committed) || w.log[k].instance >= |w.memory| then w
      else
        var i := w.log[k].instance;
        Move(w, k, RememberedHere).(memory := w.memory[i := Remembered(w.memory[i], w.log[k].session, w.now, t.stickyTtl)])
    case SetFlag(k, works) =>
      if !InPhase(w, k, RememberedHere) then w
      else if works then Move(w, k, Flagged(true)).(flags := w.flags[w.log[k].session := w.now + t.stickyTtl])
      else Move(w, k, Flagged(false))
    case Acknowledge(k) =>
      if k < |w.log| && w.log[k].phase.Flagged? then Move(w, k, Acknowledged(w.log[k].phase.inRedis)) else w
    case Probe(i) => if i < |w.memory| then w.(memory := w.memory[i := Cleaned(w.memory[i], w.now)]) else w
    case BeginRead(req, session, i) =>
      if req in w.queries || i >= |w.memory| then w
      else w.(queries := w.queries[req := ReadRec(session, i, Promised(w.log, session), Begun)])
    case LookHere(req) =>
      if !AtStage(w, req, Begun) || w.queries[req].instance >= |w.memory| then w
      else if SticksLocally(w.memory[w.queries[req].instance], w.queries[req].session, w.now)
      then Proceed(w, req, Checked(true, false))
      else Proceed(w, req, NotHere)
    case LookInRedis(req, works) =>
      if !AtStage(w, req, NotHere) then w
      else if !works then Proceed(w, req, Checked(false, false))
      else Proceed(w, req, Checked(SticksLocally(w.flags, w.queries[req].session, w.now), true))
    case AskNodes(req, looks, primaryFails, replicaFails) =>
      if req !in w.queries || !w.queries[req].stage.Checked? then w
      else
        var stage := w.queries[req].stage;
        var path := ReadPath(true, stage.sticky, looks, Nodes(w, primaryFails, replicaFails), EVENTUAL);
        Proceed(w, req, Done(stage.redisAnswered, path.reply))
  }

  ghost function Run(t: Timing, w: World, es: seq<Event>): World {
    if es == [] then w else Apply(t, Run(t, w, es[..|es| - 1]), es[|es| - 1])
  }

  function Start(instances: nat): World {
    World(0, [], 0, seq(instances, _ => map[]), map[], map[])
  }

  // ---------------------------------------------------------------- what every step keeps

  predicate SetInRedis(p: Phase) { (p.Flagged? || p.Acknowledged?) && p.inRedis }

  /** A write is on the replica, or the entry that guards it lasts its whole sticky time. */
  ghost predicate Guarded(t: Timing, w: World, k: nat)
    requires k < |w.log|
  {
    var r := w.log[k];
    r.time <= w.now && r.instance < |w.memory| &&
    (r.phase != Committed ==> k < w.applied || Lasts(w.memory[r.instance], r.session, r.time + t.stickyTtl)) &&
    (SetInRedis(r.phase) ==> k < w.applied || Lasts(w.flags, r.session, r.time + t.stickyTtl))
  }

  predicate Lasts(entries: Stickies, session: Session, until: int) { session in entries && entries[session] >= until }

  /** A promised write that the read's own checks could have noticed. */
  predicate Covered(w: World, r: ReadRec, k: nat, redisAnswered: bool) {
    k in r.promised && k < |w.log| && (w.log[k].instance == r.instance || (redisAnswered && SetInRedis(w.log[k].phase)))
  }

  /** A reply holds every write the read's checks cover, unless it is degraded. */
  ghost predicate Sees(w: World, r: ReadRec, redisAnswered: bool, reply: Reply<nat>) {
    reply.Served? && reply.route != Degraded ==> forall k: nat :: Covered(w, r, k, redisAnswered) ==> k < reply.value
  }

  ghost predicate ReadSafe(w: World, r: ReadRec) {
    (forall k :: k in r.promised ==> k < |w.log| && w.log[k].phase.Acknowledged? && w.log[k].session == r.session) &&
    match r.stage
    case Begun => true
    case NotHere => forall k: nat :: Covered(w, r, k, false) ==> k < w.applied
    case Checked(sticky, redisAnswered) => !sticky ==> forall k: nat :: Covered(w, r, k, redisAnswered) ==> k < w.applied
    case Done(redisAnswered, reply) => Sees(w, r, redisAnswered, reply)
  }

  ghost predicate Inv(t: Timing, w: World) {
    w.applied <= |w.log| &&
    LagBounded(w.log, w.applied, w.now, t.lag) &&
    (forall k :: 0 <= k < |w.log| ==> Guarded(t, w, k)) &&
    (forall req :: req in w.queries ==> ReadSafe(w, w.queries[req]))
  }

  lemma StartSafe(t: Timing, instances: nat)
    ensures Inv(t, Start(instances))
  {}

  /** A commit older than the sticky time has been applied when the lag stays below it. */
  lemma ExpiredIsApplied(t: Timing, w: World, k: nat)
    requires t.lag <= t.stickyTtl && LagBounded(w.log, w.applied, w.now, t.lag) && k < |w.log|
    requires w.now >= w.log[k].time + t.stickyTtl
    ensures k < w.applied
  {}

  /** Reads stay safe while the log keeps its acknowledged entries and the replica only advances. */
  lemma ReadsStaySafe(w: World, w': World, req: nat)
    requires req in w.queries && req in w'.queries && w'.queries[req] == w.queries[req] && ReadSafe(w, w.queries[req])
    requires |w.log| <= |w'.log| && w.applied <= w'.applied
    requires forall k :: 0 <= k < |w.log| && w.log[k].phase.Acknowledged? ==> w'.log[k] == w.log[k]
    ensures ReadSafe(w', w'.queries[req])
  {
    var r := w.queries[req];
    forall k: nat, answered | Covered(w', r, k, answered) ensures Covered(w, r, k, answered) {
      assert w.log[k].phase.Acknowledged?;
    }
  }

  lemma TickKeeps(t: Timing, w: World, ms: nat)
    requires Inv(t, w)
    ensures Inv(t, Apply(t, w, Tick(ms)))
  {
    var w' := Apply(t, w, Tick(ms));
    forall k | 0 <= k < |w'.log| ensures Guarded(t, w', k) { assert Guarded(t, w, k); }
    forall req | req in w'.queries ensures ReadSafe(w', w'.queries[req]) { ReadsStaySafe(w, w', req); }
  }

  lemma ReplicateKeeps(t: Timing, w: World)
    requires Inv(t, w)
    ensures Inv(t, Apply(t, w, Replicate))
  {
    var w' := Apply(t, w, Replicate);
    forall k | 0 <= k < |w'.log| ensures Guarded(t, w', k) { assert Guarded(t, w, k); }
    forall req | req in w'.queries ensures ReadSafe(w', w'.queries[req]) { ReadsStaySafe(w, w', req); }
  }

  lemma CommitKeeps(t: Timing, w: World, session: Session, i: nat)
    requires Inv(t, w)
    ensures Inv(t, Apply(t, w, CommitWrite(session, i)))
  {
    var w' := Apply(t, w, CommitWrite(session, i));
    forall k | 0 <= k < |w'.log| ensures Guarded(t, w', k) { if k < |w.log| { assert Guarded(t, w, k); } }
    forall req | req in w'.queries ensures ReadSafe(w', w'.queries[req]) { ReadsStaySafe(w, w', req); }
  }

  lemma RememberKeeps(t: Timing, w: World, k: nat)
    requires Inv(t, w)
    ensures Inv(t, Apply(t, w, Remember(k)))
  {
    var w' := Apply(t, w, Remember(k));
    forall j | 0 <= j < |w'.log| ensures Guarded(t, w', j) { assert Guarded(t, w, j); }
    forall req | req in w'.queries ensures ReadSafe(w', w'.queries[req]) { ReadsStaySafe(w, w', req); }
  }

  lemma SetFlagKeeps(t: Timing, w: World, k: nat, works: bool)
    requires Inv(t, w)
    ensures Inv(t, Apply(t, w, SetFlag(k, works)))
  {
    var w' := Apply(t, w, SetFlag(k, works));
    forall j | 0 <= j < |w'.log| ensures Guarded(t, w', j) { assert Guarded(t, w, j); }
    forall req | req in w'.queries ensures ReadSafe(w', w'.queries[req]) { ReadsStaySafe(w, w', req); }
  }

  lemma AcknowledgeKeeps(t: Timing, w: World, k: nat)
    requires Inv(t, w)
    ensures Inv(t, Apply(t, w, Acknowledge(k)))
  {
    var w' := Apply(t, w, Acknowledge(k));
    forall j | 0 <= j < |w'.log| ensures Guarded(t, w', j) { assert Guarded(t, w, j); }
    forall req | req in w'.queries ensures ReadSafe(w', w'.queries[req]) { ReadsStaySafe(w, w', req); }
  }

  /** Dropping an expired entry leaves every write guarded: its commit has been applied by then. */
  lemma ProbeKeeps(t: Timing, w: World, i: nat)
    requires t.lag <= t.stickyTtl && Inv(t, w)
    ensures Inv(t, Apply(t, w, Probe(i)))
  {
    var w' := Apply(t, w, Probe(i));
    forall j | 0 <= j < |w'.log| ensures Guarded(t, w', j) {
      assert Guarded(t, w, j);
      if w.now >= w.log[j].time + t.stickyTtl { ExpiredIsApplied(t, w, j); }
    }
    forall req | req in w'.queries ensures ReadSafe(w', w'.queries[req]) { ReadsStaySafe(w, w', req); }
  }

  lemma OtherReadsKeep(t: Timing, w: World, w': World, req: nat)
    requires Inv(t, w) && w' == w.(queries := w'.queries)
    requires req in w'.queries && ReadSafe(w', w'.queries[req])
    requires forall r :: r in w'.queries && r != req ==> r in w.queries && w'.queries[r] == w.queries[r]
    ensures Inv(t, w')
  {
    forall j | 0 <= j < |w'.log| ensures Guarded(t, w', j) { assert Guarded(t, w, j); }
    forall r | r in w'.queries ensures ReadSafe(w', w'.queries[r]) { if r != req { ReadsStaySafe(w, w', r); } }
  }

  lemma BeginReadKeeps(t: Timing, w: World, req: nat, session: Session, i: nat)
    requires Inv(t, w)
    ensures Inv(t, Apply(t, w, BeginRead(req, session, i)))
  {
    var w' := Apply(t, w, BeginRead(req, session, i));
    if w' != w { OtherReadsKeep(t, w, w', req); }
  }

  lemma LookHereKeeps(t: Timing, w: World, req: nat)
    requires t.lag <= t.stickyTtl && Inv(t, w)
    ensures Inv(t, Apply(t, w, LookHere(req)))
  {
    var w' := Apply(t, w, LookHere(req));
    if w' != w {
      var r := w'.queries[req];
      if r.stage == NotHere {
        forall k: nat | Covered(w', r, k, false) ensures k < w'.applied {
          assert Guarded(t, w, k);
          if w.now >= w.log[k].time + t.stickyTtl { ExpiredIsApplied(t, w, k); }
        }
      }
      OtherReadsKeep(t, w, w', req);
    }
  }

  lemma LookInRedisKeeps(t: Timing, w: World, req: nat, works: bool)
    requires t.lag <= t.stickyTtl && Inv(t, w)
    ensures Inv(t, Apply(t, w, LookInRedis(req, works)))
  {
    var w' := Apply(t, w, LookInRedis(req, works));
    if w' != w {
      var r := w'.queries[req];
      if !r.stage.sticky {
        forall k: nat | Covered(w', r, k, r.stage.redisAnswered) ensures k < w'.applied {
          assert Guarded(t, w, k);
          if w.log[k].instance == r.instance { assert Covered(w, w.queries[req], k, false); }
          else if w.now >= w.log[k].time + t.stickyTtl { ExpiredIsApplied(t, w, k); }
        }
      }
      OtherReadsKeep(t, w, w', req);
    }
  }

  /** What a served value can be: the whole log from the primary, the applied prefix from the replica. */
  lemma ServedPrefix(w: World, sticky: bool, looks: Looks, primaryFails: bool, replicaFails: Answer<nat>)
    ensures var reply := ReadPath(true, sticky, looks, Nodes(w, primaryFails, replicaFails), EVENTUAL).reply;
      reply.Served? ==>
        reply.value == (if reply.node == PRIMARY then |w.log| else w.applied) &&
        (reply.node == REPLICA && reply.route != Degraded ==> !sticky)
  {
    ReadsAreOrderly(true, sticky, looks, Nodes(w, primaryFails, replicaFails), EVENTUAL);
    RoutesTellTheNode(true, sticky, looks, Nodes(w, primaryFails, replicaFails), EVENTUAL);
  }

  lemma AskNodesKeeps(t: Timing, w: World, req: nat, looks: Looks, primaryFails: bool, replicaFails: Answer<nat>)
    requires Inv(t, w)
    ensures Inv(t, Apply(t, w, AskNodes(req, looks, primaryFails, replicaFails)))
  {
    var w' := Apply(t, w, AskNodes(req, looks, primaryFails, replicaFails));
    if req in w.queries && w.queries[req].stage.Checked? {
      var stage := w.queries[req].stage;
      ServedPrefix(w, stage.sticky, looks, primaryFails, replicaFails);
      forall k: nat | Covered(w', w'.queries[req], k, stage.redisAnswered)
        ensures Covered(w, w.queries[req], k, stage.redisAnswered) && k < |w.log|
      {}
      OtherReadsKeep(t, w, w', req);
    }
  }

  lemma StepKeeps(t: Timing, w: World, e: Event)
    requires t.lag <= t.stickyTtl && Inv(t, w)
    ensures Inv(t, Apply(t, w, e))
  {
    match e
    case Tick(ms) => TickKeeps(t, w, ms);
    case Replicate => ReplicateKeeps(t, w);
    case CommitWrite(session, i) => CommitKeeps(t, w, session, i);
    case Remember(k) => RememberKeeps(t, w, k);
    case SetFlag(k, works) => SetFlagKeeps(t, w, k, works);
    case Acknowledge(k) => AcknowledgeKeeps(t, w, k);
    case Probe(i) => ProbeKeeps(t, w, i);
    case BeginRead(req, session, i) => BeginReadKeeps(t, w, req, session, i);
    case LookHere(req) => LookHereKeeps(t, w, req);
    case LookInRedis(req, works) => LookInRedisKeeps(t, w, req, works);
    case AskNodes(req, looks, primaryFails, replicaFails) => AskNodesKeeps(t, w, req, looks, primaryFails, replicaFails);
  }

  lemma {:induction false} RunKeeps(t: Timing, w: World, es: seq<Event>)
    requires t.lag <= t.stickyTtl && Inv(t, w)
    ensures Inv(t, Run(t, w, es))
    decreases |es|
  {
    if es != [] {
      RunKeeps(t, w, es[..|es| - 1]);
      StepKeeps(t, Run(t, w, es[..|es| - 1]), es[|es| - 1]);
    }
  }

  // ---------------------------------------------------------------- the promise

  /** Every finished read shows its session's own writes as far as its checks cover them. */
  ghost predicate ReadsOwnWrites(w: World) {
    forall req :: req in w.queries && w.queries[req].stage.Done? ==>
      Sees(w, w.queries[req], w.queries[req].stage.redisAnswered, w.queries[req].stage.reply)
  }

  /**
   While every commit reaches the replica before its sticky time is over, each read that is not
   degraded shows all writes its session had been told of: those taken by the same instance always,
   those of other instances when Redis took the flag and answered the check.
   */
  lemma ReadYourOwnWrites(t: Timing, instances: nat, es: seq<Event>)
    requires t.lag <= t.stickyTtl
    ensures ReadsOwnWrites(Run(t, Start(instances), es))
  {
    StartSafe(t, instances);
    RunKeeps(t, Start(instances), es);
    var w := Run(t, Start(instances), es);
    forall req | req in w.queries && w.queries[req].stage.Done?
      ensures Sees(w, w.queries[req], w.queries[req].stage.redisAnswered, w.queries[req].stage.reply)
    {
      assert ReadSafe(w, w.queries[req]);
    }
  }

  lemma RunThen(t: Timing, w0: World, es: seq<Event>, w: World, e: Event)
    requires Run(t, w0, es) == w
    ensures Run(t, w0, es + [e]) == Apply(t, w, e)
  {
    assert (es + [e])[..|es|] == es;
  }

  function Written(t: Timing, instances: nat, now: nat): World
    requires instances > 0
  {
    World(now, [WriteRec([], 0, 0, Acknowledged(true))], 0,
      seq(instances, i => if i == 0 then map[[] := t.stickyTtl] else map[]), map[[] := t.stickyTtl], map[])
  }

  const LATE_WRITE: seq<Event> := [CommitWrite([], 0)] + [Remember(0)] + [SetFlag(0, true)] + [Acknowledge(0)]

  lemma WriteFirst(t: Timing, instances: nat)
    requires instances > 0
    ensures Run(t, Start(instances), LATE_WRITE) == Written(t, instances, 0)
  {
    var w0 := Start(instances);
    var w1 := w0.(log := [WriteRec([], 0, 0, Committed)]);
    RunThen(t, w0, [], w0, CommitWrite([], 0));
    assert [] + [CommitWrite([], 0)] == [CommitWrite([], 0)];
    RunThen(t, w0, [CommitWrite([], 0)], w1, Remember(0));
    var w2 := Apply(t, w1, Remember(0));
    RunThen(t, w0, [CommitWrite([], 0)] + [Remember(0)], w2, SetFlag(0, true));
    var w3 := Apply(t, w2, SetFlag(0, true));
    RunThen(t, w0, [CommitWrite([], 0)] + [Remember(0)] + [SetFlag(0, true)], w3, Acknowledge(0));
    assert w2.memory == Written(t, instances, 0).memory;
  }

  const READ_LATE: seq<Event> := [BeginRead(0, [], 0)] + [LookHere(0)] + [LookInRedis(0, true)] +
    [AskNodes(0, Looks(true, true, true), false, Value(0))]

  /** The late read at a stage. */
  function Late(t: Timing, instances: nat, stage: ReadStage): World
    requires instances > 0
  {
    Written(t, instances, t.stickyTtl).(queries := map[0 := ReadRec([], 0, {0}, stage)])
  }

  const MISSED: ReadStage := Done(true, Served(0, REPLICA, Eventual))

  lemma LateSteps(t: Timing, instances: nat)
    requires instances > 0
    ensures Apply(t, Written(t, instances, t.stickyTtl), BeginRead(0, [], 0)) == Late(t, instances, Begun)
    ensures Apply(t, Late(t, instances, Begun), LookHere(0)) == Late(t, instances, NotHere)
    ensures Apply(t, Late(t, instances, NotHere), LookInRedis(0, true)) == Late(t, instances, Checked(false, true))
  {
    assert Promised(Written(t, instances, t.stickyTtl).log, []) == {0};
  }

  lemma LateAnswer(t: Timing, instances: nat)
    requires instances > 0
    ensures Apply(t, Late(t, instances, Checked(false, true)), AskNodes(0, Looks(true, true, true), false, Value(0))) ==
            Late(t, instances, MISSED)
  {}

  lemma MissedIsBroken(t: Timing, instances: nat)
    requires instances > 0
    ensures !ReadsOwnWrites(Late(t, instances, MISSED))
  {
    var w := Late(t, instances, MISSED);
    assert Covered(w, w.queries[0], 0, true);
    assert !Sees(w, w.queries[0], true, w.queries[0].stage.reply);
  }

  lemma ReadMissesIt(t: Timing, instances: nat)
    requires instances > 0
    ensures !ReadsOwnWrites(Run(t, Written(t, instances, t.stickyTtl), READ_LATE))
  {
    var w0 := Written(t, instances, t.stickyTtl);
    LateSteps(t, instances);
    LateAnswer(t, instances);
    MissedIsBroken(t, instances);
    RunThen(t, w0, [], w0, BeginRead(0, [], 0));
    assert [] + [BeginRead(0, [], 0)] == [BeginRead(0, [], 0)];
    RunThen(t, w0, [BeginRead(0, [], 0)], Late(t, instances, Begun), LookHere(0));
    RunThen(t, w0, [BeginRead(0, [], 0)] + [LookHere(0)], Late(t, instances, NotHere), LookInRedis(0, true));
    RunThen(t, w0, [BeginRead(0, [], 0)] + [LookHere(0)] + [LookInRedis(0, true)], Late(t, instances, Checked(false, true)),
      AskNodes(0, Looks(true, true, true), false, Value(0)));
  }

  lemma {:induction false} RunAppend(t: Timing, w: World, a: seq<Event>, b: seq<Event>)
    ensures Run(t, w, a + b) == Run(t, Run(t, w, a), b)
    decreases |b|
  {
    if b == [] {
      assert a + b == a;
    } else {
      assert (a + b)[..|a + b| - 1] == a + b[..|b| - 1];
      RunAppend(t, w, a, b[..|b| - 1]);
    }
  }

  /** The promise is kept in every run exactly when commits reach the replica within the sticky time. */
  lemma PromiseKeptExactly(t: Timing, instances: nat)
    requires instances > 0
    ensures (forall es :: ReadsOwnWrites(Run(t, Start(instances), es))) <==> t.lag <= t.stickyTtl
  {
    if t.lag <= t.stickyTtl {
      forall es ensures ReadsOwnWrites(Run(t, Start(instances), es)) { ReadYourOwnWrites(t, instances, es); }
    } else {
      var wait: seq<Event> := [Tick(t.stickyTtl)];
      WriteFirst(t, instances);
      RunThen(t, Start(instances), LATE_WRITE, Written(t, instances, 0), Tick(t.stickyTtl));
      assert Run(t, Start(instances), LATE_WRITE + wait) == Written(t, instances, t.stickyTtl);
      RunAppend(t, Start(instances), LATE_WRITE + wait, READ_LATE);
      ReadMissesIt(t, instances);
      assert !ReadsOwnWrites(Run(t, Start(instances), LATE_WRITE + wait + READ_LATE));
    }
  }

  // ---------------------------------------------------------------- the flags in Redis

  /** The store shows at every moment exactly the flags that stand. */
  ghost predicate Mirrors(store: Store, flags: Stickies) {
    forall session, now :: Lookup(store, StickyKey(session), now).Some? <==> SticksLocally(flags, session, now)
  }

  /** The SET of rememberWrite is the SetFlag step: sessions do not share keys, and the flag expires with its time. */
  lemma SettingMirrors(store: Store, flags: Stickies, session: Session, until: int)
    requires Mirrors(store, flags)
    ensures Mirrors(store[StickyKey(session) := Entry(FLAG, Some(until))], flags[session := until])
  {
    var store', flags' := store[StickyKey(session) := Entry(FLAG, Some(until))], flags[session := until];
    forall other, now
      ensures Lookup(store', StickyKey(other), now).Some? <==> SticksLocally(flags', other, now)
    {
      if other == session {
        assert Lookup(store', StickyKey(other), now).Some? <==> now < until;
      } else {
        assert StickyKey(other) != StickyKey(session) by {
          if StickyKey(other) == StickyKey(session) { SessionsDoNotShareFlags(other, session); }
        }
        assert Lookup(store', StickyKey(other), now) == Lookup(store, StickyKey(other), now);
        assert SticksLocally(flags', other, now) == SticksLocally(flags, other, now);
      }
    }
  }
}
