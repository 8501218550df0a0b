/**
 The read/write router over a primary and a replica (src/database/db-router.service.ts). What a node
 would answer to a query is an arbitrary function of the node, and the health flags may change
 between any two looks at them.
 */
module DbRouter {
  import opened Wrappers
  import opened JsText
  import opened Cache

  datatype Node = PRIMARY | REPLICA

  datatype Consistency = EVENTUAL | STRONG | PRIMARY_PREFERRED

  datatype Route = Eventual | Strong | Sticky | Preferred | Fallback | PrimaryOnly | Degraded | WriteRoute

  /** What a node makes of a query. */
  datatype Answer<T> = Value(value: T) | ConnectionError | RecoveryConflict | OtherError

  datatype Reply<T> = Served(value: T, node: Node, route: Route) | Unavailable | Failed(error: Answer<T>)

  /** The reply to a read, the nodes asked in order and the nodes found to be down. */
  datatype Trace<T> = Trace(reply: Reply<T>, asked: seq<Node>, down: set<Node>)

  /** The health flags as a read meets them: the replica's before the query, the primary's, and the replica's again. */
  datatype Looks = Looks(replicaBefore: bool, primary: bool, replicaAfter: bool)

  /** The health flags of the two nodes. */
  datatype Health = Health(primary: bool, replica: bool)

  /** What other requests and the probe have made of the flags when the k-th wait of a read is over. */
  type Meanwhile = (nat, Health) -> Health

  /** A node that broke the connection is down. */
  function Marked<T>(h: Health, n: Node, answer: Answer<T>): Health {
    if !answer.ConnectionError? then h else if n == PRIMARY then h.(primary := false) else h.(replica := false)
  }

  /** The flags once the primary's part of a read has come to its end, or to the last resort. */
  function AfterPrimary<T>(h: Health, query: Node -> Answer<T>, m: Meanwhile): Health {
    if h.primary then Marked(m(3, h), PRIMARY, query(PRIMARY)) else h
  }

  /** The flags when a read turns to the primary: after the look at the session, and the replica's answer if it was asked. */
  function BeforePrimary<T>(enabled: bool, sticky: bool, h: Health, query: Node -> Answer<T>, c: Consistency, m: Meanwhile): Health {
    if c != EVENTUAL || !enabled then h
    else if sticky || !m(1, h).replica then m(1, h)
    else Marked(m(2, m(1, h)), REPLICA, query(REPLICA))
  }

  /** The flags as a read meets them, while others change them during each of its waits. */
  function Met<T>(enabled: bool, sticky: bool, h: Health, query: Node -> Answer<T>, c: Consistency, m: Meanwhile): Looks {
    var first := if c == EVENTUAL && enabled then m(1, h) else h;
    var before := BeforePrimary(enabled, sticky, h, query, c, m);
    Looks(first.replica, before.primary, AfterPrimary(before, query, m).replica)
  }

  predicate MayDegrade(route: Route) { route == Sticky || route == Preferred }

  /** A read that goes to the primary, and for two routes to the replica when the primary is down. */
  function PrimaryPath<T>(enabled: bool, looks: Looks, query: Node -> Answer<T>, route: Route): (t: Trace<T>) {
    var atPrimary := query(PRIMARY);
    if looks.primary && atPrimary.Value? then Trace(Served(atPrimary.value, PRIMARY, route), [PRIMARY], {})
    else if looks.primary && !atPrimary.ConnectionError? then Trace(Failed(atPrimary), [PRIMARY], {})
    else
      var asked := if looks.primary then [PRIMARY] else [];
      var down := if looks.primary then {PRIMARY} else {};
      if MayDegrade(route) && enabled && looks.replicaAfter then
        var atReplica := query(REPLICA);
        Trace(if atReplica.Value? then Served(atReplica.value, REPLICA, Degraded) else Failed(atReplica), asked + [REPLICA], down)
      else Trace(Unavailable, asked, down)
  }

  function After<T>(first: Trace<T>, then_: Trace<T>): Trace<T> {
    Trace(then_.reply, first.asked + then_.asked, first.down + then_.down)
  }

  /** The whole path of a read. */
  function ReadPath<T>(enabled: bool, sticky: bool, looks: Looks, query: Node -> Answer<T>, c: Consistency): (t: Trace<T>) {
    if c == STRONG then PrimaryPath(enabled, looks, query, Strong)
    else if c == PRIMARY_PREFERRED then PrimaryPath(enabled, looks, query, Preferred)
    else if !enabled then PrimaryPath(enabled, looks, query, PrimaryOnly)
    else if sticky then PrimaryPath(enabled, looks, query, Sticky)
    else if !looks.replicaBefore then PrimaryPath(enabled, looks, query, Fallback)
    else
      match query(REPLICA)
      case Value(v) => Trace(Served(v, REPLICA, Eventual), [REPLICA], {})
      case ConnectionError =>
        After(Trace(Unavailable, [REPLICA], {REPLICA}), PrimaryPath(enabled, looks, query, Fallback))
      case RecoveryConflict =>
        After(Trace(Unavailable, [REPLICA], {}), PrimaryPath(enabled, looks, query, Fallback))
      case OtherError => Trace(Failed(OtherError), [REPLICA], {})
  }

  /** The node a read turns to first. */
  function FirstChoice(enabled: bool, sticky: bool, c: Consistency): Node {
    if enabled && c == EVENTUAL && !sticky then REPLICA else PRIMARY
  }

  /** The flags a read leaves, given the nodes it asked. */
  function Left<T>(enabled: bool, sticky: bool, h: Health, query: Node -> Answer<T>, c: Consistency, m: Meanwhile, asked: seq<Node>): Health {
    var before := BeforePrimary(enabled, sticky, h, query, c, m);
    if asked == [REPLICA] && FirstChoice(enabled, sticky, c) == REPLICA && !query(REPLICA).ConnectionError? && !query(REPLICA).RecoveryConflict?
    then before
    else
      var after := AfterPrimary(before, query, m);
      if FirstChoice(enabled, sticky, c) == PRIMARY && REPLICA in asked then m(4, after) else after
  }

  // ---------------------------------------------------------------- what holds of every read

  predicate NoneTwice(nodes: seq<Node>) { forall i, j :: 0 <= i < j < |nodes| ==> nodes[i] != nodes[j] }

  /** The nodes whose data a read may be answered with. */
  function Allowed(enabled: bool, c: Consistency): set<Node> {
    if enabled && c != STRONG then {PRIMARY, REPLICA} else {PRIMARY}
  }

  /** What holds of a trace: nodes asked once each, the value from the last, the down ones unreachable. */
  ghost predicate Orderly<T>(t: Trace<T>, query: Node -> Answer<T>, allowed: set<Node>) {
    NoneTwice(t.asked) &&
    (forall n :: n in t.asked ==> n in allowed) &&
    (t.reply.Served? ==> t.asked != [] && t.reply.node == t.asked[|t.asked| - 1] && query(t.reply.node) == Value(t.reply.value)) &&
    (forall n :: n in t.down ==> n in t.asked && query(n) == ConnectionError)
  }

  lemma PrimaryPathIsOrderly<T>(enabled: bool, looks: Looks, query: Node -> Answer<T>, route: Route)
    ensures Orderly(PrimaryPath(enabled, looks, query, route), query, if enabled && MayDegrade(route) then {PRIMARY, REPLICA} else {PRIMARY})
  {}

  lemma WiderIsOrderly<T>(t: Trace<T>, query: Node -> Answer<T>, narrow: set<Node>, wide: set<Node>)
    requires Orderly(t, query, narrow) && narrow <= wide
    ensures Orderly(t, query, wide)
  {}

  /** The replica first and then, without degradation, the primary. */
  lemma FallbackIsOrderly<T>(looks: Looks, query: Node -> Answer<T>, down: set<Node>)
    requires forall n :: n in down ==> n == REPLICA && query(n) == ConnectionError
    ensures Orderly(After(Trace(Unavailable, [REPLICA], down), PrimaryPath(true, looks, query, Fallback)), query, {PRIMARY, REPLICA})
  {
    PrimaryPathIsOrderly(true, looks, query, Fallback);
  }

  /**
   Whatever the nodes answer and however the flags flip: each node is asked at most once and only
   if the read may use it; a value comes from the last node asked, unchanged; only nodes that broke
   the connection are marked down.
   */
  lemma ReadsAreOrderly<T>(enabled: bool, sticky: bool, looks: Looks, query: Node -> Answer<T>, c: Consistency)
    ensures Orderly(ReadPath(enabled, sticky, looks, query, c), query, Allowed(enabled, c))
  {
    if c == EVENTUAL && enabled && !sticky && looks.replicaBefore {
      FallbackIsOrderly(looks, query, {});
      if query(REPLICA) == ConnectionError { FallbackIsOrderly(looks, query, {REPLICA}); }
    } else {
      var route := if c == STRONG then Strong else if c == PRIMARY_PREFERRED then Preferred
        else if !enabled then PrimaryOnly else if sticky then Sticky else Fallback;
      PrimaryPathIsOrderly(enabled, looks, query, route);
      WiderIsOrderly(PrimaryPath(enabled, looks, query, route), query,
        if enabled && MayDegrade(route) then {PRIMARY, REPLICA} else {PRIMARY}, Allowed(enabled, c));
    }
  }

  predicate Up(looks: Looks, n: Node) { if n == PRIMARY then looks.primary else looks.replicaBefore }

  /**
   A read turns to its first choice whenever that is up, is served there if it answers, and gives up
   there on an error of the query itself; a node that broke the connection is marked down, except a
   replica that was only the last resort.
   */
  lemma FirstChoiceComesFirst<T>(enabled: bool, sticky: bool, looks: Looks, query: Node -> Answer<T>, c: Consistency)
    ensures var t := ReadPath(enabled, sticky, looks, query, c);
      var first := FirstChoice(enabled, sticky, c);
      (Up(looks, first) ==> t.asked != [] && t.asked[0] == first) &&
      (Up(looks, first) && query(first).Value? ==> t.asked == [first] && t.reply.Served? && t.reply.route != Fallback) &&
      (Up(looks, first) && query(first).OtherError? ==> t.asked == [first] && t.reply == Failed(OtherError)) &&
      (forall n :: n in t.asked && query(n).ConnectionError? ==> n in t.down || (n == REPLICA && first == PRIMARY))
  {}

  /** Left alone by others, a read leaves the flags as they were but for the nodes it found down. */
  lemma QuietReadMarksTheDown<T>(enabled: bool, sticky: bool, h: Health, query: Node -> Answer<T>, c: Consistency, m: Meanwhile)
    requires forall k, g :: m(k, g) == g
    ensures Met(enabled, sticky, h, query, c, m).replicaBefore == h.replica
    ensures var t := ReadPath(enabled, sticky, Met(enabled, sticky, h, query, c, m), query, c);
      Left(enabled, sticky, h, query, c, m, t.asked) == Health(h.primary && PRIMARY !in t.down, h.replica && REPLICA !in t.down)
  {}

  /** A replica answers under two routes only, and a stale answer to a sticky session only when the primary is out. */
  lemma RoutesTellTheNode<T>(enabled: bool, sticky: bool, looks: Looks, query: Node -> Answer<T>, c: Consistency)
    ensures var t := ReadPath(enabled, sticky, looks, query, c);
      t.reply.Served? ==>
        (t.reply.node == REPLICA <==> t.reply.route in {Eventual, Degraded}) && t.reply.route != WriteRoute &&
        (t.reply.route == Eventual ==> !sticky && c == EVENTUAL) &&
        (t.reply.route == Degraded ==> c != STRONG && (!looks.primary || query(PRIMARY) == ConnectionError))
  {}

  /** Why a read was answered where it was. */
  function Reason(enabled: bool, sticky: bool, c: Consistency): Route {
    match c
    case STRONG => Strong
    case PRIMARY_PREFERRED => Preferred
    case EVENTUAL => if !enabled then PrimaryOnly else if sticky then Sticky else Eventual
  }

  /** The route names the reason when the first choice answered, fallback when the primary stood in, degraded when the replica did. */
  lemma RoutesNameTheReason<T>(enabled: bool, sticky: bool, looks: Looks, query: Node -> Answer<T>, c: Consistency)
    ensures var t, first := ReadPath(enabled, sticky, looks, query, c), FirstChoice(enabled, sticky, c);
      t.reply.Served? ==>
        t.reply.route == if t.reply.node == first then Reason(enabled, sticky, c) else if first == REPLICA then Fallback else Degraded
  {}

  /** Whether a node stands ready for this read. */
  predicate Ready<T>(looks: Looks, query: Node -> Answer<T>, n: Node) {
    query(n).Value? && Up(looks, n)
  }

  /**
   With steady flags, while nodes fail only by losing the connection (or the replica by a recovery
   conflict), a read is served exactly when some node it may use is ready.
   */
  lemma ServedIffSomeNodeIsReady<T>(enabled: bool, sticky: bool, looks: Looks, query: Node -> Answer<T>, c: Consistency)
    requires looks.replicaBefore == looks.replicaAfter
    requires query(PRIMARY).Value? || query(PRIMARY).ConnectionError?
    requires !query(REPLICA).OtherError?
    ensures ReadPath(enabled, sticky, looks, query, c).reply.Served? <==>
            exists n :: n in Allowed(enabled, c) && Ready(looks, query, n)
  {
    assert PRIMARY in Allowed(enabled, c);
    assert REPLICA in Allowed(enabled, c) <==> enabled && c != STRONG;
    if Ready(looks, query, PRIMARY) {
      assert exists n :: n in Allowed(enabled, c) && Ready(looks, query, n);
    }
    if REPLICA in Allowed(enabled, c) && Ready(looks, query, REPLICA) {
      assert exists n :: n in Allowed(enabled, c) && Ready(looks, query, n);
    }
  }

  // ---------------------------------------------------------------- counters

  datatype Stats = Stats(primaryReads: nat, replicaReads: nat, writes: nat, rejectedWrites: nat, routes: map<Route, nat>)

  function RouteCount(s: Stats, r: Route): nat { if r in s.routes then s.routes[r] else 0 }

  /** The counters after one tracked query. */
  function Tracked(s: Stats, node: Node, route: Route): Stats {
    s.(primaryReads := s.primaryReads + (if node == PRIMARY && route != WriteRoute then 1 else 0),
       replicaReads := s.replicaReads + (if node == REPLICA && route != WriteRoute then 1 else 0),
       routes := s.routes[route := RouteCount(s, route) + 1])
  }

  ghost predicate Balanced(s: Stats) {
    s.writes == RouteCount(s, WriteRoute) &&
    s.replicaReads == RouteCount(s, Eventual) + RouteCount(s, Degraded) &&
    s.primaryReads == RouteCount(s, Strong) + RouteCount(s, Sticky) + RouteCount(s, Preferred) +
      RouteCount(s, Fallback) + RouteCount(s, PrimaryOnly)
  }

  function AfterRead<T>(s: Stats, reply: Reply<T>): Stats {
    if reply.Served? then Tracked(s, reply.node, reply.route) else s
  }

  datatype WriteEnd = Written | Rejected | Threw

  function AfterWrite(s: Stats, end: WriteEnd): Stats {
    match end
    case Written => Tracked(s.(writes := s.writes + 1), PRIMARY, WriteRoute)
    case Rejected => s.(rejectedWrites := s.rejectedWrites + 1)
    case Threw => s
  }

  /** What a router has served, each read with its own nodes and flags. */
  datatype Call =
    | ReadCall(sticky: bool, looks: Looks, query: Node -> Answer<int>, c: Consistency)
    | WriteCall(end: WriteEnd)

  function History(enabled: bool, s: Stats, calls: seq<Call>): Stats {
    if calls == [] then s
    else
      var before := History(enabled, s, calls[..|calls| - 1]);
      match calls[|calls| - 1]
      case ReadCall(sticky, looks, query, c) => AfterRead(before, ReadPath(enabled, sticky, looks, query, c).reply)
      case WriteCall(end) => AfterWrite(before, end)
  }

  const NO_STATS: Stats := Stats(0, 0, 0, 0, map[])

  lemma StartsBalanced()
    ensures Balanced(NO_STATS)
  {}

  lemma TrackedOther(s: Stats, node: Node, route: Route, r: Route)
    ensures RouteCount(Tracked(s, node, route), r) == RouteCount(s, r) + if r == route then 1 else 0
  {}

  lemma TrackingBalances(s: Stats, node: Node, route: Route)
    requires Balanced(s) && route != WriteRoute && (node == REPLICA <==> route == Eventual || route == Degraded)
    ensures Balanced(Tracked(s, node, route))
  {
    TrackedOther(s, node, route, Eventual);
    TrackedOther(s, node, route, Degraded);
    TrackedOther(s, node, route, Strong);
    TrackedOther(s, node, route, Sticky);
    TrackedOther(s, node, route, Preferred);
    TrackedOther(s, node, route, Fallback);
    TrackedOther(s, node, route, PrimaryOnly);
    TrackedOther(s, node, route, WriteRoute);
  }

  /** A reply whose route tells its node. */
  predicate Fits<T>(reply: Reply<T>) {
    reply.Served? ==> reply.route != WriteRoute && (reply.node == REPLICA <==> reply.route == Eventual || reply.route == Degraded)
  }

  lemma ReadFits<T>(enabled: bool, sticky: bool, looks: Looks, query: Node -> Answer<T>, c: Consistency)
    ensures Fits(ReadPath(enabled, sticky, looks, query, c).reply)
  {}

  lemma ReadKeepsBalance<T>(s: Stats, reply: Reply<T>)
    requires Balanced(s) && Fits(reply)
    ensures Balanced(AfterRead(s, reply))
  {
    if reply.Served? { TrackingBalances(s, reply.node, reply.route); }
  }

  lemma WriteKeepsBalance(s: Stats, end: WriteEnd)
    requires Balanced(s)
    ensures Balanced(AfterWrite(s, end))
  {}

  /** After any history the counters agree with the routes. */
  lemma {:induction false} CountersAlwaysBalance(enabled: bool, s: Stats, calls: seq<Call>)
    requires Balanced(s)
    ensures Balanced(History(enabled, s, calls))
  {
    if calls != [] {
      CountersAlwaysBalance(enabled, s, calls[..|calls| - 1]);
      var before := History(enabled, s, calls[..|calls| - 1]);
      match calls[|calls| - 1] {
        case ReadCall(sticky, looks, query, c) =>
          ReadFits(enabled, sticky, looks, query, c);
          ReadKeepsBalance(before, ReadPath(enabled, sticky, looks, query, c).reply);
        case WriteCall(end) => WriteKeepsBalance(before, end);
      }
    }
  }

  /** How many calls of a history were answered reads, done writes and rejected writes. */
  function Answered(enabled: bool, calls: seq<Call>): nat {
    if calls == [] then 0
    else
      var last := calls[|calls| - 1];
      Answered(enabled, calls[..|calls| - 1]) +
      if last.ReadCall? && ReadPath(enabled, last.sticky, last.looks, last.query, last.c).reply.Served? then 1 else 0
  }

  function Ended(calls: seq<Call>, end: WriteEnd): nat {
    if calls == [] then 0
    else Ended(calls[..|calls| - 1], end) + if calls[|calls| - 1] == WriteCall(end) then 1 else 0
  }

  /** The counters count: one for each answered read, done write and rejected write. */
  lemma {:induction false} CountersCount(enabled: bool, calls: seq<Call>)
    ensures var s := History(enabled, NO_STATS, calls);
      s.primaryReads + s.replicaReads == Answered(enabled, calls) && s.writes == Ended(calls, Written) &&
      s.rejectedWrites == Ended(calls, Rejected)
  {
    if calls != [] { CountersCount(enabled, calls[..|calls| - 1]); }
  }

  /** From a router's first counters on they agree, whatever it serves. */
  lemma CountersBalanceFromTheStart(enabled: bool, calls: seq<Call>)
    ensures Balanced(History(enabled, NO_STATS, calls))
  {
    StartsBalanced();
    CountersAlwaysBalance(enabled, NO_STATS, calls);
  }

  // ---------------------------------------------------------------- sticky sessions

  type Session = JsString

  /** Until when a session sticks to the primary, as one instance remembers it. */
  type Stickies = map<Session, int>

  function Remembered(local: Stickies, session: Session, now: int, ttl: int): Stickies { local[session := now + ttl] }

  predicate SticksLocally(local: Stickies, session: Session, now: int) { session in local && local[session] > now }

  /** What the health probe leaves of the sessions. */
  function Cleaned(local: Stickies, now: int): (rest: Stickies) { map s | s in local && local[s] > now :: local[s] }

  /** The clean-up never changes whether a session sticks, now or later. */
  lemma CleaningIsInvisible(local: Stickies, cleanedAt: int, session: Session, now: int)
    requires cleanedAt <= now
    ensures SticksLocally(Cleaned(local, cleanedAt), session, now) <==> SticksLocally(local, session, now)
  {}

  /** The clean-up leaves exactly the sessions that have not expired, as they were. */
  lemma CleaningExactly(local: Stickies, now: int, session: Session)
    ensures session in Cleaned(local, now) <==> session in local && local[session] > now
    ensures session in Cleaned(local, now) ==> Cleaned(local, now)[session] == local[session]
  {}

  /** "booking:ryw:" */
  const STICKY_PREFIX: JsString := [98, 111, 111, 107, 105, 110, 103, 58, 114, 121, 119, 58]

  function StickyKey(session: Session): JsString { STICKY_PREFIX + session }

  lemma SessionsDoNotShareFlags(a: Session, b: Session)
    requires StickyKey(a) == StickyKey(b)
    ensures a == b
  {
    CancelPrefix(STICKY_PREFIX, a, b);
  }

  // ---------------------------------------------------------------- the router

  /** A flag after a probe: an answer sets it, a broken connection clears it, another error leaves it. */
  function Probed(up: bool, answer: Answer<int>): bool { answer.Value? || (up && !answer.ConnectionError?) }

  /** After a probe that answers the flag is up, after a broken connection down, and any other error changes nothing. */
  lemma ProbedExactly(up: bool, answer: Answer<int>)
    ensures Probed(up, answer) <==> answer.Value? || (up && (answer.OtherError? || answer.RecoveryConflict?))
  {}

  class DbRouter {
    const replicaEnabled: bool
    const stickyTtlMs: int
    const cache: CacheService
    var health: Health
    var localSticky: Stickies
    var stats: Stats

    ghost predicate Valid()
      reads this
    {
      Balanced(stats)
    }

    constructor (replicaEnabled: bool, stickyTtlMs: int, cache: CacheService)
      ensures stats == NO_STATS && health == Health(true, replicaEnabled) && localSticky == map[]
      ensures this.replicaEnabled == replicaEnabled && this.stickyTtlMs == stickyTtlMs && this.cache == cache
    {
      this.replicaEnabled, this.stickyTtlMs, this.cache := replicaEnabled, stickyTtlMs, cache;
      health, localSticky := Health(true, replicaEnabled), map[];
      stats := NO_STATS;
    }

    method MarkDown(node: Node)
      modifies this`health
      ensures health == if node == PRIMARY then old(health).(primary := false) else old(health).(replica := false)
    {
      if node == PRIMARY { health := health.(primary := false); } else { health := health.(replica := false); }
    }

    method MarkUp(node: Node)
      modifies this`health
      ensures health == if node == PRIMARY then old(health).(primary := true) else old(health).(replica := true)
    {
      if node == PRIMARY { health := health.(primary := true); } else { health := health.(replica := true); }
    }

    method Track(node: Node, route: Route)
      modifies this`stats
      ensures stats == Tracked(old(stats), node, route)
    {
      if route != WriteRoute {
        if node == PRIMARY { stats := stats.(primaryReads := stats.primaryReads + 1); }
        else { stats := stats.(replicaReads := stats.replicaReads + 1); }
      }
      stats := stats.(routes := stats.routes[route := RouteCount(stats, route) + 1]);
    }

    /** The primary's part of a read; the flags may change during its waits. */
    method ReadPrimary<T>(query: Node -> Answer<T>, route: Route, m: Meanwhile) returns (t: Trace<T>)
      modifies this`health, this`stats
      ensures var after := AfterPrimary(old(health), query, m);
        t == PrimaryPath(replicaEnabled, Looks(false, old(health).primary, after.replica), query, route) &&
        health == (if REPLICA in t.asked then m(4, after) else after)
      ensures stats == AfterRead(old(stats), t.reply)
    {
      var asked: seq<Node> := [];
      var down: set<Node> := {};
      if health.primary {
        var result := query(PRIMARY);
        health := m(3, health);
        if result.Value? {
          Track(PRIMARY, route);
          return Trace(Served(result.value, PRIMARY, route), [PRIMARY], {});
        }
        if !result.ConnectionError? { return Trace(Failed(result), [PRIMARY], {}); }
        MarkDown(PRIMARY);
        asked, down := [PRIMARY], {PRIMARY};
      }
      if (route == Sticky || route == Preferred) && replicaEnabled && health.replica {
        var result := query(REPLICA);
        health := m(4, health);
        if !result.Value? { return Trace(Failed(result), asked + [REPLICA], down); }
        Track(REPLICA, Degraded);
        return Trace(Served(result.value, REPLICA, Degraded), asked + [REPLICA], down);
      }
      t := Trace(Unavailable, asked, down);
    }

    /** Whether this instance or the shared flag says that the session sticks. */
    predicate KnownSticky(session: Option<Session>, now: int, redisWorks: bool)
      reads this, cache, cache.redis
    {
      session.Some? && stickyTtlMs > 0 &&
      (SticksLocally(localSticky, session.value, now) ||
       (cache.Reachable() && redisWorks && Lookup(cache.redis.store, StickyKey(session.value), now).Some?))
    }

    /** The session's stickiness: this instance's memory first, then the flag all instances share. */
    method IsSticky(session: Option<Session>, now: int, redisWorks: bool) returns (sticky: bool)
      ensures sticky == KnownSticky(session, now, redisWorks)
    {
      if session.None? || stickyTtlMs <= 0 { return false; }
      if session.value in localSticky && localSticky[session.value] > now { return true; }
      var flag := cache.HasFlag(StickyKey(session.value), now, redisWorks);
      sticky := flag == Some(true);
    }

    /**
     A read: the path of the specification for the flags it meets, the counters of its reply, and the
     broken nodes marked down. Other requests may change the flags during each of its waits.
     */
    method Read<T>(query: Node -> Answer<T>, c: Consistency, session: Option<Session>, now: int, redisWorks: bool, m: Meanwhile)
      returns (t: Trace<T>, sticky: bool)
      requires Valid()
      modifies this`health, this`stats
      ensures Valid()
      ensures sticky == (c == EVENTUAL && replicaEnabled && KnownSticky(session, now, redisWorks))
      ensures t == ReadPath(replicaEnabled, sticky, Met(replicaEnabled, sticky, old(health), query, c, m), query, c)
      ensures health == Left(replicaEnabled, sticky, old(health), query, c, m, t.asked)
      ensures stats == AfterRead(old(stats), t.reply)
    {
      sticky := false;
      ghost var looks := Met(replicaEnabled, c == EVENTUAL && replicaEnabled && KnownSticky(session, now, redisWorks), health, query, c, m);
      if c == STRONG {
        t := ReadPrimary(query, Strong, m);
      } else if c == PRIMARY_PREFERRED {
        t := ReadPrimary(query, Preferred, m);
      } else if !replicaEnabled {
        t := ReadPrimary(query, PrimaryOnly, m);
      } else {
        sticky := IsSticky(session, now, redisWorks);
        health := m(1, health);
        if sticky {
          t := ReadPrimary(query, Sticky, m);
        } else if !health.replica {
          t := ReadPrimary(query, Fallback, m);
        } else {
          t := ReadReplica(query, m);
        }
      }
      ReadFits(replicaEnabled, sticky, looks, query, c);
      ReadKeepsBalance(old(stats), t.reply);
    }

    method ReadReplica<T>(query: Node -> Answer<T>, m: Meanwhile) returns (t: Trace<T>)
      requires replicaEnabled && health.replica
      modifies this`health, this`stats
      ensures var before := Marked(m(2, old(health)), REPLICA, query(REPLICA));
        t == ReadPath(true, false, Looks(true, before.primary, AfterPrimary(before, query, m).replica), query, EVENTUAL) &&
        health == (if query(REPLICA).Value? || query(REPLICA).OtherError? then before else AfterPrimary(before, query, m))
      ensures stats == AfterRead(old(stats), t.reply)
    {
      var result := query(REPLICA);
      health := m(2, health);
      match result {
        case Value(v) =>
          Track(REPLICA, Eventual);
          t := Trace(Served(v, REPLICA, Eventual), [REPLICA], {});
        case ConnectionError =>
          MarkDown(REPLICA);
          var rest := ReadPrimary(query, Fallback, m);
          t := After(Trace(Unavailable, [REPLICA], {REPLICA}), rest);
        case RecoveryConflict =>
          var rest := ReadPrimary(query, Fallback, m);
          t := After(Trace(Unavailable, [REPLICA], {}), rest);
        case OtherError =>
          t := Trace(Failed(OtherError), [REPLICA], {});
      }
    }

    /**
     A mutation reaches the primary at most once, and only while the primary is thought to be up; it
     is remembered for its session, here and in Redis, before the caller learns of it.
     */
    method Write<T>(mutation: Answer<T>, session: Option<Session>, rememberedAt: int, flaggedAt: int, redisWorks: bool)
      returns (reply: Reply<T>, asked: seq<Node>)
      requires Valid()
      modifies this, cache.redis
      ensures Valid()
      ensures asked == if old(health).primary then [PRIMARY] else []
      ensures reply == (
        if !old(health).primary || mutation.ConnectionError? then Unavailable
        else if mutation.Value? then Served(mutation.value, PRIMARY, WriteRoute)
        else Failed(mutation))
      ensures stats == AfterWrite(old(stats), if reply.Served? then Written else if reply.Unavailable? then Rejected else Threw)
      ensures health == if old(health).primary then Marked(old(health), PRIMARY, mutation) else old(health)
      ensures var remembers := reply.Served? && session.Some? && replicaEnabled && stickyTtlMs > 0;
        localSticky == (
          if remembers then Remembered(old(localSticky), session.value, rememberedAt, stickyTtlMs) else old(localSticky)) &&
        cache.redis.store == (
          if remembers && cache.Reachable() && redisWorks
          then old(cache.redis.store)[StickyKey(session.value) := Entry(FLAG, Some(flaggedAt + stickyTtlMs))]
          else old(cache.redis.store))
    {
      if !health.primary {
        stats := stats.(rejectedWrites := stats.rejectedWrites + 1);
        return Unavailable, [];
      }
      if mutation.ConnectionError? {
        MarkDown(PRIMARY);
        WriteKeepsBalance(stats, Rejected);
        stats := stats.(rejectedWrites := stats.rejectedWrites + 1);
        return Unavailable, [PRIMARY];
      }
      if !mutation.Value? { return Failed(mutation), [PRIMARY]; }
      CountWrite();
      RememberWrite(session, rememberedAt, flaggedAt, redisWorks);
      return Served(mutation.value, PRIMARY, WriteRoute), [PRIMARY];
    }

    method CountWrite()
      requires Valid()
      modifies this`stats
      ensures Valid() && stats == AfterWrite(old(stats), Written)
    {
      WriteKeepsBalance(stats, Written);
      stats := stats.(writes := stats.writes + 1);
      Track(PRIMARY, WriteRoute);
    }

    method RememberWrite(session: Option<Session>, rememberedAt: int, flaggedAt: int, redisWorks: bool)
      modifies this`localSticky, cache.redis
      ensures var remembers := session.Some? && replicaEnabled && stickyTtlMs > 0;
        localSticky == (
          if remembers then Remembered(old(localSticky), session.value, rememberedAt, stickyTtlMs) else old(localSticky)) &&
        cache.redis.store == (
          if remembers && cache.Reachable() && redisWorks
          then old(cache.redis.store)[StickyKey(session.value) := Entry(FLAG, Some(flaggedAt + stickyTtlMs))]
          else old(cache.redis.store))
    {
      if session.None? || !replicaEnabled || stickyTtlMs <= 0 { return; }
      localSticky := localSticky[session.value := rememberedAt + stickyTtlMs];
      cache.SetFlag(StickyKey(session.value), stickyTtlMs, flaggedAt, redisWorks);
    }

    /**
     The health probe: expired sessions are dropped and no others; a node that answers is up, a node
     that cannot be reached is down, and any other error leaves the flag.
     */
    method ProbeNodes(now: int, probe: Node -> Answer<int>)
      requires Valid()
      modifies this`health, this`localSticky
      ensures Valid()
      ensures localSticky == Cleaned(old(localSticky), now)
      ensures health == Health(Probed(old(health).primary, probe(PRIMARY)),
        if replicaEnabled then Probed(old(health).replica, probe(REPLICA)) else old(health).replica)
    {
      var keys := localSticky.Keys;
      var rest := localSticky;
      while keys != {}
        invariant keys <= localSticky.Keys
        invariant localSticky == old(localSticky)
        invariant forall s :: s in rest <==> s in localSticky && (s in keys || localSticky[s] > now)
        invariant forall s :: s in rest ==> rest[s] == localSticky[s]
        decreases keys
      {
        var key :| key in keys;
        if localSticky[key] <= now { rest := rest - {key}; }
        keys := keys - {key};
      }
      localSticky := rest;
      ProbeOne(PRIMARY, probe(PRIMARY));
      if replicaEnabled { ProbeOne(REPLICA, probe(REPLICA)); }
    }

    method ProbeOne(node: Node, answer: Answer<int>)
      modifies this`health
      ensures health == if node == PRIMARY
        then old(health).(primary := Probed(old(health).primary, answer))
        else old(health).(replica := Probed(old(health).replica, answer))
    {
      if answer.Value? { MarkUp(node); }
      else if answer.ConnectionError? { MarkDown(node); }
    }
  }
}
