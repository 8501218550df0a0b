/**
 The version-invalidated search cache under every interleaving of searches and mutations
 (searchCached in src/rooms/rooms.service.ts over src/cache/cache.service.ts).

 A search reads the version, looks its key up, loads shard by shard and stores what it loaded. A
 mutation commits on a shard and raises the version afterwards. What a shard shows is the number
 of commits it has taken; a shard may be silent, or answer from a replica that lags. Without Redis a
 search loads and stores nothing.
 */
module SearchCache {
  import opened Wrappers
  import opened JsText
  import opened Cache

  /** Normalised search parameters. */
  datatype Params = Params(city: JsString, checkIn: JsString, checkOut: JsString, guests: nat)

  /** The digest of normalised parameters, and the shards a search asks. */
  datatype Config = Config(shardCount: nat, digest: Params -> JsString, scope: Params -> set<nat>)

  ghost predicate Injective(digest: Params -> JsString) { forall p, q :: digest(p) == digest(q) ==> p == q }

  /** What a shard contributes: its current content, older content from a replica that lags, or nothing. */
  datatype Part = Fresh(commits: nat) | Behind(commits: nat) | Silent

  type Loaded = map<nat, Part>

  datatype Mutation = Mutation(shard: nat, commit: nat, version: Option<nat>)

  datatype Listing = Listing(params: Params, parts: Loaded)

  datatype Stage = Keyed | Loading(parts: Loaded, caching: bool) | Answered(data: Listing, status: Status)

  /** A search: the version it read, whether Redis answered that read, and the mutations announced by then. */
  datatype Search = Search(params: Params, version: nat, versionRead: bool, announced: set<nat>, stage: Stage)

  datatype World = World(
    commits: seq<nat>,
    mutations: seq<Mutation>,
    version: nat,
    entries: map<JsString, Listing>,
    searches: map<nat, Search>)

  datatype Event =
    | CommitMutation(shard: nat)
    | Bump(done: set<nat>, works: bool)
    | Expire(key: JsString)
    | ReadVersion(req: nat, params: Params, works: bool)
    | Get(req: nat, works: bool)
    | Load(req: nat, shard: nat, part: Part)
    | Finish(req: nat, works: bool)

  function KeyOf(cfg: Config, version: nat, p: Params): JsString { RoomsSearchKey(version, cfg.digest(p)) }

  function Announced(ms: seq<Mutation>): set<nat> { set m | 0 <= m < |ms| && ms[m].version.Some? }

  /** The mutations of one request share one INCR. */
  function Stamp(ms: seq<Mutation>, done: set<nat>, version: nat): seq<Mutation> {
    seq(|ms|, m requires 0 <= m < |ms| =>
      if m in done && ms[m].version.None? then ms[m].(version := Some(version)) else ms[m])
  }

  predicate AtStage(w: World, req: nat, stage: Stage) { req in w.searches && w.searches[req].stage == stage }

  function Proceed(w: World, req: nat, stage: Stage): World
    requires req in w.searches
  {
    w.(searches := w.searches[req := w.searches[req].(stage := stage)])
  }

  /** What a query on a shard may bring now. */
  predicate MayLoad(w: World, i: nat, part: Part) {
    i < |w.commits| &&
    match part
    case Fresh(n) => n == w.commits[i]
    case Behind(n) => n < w.commits[i]
    case Silent => true
  }

  /** One step. An event that is not enabled leaves the world as it is. */
  function Apply(cfg: Config, w: World, e: Event): World {
    match e
    case CommitMutation(i) =>
      if i >= |w.commits| then w
      else
        var n := w.commits[i] + 1;
        w.(commits := w.commits[i := n], mutations := w.mutations + [Mutation(i, n, None)])
    case Bump(done, works) =>
      if !works then w
      else w.(version := w.version + 1, mutations := Stamp(w.mutations, done, w.version + 1))
    case Expire(key) => w.(entries := w.entries - {key})
    case ReadVersion(req, p, works) =>
      if req in w.searches then w
      else w.(searches := w.searches[req := Search(p, if works then w.version else 0, works, Announced(w.mutations), Keyed)])
    case Get(req, works) =>
      if !AtStage(w, req, Keyed) then w
      else if !works then Proceed(w, req, Loading(map[], false))
      else
        var key := KeyOf(cfg, w.searches[req].version, w.searches[req].params);
        Proceed(w, req, if key in w.entries then Answered(w.entries[key], HIT) else Loading(map[], true))
    case Load(req, i, part) =>
      if req !in w.searches || !w.searches[req].stage.Loading? || i in w.searches[req].stage.parts || !MayLoad(w, i, part) then w
      else Proceed(w, req, Loading(w.searches[req].stage.parts[i := part], w.searches[req].stage.caching))
    case Finish(req, works) =>
      if req !in w.searches || !w.searches[req].stage.Loading? then w
      else
        var s := w.searches[req];
        if s.stage.parts.Keys != cfg.scope(s.params) then w
        else
          var data := Listing(s.params, s.stage.parts);
          var w' := Proceed(w, req, Answered(data, if s.stage.caching then MISS else BYPASS));
          if s.stage.caching && works then w'.(entries := w.entries[KeyOf(cfg, s.version, s.params) := data]) else w'
  }

  function Run(cfg: Config, w: World, es: seq<Event>): World {
    if es == [] then w else Apply(cfg, Run(cfg, w, es[..|es| - 1]), es[|es| - 1])
  }

  function Start(cfg: Config): World { World(seq(cfg.shardCount, _ => 0), [], 0, map[], map[]) }

  // ---------------------------------------------------------------- the invariant

  /** No part that came with current content misses a mutation announced up to a version. */
  ghost predicate UpTo(ms: seq<Mutation>, version: nat, parts: Loaded) {
    forall m :: 0 <= m < |ms| && ms[m].version.Some? && ms[m].version.value <= version ==> ShowsCurrent(ms[m], parts)
  }

  predicate ShowsCurrent(m: Mutation, parts: Loaded) {
    m.shard in parts && parts[m.shard].Fresh? ==> parts[m.shard].commits >= m.commit
  }

  ghost predicate MutationsSane(w: World) {
    forall m :: 0 <= m < |w.mutations| ==> Sane(w, w.mutations[m])
  }

  predicate Sane(w: World, m: Mutation) {
    m.shard < |w.commits| && m.commit <= w.commits[m.shard] && (m.version.Some? ==> m.version.value <= w.version)
  }

  ghost predicate EntrySafe(cfg: Config, w: World, v: nat, p: Params)
    requires KeyOf(cfg, v, p) in w.entries
  {
    var data := w.entries[KeyOf(cfg, v, p)];
    v <= w.version && data.params == p && data.parts.Keys == cfg.scope(p) && Real(w, data.parts) && UpTo(w.mutations, v, data.parts)
  }

  ghost predicate EntriesSafe(cfg: Config, w: World) {
    forall v: nat, p :: KeyOf(cfg, v, p) in w.entries ==> EntrySafe(cfg, w, v, p)
  }

  /** The parts come from shards there are. */
  predicate Real(w: World, parts: Loaded) { forall i :: i in parts ==> i < |w.commits| }

  /** No part that came with current content is older than one of the mutations. */
  ghost predicate AllCurrent(ms: seq<Mutation>, announced: set<nat>, parts: Loaded) {
    forall m :: m in announced ==> m < |ms| && ShowsCurrent(ms[m], parts)
  }

  ghost predicate SearchSafe(cfg: Config, w: World, s: Search) {
    s.version <= w.version && (!s.versionRead ==> s.version == 0) &&
    (forall m :: m in s.announced ==> m < |w.mutations|) &&
    (s.versionRead ==> forall m :: m in s.announced ==>
      m < |w.mutations| && w.mutations[m].version.Some? && w.mutations[m].version.value <= s.version) &&
    match s.stage
    case Keyed => true
    case Loading(parts, _) => Real(w, parts) && UpTo(w.mutations, s.version, parts) && AllCurrent(w.mutations, s.announced, parts)
    case Answered(data, status) =>
      data.params == s.params && data.parts.Keys == cfg.scope(s.params) && Real(w, data.parts) &&
      UpTo(w.mutations, s.version, data.parts) &&
      (status != HIT ==> AllCurrent(w.mutations, s.announced, data.parts))
  }

  ghost predicate Inv(cfg: Config, w: World) {
    |w.commits| == cfg.shardCount && MutationsSane(w) && EntriesSafe(cfg, w) && forall req :: req in w.searches ==> SearchSafe(cfg, w, w.searches[req])
  }

  // ---------------------------------------------------------------- every step keeps it

  lemma CommitKeeps(cfg: Config, w: World, i: nat)
    requires Inv(cfg, w)
    ensures Inv(cfg, Apply(cfg, w, CommitMutation(i)))
  {
    var w' := Apply(cfg, w, CommitMutation(i));
    forall m | 0 <= m < |w'.mutations| ensures Sane(w', w'.mutations[m]) {
      if m < |w.mutations| { assert Sane(w, w.mutations[m]); }
    }
    forall v: nat, p | KeyOf(cfg, v, p) in w'.entries ensures EntrySafe(cfg, w', v, p) {
      assert EntrySafe(cfg, w, v, p);
    }
    forall req | req in w'.searches ensures SearchSafe(cfg, w', w'.searches[req]) {
      assert SearchSafe(cfg, w, w.searches[req]);
    }
  }

  /** A version stamped now is newer than any version read or stored so far. */
  lemma StampKeepsUpTo(ms: seq<Mutation>, done: set<nat>, version: nat, v: nat, parts: Loaded)
    requires UpTo(ms, v, parts) && v < version
    ensures UpTo(Stamp(ms, done, version), v, parts)
  {
    var ms' := Stamp(ms, done, version);
    forall m | 0 <= m < |ms'| && ms'[m].version.Some? && ms'[m].version.value <= v ensures ShowsCurrent(ms'[m], parts) {
      assert ms'[m] == ms[m];
    }
  }

  lemma StampKeepsShown(ms: seq<Mutation>, done: set<nat>, version: nat, announced: set<nat>, parts: Loaded)
    requires AllCurrent(ms, announced, parts)
    ensures AllCurrent(Stamp(ms, done, version), announced, parts)
  {
    var ms' := Stamp(ms, done, version);
    forall m | m in announced ensures m < |ms'| && ShowsCurrent(ms'[m], parts) {
      assert ms'[m].shard == ms[m].shard && ms'[m].commit == ms[m].commit;
    }
  }

  lemma StampKeepsSearch(cfg: Config, w: World, done: set<nat>, s: Search)
    requires MutationsSane(w) && SearchSafe(cfg, w, s)
    ensures SearchSafe(cfg, Apply(cfg, w, Bump(done, true)), s)
  {
    if s.stage.Loading? {
      StampKeepsUpTo(w.mutations, done, w.version + 1, s.version, s.stage.parts);
      StampKeepsShown(w.mutations, done, w.version + 1, s.announced, s.stage.parts);
    }
    if s.stage.Answered? {
      StampKeepsUpTo(w.mutations, done, w.version + 1, s.version, s.stage.data.parts);
      if s.stage.status != HIT { StampKeepsShown(w.mutations, done, w.version + 1, s.announced, s.stage.data.parts); }
    }
  }

  lemma BumpKeeps(cfg: Config, w: World, done: set<nat>, works: bool)
    requires Inv(cfg, w)
    ensures Inv(cfg, Apply(cfg, w, Bump(done, works)))
  {
    if works {
      var w' := Apply(cfg, w, Bump(done, works));
      forall m | 0 <= m < |w'.mutations| ensures Sane(w', w'.mutations[m]) { assert Sane(w, w.mutations[m]); }
      forall v: nat, p | KeyOf(cfg, v, p) in w'.entries ensures EntrySafe(cfg, w', v, p) {
        assert EntrySafe(cfg, w, v, p);
        StampKeepsUpTo(w.mutations, done, w.version + 1, v, w.entries[KeyOf(cfg, v, p)].parts);
      }
      forall req | req in w'.searches ensures SearchSafe(cfg, w', w'.searches[req]) {
        StampKeepsSearch(cfg, w, done, w.searches[req]);
      }
    }
  }

  lemma ExpireKeeps(cfg: Config, w: World, key: JsString)
    requires Inv(cfg, w)
    ensures Inv(cfg, Apply(cfg, w, Expire(key)))
  {
    var w' := Apply(cfg, w, Expire(key));
    forall v: nat, p | KeyOf(cfg, v, p) in w'.entries ensures EntrySafe(cfg, w', v, p) { assert EntrySafe(cfg, w, v, p); }
  }

  /** A step of one search leaves the rest alone. */
  lemma SearchStepKeeps(cfg: Config, w: World, w': World, req: nat)
    requires Inv(cfg, w) && w' == w.(searches := w'.searches)
    requires req in w'.searches && SearchSafe(cfg, w', w'.searches[req])
    requires forall r :: r in w'.searches && r != req ==> r in w.searches && w'.searches[r] == w.searches[r]
    ensures Inv(cfg, w')
  {
    forall m | 0 <= m < |w'.mutations| ensures Sane(w', w'.mutations[m]) { assert Sane(w, w.mutations[m]); }
    forall v: nat, p | KeyOf(cfg, v, p) in w'.entries ensures EntrySafe(cfg, w', v, p) { assert EntrySafe(cfg, w, v, p); }
    forall r | r in w'.searches ensures SearchSafe(cfg, w', w'.searches[r]) {
      if r != req { assert SearchSafe(cfg, w, w.searches[r]); }
    }
  }

  lemma ReadVersionKeeps(cfg: Config, w: World, req: nat, p: Params, works: bool)
    requires Inv(cfg, w)
    ensures Inv(cfg, Apply(cfg, w, ReadVersion(req, p, works)))
  {
    if req !in w.searches {
      var w' := Apply(cfg, w, ReadVersion(req, p, works));
      forall m | m in Announced(w.mutations) ensures w.mutations[m].version.value <= w.version {
        assert Sane(w, w.mutations[m]);
      }
      SearchStepKeeps(cfg, w, w', req);
    }
  }

  lemma GetKeeps(cfg: Config, w: World, req: nat, works: bool)
    requires Inv(cfg, w)
    ensures Inv(cfg, Apply(cfg, w, Get(req, works)))
  {
    if AtStage(w, req, Keyed) {
      var w' := Apply(cfg, w, Get(req, works));
      var s := w.searches[req];
      assert SearchSafe(cfg, w, s);
      if KeyOf(cfg, s.version, s.params) in w.entries { assert EntrySafe(cfg, w, s.version, s.params); }
      SearchStepKeeps(cfg, w, w', req);
    }
  }

  /** What a shard shows now holds all of its commits so far. */
  lemma LoadedIsUpTo(w: World, v: nat, parts: Loaded, i: nat, part: Part)
    requires MutationsSane(w) && UpTo(w.mutations, v, parts) && MayLoad(w, i, part)
    ensures UpTo(w.mutations, v, parts[i := part])
  {
    forall m | 0 <= m < |w.mutations| && w.mutations[m].version.Some? && w.mutations[m].version.value <= v
      ensures ShowsCurrent(w.mutations[m], parts[i := part])
    {
      assert Sane(w, w.mutations[m]);
      assert ShowsCurrent(w.mutations[m], parts);
    }
  }

  lemma LoadedIsShown(w: World, announced: set<nat>, parts: Loaded, i: nat, part: Part)
    requires MutationsSane(w) && AllCurrent(w.mutations, announced, parts) && MayLoad(w, i, part)
    ensures AllCurrent(w.mutations, announced, parts[i := part])
  {
    forall m | m in announced ensures m < |w.mutations| && ShowsCurrent(w.mutations[m], parts[i := part]) {
      assert Sane(w, w.mutations[m]);
      assert ShowsCurrent(w.mutations[m], parts);
    }
  }

  lemma LoadKeeps(cfg: Config, w: World, req: nat, i: nat, part: Part)
    requires Inv(cfg, w)
    ensures Inv(cfg, Apply(cfg, w, Load(req, i, part)))
  {
    var w' := Apply(cfg, w, Load(req, i, part));
    if w' != w {
      var s := w.searches[req];
      assert SearchSafe(cfg, w, s);
      LoadedIsUpTo(w, s.version, s.stage.parts, i, part);
      LoadedIsShown(w, s.announced, s.stage.parts, i, part);
      SearchStepKeeps(cfg, w, w', req);
    }
  }

  /** Adding an entry under the key of the version it was loaded for. */
  lemma StoredIsSafe(cfg: Config, w: World, v: nat, p: Params, parts: Loaded)
    requires Inv(cfg, w) && Injective(cfg.digest)
    requires v <= w.version && parts.Keys == cfg.scope(p) && Real(w, parts) && UpTo(w.mutations, v, parts)
    ensures Inv(cfg, w.(entries := w.entries[KeyOf(cfg, v, p) := Listing(p, parts)]))
  {
    var w' := w.(entries := w.entries[KeyOf(cfg, v, p) := Listing(p, parts)]);
    forall m | 0 <= m < |w'.mutations| ensures Sane(w', w'.mutations[m]) { assert Sane(w, w.mutations[m]); }
    forall u: nat, q | KeyOf(cfg, u, q) in w'.entries ensures EntrySafe(cfg, w', u, q) {
      if KeyOf(cfg, u, q) == KeyOf(cfg, v, p) {
        KeysDecode(u, cfg.digest(q), v, cfg.digest(p));
      } else {
        assert EntrySafe(cfg, w, u, q);
      }
    }
    forall r | r in w'.searches ensures SearchSafe(cfg, w', w'.searches[r]) { assert SearchSafe(cfg, w, w.searches[r]); }
  }

  lemma FinishKeeps(cfg: Config, w: World, req: nat, works: bool)
    requires Inv(cfg, w) && Injective(cfg.digest)
    ensures Inv(cfg, Apply(cfg, w, Finish(req, works)))
  {
    if req in w.searches && w.searches[req].stage.Loading? {
      var s := w.searches[req];
      assert SearchSafe(cfg, w, s);
      if s.stage.parts.Keys == cfg.scope(s.params) {
        var w' := Proceed(w, req, Answered(Listing(s.params, s.stage.parts), if s.stage.caching then MISS else BYPASS));
        SearchStepKeeps(cfg, w, w', req);
        StoredIsSafe(cfg, w', s.version, s.params, s.stage.parts);
      }
    }
  }

  lemma StepKeeps(cfg: Config, w: World, e: Event)
    requires Inv(cfg, w) && Injective(cfg.digest)
    ensures Inv(cfg, Apply(cfg, w, e))
  {
    match e
    case CommitMutation(i) => CommitKeeps(cfg, w, i);
    case Bump(done, works) => BumpKeeps(cfg, w, done, works);
    case Expire(key) => ExpireKeeps(cfg, w, key);
    case ReadVersion(req, p, works) => ReadVersionKeeps(cfg, w, req, p, works);
    case Get(req, works) => GetKeeps(cfg, w, req, works);
    case Load(req, i, part) => LoadKeeps(cfg, w, req, i, part);
    case Finish(req, works) => FinishKeeps(cfg, w, req, works);
  }

  lemma {:induction false} RunKeeps(cfg: Config, w: World, es: seq<Event>)
    requires Inv(cfg, w) && Injective(cfg.digest)
    ensures Inv(cfg, Run(cfg, w, es))
    decreases |es|
  {
    if es != [] {
      RunKeeps(cfg, w, es[..|es| - 1]);
      StepKeeps(cfg, Run(cfg, w, es[..|es| - 1]), es[|es| - 1]);
    }
  }

  // ---------------------------------------------------------------- old answers

  /** A part that answered without this mutation. */
  predicate Misses(m: Mutation, parts: Loaded) {
    m.shard in parts && !parts[m.shard].Silent? && parts[m.shard].commits < m.commit
  }

  /** The answer lacks a mutation announced before the search read its version, on a shard that answered. */
  ghost predicate Old(w: World, s: Search) {
    s.stage.Answered? && exists m :: m in s.announced && m < |w.mutations| && Misses(w.mutations[m], s.stage.data.parts)
  }

  ghost predicate AllFresh(w: World) { forall req :: req in w.searches ==> !Old(w, w.searches[req]) }

  /** What a lagging replica contributed. */
  predicate Lagged(parts: Loaded) { exists i :: i in parts && parts[i].Behind? }

  /**
   Hit, miss or bypass, whatever the interleaving and whatever expired: a search answers its own
   query, from every shard it has to ask. Its answer is old only through a part of a lagging replica,
   or by a hit after a failed version read.
   */
  lemma SearchesAreFresh(cfg: Config, es: seq<Event>, req: nat)
    requires Injective(cfg.digest)
    requires req in Run(cfg, Start(cfg), es).searches && Run(cfg, Start(cfg), es).searches[req].stage.Answered?
    ensures var w := Run(cfg, Start(cfg), es);
      var s := w.searches[req];
      s.stage.data.params == s.params && s.stage.data.parts.Keys == cfg.scope(s.params) &&
      (Old(w, s) ==> Lagged(s.stage.data.parts) || (s.stage.status == HIT && !s.versionRead && s.version == 0)) &&
      (s.versionRead || s.stage.status != HIT ==>
        forall m :: m in s.announced && m < |w.mutations| && Misses(w.mutations[m], s.stage.data.parts) ==>
          s.stage.data.parts[w.mutations[m].shard].Behind?)
  {
    RunSafe(cfg, es);
    var w := Run(cfg, Start(cfg), es);
    assert SearchSafe(cfg, w, w.searches[req]);
  }

  lemma RunSafe(cfg: Config, es: seq<Event>)
    requires Injective(cfg.digest)
    ensures Inv(cfg, Run(cfg, Start(cfg), es))
  {
    assert Inv(cfg, Start(cfg));
    RunKeeps(cfg, Start(cfg), es);
  }

  /**
   A look-up gives an old answer exactly when the entry for the version the search holds is there and
   lacks an announced mutation; after a version read that worked, only a lagging replica's part can.
   */
  lemma OldHitExactly(cfg: Config, es: seq<Event>, req: nat, works: bool)
    requires Injective(cfg.digest) && AtStage(Run(cfg, Start(cfg), es), req, Keyed)
    ensures var w := Run(cfg, Start(cfg), es);
      var s := w.searches[req];
      var key := KeyOf(cfg, s.version, s.params);
      var w' := Apply(cfg, w, Get(req, works));
      (Old(w', w'.searches[req]) <==>
        works && key in w.entries &&
        exists m :: m in s.announced && m < |w.mutations| && Misses(w.mutations[m], w.entries[key].parts) &&
          (s.versionRead ==> w.entries[key].parts[w.mutations[m].shard].Behind?))
  {
    RunSafe(cfg, es);
    var w := Run(cfg, Start(cfg), es);
    var s := w.searches[req];
    var key := KeyOf(cfg, s.version, s.params);
    assert SearchSafe(cfg, w, s);
    if key in w.entries { assert EntrySafe(cfg, w, s.version, s.params); }
  }

  /** A search that loads its answer itself gives an old one exactly when a lagging replica's part lacks an announced mutation. */
  lemma OldLoadExactly(cfg: Config, es: seq<Event>, req: nat, works: bool)
    requires Injective(cfg.digest) && req in Run(cfg, Start(cfg), es).searches
    requires Run(cfg, Start(cfg), es).searches[req].stage.Loading?
    ensures var w := Run(cfg, Start(cfg), es);
      var s := w.searches[req];
      var w' := Apply(cfg, w, Finish(req, works));
      (Old(w', w'.searches[req]) <==>
        s.stage.parts.Keys == cfg.scope(s.params) &&
        exists m :: m in s.announced && m < |w.mutations| && Misses(w.mutations[m], s.stage.parts) &&
          s.stage.parts[w.mutations[m].shard].Behind?)
  {
    RunSafe(cfg, es);
    var w := Run(cfg, Start(cfg), es);
    assert SearchSafe(cfg, w, w.searches[req]);
  }

  // ---------------------------------------------------------------- runs that give old answers

  lemma RunThen(cfg: Config, w0: World, es: seq<Event>, w: World, e: Event)
    requires Run(cfg, w0, es) == w
    ensures Run(cfg, w0, es + [e]) == Apply(cfg, w, e)
  {
    assert (es + [e])[..|es|] == es;
  }

  /** A query that can be answered at all: it asks some shards, and they exist. */
  predicate Askable(cfg: Config, p: Params) { cfg.scope(p) != {} && forall i :: i in cfg.scope(p) ==> i < cfg.shardCount }

  /** A world in which the one search is at some stage. */
  function AtWork(w: World, s: Search, stage: Stage): World { w.(searches := map[0 := s.(stage := stage)]) }

  function Pieces(shards: set<nat>, part: nat -> Part): Loaded { map i | i in shards :: part(i) }

  ghost predicate MayLoadAll(w: World, shards: set<nat>, part: nat -> Part) { forall i :: i in shards ==> MayLoad(w, i, part(i)) }

  lemma LoadStep(cfg: Config, w: World, s: Search, done: set<nat>, i: nat, part: nat -> Part)
    requires MayLoad(w, i, part(i)) && i !in done
    ensures Apply(cfg, AtWork(w, s, Loading(Pieces(done, part), true)), Load(0, i, part(i))) ==
            AtWork(w, s, Loading(Pieces(done + {i}, part), true))
  {
    assert Pieces(done, part)[i := part(i)] == Pieces(done + {i}, part);
  }

  /** From event n on, versions are read and the given parts are loaded. */
  predicate Regular(es: seq<Event>, n: nat, part: nat -> Part) {
    forall k :: n <= k < |es| ==> (es[k].ReadVersion? ==> es[k].works) && (es[k].Load? ==> es[k].part == part(es[k].shard))
  }

  /** The search loads the remaining shards one after the other. */
  lemma {:induction false} LoadsAll(cfg: Config, w: World, s: Search, es: seq<Event>, n: nat, done: set<nat>, todo: set<nat>, part: nat -> Part)
    returns (es': seq<Event>)
    requires Run(cfg, Start(cfg), es) == AtWork(w, s, Loading(Pieces(done, part), true))
    requires done !! todo && MayLoadAll(w, todo, part) && n <= |es| && Regular(es, n, part)
    ensures Run(cfg, Start(cfg), es') == AtWork(w, s, Loading(Pieces(done + todo, part), true))
    ensures n <= |es'| && es'[..n] == es[..n] && Regular(es', n, part)
    decreases |todo|
  {
    if todo == {} {
      es' := es;
      assert done + todo == done;
    } else {
      var i :| i in todo;
      var e := Load(0, i, part(i));
      LoadStep(cfg, w, s, done, i, part);
      RunThen(cfg, Start(cfg), es, AtWork(w, s, Loading(Pieces(done, part), true)), e);
      es' := LoadsAll(cfg, w, s, es + [e], n, done + {i}, todo - {i}, part);
      assert done + {i} + (todo - {i}) == done + todo;
    }
  }

  /** A search that has read its version. */
  function Asking(w: World, p: Params): Search { Search(p, w.version, true, Announced(w.mutations), Keyed) }

  /** The search has answered with these parts and cached them. */
  function Filled(cfg: Config, w: World, p: Params, part: nat -> Part): World {
    var data := Listing(p, Pieces(cfg.scope(p), part));
    AtWork(w, Asking(w, p), Answered(data, MISS)).(entries := map[KeyOf(cfg, w.version, p) := data])
  }

  lemma AskSteps(cfg: Config, w: World, p: Params, part: nat -> Part)
    requires w.searches == map[] && w.entries == map[]
    ensures Apply(cfg, w, ReadVersion(0, p, true)) == AtWork(w, Asking(w, p), Keyed)
    ensures Apply(cfg, AtWork(w, Asking(w, p), Keyed), Get(0, true)) == AtWork(w, Asking(w, p), Loading(Pieces({}, part), true))
  {
    assert Pieces({}, part) == map[];
  }

  lemma FinishStep(cfg: Config, w: World, p: Params, part: nat -> Part)
    requires w.entries == map[]
    ensures Apply(cfg, AtWork(w, Asking(w, p), Loading(Pieces(cfg.scope(p), part), true)), Finish(0, true)) == Filled(cfg, w, p, part)
  {
    assert Pieces(cfg.scope(p), part).Keys == cfg.scope(p);
  }

  /** From an empty cache, one search that loads the given parts fills it. */
  lemma Fills(cfg: Config, w: World, p: Params, es: seq<Event>, part: nat -> Part) returns (es': seq<Event>)
    requires Run(cfg, Start(cfg), es) == w && w.searches == map[] && w.entries == map[]
    requires MayLoadAll(w, cfg.scope(p), part)
    ensures Run(cfg, Start(cfg), es') == Filled(cfg, w, p, part)
    ensures |es| <= |es'| && es'[..|es|] == es && Regular(es', |es|, part)
  {
    var e1, e2, s := ReadVersion(0, p, true), Get(0, true), Asking(w, p);
    AskSteps(cfg, w, p, part);
    RunThen(cfg, Start(cfg), es, w, e1);
    RunThen(cfg, Start(cfg), es + [e1], AtWork(w, s, Keyed), e2);
    var loaded := LoadsAll(cfg, w, s, es + [e1] + [e2], |es|, {}, cfg.scope(p), part);
    assert {} + cfg.scope(p) == cfg.scope(p);
    assert (es + [e1] + [e2])[..|es|] == es;
    FinishStep(cfg, w, p, part);
    RunThen(cfg, Start(cfg), loaded, AtWork(w, s, Loading(Pieces(cfg.scope(p), part), true)), Finish(0, true));
    es' := loaded + [Finish(0, true)];
  }

  /** One mutation of a shard has been committed and announced. */
  function Changed(w: World, i: nat): World
    requires i < |w.commits|
  {
    w.(commits := w.commits[i := w.commits[i] + 1], mutations := [Mutation(i, w.commits[i] + 1, Some(w.version + 1))], version := w.version + 1)
  }

  lemma Changes(cfg: Config, w: World, es: seq<Event>, i: nat)
    requires i < |w.commits| && w.mutations == [] && Run(cfg, Start(cfg), es) == w
    ensures Run(cfg, Start(cfg), es + [CommitMutation(i)] + [Bump({0}, true)]) == Changed(w, i)
  {
    var n := w.commits[i] + 1;
    var w1 := w.(commits := w.commits[i := n], mutations := [Mutation(i, n, None)]);
    RunThen(cfg, Start(cfg), es, w, CommitMutation(i));
    RunThen(cfg, Start(cfg), es + [CommitMutation(i)], w1, Bump({0}, true));
  }

  /** A second search, at some stage, after the announcement. */
  function Second(w: World, p: Params, versionRead: bool, stage: Stage): World {
    w.(searches := w.searches[1 := Search(p, if versionRead then w.version else 0, versionRead, {0}, stage)])
  }

  /** The second search hits the entry of the version it holds. */
  lemma SecondHits(cfg: Config, w: World, p: Params, versionRead: bool, es: seq<Event>) returns (es': seq<Event>)
    requires Run(cfg, Start(cfg), es) == w && 1 !in w.searches && Announced(w.mutations) == {0}
    requires KeyOf(cfg, if versionRead then w.version else 0, p) in w.entries
    ensures es' == es + [ReadVersion(1, p, versionRead)] + [Get(1, true)]
    ensures Run(cfg, Start(cfg), es') ==
      Second(w, p, versionRead, Answered(w.entries[KeyOf(cfg, if versionRead then w.version else 0, p)], HIT))
  {
    var e1, e2 := ReadVersion(1, p, versionRead), Get(1, true);
    var data := w.entries[KeyOf(cfg, if versionRead then w.version else 0, p)];
    es' := es + [e1] + [e2];
    RunThen(cfg, Start(cfg), es, w, e1);
    assert Apply(cfg, w, e1) == Second(w, p, versionRead, Keyed);
    RunThen(cfg, Start(cfg), es + [e1], Second(w, p, versionRead, Keyed), e2);
    assert Apply(cfg, Second(w, p, versionRead, Keyed), e2) == Second(w, p, versionRead, Answered(data, HIT));
  }

  lemma SecondIsOld(w: World, p: Params, versionRead: bool, i: nat, data: Listing)
    requires |w.mutations| == 1 && w.mutations[0].shard == i && i in data.parts
    requires !data.parts[i].Silent? && data.parts[i].commits < w.mutations[0].commit
    ensures Old(Second(w, p, versionRead, Answered(data, HIT)), Second(w, p, versionRead, Answered(data, HIT)).searches[1])
  {
    var w' := Second(w, p, versionRead, Answered(data, HIT));
    assert 0 in w'.searches[1].announced && Misses(w'.mutations[0], data.parts);
  }

  predicate VersionReadsWork(es: seq<Event>) { forall k :: 0 <= k < |es| && es[k].ReadVersion? ==> es[k].works }

  predicate NoneLags(es: seq<Event>) { forall k :: 0 <= k < |es| && es[k].Load? ==> !es[k].part.Behind? }

  function Untouched(): nat -> Part { (i: nat) => Fresh(0) }

  /** Generation 0 is filled from untouched shards, and then a shard changes. */
  lemma FillsAndChanges(cfg: Config, p: Params, i: nat) returns (es: seq<Event>)
    requires Askable(cfg, p) && i in cfg.scope(p)
    ensures Run(cfg, Start(cfg), es) == Changed(Filled(cfg, Start(cfg), p, Untouched()), i) && NoneLags(es)
  {
    var filled := Fills(cfg, Start(cfg), p, [], Untouched());
    Changes(cfg, Filled(cfg, Start(cfg), p, Untouched()), filled, i);
    es := filled + [CommitMutation(i)] + [Bump({0}, true)];
    AddingNoLoads(filled, [CommitMutation(i)] + [Bump({0}, true)]);
    assert es == filled + ([CommitMutation(i)] + [Bump({0}, true)]);
  }

  /**
   For every query that can be answered there is a run, without lagging replicas, in which a failed
   version read leads to an old answer.
   */
  lemma FailedVersionReadServesOldData(cfg: Config, p: Params) returns (es: seq<Event>)
    requires Askable(cfg, p)
    ensures NoneLags(es) && !AllFresh(Run(cfg, Start(cfg), es))
  {
    var i :| i in cfg.scope(p);
    var changed := FillsAndChanges(cfg, p, i);
    var w := Changed(Filled(cfg, Start(cfg), p, Untouched()), i);
    assert Announced(w.mutations) == {0};
    es := SecondHits(cfg, w, p, false, changed);
    SecondIsOld(w, p, false, i, Listing(p, Pieces(cfg.scope(p), Untouched())));
  }

  lemma AddingNoLoads(es: seq<Event>, more: seq<Event>)
    requires Regular(es, 0, Untouched()) && forall k :: 0 <= k < |more| ==> !more[k].Load?
    ensures NoneLags(es + more)
  {}

  /** Every shard but one shows its content; that one answers from a replica that has not seen the mutation. */
  function Late(i: nat): nat -> Part { (j: nat) => if j == i then Behind(0) else Fresh(0) }

  /**
   For every query that can be answered there is a run, with every version read working, in which a
   search loads from a lagging replica and caches it under the new version, and a later search hits it.
   */
  lemma LaggingLoadServesOldData(cfg: Config, p: Params) returns (es: seq<Event>)
    requires Askable(cfg, p)
    ensures VersionReadsWork(es)
    ensures var w := Run(cfg, Start(cfg), es);
      1 in w.searches && w.searches[1].versionRead && w.searches[1].stage.Answered? && w.searches[1].stage.status == HIT &&
      Old(w, w.searches[1])
  {
    var i :| i in cfg.scope(p);
    var w0, e1, e2 := Start(cfg), CommitMutation(i), Bump({0}, true);
    Changes(cfg, w0, [], i);
    var w1 := Changed(w0, i);
    var changed := [] + [e1] + [e2];
    var filled := Fills(cfg, w1, p, changed, Late(i));
    var w := Filled(cfg, w1, p, Late(i));
    assert Announced(w.mutations) == {0};
    es := SecondHits(cfg, w, p, true, filled);
    SecondIsOld(w, p, true, i, Listing(p, Pieces(cfg.scope(p), Late(i))));
    forall k | 0 <= k < |filled| && filled[k].ReadVersion? ensures filled[k].works {
      if k < |changed| { assert filled[k] == changed[k]; }
    }
  }

  // ---------------------------------------------------------------- exactly when all answers are fresh

  lemma {:induction false} VersionsWereRead(cfg: Config, es: seq<Event>)
    requires VersionReadsWork(es)
    ensures forall req :: req in Run(cfg, Start(cfg), es).searches ==> Run(cfg, Start(cfg), es).searches[req].versionRead
  {
    if es != [] { VersionsWereRead(cfg, es[..|es| - 1]); }
  }

  /** No part of an entry or a search comes from a lagging replica. */
  ghost predicate Unlagged(w: World) {
    (forall key :: key in w.entries ==> !Lagged(w.entries[key].parts)) &&
    (forall req :: req in w.searches ==>
      (w.searches[req].stage.Loading? ==> !Lagged(w.searches[req].stage.parts)) &&
      (w.searches[req].stage.Answered? ==> !Lagged(w.searches[req].stage.data.parts)))
  }

  lemma UnlaggedKept(cfg: Config, w: World, e: Event)
    requires Unlagged(w) && (e.Load? ==> !e.part.Behind?)
    ensures Unlagged(Apply(cfg, w, e))
  {
    if e.Load? && e.req in w.searches && w.searches[e.req].stage.Loading? {
      assert !Lagged(w.searches[e.req].stage.parts[e.shard := e.part]);
    }
  }

  lemma {:induction false} UnlaggedAlways(cfg: Config, es: seq<Event>)
    requires NoneLags(es)
    ensures Unlagged(Run(cfg, Start(cfg), es))
  {
    if es != [] {
      UnlaggedAlways(cfg, es[..|es| - 1]);
      UnlaggedKept(cfg, Run(cfg, Start(cfg), es[..|es| - 1]), es[|es| - 1]);
    }
  }

  /** A query that asks no shard, or one that is not there, has no old answer. */
  lemma UnaskableIsFresh(cfg: Config, w: World, s: Search)
    requires |w.commits| == cfg.shardCount && SearchSafe(cfg, w, s) && !Askable(cfg, s.params)
    ensures !Old(w, s)
  {
    if s.stage.Answered? {
      var parts := s.stage.data.parts;
      assert forall i :: i in cfg.scope(s.params) ==> i in parts.Keys;
      assert parts.Keys == {};
      forall m | m in s.announced && m < |w.mutations| ensures !Misses(w.mutations[m], parts) {
        assert w.mutations[m].shard !in parts.Keys;
      }
    }
  }

  lemma AnswersAreFresh(cfg: Config, es: seq<Event>)
    requires Injective(cfg.digest) && ((VersionReadsWork(es) && NoneLags(es)) || forall p :: !Askable(cfg, p))
    ensures AllFresh(Run(cfg, Start(cfg), es))
  {
    var w := Run(cfg, Start(cfg), es);
    RunSafe(cfg, es);
    if VersionReadsWork(es) && NoneLags(es) {
      VersionsWereRead(cfg, es);
      UnlaggedAlways(cfg, es);
    }
    forall req | req in w.searches ensures !Old(w, w.searches[req]) {
      assert SearchSafe(cfg, w, w.searches[req]);
      if !(VersionReadsWork(es) && NoneLags(es)) {
        UnaskableIsFresh(cfg, w, w.searches[req]);
      } else if w.searches[req].stage.Answered? {
        SearchesAreFresh(cfg, es, req);
      }
    }
  }

  /** What may happen to a deployment: version reads that fail, and loads from replicas that lag. */
  predicate Permitted(readsMayFail: bool, replicasMayLag: bool, es: seq<Event>) {
    (readsMayFail || VersionReadsWork(es)) && (replicasMayLag || NoneLags(es))
  }

  /**
   All answers are fresh in all runs exactly when version reads may not fail and searches may not load
   from lagging replicas, or no query can be answered in the first place.
   */
  lemma FreshExactly(cfg: Config, readsMayFail: bool, replicasMayLag: bool)
    requires Injective(cfg.digest)
    ensures (forall es :: Permitted(readsMayFail, replicasMayLag, es) ==> AllFresh(Run(cfg, Start(cfg), es))) <==>
            ((!readsMayFail && !replicasMayLag) || forall p :: !Askable(cfg, p))
  {
    if (!readsMayFail && !replicasMayLag) || forall p :: !Askable(cfg, p) {
      forall es | Permitted(readsMayFail, replicasMayLag, es) ensures AllFresh(Run(cfg, Start(cfg), es)) {
        AnswersAreFresh(cfg, es);
      }
    } else {
      var p :| Askable(cfg, p);
      var es;
      if readsMayFail {
        es := FailedVersionReadServesOldData(cfg, p);
      } else {
        es := LaggingLoadServesOldData(cfg, p);
      }
      assert Permitted(readsMayFail, replicasMayLag, es) && !AllFresh(Run(cfg, Start(cfg), es));
    }
  }
}
