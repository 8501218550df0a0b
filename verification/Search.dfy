/**
 Room search over the shards (search in src/rooms/rooms.service.ts): the fan-out against one
 undivided database, and the one-shard search of strategy city.
 */
module Search {
  import opened Wrappers
  import opened JsText
  import opened Cluster
  import opened Routing
  import opened BookingRuns
  import opened FanOut

  /** Search parameters; an empty city or no guests means no restriction. */
  datatype Query = Query(city: JsString, checkIn: int, checkOut: int, guests: nat)

  /** The where clause, evaluated on one database. */
  predicate Matches(sh: Shard, q: Query, r: Id)
    requires r in sh.rooms
  {
    var room := sh.rooms[r];
    room.capacity >= q.guests &&
    (q.city != [] ==> room.hotelId in sh.hotels && sh.hotels[room.hotelId].city == q.city) &&
    !IsTaken(sh.bookings, r, q.checkIn, q.checkOut, None)
  }

  function Found(sh: Shard, q: Query): set<Id> { set r | r in sh.rooms && Matches(sh, q, r) }

  /** A room is found exactly when it is large enough, of a hotel in the city if one is asked for, and free for the stay. */
  lemma FoundExactly(sh: Shard, q: Query, r: Id)
    ensures r in Found(sh, q) <==>
      r in sh.rooms && q.guests <= sh.rooms[r].capacity &&
      (q.city != [] ==> sh.rooms[r].hotelId in sh.hotels && sh.hotels[sh.rooms[r].hotelId].city == q.city) &&
      IsFree(sh.bookings, r, q.checkIn, q.checkOut, None)
  {
    if r in sh.rooms { TakenExactly(sh.bookings, r, q.checkIn, q.checkOut, None); }
  }

  /** A list that gives every element of a set once. */
  ghost predicate Enumerates(list: seq<Id>, s: set<Id>) {
    (forall i, j :: 0 <= i < j < |list| ==> list[i] != list[j]) &&
    (forall x :: x in list <==> x in s)
  }

  // ---------------------------------------------------------------- one undivided database

  /** All rows of the first n shards in one database. */
  function Undivided(shards: seq<Shard>, n: nat): Shard
    requires n <= |shards|
  {
    if n == 0 then Shard(map[], map[], map[])
    else
      var rest, last := Undivided(shards, n - 1), shards[n - 1];
      Shard(rest.hotels + last.hotels, rest.rooms + last.rooms, rest.bookings + last.bookings)
  }

  /** The whole cluster as one database. */
  function Whole(w: World): Shard { Undivided(w.shards, |w.shards|) }

  /** Each key sits on its own shard and on no other. */
  ghost predicate Homed(rt: Routing, shards: seq<Shard>) {
    forall i, id :: 0 <= i < |shards| && (id in shards[i].hotels || id in shards[i].rooms || id in shards[i].bookings) ==>
      ForKey(rt, id) == i
  }

  lemma PlacedIsHomed(rt: Routing, w: World)
    requires Placed(rt, w)
    ensures Homed(rt, w.shards)
  {
    forall i, id | 0 <= i < |w.shards| && (id in w.shards[i].hotels || id in w.shards[i].rooms || id in w.shards[i].bookings)
      ensures ForKey(rt, id) == i
    {
      assert ShardPlaced(rt, i, w.shards[i], w.used);
    }
  }

  lemma {:induction false} UndividedHotels(rt: Routing, shards: seq<Shard>, n: nat, h: Id)
    requires Homed(rt, shards) && n <= |shards|
    ensures var u := Undivided(shards, n).hotels;
      h in u <==> ForKey(rt, h) < n && h in shards[ForKey(rt, h)].hotels
    ensures var u := Undivided(shards, n).hotels;
      h in u ==> ForKey(rt, h) < n && u[h] == shards[ForKey(rt, h)].hotels[h]
  {
    if n > 0 { UndividedHotels(rt, shards, n - 1, h); }
  }

  lemma {:induction false} UndividedRooms(rt: Routing, shards: seq<Shard>, n: nat, r: Id)
    requires Homed(rt, shards) && n <= |shards|
    ensures var u := Undivided(shards, n).rooms;
      r in u <==> ForKey(rt, r) < n && r in shards[ForKey(rt, r)].rooms
    ensures var u := Undivided(shards, n).rooms;
      r in u ==> ForKey(rt, r) < n && u[r] == shards[ForKey(rt, r)].rooms[r]
  {
    if n > 0 { UndividedRooms(rt, shards, n - 1, r); }
  }

  lemma {:induction false} UndividedBookings(rt: Routing, shards: seq<Shard>, n: nat, b: Id)
    requires Homed(rt, shards) && n <= |shards|
    ensures var u := Undivided(shards, n).bookings;
      b in u <==> ForKey(rt, b) < n && b in shards[ForKey(rt, b)].bookings
    ensures var u := Undivided(shards, n).bookings;
      b in u ==> ForKey(rt, b) < n && u[b] == shards[ForKey(rt, b)].bookings[b]
  {
    if n > 0 { UndividedBookings(rt, shards, n - 1, b); }
  }

  /** All bookings of a room lie on the room's shard. */
  lemma BookingsBesideRoom(rt: Routing, w: World, b: Id)
    requires Sized(rt, w) && Placed(rt, w) && b in Whole(w).bookings
    ensures ForKey(rt, b) == ForKey(rt, Whole(w).bookings[b].roomId)
  {
    PlacedIsHomed(rt, w);
    UndividedBookings(rt, w.shards, |w.shards|, b);
    assert ShardPlaced(rt, ForKey(rt, b), w.shards[ForKey(rt, b)], w.used);
  }

  /** Availability judged from the room's own shard is availability in the whole. */
  lemma TakenLocally(rt: Routing, w: World, r: Id, checkIn: int, checkOut: int)
    requires Sized(rt, w) && Placed(rt, w) && ForKey(rt, r) < |w.shards|
    ensures IsTaken(w.shards[ForKey(rt, r)].bookings, r, checkIn, checkOut, None) <==>
            IsTaken(Whole(w).bookings, r, checkIn, checkOut, None)
  {
    PlacedIsHomed(rt, w);
    var i := ForKey(rt, r);
    if IsTaken(w.shards[i].bookings, r, checkIn, checkOut, None) {
      var b :| b in w.shards[i].bookings && Blocks(w.shards[i].bookings[b], r, checkIn, checkOut);
      assert ShardPlaced(rt, i, w.shards[i], w.used);
      UndividedBookings(rt, w.shards, |w.shards|, b);
      assert b in Whole(w).bookings && Blocks(Whole(w).bookings[b], r, checkIn, checkOut);
    }
    if IsTaken(Whole(w).bookings, r, checkIn, checkOut, None) {
      var b :| b in Whole(w).bookings && Blocks(Whole(w).bookings[b], r, checkIn, checkOut);
      UndividedBookings(rt, w.shards, |w.shards|, b);
      BookingsBesideRoom(rt, w, b);
      assert b in w.shards[i].bookings && Blocks(w.shards[i].bookings[b], r, checkIn, checkOut);
    }
  }

  /** A room is found in the whole exactly when its own shard finds it. */
  lemma FoundLocally(rt: Routing, w: World, q: Query, r: Id)
    requires Sized(rt, w) && Placed(rt, w)
    ensures r in Found(Whole(w), q) <==> ForKey(rt, r) < |w.shards| && r in Found(w.shards[ForKey(rt, r)], q)
  {
    PlacedIsHomed(rt, w);
    KeysRoute(rt, r);
    var i := ForKey(rt, r);
    UndividedRooms(rt, w.shards, |w.shards|, r);
    if r in w.shards[i].rooms {
      var hotelId := w.shards[i].rooms[r].hotelId;
      assert ShardPlaced(rt, i, w.shards[i], w.used);
      UndividedHotels(rt, w.shards, |w.shards|, hotelId);
      TakenLocally(rt, w, r, q.checkIn, q.checkOut);
    }
  }

  lemma FoundOnShard(rt: Routing, w: World, q: Query, i: nat, r: Id)
    requires Sized(rt, w) && Placed(rt, w) && i < |w.shards|
    ensures r in Found(w.shards[i], q) <==> ForKey(rt, r) == i && r in Found(Whole(w), q)
  {
    FoundLocally(rt, w, q, r);
    assert ShardPlaced(rt, i, w.shards[i], w.used);
  }

  // ---------------------------------------------------------------- fan-out

  /** What the first n shards answered: each silent, or listing what it finds. */
  ghost predicate Answers(w: World, q: Query, answers: seq<Option<seq<Id>>>, n: nat) {
    n <= |answers| && n <= |w.shards| &&
    forall i :: 0 <= i < n && answers[i].Some? ==> Enumerates(answers[i].value, Found(w.shards[i], q))
  }

  /** The rooms found on the first n shards that answered. */
  ghost function Reached(rt: Routing, w: World, q: Query, answers: seq<Option<seq<Id>>>, n: nat): set<Id>
    requires n <= |answers|
  {
    set r | r in Found(Whole(w), q) && ForKey(rt, r) < n && answers[ForKey(rt, r)].Some?
  }

  lemma EnumerateBoth(a: seq<Id>, s: set<Id>, b: seq<Id>, t: set<Id>)
    requires Enumerates(a, s) && Enumerates(b, t) && s !! t
    ensures Enumerates(a + b, s + t)
  {
    var c := a + b;
    forall i, j | 0 <= i < j < |c| ensures c[i] != c[j] {
      if i < |a| <= j {
        assert c[i] == a[i] && a[i] in a && c[j] == b[j - |a|] && b[j - |a|] in b;
      }
    }
  }

  lemma ReachedStep(rt: Routing, w: World, q: Query, answers: seq<Option<seq<Id>>>, n: nat)
    requires Sized(rt, w) && Placed(rt, w) && 0 < n <= |answers| && n <= |w.shards| && answers[n - 1].Some?
    ensures Reached(rt, w, q, answers, n) == Reached(rt, w, q, answers, n - 1) + Found(w.shards[n - 1], q)
    ensures Reached(rt, w, q, answers, n - 1) !! Found(w.shards[n - 1], q)
  {
    forall r ensures r in Found(w.shards[n - 1], q) <==> ForKey(rt, r) == n - 1 && r in Found(Whole(w), q) {
      FoundOnShard(rt, w, q, n - 1, r);
    }
  }

  lemma MergeSnoc(parts: seq<Part<seq<Id>>>, p: Part<seq<Id>>)
    ensures Merge(parts + [p]) == Merge(parts) + p.result
  {
    assert (parts + [p])[..|parts|] == parts;
  }

  lemma {:induction false} MergedSoFar(rt: Routing, w: World, q: Query, answers: seq<Option<seq<Id>>>, n: nat)
    requires Sized(rt, w) && Placed(rt, w) && Answers(w, q, answers, |answers|) && n <= |answers|
    ensures Enumerates(Merge(Parts(answers[..n])), Reached(rt, w, q, answers, n))
  {
    if n > 0 {
      MergedSoFar(rt, w, q, answers, n - 1);
      if answers[n - 1].Some? { MergesAnswer(rt, w, q, answers, n); } else { SkipsSilence(rt, w, q, answers, n); }
    }
  }

  lemma MergesAnswer(rt: Routing, w: World, q: Query, answers: seq<Option<seq<Id>>>, n: nat)
    requires Sized(rt, w) && Placed(rt, w) && Answers(w, q, answers, |answers|) && 0 < n <= |answers| && answers[n - 1].Some?
    requires Enumerates(Merge(Parts(answers[..n - 1])), Reached(rt, w, q, answers, n - 1))
    ensures Enumerates(Merge(Parts(answers[..n])), Reached(rt, w, q, answers, n))
  {
    Snoc(answers, n - 1);
    MergeSnoc(Parts(answers[..n - 1]), Part(n - 1, answers[n - 1].value));
    ReachedStep(rt, w, q, answers, n);
    EnumerateBoth(Merge(Parts(answers[..n - 1])), Reached(rt, w, q, answers, n - 1), answers[n - 1].value, Found(w.shards[n - 1], q));
  }

  lemma SkipsSilence(rt: Routing, w: World, q: Query, answers: seq<Option<seq<Id>>>, n: nat)
    requires 0 < n <= |answers| && answers[n - 1].None?
    ensures Parts(answers[..n]) == Parts(answers[..n - 1]) && Reached(rt, w, q, answers, n) == Reached(rt, w, q, answers, n - 1)
  {
    Snoc(answers, n - 1);
    assert Parts(answers[..n - 1]) + [] == Parts(answers[..n - 1]);
  }

  lemma AllReached(rt: Routing, w: World, q: Query, answers: seq<Option<seq<Id>>>)
    requires Sized(rt, w) && |answers| == |w.shards| && AllAnswered(answers)
    ensures Reached(rt, w, q, answers, |answers|) == Found(Whole(w), q)
  {
    forall r | r in Found(Whole(w), q) ensures ForKey(rt, r) < |answers| { KeysRoute(rt, r); }
  }

  /**
   The fan-out lists, each once, exactly the rooms one undivided database would find on the shards
   that answered; hence all of them when every shard answers.
   */
  lemma FanOutSearchIsWhole(rt: Routing, w: World, q: Query, answers: seq<Option<seq<Id>>>)
    requires Sized(rt, w) && Placed(rt, w) && |answers| == |w.shards| && Answers(w, q, answers, |answers|)
    ensures Enumerates(Merge(Parts(answers)), Reached(rt, w, q, answers, |answers|))
    ensures AllAnswered(answers) ==> Enumerates(Merge(Parts(answers)), Found(Whole(w), q))
  {
    MergedSoFar(rt, w, q, answers, |answers|);
    assert answers[..|answers|] == answers;
    if AllAnswered(answers) { AllReached(rt, w, q, answers); }
  }

  // ---------------------------------------------------------------- strategy city

  /** The shard shardForCity names. */
  function CityShard(rt: Routing, cityBucket: JsString -> nat, city: JsString): nat {
    var b := cityBucket(city);
    if b < |rt.bucketMap| then rt.bucketMap[b] else 0
  }

  /** Every hotel sits in its city's bucket. */
  ghost predicate AtHome(rt: Routing, cityBucket: JsString -> nat, w: World) {
    forall i, h :: 0 <= i < |w.shards| && h in w.shards[i].hotels ==>
      rt.bucketOf(h) == cityBucket(w.shards[i].hotels[h].city)
  }

  /** The local search finds exactly the found rooms of the city's shard. */
  lemma LocalSearchExactly(rt: Routing, w: World, q: Query, i: nat)
    requires Sized(rt, w) && Placed(rt, w) && i < |w.shards|
    ensures Found(w.shards[i], q) == set r | r in Found(Whole(w), q) && ForKey(rt, r) == i
  {
    forall r { FoundOnShard(rt, w, q, i, r); }
  }

  /** With every hotel at home the local search misses nothing. */
  lemma LocalSearchIsWhole(rt: Routing, cityBucket: JsString -> nat, w: World, q: Query)
    requires Sized(rt, w) && Placed(rt, w) && AtHome(rt, cityBucket, w) && q.city != []
    requires CityShard(rt, cityBucket, q.city) < |w.shards|
    ensures Found(w.shards[CityShard(rt, cityBucket, q.city)], q) == Found(Whole(w), q)
  {
    var i := CityShard(rt, cityBucket, q.city);
    LocalSearchExactly(rt, w, q, i);
    forall r | r in Found(Whole(w), q) ensures ForKey(rt, r) == i {
      KeysRoute(rt, r);
      FoundLocally(rt, w, q, r);
      var j := ForKey(rt, r);
      assert ShardPlaced(rt, j, w.shards[j], w.used);
      var h := w.shards[j].rooms[r].hotelId;
      assert h in w.shards[j].hotels && w.shards[j].hotels[h].city == q.city;
    }
  }

  predicate NoCityEdit(e: Event) { e.UpdateHotel? ==> e.newCity.None? }

  lemma HomeKept(rt: Routing, cityBucket: JsString -> nat, w: World, e: Event)
    requires Base(rt, w) && CityHomes(rt, cityBucket) && AtHome(rt, cityBucket, w) && NoCityEdit(e)
    ensures AtHome(rt, cityBucket, Apply(rt, w, e))
  {
    if e.CreateHotel? {
      assert rt.bucketOf(rt.hotelId(e.city, e.uuid)) == cityBucket(e.city);
    } else if !e.UpdateHotel? && !e.RemoveHotel? {
      HotelsUntouched(rt, w, e);
    }
  }

  lemma HotelsUntouched(rt: Routing, w: World, e: Event)
    requires Sized(rt, w) && !e.CreateHotel? && !e.UpdateHotel? && !e.RemoveHotel?
    ensures forall i :: 0 <= i < |w.shards| ==> Apply(rt, w, e).shards[i].hotels == w.shards[i].hotels
  {}

  lemma {:induction false} HomeAlways(rt: Routing, cityBucket: JsString -> nat, w: World, es: seq<Event>)
    requires Base(rt, w) && CityHomes(rt, cityBucket) && AtHome(rt, cityBucket, w)
    requires forall k :: 0 <= k < |es| ==> NoCityEdit(es[k])
    ensures Base(rt, Run(rt, w, es)) && AtHome(rt, cityBucket, Run(rt, w, es))
  {
    if es != [] {
      HomeAlways(rt, cityBucket, w, es[..|es| - 1]);
      BaseKept(rt, Run(rt, w, es[..|es| - 1]), es[|es| - 1]);
      HomeKept(rt, cityBucket, Run(rt, w, es[..|es| - 1]), es[|es| - 1]);
    }
  }

  /** Under strategy city, in runs that never edit a hotel's city, one shard answers a city's search completely. */
  lemma CitySearchInRuns(rt: Routing, cityBucket: JsString -> nat, w: World, es: seq<Event>, q: Query)
    requires AtRest(rt, w) && CityHomes(rt, cityBucket) && AtHome(rt, cityBucket, w) && q.city != []
    requires forall k :: 0 <= k < |es| ==> NoCityEdit(es[k])
    ensures var w' := Run(rt, w, es);
      var i := CityShard(rt, cityBucket, q.city);
      i < |w'.shards| && Found(w'.shards[i], q) == Found(Whole(w'), q)
  {
    HomeAlways(rt, cityBucket, w, es);
    LocalSearchIsWhole(rt, cityBucket, Run(rt, w, es), q);
  }
}
