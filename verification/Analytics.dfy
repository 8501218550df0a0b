/**
 City analytics by partial aggregates (cityAnalytics in src/sharding/sharding.service.ts): every
 shard groups its own rows by city, the coordinator adds the partial rows up. Revenue is in cents.
 */
module Analytics {
  import opened Wrappers
  import opened JsText
  import opened Counting
  import opened Cluster
  import opened Routing
  import opened BookingRuns
  import opened FanOut
  import opened Search

  /** One row of hotels LEFT JOIN rooms LEFT JOIN bookings. */
  datatype JoinRow = JoinRow(hotel: Id, room: Option<Id>, booking: Option<Id>)

  ghost predicate IsJoinRow(sh: Shard, row: JoinRow) {
    row.hotel in sh.hotels &&
    match (row.room, row.booking)
    case (None, None) => forall r :: r in sh.rooms ==> sh.rooms[r].hotelId != row.hotel
    case (Some(r), None) =>
      r in sh.rooms && sh.rooms[r].hotelId == row.hotel && forall b :: b in sh.bookings ==> sh.bookings[b].roomId != r
    case (Some(r), Some(b)) =>
      r in sh.rooms && sh.rooms[r].hotelId == row.hotel && b in sh.bookings && sh.bookings[b].roomId == r
    case (None, Some(_)) => false
  }

  /** The joined rows of one city. */
  ghost function JoinOf(sh: Shard, city: JsString): set<JoinRow> {
    (set h | h in sh.hotels && sh.hotels[h].city == city && IsJoinRow(sh, JoinRow(h, None, None)) :: JoinRow(h, None, None)) +
    (set h, r | h in sh.hotels && sh.hotels[h].city == city && r in sh.rooms && IsJoinRow(sh, JoinRow(h, Some(r), None)) :: JoinRow(h, Some(r), None)) +
    (set h, r, b | h in sh.hotels && sh.hotels[h].city == city && r in sh.rooms && b in sh.bookings && IsJoinRow(sh, JoinRow(h, Some(r), Some(b)))
      :: JoinRow(h, Some(r), Some(b)))
  }

  lemma JoinMember(sh: Shard, city: JsString, row: JoinRow)
    ensures row in JoinOf(sh, city) <==> IsJoinRow(sh, row) && sh.hotels[row.hotel].city == city
  {
    if IsJoinRow(sh, row) && sh.hotels[row.hotel].city == city {
      match (row.room, row.booking) {
        case (None, None) => assert row == JoinRow(row.hotel, None, None);
        case (Some(r), None) => assert row == JoinRow(row.hotel, Some(r), None);
        case (Some(r), Some(b)) => assert row == JoinRow(row.hotel, Some(r), Some(b));
        case (None, Some(_)) =>
      }
    }
  }

  // ---------------------------------------------------------------- aggregates of joined rows

  datatype Totals = Totals(hotels: int, bookings: int, revenue: int)

  const ZERO: Totals := Totals(0, 0, 0)

  function Add(a: Totals, b: Totals): Totals {
    Totals(a.hotels + b.hotels, a.bookings + b.bookings, a.revenue + b.revenue)
  }

  /** The amount a joined row adds to the revenue: cancelled bookings add nothing. */
  function Charge(sh: Shard, row: JoinRow): int {
    if row.booking.Some? && row.booking.value in sh.bookings && sh.bookings[row.booking.value].status != CANCELLED
    then sh.bookings[row.booking.value].totalPrice else 0
  }

  function ChargeIn(sh: Shard): JoinRow -> int { row => Charge(sh, row) }

  ghost function SumOver(f: JoinRow -> int, s: set<JoinRow>): int {
    if s == {} then 0 else var x :| x in s; f(x) + SumOver(f, s - {x})
  }

  lemma {:induction false} SumTakeOut(f: JoinRow -> int, s: set<JoinRow>, y: JoinRow)
    requires y in s
    ensures SumOver(f, s) == f(y) + SumOver(f, s - {y})
  {
    var x :| x in s && SumOver(f, s) == f(x) + SumOver(f, s - {x});
    if x != y {
      SumTakeOut(f, s - {x}, y);
      SumTakeOut(f, s - {y}, x);
      assert s - {x} - {y} == s - {y} - {x};
    }
  }

  lemma {:induction false} SumDisjoint(f: JoinRow -> int, s: set<JoinRow>, t: set<JoinRow>)
    requires s !! t
    ensures SumOver(f, s + t) == SumOver(f, s) + SumOver(f, t)
  {
    if t == {} {
      assert s + t == s;
    } else {
      var y :| y in t;
      SumTakeOut(f, t, y);
      SumTakeOut(f, s + t, y);
      assert s + t - {y} == s + (t - {y});
      SumDisjoint(f, s, t - {y});
    }
  }

  lemma {:induction false} SumAgrees(f: JoinRow -> int, g: JoinRow -> int, s: set<JoinRow>)
    requires forall x :: x in s ==> f(x) == g(x)
    ensures SumOver(f, s) == SumOver(g, s)
  {
    if s != {} {
      var x :| x in s;
      SumTakeOut(f, s, x);
      SumTakeOut(g, s, x);
      SumAgrees(f, g, s - {x});
    }
  }

  ghost function HotelsIn(rows: set<JoinRow>): set<Id> { set row | row in rows :: row.hotel }

  ghost function BookedIn(rows: set<JoinRow>): set<JoinRow> { set row | row in rows && row.booking.Some? }

  /** COUNT(DISTINCT hotel), COUNT(booking) and SUM(price) of a set of joined rows. */
  ghost function Aggregate(charge: JoinRow -> int, rows: set<JoinRow>): Totals {
    Totals(|HotelsIn(rows)|, |BookedIn(rows)|, SumOver(charge, rows))
  }

  /** GROUP BY city on one database. */
  ghost function CityTotals(sh: Shard, city: JsString): Totals { Aggregate(ChargeIn(sh), JoinOf(sh, city)) }

  /** Aggregates add up over parts that share no hotel. */
  lemma AggregateAdds(charge: JoinRow -> int, s: set<JoinRow>, t: set<JoinRow>)
    requires HotelsIn(s) !! HotelsIn(t)
    ensures Aggregate(charge, s + t) == Add(Aggregate(charge, s), Aggregate(charge, t))
  {
    forall x | x in s ensures x !in t {
      assert x.hotel in HotelsIn(s);
      assert x in t ==> x.hotel in HotelsIn(t);
    }
    SumDisjoint(charge, s, t);
    assert HotelsIn(s + t) == HotelsIn(s) + HotelsIn(t);
    assert BookedIn(s + t) == BookedIn(s) + BookedIn(t);
    assert BookedIn(s) !! BookedIn(t);
  }

  // ---------------------------------------------------------------- the join is local

  /** A joined row of the whole is a joined row of its hotel's shard, and the other way round. */
  lemma JoinLocally(rt: Routing, w: World, row: JoinRow)
    requires Sized(rt, w) && Placed(rt, w) && ForKey(rt, row.hotel) < |w.shards|
    ensures IsJoinRow(Whole(w), row) <==> IsJoinRow(w.shards[ForKey(rt, row.hotel)], row)
  {
    PlacedIsHomed(rt, w);
    var i := ForKey(rt, row.hotel);
    var sh, u := w.shards[i], Whole(w);
    UndividedHotels(rt, w.shards, |w.shards|, row.hotel);
    forall r ensures r in u.rooms && u.rooms[r].hotelId == row.hotel <==> r in sh.rooms && sh.rooms[r].hotelId == row.hotel {
      RoomsBesideHotel(rt, w, r, row.hotel);
    }
    if row.room.Some? {
      forall b ensures b in u.bookings && u.bookings[b].roomId == row.room.value <==>
        b in w.shards[Home(rt, w, row.room.value)].bookings &&
        w.shards[Home(rt, w, row.room.value)].bookings[b].roomId == row.room.value
      {
        BookingsOfRoom(rt, w, b, row.room.value);
      }
      if row.room.value in sh.rooms { assert Home(rt, w, row.room.value) == i; }
    }
  }

  function Home(rt: Routing, w: World, key: Id): nat
    requires w.shards != []
  {
    if ForKey(rt, key) < |w.shards| then ForKey(rt, key) else 0
  }

  lemma RoomsBesideHotel(rt: Routing, w: World, r: Id, h: Id)
    requires Sized(rt, w) && Placed(rt, w) && Homed(rt, w.shards) && ForKey(rt, h) < |w.shards|
    ensures var sh, u := w.shards[ForKey(rt, h)], Whole(w);
      r in u.rooms && u.rooms[r].hotelId == h <==> r in sh.rooms && sh.rooms[r].hotelId == h
  {
    UndividedRooms(rt, w.shards, |w.shards|, r);
    KeysRoute(rt, r);
    assert ShardPlaced(rt, ForKey(rt, r), w.shards[ForKey(rt, r)], w.used);
    assert ShardPlaced(rt, ForKey(rt, h), w.shards[ForKey(rt, h)], w.used);
  }

  lemma BookingsOfRoom(rt: Routing, w: World, b: Id, r: Id)
    requires Sized(rt, w) && Placed(rt, w) && Homed(rt, w.shards)
    ensures var sh, u := w.shards[Home(rt, w, r)], Whole(w);
      b in u.bookings && u.bookings[b].roomId == r <==> b in sh.bookings && sh.bookings[b].roomId == r
  {
    KeysRoute(rt, r);
    KeysRoute(rt, b);
    UndividedBookings(rt, w.shards, |w.shards|, b);
    assert ShardPlaced(rt, ForKey(rt, b), w.shards[ForKey(rt, b)], w.used);
    assert ShardPlaced(rt, ForKey(rt, r), w.shards[ForKey(rt, r)], w.used);
  }

  /** The joined rows of a city whose hotels lie on the first n shards. */
  ghost function JoinUpTo(rt: Routing, w: World, city: JsString, n: nat): set<JoinRow> {
    set row | row in JoinOf(Whole(w), city) && ForKey(rt, row.hotel) < n
  }

  lemma JoinOfShard(rt: Routing, w: World, city: JsString, n: nat)
    requires Sized(rt, w) && Placed(rt, w) && n < |w.shards|
    ensures JoinUpTo(rt, w, city, n + 1) == JoinUpTo(rt, w, city, n) + JoinOf(w.shards[n], city)
    ensures HotelsIn(JoinUpTo(rt, w, city, n)) !! HotelsIn(JoinOf(w.shards[n], city))
  {
    PlacedIsHomed(rt, w);
    forall row
      ensures row in JoinOf(w.shards[n], city) <==> row in JoinOf(Whole(w), city) && ForKey(rt, row.hotel) == n
    {
      JoinMember(w.shards[n], city, row);
      JoinMember(Whole(w), city, row);
      KeysRoute(rt, row.hotel);
      JoinLocally(rt, w, row);
      UndividedHotels(rt, w.shards, |w.shards|, row.hotel);
    }
  }

  lemma SameCharge(rt: Routing, w: World, city: JsString, n: nat)
    requires Sized(rt, w) && Placed(rt, w) && n < |w.shards|
    ensures SumOver(ChargeIn(Whole(w)), JoinOf(w.shards[n], city)) ==
            SumOver(ChargeIn(w.shards[n]), JoinOf(w.shards[n], city))
  {
    PlacedIsHomed(rt, w);
    forall row | row in JoinOf(w.shards[n], city)
      ensures Charge(Whole(w), row) == Charge(w.shards[n], row)
    {
      JoinMember(w.shards[n], city, row);
      if row.booking.Some? {
        UndividedBookings(rt, w.shards, |w.shards|, row.booking.value);
      }
    }
    SumAgrees(ChargeIn(Whole(w)), ChargeIn(w.shards[n]), JoinOf(w.shards[n], city));
  }

  /** The shards' totals of a city, added up. */
  ghost function SumOfShards(shards: seq<Shard>, city: JsString, n: nat): Totals
    requires n <= |shards|
  {
    if n == 0 then ZERO else Add(SumOfShards(shards, city, n - 1), CityTotals(shards[n - 1], city))
  }

  lemma NoRows(charge: JoinRow -> int)
    ensures Aggregate(charge, {}) == ZERO
  {
    assert HotelsIn({}) == {} && BookedIn({}) == {};
  }

  lemma NoShards(rt: Routing, w: World, city: JsString)
    ensures Aggregate(ChargeIn(Whole(w)), JoinUpTo(rt, w, city, 0)) == ZERO
    ensures SumOfShards(w.shards, city, 0) == ZERO
  {
    assert JoinUpTo(rt, w, city, 0) == {};
    NoRows(ChargeIn(Whole(w)));
  }

  /** The rows of the first n shards add up as the totals of the first n shards do. */
  ghost predicate AddsUp(rt: Routing, w: World, city: JsString, n: nat)
    requires n <= |w.shards|
  {
    Aggregate(ChargeIn(Whole(w)), JoinUpTo(rt, w, city, n)) == SumOfShards(w.shards, city, n)
  }

  lemma NextShard(rt: Routing, w: World, city: JsString, n: nat)
    requires Sized(rt, w) && Placed(rt, w) && n < |w.shards| && AddsUp(rt, w, city, n)
    ensures AddsUp(rt, w, city, n + 1)
  {
    JoinOfShard(rt, w, city, n);
    AggregateAdds(ChargeIn(Whole(w)), JoinUpTo(rt, w, city, n), JoinOf(w.shards[n], city));
    SameCharge(rt, w, city, n);
    assert SumOfShards(w.shards, city, n + 1) == Add(SumOfShards(w.shards, city, n), CityTotals(w.shards[n], city));
  }

  /** Totals per city are the sums of the shards' totals, because each aggregate lies on one shard. */
  lemma CityTotalsAdd(rt: Routing, w: World, city: JsString)
    requires Sized(rt, w) && Placed(rt, w)
    ensures CityTotals(Whole(w), city) == SumOfShards(w.shards, city, |w.shards|)
  {
    NoShards(rt, w, city);
    var holds := (k: nat) => k <= |w.shards| && AddsUp(rt, w, city, k);
    forall k | 0 <= k < |w.shards| && holds(k) ensures holds(k + 1) { NextShard(rt, w, city, k); }
    HoldsTo(holds, |w.shards|);
    EveryRowHasAShard(rt, w, city);
  }

  lemma EveryRowHasAShard(rt: Routing, w: World, city: JsString)
    requires Sized(rt, w)
    ensures JoinUpTo(rt, w, city, |w.shards|) == JoinOf(Whole(w), city)
  {
    forall row | row in JoinOf(Whole(w), city) ensures ForKey(rt, row.hotel) < |w.shards| { KeysRoute(rt, row.hotel); }
  }

  // ---------------------------------------------------------------- merging the shards' rows

  datatype CityRow = CityRow(city: JsString, totals: Totals)

  /** The sum of the rows of one city in a list. */
  function SumRows(rows: seq<CityRow>, city: JsString): Totals {
    if rows == [] then ZERO
    else
      var last := rows[|rows| - 1];
      var rest := SumRows(rows[..|rows| - 1], city);
      if last.city == city then Add(rest, last.totals) else rest
  }

  predicate Lists(rows: seq<CityRow>, city: JsString) { exists k :: 0 <= k < |rows| && rows[k].city == city }

  /** The accumulator holds exactly the listed cities, each with its sum. */
  ghost predicate Accumulates(merged: map<JsString, Totals>, rows: seq<CityRow>) {
    (forall c :: c in merged <==> Lists(rows, c)) &&
    (forall c :: c in merged ==> merged[c] == SumRows(rows, c))
  }

  lemma {:induction false} UnlistedSumsToZero(rows: seq<CityRow>, city: JsString)
    requires !Lists(rows, city)
    ensures SumRows(rows, city) == ZERO
  {
    if rows != [] {
      var n := |rows| - 1;
      assert rows[n].city != city;
      forall k | 0 <= k < n ensures rows[..n][k].city != city { assert rows[k].city != city; }
      UnlistedSumsToZero(rows[..n], city);
    }
  }

  lemma AccumulateRow(merged: map<JsString, Totals>, rows: seq<CityRow>, row: CityRow)
    requires Accumulates(merged, rows)
    ensures Accumulates(
      merged[row.city := Add(if row.city in merged then merged[row.city] else ZERO, row.totals)], rows + [row])
  {
    var now := rows + [row];
    assert now[..|rows|] == rows;
    if row.city !in merged { UnlistedSumsToZero(rows, row.city); }
    forall c ensures Lists(now, c) <==> Lists(rows, c) || c == row.city {
      if Lists(rows, c) {
        var k :| 0 <= k < |rows| && rows[k].city == c;
        assert now[k].city == c;
      }
      if c == row.city { assert now[|rows|].city == c; }
    }
  }

  /** Add up the rows of all parts, city by city. */
  method MergeRows(parts: seq<Part<seq<CityRow>>>) returns (merged: map<JsString, Totals>)
    ensures Accumulates(merged, Merge(parts))
  {
    merged := map[];
    var i := 0;
    while i < |parts|
      invariant 0 <= i <= |parts|
      invariant Accumulates(merged, Merge(parts[..i]))
    {
      var rows := parts[i].result;
      var j := 0;
      assert Merge(parts[..i]) + rows[..0] == Merge(parts[..i]);
      while j < |rows|
        invariant 0 <= j <= |rows|
        invariant Accumulates(merged, Merge(parts[..i]) + rows[..j])
      {
        var row := rows[j];
        AccumulateRow(merged, Merge(parts[..i]) + rows[..j], row);
        assert Merge(parts[..i]) + rows[..j + 1] == Merge(parts[..i]) + rows[..j] + [row];
        merged := merged[row.city := Add(if row.city in merged then merged[row.city] else ZERO, row.totals)];
        j := j + 1;
      }
      assert rows[..j] == rows;
      assert parts[..i + 1][..i] == parts[..i];
      i := i + 1;
    }
    assert parts[..i] == parts;
  }

  // ---------------------------------------------------------------- the merge against one database

  ghost predicate HasCity(sh: Shard, city: JsString) { exists h :: h in sh.hotels && sh.hotels[h].city == city }

  /** A shard's GROUP BY rows, in any order: one row for each city that has joined rows. */
  ghost predicate IsGrouped(sh: Shard, rows: seq<CityRow>) {
    (forall i, j :: 0 <= i < j < |rows| ==> rows[i].city != rows[j].city) &&
    (forall c :: Lists(rows, c) <==> JoinOf(sh, c) != {}) &&
    (forall i :: 0 <= i < |rows| ==> rows[i].totals == CityTotals(sh, rows[i].city))
  }

  /** An outer join keeps every hotel, so a city has joined rows exactly when it has a hotel. */
  lemma EveryHotelIsJoined(sh: Shard, city: JsString)
    ensures JoinOf(sh, city) != {} <==> HasCity(sh, city)
  {
    if row :| row in JoinOf(sh, city) {
      JoinMember(sh, city, row);
    }
    if h :| h in sh.hotels && sh.hotels[h].city == city {
      var row := JoinRow(h, None, None);
      if r :| r in sh.rooms && sh.rooms[r].hotelId == h {
        row := JoinRow(h, Some(r), None);
        if b :| b in sh.bookings && sh.bookings[b].roomId == r { row := JoinRow(h, Some(r), Some(b)); }
      }
      JoinMember(sh, city, row);
    }
  }

  lemma {:induction false} SingleRow(rows: seq<CityRow>, i: nat)
    requires i < |rows| && forall i, j :: 0 <= i < j < |rows| ==> rows[i].city != rows[j].city
    ensures SumRows(rows, rows[i].city) == rows[i].totals
  {
    var n := |rows| - 1;
    if i < n {
      SingleRow(rows[..n], i);
    } else {
      UnlistedSumsToZero(rows[..n], rows[n].city);
    }
  }

  lemma GroupedSum(sh: Shard, rows: seq<CityRow>, city: JsString)
    requires IsGrouped(sh, rows)
    ensures SumRows(rows, city) == CityTotals(sh, city)
  {
    if Lists(rows, city) {
      var i :| 0 <= i < |rows| && rows[i].city == city;
      SingleRow(rows, i);
    } else {
      UnlistedSumsToZero(rows, city);
      NoRows(ChargeIn(sh));
    }
  }

  lemma {:induction false} SumConcat(a: seq<CityRow>, b: seq<CityRow>, city: JsString)
    ensures SumRows(a + b, city) == Add(SumRows(a, city), SumRows(b, city))
  {
    if b == [] {
      assert a + b == a;
    } else {
      var n := |b| - 1;
      assert (a + b)[..|a| + n] == a + b[..n];
      SumConcat(a, b[..n], city);
    }
  }

  lemma ListsConcat(a: seq<CityRow>, b: seq<CityRow>, city: JsString)
    ensures Lists(a + b, city) <==> Lists(a, city) || Lists(b, city)
  {
    if k :| 0 <= k < |a| && a[k].city == city { assert (a + b)[k].city == city; }
    if k :| 0 <= k < |b| && b[k].city == city { assert (a + b)[|a| + k].city == city; }
    if k :| 0 <= k < |a + b| && (a + b)[k].city == city {
      if k < |a| { assert a[k].city == city; } else { assert b[k - |a|].city == city; }
    }
  }

  const EMPTY: Shard := Shard(map[], map[], map[])

  /** The cluster as the coordinator sees it: silent shards look empty. */
  function Visible(w: World, answers: seq<Option<seq<CityRow>>>): World
    requires |answers| == |w.shards|
  {
    w.(shards := seq(|answers|, i requires 0 <= i < |answers| => if answers[i].Some? then w.shards[i] else EMPTY))
  }

  ghost predicate GroupedAnswers(shards: seq<Shard>, answers: seq<Option<seq<CityRow>>>) {
    |answers| == |shards| && forall i :: 0 <= i < |answers| && answers[i].Some? ==> IsGrouped(shards[i], answers[i].value)
  }

  function RowsOf(answer: Option<seq<CityRow>>): seq<CityRow> { if answer.Some? then answer.value else [] }

  lemma MergeStep(answers: seq<Option<seq<CityRow>>>, n: nat)
    requires n < |answers|
    ensures Merge(Parts(answers[..n + 1])) == Merge(Parts(answers[..n])) + RowsOf(answers[n])
  {
    Snoc(answers, n);
    var parts := Parts(answers[..n]);
    if answers[n].Some? {
      assert (parts + [Part(n, answers[n].value)])[..|parts|] == parts;
    } else {
      assert parts + [] == parts;
    }
  }

  lemma NothingOnEmpty(city: JsString)
    ensures JoinOf(EMPTY, city) == {} && CityTotals(EMPTY, city) == ZERO
  {
    assert JoinOf(EMPTY, city) == {};
    NoRows(ChargeIn(EMPTY));
  }

  /** Each shard's rows say what the shard holds of a city. */
  ghost predicate TellsTheShards(shards: seq<Shard>, answers: seq<Option<seq<CityRow>>>, city: JsString) {
    |answers| == |shards| &&
    forall i :: 0 <= i < |answers| ==>
      SumRows(RowsOf(answers[i]), city) == CityTotals(shards[i], city) &&
      (Lists(RowsOf(answers[i]), city) <==> HasCity(shards[i], city))
  }

  lemma GroupedTells(w: World, answers: seq<Option<seq<CityRow>>>, city: JsString)
    requires GroupedAnswers(w.shards, answers)
    ensures TellsTheShards(Visible(w, answers).shards, answers, city)
  {
    forall i | 0 <= i < |answers|
      ensures var sh := Visible(w, answers).shards[i];
        SumRows(RowsOf(answers[i]), city) == CityTotals(sh, city) && (Lists(RowsOf(answers[i]), city) <==> HasCity(sh, city))
    {
      EveryHotelIsJoined(Visible(w, answers).shards[i], city);
      if answers[i].Some? { GroupedSum(w.shards[i], answers[i].value, city); } else { NothingOnEmpty(city); }
    }
  }

  /** The first n answers' sums for a city, added up. */
  function SumOfAnswers(answers: seq<Option<seq<CityRow>>>, city: JsString, n: nat): Totals
    requires n <= |answers|
  {
    if n == 0 then ZERO else Add(SumOfAnswers(answers, city, n - 1), SumRows(RowsOf(answers[n - 1]), city))
  }

  /** The rows merged from the first n answers add up as the answers do. */
  ghost predicate SumsUp(answers: seq<Option<seq<CityRow>>>, city: JsString, n: nat)
    requires n <= |answers|
  {
    SumRows(Merge(Parts(answers[..n])), city) == SumOfAnswers(answers, city, n)
  }

  lemma NoneSumsUp(answers: seq<Option<seq<CityRow>>>, city: JsString)
    ensures SumsUp(answers, city, 0)
  {
    assert Merge(Parts(answers[..0])) == [];
  }

  lemma NextSumsUp(answers: seq<Option<seq<CityRow>>>, city: JsString, n: nat)
    requires n < |answers| && SumsUp(answers, city, n)
    ensures SumsUp(answers, city, n + 1)
  {
    MergeStep(answers, n);
    SumConcat(Merge(Parts(answers[..n])), RowsOf(answers[n]), city);
  }

  ghost function SumUpAt(answers: seq<Option<seq<CityRow>>>, city: JsString): nat -> bool {
    (k: nat) => k <= |answers| && SumsUp(answers, city, k)
  }

  lemma SumUpStep(answers: seq<Option<seq<CityRow>>>, city: JsString, k: nat)
    requires k < |answers| && SumUpAt(answers, city)(k)
    ensures SumUpAt(answers, city)(k + 1)
  {
    NextSumsUp(answers, city, k);
  }

  lemma AllSumUp(answers: seq<Option<seq<CityRow>>>, city: JsString)
    ensures SumUpAt(answers, city)(|answers|)
  {
    NoneSumsUp(answers, city);
    forall k | 0 <= k < |answers| && SumUpAt(answers, city)(k) ensures SumUpAt(answers, city)(k + 1) { SumUpStep(answers, city, k); }
    HoldsTo(SumUpAt(answers, city), |answers|);
  }

  lemma MergedSums(answers: seq<Option<seq<CityRow>>>, city: JsString)
    ensures SumRows(Merge(Parts(answers)), city) == SumOfAnswers(answers, city, |answers|)
  {
    AllSumUp(answers, city);
    assert answers[..|answers|] == answers;
  }

  ghost predicate SumsAgree(shards: seq<Shard>, answers: seq<Option<seq<CityRow>>>, city: JsString, n: nat)
    requires n <= |answers| == |shards|
  {
    SumOfAnswers(answers, city, n) == SumOfShards(shards, city, n)
  }

  lemma NextSumsAgree(shards: seq<Shard>, answers: seq<Option<seq<CityRow>>>, city: JsString, n: nat)
    requires n < |answers| == |shards| && SumsAgree(shards, answers, city, n)
    requires SumRows(RowsOf(answers[n]), city) == CityTotals(shards[n], city)
    ensures SumsAgree(shards, answers, city, n + 1)
  {}

  ghost function AgreeAt(shards: seq<Shard>, answers: seq<Option<seq<CityRow>>>, city: JsString): nat -> bool {
    (k: nat) => k <= |answers| == |shards| && SumsAgree(shards, answers, city, k)
  }

  lemma AgreeStep(shards: seq<Shard>, answers: seq<Option<seq<CityRow>>>, city: JsString, k: nat)
    requires k < |answers| == |shards| && AgreeAt(shards, answers, city)(k)
    requires SumRows(RowsOf(answers[k]), city) == CityTotals(shards[k], city)
    ensures AgreeAt(shards, answers, city)(k + 1)
  {
    NextSumsAgree(shards, answers, city, k);
  }

  lemma AnswersAreShards(shards: seq<Shard>, answers: seq<Option<seq<CityRow>>>, city: JsString)
    requires |answers| == |shards|
    requires forall i :: 0 <= i < |answers| ==> SumRows(RowsOf(answers[i]), city) == CityTotals(shards[i], city)
    ensures AgreeAt(shards, answers, city)(|answers|)
  {
    forall k | 0 <= k < |answers| && AgreeAt(shards, answers, city)(k) ensures AgreeAt(shards, answers, city)(k + 1) {
      AgreeStep(shards, answers, city, k);
    }
    HoldsTo(AgreeAt(shards, answers, city), |answers|);
  }

  /** Some of the first n answers lists the city. */
  predicate Mentioned(answers: seq<Option<seq<CityRow>>>, city: JsString, n: nat)
    requires n <= |answers|
  {
    n > 0 && (Mentioned(answers, city, n - 1) || Lists(RowsOf(answers[n - 1]), city))
  }

  lemma {:induction false} MergedCities(answers: seq<Option<seq<CityRow>>>, city: JsString, n: nat)
    requires n <= |answers|
    ensures Lists(Merge(Parts(answers[..n])), city) <==> Mentioned(answers, city, n)
  {
    if n > 0 {
      MergedCities(answers, city, n - 1);
      MergeStep(answers, n - 1);
      ListsConcat(Merge(Parts(answers[..n - 1])), RowsOf(answers[n - 1]), city);
    }
  }

  lemma {:induction false} MentionedSomewhere(shards: seq<Shard>, answers: seq<Option<seq<CityRow>>>, city: JsString, n: nat)
    requires n <= |answers| == |shards|
    requires forall i :: 0 <= i < |answers| ==> (Lists(RowsOf(answers[i]), city) <==> HasCity(shards[i], city))
    ensures Mentioned(answers, city, n) <==> exists i :: 0 <= i < n && HasCity(shards[i], city)
  {
    if n > 0 { MentionedSomewhere(shards, answers, city, n - 1); }
  }

  lemma VisiblePlaced(rt: Routing, w: World, answers: seq<Option<seq<CityRow>>>)
    requires Sized(rt, w) && Placed(rt, w) && |answers| == |w.shards|
    ensures Sized(rt, Visible(w, answers)) && Placed(rt, Visible(w, answers))
    ensures AllAnswered(answers) ==> Visible(w, answers) == w
  {
    var v := Visible(w, answers);
    forall i | 0 <= i < |v.shards| ensures ShardPlaced(rt, i, v.shards[i], v.used) {
      assert ShardPlaced(rt, i, w.shards[i], w.used);
    }
    if AllAnswered(answers) { assert v.shards == w.shards; }
  }

  lemma CityAnywhere(rt: Routing, w: World, city: JsString)
    requires Sized(rt, w) && Placed(rt, w)
    ensures HasCity(Whole(w), city) <==> exists i :: 0 <= i < |w.shards| && HasCity(w.shards[i], city)
  {
    PlacedIsHomed(rt, w);
    if h :| h in Whole(w).hotels && Whole(w).hotels[h].city == city {
      UndividedHotels(rt, w.shards, |w.shards|, h);
      assert HasCity(w.shards[ForKey(rt, h)], city);
    }
    if i :| 0 <= i < |w.shards| && HasCity(w.shards[i], city) {
      var h :| h in w.shards[i].hotels && w.shards[i].hotels[h].city == city;
      UndividedHotels(rt, w.shards, |w.shards|, h);
      assert h in Whole(w).hotels && Whole(w).hotels[h].city == city;
    }
  }

  /**
   The merged table is GROUP BY city over one undivided database: the same cities, and for each of
   them the same hotels, bookings and revenue. With silent shards it is that table for the rows of
   the shards that answered.
   */
  lemma MergedTableIsWhole(rt: Routing, w: World, answers: seq<Option<seq<CityRow>>>, merged: map<JsString, Totals>)
    requires Sized(rt, w) && Placed(rt, w) && GroupedAnswers(w.shards, answers)
    requires Accumulates(merged, Merge(Parts(answers)))
    ensures var u := Whole(Visible(w, answers));
      forall c :: (c in merged <==> HasCity(u, c)) && (c in merged ==> merged[c] == CityTotals(u, c))
    ensures AllAnswered(answers) ==> Visible(w, answers) == w
  {
    var v := Visible(w, answers);
    VisiblePlaced(rt, w, answers);
    assert answers[..|answers|] == answers;
    forall c
      ensures (c in merged <==> HasCity(Whole(v), c)) && (c in merged ==> merged[c] == CityTotals(Whole(v), c))
    {
      GroupedTells(w, answers, c);
      MergedSums(answers, c);
      AnswersAreShards(v.shards, answers, c);
      MergedCities(answers, c, |answers|);
      MentionedSomewhere(v.shards, answers, c, |answers|);
      CityAnywhere(rt, v, c);
      CityTotalsAdd(rt, v, c);
    }
  }
}
