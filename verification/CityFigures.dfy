/**
 The city figures told by the rows themselves (cityAnalytics in src/sharding/sharding.service.ts, lines
 101 to 125): distinct hotels, bookings in any status, and the prices of the bookings that are pending,
 confirmed or completed, each booking once, over one database holding all rows.
 */
module CityFigures {
  import opened Wrappers
  import opened JsText
  import opened Counting
  import opened Cluster
  import opened Routing
  import opened BookingRuns
  import opened FanOut
  import opened Search
  import opened Analytics

  /** The hotels of a city. */
  function HotelsOf(sh: Shard, city: JsString): set<Id> { set h | h in sh.hotels && sh.hotels[h].city == city }

  /** The booking's room is a room of a hotel in the city. */
  predicate IsBookedIn(sh: Shard, city: JsString, b: Id) {
    b in sh.bookings && sh.bookings[b].roomId in sh.rooms &&
    var hotelId := sh.rooms[sh.bookings[b].roomId].hotelId;
    hotelId in sh.hotels && sh.hotels[hotelId].city == city
  }

  function BookingsIn(sh: Shard, city: JsString): set<Id> { set b | b in sh.bookings && IsBookedIn(sh, city, b) }

  /** The bookings that earn money. */
  function Earning(sh: Shard, city: JsString): set<Id> {
    set b | b in sh.bookings && IsBookedIn(sh, city, b) &&
      (sh.bookings[b].status == PENDING || sh.bookings[b].status == CONFIRMED || sh.bookings[b].status == COMPLETED)
  }

  /** The prices of a set of bookings, each once. */
  ghost function Prices(sh: Shard, ids: set<Id>): int
    requires forall b :: b in ids ==> b in sh.bookings
  {
    if ids == {} then 0 else var b :| b in ids; sh.bookings[b].totalPrice + Prices(sh, ids - {b})
  }

  lemma {:induction false} PricesTakeOut(sh: Shard, ids: set<Id>, c: Id)
    requires c in ids && forall b :: b in ids ==> b in sh.bookings
    ensures Prices(sh, ids) == sh.bookings[c].totalPrice + Prices(sh, ids - {c})
  {
    var b :| b in ids && Prices(sh, ids) == sh.bookings[b].totalPrice + Prices(sh, ids - {b});
    if b != c {
      PricesTakeOut(sh, ids - {b}, c);
      PricesTakeOut(sh, ids - {c}, b);
      assert ids - {b} - {c} == ids - {c} - {b};
    }
  }

  // ---------------------------------------------------------------- joined rows and bookings

  /** The joined row of a booking. */
  function RowOf(sh: Shard, b: Id): JoinRow
    requires b in sh.bookings && sh.bookings[b].roomId in sh.rooms
  {
    JoinRow(sh.rooms[sh.bookings[b].roomId].hotelId, Some(sh.bookings[b].roomId), Some(b))
  }

  /** A joined row with a booking is that booking's row, and each booking in the city has one. */
  lemma BookedRows(sh: Shard, city: JsString, row: JoinRow)
    ensures row in BookedIn(JoinOf(sh, city)) <==>
      row.booking.Some? && IsBookedIn(sh, city, row.booking.value) && row == RowOf(sh, row.booking.value)
  {
    JoinMember(sh, city, row);
  }

  lemma HotelFigure(sh: Shard, city: JsString)
    ensures HotelsIn(JoinOf(sh, city)) == HotelsOf(sh, city)
  {
    forall h ensures h in HotelsIn(JoinOf(sh, city)) <==> h in HotelsOf(sh, city) {
      if h in HotelsOf(sh, city) {
        var row := SomeRow(sh, city, h);
      }
      if h in HotelsIn(JoinOf(sh, city)) {
        var row :| row in JoinOf(sh, city) && row.hotel == h;
        JoinMember(sh, city, row);
      }
    }
  }

  lemma SomeRow(sh: Shard, city: JsString, h: Id) returns (row: JoinRow)
    requires h in sh.hotels && sh.hotels[h].city == city
    ensures row in JoinOf(sh, city) && row.hotel == h
  {
    row := JoinRow(h, None, None);
    if r :| r in sh.rooms && sh.rooms[r].hotelId == h {
      row := JoinRow(h, Some(r), None);
      if b :| b in sh.bookings && sh.bookings[b].roomId == r { row := JoinRow(h, Some(r), Some(b)); }
    }
    JoinMember(sh, city, row);
  }

  lemma BookingFigure(sh: Shard, city: JsString)
    ensures |BookedIn(JoinOf(sh, city))| == |BookingsIn(sh, city)|
  {
    var rows, ids := BookedIn(JoinOf(sh, city)), BookingsIn(sh, city);
    var idOf := (row: JoinRow) => if row.booking.Some? then row.booking.value else [];
    var rowOf := (b: Id) => if b in sh.bookings && sh.bookings[b].roomId in sh.rooms then RowOf(sh, b) else JoinRow([], None, None);
    forall row | row in rows ensures idOf(row) in ids && rowOf(idOf(row)) == row { BookedRows(sh, city, row); }
    forall b | b in ids ensures rowOf(b) in rows && idOf(rowOf(b)) == b { BookedRows(sh, city, RowOf(sh, b)); }
    SameSize(rows, ids, idOf, rowOf);
  }

  // ---------------------------------------------------------------- revenue

  lemma {:induction false} OthersEarnNothing(f: JoinRow -> int, s: set<JoinRow>)
    requires forall row :: row in s ==> f(row) == 0
    ensures SumOver(f, s) == 0
  {
    if s != {} {
      var row :| row in s;
      SumTakeOut(f, s, row);
      OthersEarnNothing(f, s - {row});
    }
  }

  /** Rows matched one to one with bookings sum to the bookings' prices. */
  lemma {:induction false} RowsSumToPrices(sh: Shard, f: JoinRow -> int, rows: set<JoinRow>, ids: set<Id>)
    requires forall b :: b in ids ==> b in sh.bookings && sh.bookings[b].roomId in sh.rooms && RowOf(sh, b) in rows
    requires forall b :: b in ids ==> f(RowOf(sh, b)) == sh.bookings[b].totalPrice
    requires forall row :: row in rows ==> row.booking.Some? && row.booking.value in ids && row == RowOf(sh, row.booking.value)
    ensures SumOver(f, rows) == Prices(sh, ids)
    decreases |ids|
  {
    if ids == {} {
      assert rows == {};
    } else {
      var b :| b in ids;
      SumTakeOut(f, rows, RowOf(sh, b));
      PricesTakeOut(sh, ids, b);
      RowsSumToPrices(sh, f, rows - {RowOf(sh, b)}, ids - {b});
    }
  }

  /** The rows of the bookings that earn money. */
  ghost function EarningRows(sh: Shard, city: JsString): set<JoinRow> {
    set row | row in JoinOf(sh, city) && row.booking.Some? && row.booking.value in Earning(sh, city)
  }

  lemma EarningRow(sh: Shard, city: JsString, b: Id)
    requires b in Earning(sh, city)
    ensures RowOf(sh, b) in EarningRows(sh, city) && Charge(sh, RowOf(sh, b)) == sh.bookings[b].totalPrice
  {
    BookedRows(sh, city, RowOf(sh, b));
  }

  lemma OtherRow(sh: Shard, city: JsString, row: JoinRow)
    requires row in JoinOf(sh, city) && row !in EarningRows(sh, city)
    ensures Charge(sh, row) == 0
  {
    JoinMember(sh, city, row);
    if row.booking.Some? { assert IsBookedIn(sh, city, row.booking.value); }
  }

  lemma RevenueFigure(sh: Shard, city: JsString)
    ensures SumOver(ChargeIn(sh), JoinOf(sh, city)) == Prices(sh, Earning(sh, city))
  {
    var f, all, earning := ChargeIn(sh), JoinOf(sh, city), EarningRows(sh, city);
    forall row | row in all - earning ensures f(row) == 0 { OtherRow(sh, city, row); }
    OthersEarnNothing(f, all - earning);
    SumDisjoint(f, earning, all - earning);
    assert earning + (all - earning) == all;
    forall b | b in Earning(sh, city) ensures RowOf(sh, b) in earning && f(RowOf(sh, b)) == sh.bookings[b].totalPrice {
      EarningRow(sh, city, b);
    }
    forall row | row in earning ensures row == RowOf(sh, row.booking.value) { BookedRows(sh, city, row); }
    RowsSumToPrices(sh, f, earning, Earning(sh, city));
  }

  /** The grouped totals of a city are its hotels, its bookings in any status and the prices of those that earn money. */
  lemma FiguresExactly(sh: Shard, city: JsString)
    ensures CityTotals(sh, city) == Totals(|HotelsOf(sh, city)|, |BookingsIn(sh, city)|, Prices(sh, Earning(sh, city)))
  {
    HotelFigure(sh, city);
    BookingFigure(sh, city);
    RevenueFigure(sh, city);
  }

  /**
   The merged table has a row for each city that has a hotel, with the number of its hotels, the number of
   bookings of their rooms, and the prices of those pending, confirmed or completed, over all rows of the
   shards that answered.
   */
  lemma MergedFiguresExactly(rt: Routing, w: World, answers: seq<Option<seq<CityRow>>>, merged: map<JsString, Totals>, city: JsString)
    requires Sized(rt, w) && Placed(rt, w) && GroupedAnswers(w.shards, answers)
    requires Accumulates(merged, Merge(Parts(answers)))
    ensures var sh := Whole(Visible(w, answers));
      (city in merged <==> HotelsOf(sh, city) != {}) &&
      (city in merged ==>
        merged[city] == Totals(|HotelsOf(sh, city)|, |BookingsIn(sh, city)|, Prices(sh, Earning(sh, city))))
    ensures AllAnswered(answers) ==> Visible(w, answers) == w
  {
    var sh := Whole(Visible(w, answers));
    MergedTableIsWhole(rt, w, answers, merged);
    FiguresExactly(sh, city);
    assert HasCity(sh, city) <==> HotelsOf(sh, city) != {} by {
      if h :| h in sh.hotels && sh.hotels[h].city == city { assert h in HotelsOf(sh, city); }
      if h :| h in HotelsOf(sh, city) { assert HasCity(sh, city); }
    }
  }
}
