/**
 Why the run theorems need their conditions on reservations in their windows, between T1 and T3. T3
 sets the status without looking (line 340 of src/bookings/bookings.service.ts) and so revives a
 reservation that a client cancelled, though somebody else has booked the freed room since, or one
 that another relocation has taken away, so that a third can take it away again.
 */
module RelyIsNeeded {
  import opened Wrappers
  import opened JsText
  import opened Cluster
  import opened Routing
  import opened BookingRuns
  import opened SagaRuns

  /** Two buckets on two shards; the first unit of an identifier names its bucket. */
  function BucketOf(id: Id): CodeUnit { if id != [] && id[0] == 1 then 1 else 0 }

  function Two(): Routing {
    Routing(2, [0, 1], id => BucketOf(id), (p, u) => [BucketOf(p)] + u, (city, uuid) => uuid)
  }

  lemma TwoIsSound()
    ensures Sound(Two())
  {
    var rt := Two();
    forall p, u ensures rt.bucketOf(rt.childId(p, u)) == rt.bucketOf(p) { assert ([BucketOf(p)] + u)[0] == BucketOf(p); }
  }

  const SOURCE: Id := [0, 2]
  const TARGET: Id := [1, 5]
  const RIVAL: Id := [1, 6]
  const ROOM_0: Id := [0, 1]
  const ROOM_1: Id := [1, 1]
  const ROOM_2: Id := [0, 3]

  function Night(room: Id, status: Status): Booking { Booking(room, [], 0, DAY, status, 100) }

  const PLAN: Plan := Plan(SOURCE, Night(ROOM_0, PENDING), TARGET, ROOM_1)

  /** The cluster with these bookings, processes and drawn identifiers. */
  function Scene(first: map<Id, Booking>, second: map<Id, Booking>, procs: map<nat, Proc>, used: set<Id>): World {
    World([
      Shard(map[[0] := Hotel([])], map[ROOM_0 := Room([0], [], 100, 1), ROOM_2 := Room([0], [2], 100, 1)], first),
      Shard(map[[1] := Hotel([])], map[ROOM_1 := Room([1], [], 100, 1)], second)
    ], procs, used)
  }

  const KNOWN: set<Id> := {[0], [1], ROOM_0, ROOM_1, ROOM_2, SOURCE}

  function Lone(source: Status): map<Id, Booking> { map[SOURCE := Night(ROOM_0, source)] }

  function Begin(): World { Scene(Lone(PENDING), map[], map[], KNOWN) }

  function Moved(stage: Stage): Proc { Moving(PLAN, stage, false) }

  lemma BeginsAtRest()
    ensures AtRest(Two(), Begin()) && Free(Begin())
  {
    TwoIsSound();
    FirstIsPlaced();
    SecondIsPlaced();
  }

  lemma FirstIsPlaced()
    ensures ShardPlaced(Two(), 0, Begin().shards[0], KNOWN) && NoOverlap(Begin().shards[0].bookings)
  {}

  lemma SecondIsPlaced()
    ensures ShardPlaced(Two(), 1, Begin().shards[1], KNOWN) && NoOverlap(Begin().shards[1].bookings)
  {}

  const MORE: set<Id> := KNOWN + {TARGET}
  const ALL: set<Id> := MORE + {RIVAL}

  const E1: Event := BeginRelocate(0, SOURCE, ROOM_1, [5])
  const E2: Event := T1(0, true)
  const E3: Event := BeginCancel(1, TARGET)
  const E4: Event := CommitCancel(1)
  const E5: Event := CreateBooking(ROOM_1, [], 0, DAY, [6])
  const E6: Event := T2(0, true)
  const E7: Event := T3(0, true)

  function W1(): World { Scene(Lone(PENDING), map[], map[0 := Moved(Read)], MORE) }
  function W2(): World { Scene(Lone(PENDING), map[TARGET := Night(ROOM_1, PENDING)], map[0 := Moved(Reserved)], MORE) }
  function W3(): World { W2().(procs := map[0 := Moved(Reserved), 1 := Cancelling(TARGET)]) }
  function W4(): World { Scene(Lone(PENDING), map[TARGET := Night(ROOM_1, CANCELLED)], map[0 := Moved(Reserved)], MORE) }

  function Both(target: Status): map<Id, Booking> { map[TARGET := Night(ROOM_1, target), RIVAL := Night(ROOM_1, PENDING)] }

  function W5(): World { Scene(Lone(PENDING), Both(CANCELLED), map[0 := Moved(Reserved)], ALL) }
  function W6(): World { Scene(Lone(CANCELLED), Both(CANCELLED), map[0 := Moved(SourceCancelled)], ALL) }
  function W7(): World { Scene(Lone(CANCELLED), Both(PENDING), map[0 := Moved(Finished(Relocated))], ALL) }

  lemma Step1()
    requires Sized(Two(), Begin())
    ensures Apply(Two(), Begin(), E1) == W1()
  {
    assert Two().childId(ROOM_1, [5]) == TARGET;
    assert TARGET !in KNOWN;
  }

  lemma Step2()
    requires Sized(Two(), W1())
    ensures Apply(Two(), W1(), E2) == W2()
  {}

  lemma Step3()
    requires Sized(Two(), W2())
    ensures Apply(Two(), W2(), E3) == W3()
  {}

  lemma Step4()
    requires Sized(Two(), W3())
    ensures Apply(Two(), W3(), E4) == W4()
  {
    assert W3().procs - {1} == W4().procs;
    assert W3().shards[1].bookings[TARGET := Night(ROOM_1, CANCELLED)] == W4().shards[1].bookings;
    assert W3().shards[1 := W4().shards[1]] == W4().shards;
  }

  lemma Step5()
    requires Sized(Two(), W4())
    ensures Apply(Two(), W4(), E5) == W5()
  {
    assert Two().childId(ROOM_1, [6]) == RIVAL;
    assert RIVAL !in MORE;
    RoomIsFree5();
  }

  /** The cancelled reservation no longer takes the room. */
  lemma RoomIsFree5()
    ensures Reserve(W4().shards[1], Request(RIVAL, ROOM_1, [], 0, DAY, PENDING), None) == Ok(W5().shards[1])
  {
    assert W4().shards[1].bookings[RIVAL := Night(ROOM_1, PENDING)] == Both(CANCELLED);
  }

  lemma Step6()
    requires Sized(Two(), W5())
    ensures Apply(Two(), W5(), E6) == W6()
  {
    assert W5().shards[0].bookings[SOURCE := Night(ROOM_0, CANCELLED)] == W6().shards[0].bookings;
    assert W5().shards[0 := W6().shards[0]] == W6().shards;
  }

  lemma Step7()
    requires Sized(Two(), W6())
    ensures Apply(Two(), W6(), E7) == W7()
  {
    assert Both(CANCELLED)[TARGET := Night(ROOM_1, PENDING)] == Both(PENDING);
  }

  lemma RunThen(es: seq<Event>, w: World, e: Event, w': World)
    requires Sized(Two(), Begin()) && Sized(Two(), w)
    requires Run(Two(), Begin(), es) == w && Apply(Two(), w, e) == w'
    ensures Run(Two(), Begin(), es + [e]) == w'
  {
    assert (es + [e])[..|es|] == es;
  }

  const HALF: seq<Event> := [] + [E1] + [E2] + [E3] + [E4]
  const WHOLE: seq<Event> := HALF + [E5] + [E6] + [E7]

  lemma FirstHalf()
    requires Sized(Two(), Begin())
    ensures Run(Two(), Begin(), HALF) == W4()
  {
    Step1();
    RunThen([], Begin(), E1, W1());
    Step2();
    RunThen([] + [E1], W1(), E2, W2());
    Step3();
    RunThen([] + [E1] + [E2], W2(), E3, W3());
    Step4();
    RunThen([] + [E1] + [E2] + [E3], W3(), E4, W4());
  }

  lemma SecondHalf()
    requires Sized(Two(), Begin()) && Run(Two(), Begin(), HALF) == W4()
    ensures Run(Two(), Begin(), WHOLE) == W7()
  {
    Step5();
    RunThen(HALF, W4(), E5, W5());
    Step6();
    RunThen(HALF + [E5], W5(), E6, W6());
    Step7();
    RunThen(HALF + [E5] + [E6], W6(), E7, W7());
  }

  /** From a cluster at rest without a double booking, and without a single PATCH, to a double booking. */
  lemma DoubleBookingWithoutRely()
    ensures AtRest(Two(), Begin()) && Free(Begin()) && NoPatch(WHOLE)
    ensures !Free(Run(Two(), Begin(), WHOLE))
  {
    BeginsAtRest();
    FirstHalf();
    SecondHalf();
    var rows := W7().shards[1].bookings;
    assert Blocks(rows[TARGET], rows[RIVAL].roomId, rows[RIVAL].checkIn, rows[RIVAL].checkOut);
    assert !NoOverlap(rows);
  }

  // ---------------------------------------------------------------- two winners

  const B: Id := [0, 7]
  const C: Id := [0, 8]

  const PLAN_B: Plan := Plan(TARGET, Night(ROOM_1, PENDING), B, ROOM_2)
  const PLAN_C: Plan := Plan(TARGET, Night(ROOM_1, PENDING), C, ROOM_0)

  const USED_B: set<Id> := MORE + {B}
  const USED_C: set<Id> := USED_B + {C}

  function Target(status: Status): map<Id, Booking> { map[TARGET := Night(ROOM_1, status)] }

  function WithB(source: Status): map<Id, Booking> { Lone(source)[B := Night(ROOM_2, PENDING)] }

  function WithC(): map<Id, Booking> { WithB(CANCELLED)[C := Night(ROOM_0, PENDING)] }

  /** The first relocation, the one of its reservation, and the second of its reservation, at their stages. */
  function Procs(a: Stage, b: Stage): map<nat, Proc> { map[0 := Moved(a), 1 := Moving(PLAN_B, b, false)] }

  function AllProcs(c: Stage): map<nat, Proc> {
    Procs(Finished(Relocated), SourceCancelled)[2 := Moving(PLAN_C, c, false)]
  }

  const F3: Event := BeginRelocate(1, TARGET, ROOM_2, [7])
  const F4: Event := T1(1, true)
  const F5: Event := T2(1, true)
  const F6: Event := T2(0, true)
  const F7: Event := T3(0, true)
  const F8: Event := BeginRelocate(2, TARGET, ROOM_0, [8])
  const F9: Event := T1(2, true)
  const F10: Event := T2(2, true)

  function V3(): World { Scene(Lone(PENDING), Target(PENDING), Procs(Reserved, Read), USED_B) }
  function V4(): World { Scene(WithB(PENDING), Target(PENDING), Procs(Reserved, Reserved), USED_B) }
  function V5(): World { Scene(WithB(PENDING), Target(CANCELLED), Procs(Reserved, SourceCancelled), USED_B) }
  function V6(): World { Scene(WithB(CANCELLED), Target(CANCELLED), Procs(SourceCancelled, SourceCancelled), USED_B) }
  function V7(): World { Scene(WithB(CANCELLED), Target(PENDING), Procs(Finished(Relocated), SourceCancelled), USED_B) }
  function V8(): World { Scene(WithB(CANCELLED), Target(PENDING), AllProcs(Read), USED_C) }
  function V9(): World { Scene(WithC(), Target(PENDING), AllProcs(Reserved), USED_C) }
  function V10(): World { Scene(WithC(), Target(CANCELLED), AllProcs(SourceCancelled), USED_C) }

  lemma SameScene(w: World, first: map<Id, Booking>, second: map<Id, Booking>, procs: map<nat, Proc>, used: set<Id>)
    requires |w.shards| == 2 && w.procs == procs && w.used == used
    requires w.shards[0] == Scene(first, second, procs, used).shards[0]
    requires w.shards[1] == Scene(first, second, procs, used).shards[1]
    ensures w == Scene(first, second, procs, used)
  {
    assert w.shards == Scene(first, second, procs, used).shards;
  }

  lemma Reading3()
    requires Sized(Two(), W2())
    ensures Apply(Two(), W2(), F3) == V3()
  {
    assert Two().childId(ROOM_2, [7]) == B;
    assert B !in MORE;
    SameScene(Apply(Two(), W2(), F3), Lone(PENDING), Target(PENDING), Procs(Reserved, Read), USED_B);
  }

  lemma Reading8()
    requires Sized(Two(), V7())
    ensures Apply(Two(), V7(), F8) == V8()
  {
    assert Two().childId(ROOM_0, [8]) == C;
    assert C !in USED_B;
    SameScene(Apply(Two(), V7(), F8), WithB(CANCELLED), Target(PENDING), AllProcs(Read), USED_C);
  }

  /** Both rooms on the first shard are free when they are reserved. */
  lemma RoomIsFree4()
    ensures Reserve(V3().shards[0], Reservation(PLAN_B, PENDING), None) == Ok(V4().shards[0])
  {}

  lemma RoomIsFree9()
    ensures Reserve(V8().shards[0], Reservation(PLAN_C, PENDING), None) == Ok(V9().shards[0])
  {}

  lemma Reserving4()
    requires Sized(Two(), V3())
    ensures Apply(Two(), V3(), F4) == V4()
  {
    RoomIsFree4();
    assert Procs(Reserved, Read)[1 := Moving(PLAN_B, Reserved, false)] == Procs(Reserved, Reserved);
    SameScene(Apply(Two(), V3(), F4), WithB(PENDING), Target(PENDING), Procs(Reserved, Reserved), USED_B);
  }

  lemma Reserving9()
    requires Sized(Two(), V8())
    ensures Apply(Two(), V8(), F9) == V9()
  {
    RoomIsFree9();
    assert AllProcs(Read)[2 := Moving(PLAN_C, Reserved, false)] == AllProcs(Reserved);
    SameScene(Apply(Two(), V8(), F9), WithC(), Target(PENDING), AllProcs(Reserved), USED_C);
  }

  lemma Cancelling5()
    requires Sized(Two(), V4())
    ensures Apply(Two(), V4(), F5) == V5()
  {
    assert Procs(Reserved, Reserved)[1 := Moving(PLAN_B, SourceCancelled, false)] == Procs(Reserved, SourceCancelled);
    assert Target(PENDING)[TARGET := Night(ROOM_1, CANCELLED)] == Target(CANCELLED);
    SameScene(Apply(Two(), V4(), F5), WithB(PENDING), Target(CANCELLED), Procs(Reserved, SourceCancelled), USED_B);
  }

  lemma Cancelling6()
    requires Sized(Two(), V5())
    ensures Apply(Two(), V5(), F6) == V6()
  {
    assert Procs(Reserved, SourceCancelled)[0 := Moved(SourceCancelled)] == Procs(SourceCancelled, SourceCancelled);
    assert WithB(PENDING)[SOURCE := Night(ROOM_0, CANCELLED)] == WithB(CANCELLED);
    SameScene(Apply(Two(), V5(), F6), WithB(CANCELLED), Target(CANCELLED), Procs(SourceCancelled, SourceCancelled), USED_B);
  }

  lemma Confirming7()
    requires Sized(Two(), V6())
    ensures Apply(Two(), V6(), F7) == V7()
  {
    assert Procs(SourceCancelled, SourceCancelled)[0 := Moved(Finished(Relocated))] == Procs(Finished(Relocated), SourceCancelled);
    assert Target(CANCELLED)[TARGET := Night(ROOM_1, PENDING)] == Target(PENDING);
    SameScene(Apply(Two(), V6(), F7), WithB(CANCELLED), Target(PENDING), Procs(Finished(Relocated), SourceCancelled), USED_B);
  }

  lemma Cancelling10()
    requires Sized(Two(), V9())
    ensures Apply(Two(), V9(), F10) == V10()
  {
    assert AllProcs(Reserved)[2 := Moving(PLAN_C, SourceCancelled, false)] == AllProcs(SourceCancelled);
    assert Target(PENDING)[TARGET := Night(ROOM_1, CANCELLED)] == Target(CANCELLED);
    SameScene(Apply(Two(), V9(), F10), WithC(), Target(CANCELLED), AllProcs(SourceCancelled), USED_C);
  }

  const REVIVED: seq<Event> := [] + [E1] + [E2] + [F3] + [F4] + [F5] + [F6] + [F7]
  const RACE: seq<Event> := REVIVED + [F8] + [F9] + [F10]

  lemma Revives()
    requires Sized(Two(), Begin())
    ensures Run(Two(), Begin(), REVIVED) == V7()
  {
    Step1();
    RunThen([], Begin(), E1, W1());
    Step2();
    RunThen([] + [E1], W1(), E2, W2());
    Reading3();
    RunThen([] + [E1] + [E2], W2(), F3, V3());
    Reserving4();
    RunThen([] + [E1] + [E2] + [F3], V3(), F4, V4());
    Cancelling5();
    RunThen([] + [E1] + [E2] + [F3] + [F4], V4(), F5, V5());
    Cancelling6();
    RunThen([] + [E1] + [E2] + [F3] + [F4] + [F5], V5(), F6, V6());
    Confirming7();
    RunThen([] + [E1] + [E2] + [F3] + [F4] + [F5] + [F6], V6(), F7, V7());
  }

  lemma WinsAgain()
    requires Sized(Two(), Begin()) && Run(Two(), Begin(), REVIVED) == V7()
    ensures Run(Two(), Begin(), RACE) == V10()
  {
    Reading8();
    RunThen(REVIVED, V7(), F8, V8());
    Reserving9();
    RunThen(REVIVED + [F8], V8(), F9, V9());
    Cancelling10();
    RunThen(REVIVED + [F8] + [F9], V9(), F10, V10());
  }

  /** A reservation relocated away in its window and revived by T3 is relocated away once more: two winners. */
  lemma TwoWinnersInTheWindow()
    ensures AtRest(Two(), Begin()) && Won(Run(Two(), Begin(), RACE), 1, TARGET) && Won(Run(Two(), Begin(), RACE), 2, TARGET)
  {
    BeginsAtRest();
    Revives();
    WinsAgain();
  }
}
