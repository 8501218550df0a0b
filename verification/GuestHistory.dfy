/**
 A guest's bookings over all shards, newest first (findBookings in src/guests/guests.service.ts).
 Bookings of one instant stay in the order of the merged list.
 */
module GuestHistory {
  import opened Wrappers
  import opened JsText
  import opened Cluster
  import opened Routing
  import opened BookingRuns
  import opened FanOut
  import opened Sorting
  import opened Search
  import opened Guests

  type Created = Id -> int

  ghost predicate NewestFirst(list: seq<Id>, created: Created) {
    forall i, j :: 0 <= i < j < |list| ==> created(list[i]) >= created(list[j])
  }

  /** The merged list keyed for sorting: the newest has the least key. */
  function Keys(list: seq<Id>, created: Created): (ks: seq<Keyed<Id>>)
    ensures |ks| == |list|
  {
    seq(|list|, i requires 0 <= i < |list| => Keyed(-created(list[i]), list[i]))
  }

  function Items(ks: seq<Keyed<Id>>): (list: seq<Id>)
    ensures |list| == |ks|
  {
    seq(|ks|, i requires 0 <= i < |ks| => ks[i].item)
  }

  /** The list the client gets. */
  function History(merged: seq<Id>, created: Created): seq<Id> { Items(StableSort(Keys(merged, created))) }

  /** Each key tells its booking's instant. */
  ghost predicate KeyedBy(ks: seq<Keyed<Id>>, created: Created) {
    forall i :: 0 <= i < |ks| ==> ks[i].key == -created(ks[i].item)
  }

  lemma ItemsSnoc(ks: seq<Keyed<Id>>, k: Keyed<Id>)
    ensures Items(ks + [k]) == Items(ks) + [k.item]
  {}

  lemma {:induction false} InsertRearranges(s: seq<Keyed<Id>>, p: Keyed<Id>, created: Created)
    requires KeyedBy(s, created) && p.key == -created(p.item)
    ensures multiset(Items(Insert(s, p))) == multiset(Items(s)) + multiset{p.item} && KeyedBy(Insert(s, p), created)
  {
    if s == [] || s[|s| - 1].key <= p.key {
      ItemsSnoc(s, p);
    } else {
      var init, last := s[..|s| - 1], s[|s| - 1];
      assert s == init + [last];
      InsertRearranges(init, p, created);
      ItemsSnoc(init, last);
      ItemsSnoc(Insert(init, p), last);
    }
  }

  lemma {:induction false} SortRearranges(s: seq<Keyed<Id>>, created: Created)
    requires KeyedBy(s, created)
    ensures multiset(Items(StableSort(s))) == multiset(Items(s)) && KeyedBy(StableSort(s), created)
  {
    if s != [] {
      var init, last := s[..|s| - 1], s[|s| - 1];
      assert s == init + [last];
      SortRearranges(init, created);
      InsertRearranges(StableSort(init), last, created);
      ItemsSnoc(init, last);
    }
  }

  /** The history is a rearrangement of the merged list, newest first. */
  lemma HistorySorts(merged: seq<Id>, created: Created)
    ensures multiset(History(merged, created)) == multiset(merged) && NewestFirst(History(merged, created), created)
  {
    var ks := Keys(merged, created);
    SortRearranges(ks, created);
    SortSorts(ks);
    assert Items(ks) == merged;
  }

  /** The history is the only arrangement that is newest first and keeps the merged order within an instant. */
  lemma HistoryIsUnique(merged: seq<Id>, created: Created, list: seq<Id>)
    requires NewestFirst(list, created)
    requires forall t :: WithKey(Keys(list, created), t) == WithKey(Keys(merged, created), t)
    ensures list == History(merged, created)
  {
    var ks := Keys(list, created);
    assert Sorted(ks);
    StableSortIsUnique(Keys(merged, created), ks);
    assert Items(ks) == list;
  }

  // ---------------------------------------------------------------- rearranging a list

  predicate NoRepeat(list: seq<Id>) { forall i, j :: 0 <= i < j < |list| ==> list[i] != list[j] }

  /** Whether a list repeats an element shows in its multiset. */
  lemma {:induction false} NoRepeatIsOnce(list: seq<Id>)
    ensures NoRepeat(list) <==> forall x :: multiset(list)[x] <= 1
  {
    if list != [] {
      var n := |list| - 1;
      var init, last := list[..n], list[n];
      assert list == init + [last];
      NoRepeatIsOnce(init);
      assert last in init <==> multiset(init)[last] >= 1;
      if NoRepeat(list) {
        assert NoRepeat(init) && last !in init;
      }
      if forall x :: multiset(list)[x] <= 1 {
        forall x ensures multiset(init)[x] <= 1 { assert multiset(init)[x] <= multiset(list)[x]; }
        assert multiset(list)[last] == multiset(init)[last] + 1;
        assert last !in init;
      }
    }
  }

  lemma RearrangedEnumerates(list: seq<Id>, merged: seq<Id>, s: set<Id>)
    requires multiset(list) == multiset(merged) && Enumerates(merged, s)
    ensures Enumerates(list, s)
  {
    NoRepeatIsOnce(list);
    NoRepeatIsOnce(merged);
    assert NoRepeat(merged);
    forall x ensures x in list <==> x in s { assert x in list <==> x in multiset(list); }
  }

  // ---------------------------------------------------------------- the shards' lists

  /** Each shard that answers lists its bookings of the guest once, in any order. */
  ghost predicate Lists(shards: seq<Shard>, guestId: Id, answers: seq<Option<seq<Id>>>) {
    |answers| == |shards| &&
    forall i :: 0 <= i < |answers| && answers[i].Some? ==> Enumerates(answers[i].value, BookingsOf(shards[i], guestId))
  }

  /** The guest's bookings that lie on the first n shards, as far as those answered. */
  ghost function Known(rt: Routing, w: World, guestId: Id, answers: seq<Option<seq<Id>>>, n: nat): set<Id> {
    set b | b in BookingsOf(Whole(w), guestId) && ForKey(rt, b) < n && ForKey(rt, b) < |answers| && answers[ForKey(rt, b)].Some?
  }

  lemma OnShard(rt: Routing, w: World, guestId: Id, i: nat, b: Id)
    requires Sized(rt, w) && Placed(rt, w) && i < |w.shards|
    ensures b in BookingsOf(w.shards[i], guestId) <==> b in BookingsOf(Whole(w), guestId) && ForKey(rt, b) == i
  {
    PlacedIsHomed(rt, w);
    UndividedBookings(rt, w.shards, |w.shards|, b);
  }

  lemma KnownStep(rt: Routing, w: World, guestId: Id, answers: seq<Option<seq<Id>>>, n: nat)
    requires Sized(rt, w) && Placed(rt, w) && n < |answers| == |w.shards|
    ensures Known(rt, w, guestId, answers, n + 1) == Known(rt, w, guestId, answers, n) +
      (if answers[n].Some? then BookingsOf(w.shards[n], guestId) else {})
    ensures Known(rt, w, guestId, answers, n) !! BookingsOf(w.shards[n], guestId)
  {
    forall b { OnShard(rt, w, guestId, n, b); }
  }

  lemma {:induction false} MergedKnown(rt: Routing, w: World, guestId: Id, answers: seq<Option<seq<Id>>>, n: nat)
    requires Sized(rt, w) && Placed(rt, w) && Lists(w.shards, guestId, answers) && n <= |answers|
    ensures Enumerates(Merge(Parts(answers[..n])), Known(rt, w, guestId, answers, n))
    decreases n
  {
    if n > 0 {
      MergedKnown(rt, w, guestId, answers, n - 1);
      Snoc(answers, n - 1);
      KnownStep(rt, w, guestId, answers, n - 1);
      var before, known := Parts(answers[..n - 1]), Known(rt, w, guestId, answers, n - 1);
      if answers[n - 1].Some? {
        MergeSnoc(before, Part(n - 1, answers[n - 1].value));
        EnumerateBoth(Merge(before), known, answers[n - 1].value, BookingsOf(w.shards[n - 1], guestId));
      } else {
        assert Parts(answers[..n]) == before;
        assert Known(rt, w, guestId, answers, n) == known;
      }
    }
  }

  lemma AllKnown(rt: Routing, w: World, guestId: Id, answers: seq<Option<seq<Id>>>)
    requires Sized(rt, w) && AllAnswered(answers) && |answers| == |w.shards|
    ensures Known(rt, w, guestId, answers, |answers|) == BookingsOf(Whole(w), guestId)
  {
    forall b | b in BookingsOf(Whole(w), guestId) ensures ForKey(rt, b) < |answers| { KeysRoute(rt, b); }
  }

  /**
   The history lists, newest first and each once, exactly the guest's bookings on the shards that
   answered; hence all the guest's bookings in the cluster when every shard answers.
   */
  lemma HistoryIsWhole(rt: Routing, w: World, guestId: Id, answers: seq<Option<seq<Id>>>, created: Created)
    requires Sized(rt, w) && Placed(rt, w) && Lists(w.shards, guestId, answers)
    ensures var list := History(Merge(Parts(answers)), created);
      NewestFirst(list, created) && Enumerates(list, Known(rt, w, guestId, answers, |answers|)) &&
      (AllAnswered(answers) ==> Enumerates(list, BookingsOf(Whole(w), guestId)))
  {
    var merged := Merge(Parts(answers));
    MergedKnown(rt, w, guestId, answers, |answers|);
    assert answers[..|answers|] == answers;
    HistorySorts(merged, created);
    RearrangedEnumerates(History(merged, created), merged, Known(rt, w, guestId, answers, |answers|));
    if AllAnswered(answers) { AllKnown(rt, w, guestId, answers); }
  }
}
