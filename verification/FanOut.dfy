/**
 Cross-shard queries (fanOut, fanOutList and their counters in src/sharding/shard-router.service.ts).
 A shard's answer is None when the shard cannot be reached.
 */
module FanOut {
  import opened Wrappers

  datatype Part<T> = Part(shard: nat, result: T)

  datatype Gathered<T> = Gathered(parts: seq<Part<T>>, failed: seq<nat>)

  predicate AllAnswered<T>(answers: seq<Option<T>>) { forall i :: 0 <= i < |answers| ==> answers[i].Some? }

  /** The parts of the shards that answered, in shard order. */
  function Parts<T>(answers: seq<Option<T>>): seq<Part<T>> {
    if answers == [] then []
    else
      var last := |answers| - 1;
      Parts(answers[..last]) + (if answers[last].Some? then [Part(last, answers[last].value)] else [])
  }

  /** The shards that did not answer. */
  function Missing<T>(answers: seq<Option<T>>): seq<nat> {
    if answers == [] then []
    else
      var last := |answers| - 1;
      Missing(answers[..last]) + (if answers[last].None? then [last] else [])
  }

  lemma Snoc<T>(answers: seq<Option<T>>, i: nat)
    requires i < |answers|
    ensures Parts(answers[..i + 1]) ==
      Parts(answers[..i]) + (if answers[i].Some? then [Part(i, answers[i].value)] else [])
    ensures Missing(answers[..i + 1]) == Missing(answers[..i]) + (if answers[i].None? then [i] else [])
  {
    assert answers[..i + 1][..i] == answers[..i];
  }

  /** Parts and silent shards split the cluster: each shard is in exactly one of them, with its own answer. */
  lemma {:induction false} EveryShardIsAccountedFor<T>(answers: seq<Option<T>>, i: nat, result: T)
    requires i < |answers|
    ensures Part(i, result) in Parts(answers) <==> answers[i] == Some(result)
    ensures i in Missing(answers) <==> answers[i].None?
  {
    NothingBeyond(answers);
    if i < |answers| - 1 {
      EveryShardIsAccountedFor(answers[..|answers| - 1], i, result);
    } else {
      NothingBeyond(answers[..|answers| - 1]);
    }
  }

  lemma {:induction false} NothingBeyond<T>(answers: seq<Option<T>>)
    ensures forall p :: p in Parts(answers) ==> p.shard < |answers|
    ensures forall f :: f in Missing(answers) ==> f < |answers|
  {
    if answers != [] { NothingBeyond(answers[..|answers| - 1]); }
  }

  /** Parts come in shard order. */
  lemma {:induction false} PartsInOrder<T>(answers: seq<Option<T>>)
    ensures forall i, j :: 0 <= i < j < |Parts(answers)| ==> Parts(answers)[i].shard < Parts(answers)[j].shard
  {
    if answers != [] {
      var init := answers[..|answers| - 1];
      PartsInOrder(init);
      NothingBeyond(init);
      forall i | 0 <= i < |Parts(init)| ensures Parts(init)[i].shard < |init| { assert Parts(init)[i] in Parts(init); }
    }
  }

  lemma {:induction false} MissingIffSilent<T>(answers: seq<Option<T>>)
    ensures Missing(answers) == [] <==> AllAnswered(answers)
  {
    if answers != [] {
      MissingIffSilent(answers[..|answers| - 1]);
      assert AllAnswered(answers) <==> AllAnswered(answers[..|answers| - 1]) && answers[|answers| - 1].Some?;
    }
  }

  lemma {:induction false} CompleteParts<T>(answers: seq<Option<T>>)
    requires AllAnswered(answers)
    ensures |Parts(answers)| == |answers|
    ensures forall i :: 0 <= i < |answers| ==> Parts(answers)[i] == Part(i, answers[i].value)
  {
    if answers != [] { CompleteParts(answers[..|answers| - 1]); }
  }

  class Router {
    /** Queries answered, shard by shard. */
    var fanOutQueries: seq<nat>
    var fanOuts: nat
    var partialFanOuts: nat

    constructor (shardCount: nat)
      ensures fanOutQueries == seq(shardCount, _ => 0) && fanOuts == 0 && partialFanOuts == 0
    {
      fanOutQueries := seq(shardCount, _ => 0);
      fanOuts, partialFanOuts := 0, 0;
    }

    /**
     Ask every shard. Without allowPartial one silent shard fails the query (with the first silent
     shard's error); with it the answers of the others are returned and the silent shards named.
     */
    method Gather<T>(answers: seq<Option<T>>, allowPartial: bool) returns (r: Result<Gathered<T>, nat>)
      requires |answers| == |fanOutQueries|
      modifies this
      ensures r.Ok? <==> allowPartial || AllAnswered(answers)
      ensures r.Ok? ==> r.value == Gathered(Parts(answers), Missing(answers))
      ensures r.Err? ==> r.error < |answers| && answers[r.error].None? && forall i :: 0 <= i < r.error ==> answers[i].Some?
      ensures |fanOutQueries| == |answers| && forall i :: 0 <= i < |answers| ==>
        fanOutQueries[i] == old(fanOutQueries[i]) + if answers[i].Some? then 1 else 0
      ensures fanOuts == old(fanOuts) + if r.Ok? then 1 else 0
      ensures partialFanOuts == old(partialFanOuts) + if r.Ok? && !AllAnswered(answers) then 1 else 0
    {
      var before := fanOutQueries;
      fanOutQueries := seq(|answers|, i requires 0 <= i < |answers| => before[i] + if answers[i].Some? then 1 else 0);
      var gathered, silent := Settle(answers, allowPartial);
      if silent.Some? { return Err(silent.value); }
      fanOuts := fanOuts + 1;
      MissingIffSilent(answers);
      if |gathered.failed| > 0 { partialFanOuts := partialFanOuts + 1; }
      r := Ok(gathered);
    }
  }

  /** Sort the settled answers into parts and silent shards, giving up at a silent shard unless partial is allowed. */
  method Settle<T>(answers: seq<Option<T>>, allowPartial: bool) returns (g: Gathered<T>, silent: Option<nat>)
    ensures silent.None? <==> allowPartial || AllAnswered(answers)
    ensures silent.None? ==> g == Gathered(Parts(answers), Missing(answers))
    ensures silent.Some? ==>
      silent.value < |answers| && answers[silent.value].None? && forall i :: 0 <= i < silent.value ==> answers[i].Some?
  {
    var parts: seq<Part<T>> := [];
    var failed: seq<nat> := [];
    var i := 0;
    while i < |answers|
      invariant 0 <= i <= |answers|
      invariant parts == Parts(answers[..i]) && failed == Missing(answers[..i])
      invariant !allowPartial ==> forall j :: 0 <= j < i ==> answers[j].Some?
    {
      Snoc(answers, i);
      if answers[i].Some? {
        parts := parts + [Part(i, answers[i].value)];
      } else if !allowPartial {
        return Gathered([], []), Some(i);
      } else {
        failed := failed + [i];
      }
      i := i + 1;
    }
    assert answers[..i] == answers;
    return Gathered(parts, failed), None;
  }

  /** The merged list of a fan-out over lists. */
  function Merge<T>(parts: seq<Part<seq<T>>>): seq<T> {
    if parts == [] then [] else Merge(parts[..|parts| - 1]) + parts[|parts| - 1].result
  }

  /** The merged list is the parts' lists one after the other. */
  lemma {:induction false} MergeInOrder<T>(first: Part<seq<T>>, rest: seq<Part<seq<T>>>)
    ensures Merge([first] + rest) == first.result + Merge(rest)
  {
    var parts := [first] + rest;
    if rest == [] {
      assert parts == [first] && parts[..0] == [];
      assert [] + first.result == first.result && first.result + [] == first.result;
    } else {
      assert parts[..|parts| - 1] == [first] + rest[..|rest| - 1];
      MergeInOrder(first, rest[..|rest| - 1]);
    }
  }
}
