/**
 The bucket map and its textual form (buildBucketMap in src/sharding/shard-key.ts):
 a comma-separated list of fragments "from-to:shard" or "bucket:shard", later fragments
 overriding earlier ones, over a round-robin default.
 */
module BucketMap {
  import opened Wrappers
  import opened JsText
  import opened ShardKey

  datatype Fragment = Fragment(from: nat, to: nat, shard: nat)

  datatype MapError = Malformed(part: JsString) | OutOfRange(part: JsString)

  // ---------------------------------------------------------------- one fragment

  /** The number of decimal digits s starts with. */
  function DigitRun(s: JsString): (n: nat)
    ensures n <= |s| && AllDecimal(s[..n])
    ensures n < |s| ==> !IsDecimalDigit(s[n])
  {
    if s == [] || !IsDecimalDigit(s[0]) then 0
    else
      var rest := DigitRun(s[1..]);
      assert s[1..][..rest] == s[1..1 + rest];
      assert s[..1 + rest] == [s[0]] + s[1..1 + rest];
      1 + rest
  }

  /** The tail ":shard" of a fragment. */
  function ParseShard(from: nat, to: nat, tail: JsString): Option<Fragment> {
    if |tail| >= 2 && tail[0] == COLON && AllDecimal(tail[1..])
    then Some(Fragment(from, to, DecimalValue(tail[1..]))) else None
  }

  /** The match of a trimmed fragment against (digits)(-digits)?:(digits). */
  function ParseFragment(text: JsString): Option<Fragment> {
    var a := DigitRun(text);
    if a == 0 then None
    else
      var from := DecimalValue(text[..a]);
      var rest := text[a..];
      if rest != [] && rest[0] == HYPHEN then
        var b := DigitRun(rest[1..]);
        if b == 0 then None else ParseShard(from, DecimalValue(rest[1..][..b]), rest[1..][b..])
      else ParseShard(from, from, rest)
  }

  predicate Number(s: JsString) { s != [] && AllDecimal(s) }

  /** The text "a:c" or "a-b:c" spells a fragment; no b means b is a. */
  predicate SpelledBy(text: JsString, f: Fragment, a: JsString, b: Option<JsString>, c: JsString) {
    Number(a) && Number(c) && (b.Some? ==> Number(b.value)) &&
    f.from == DecimalValue(a) && f.shard == DecimalValue(c) &&
    f.to == (if b.Some? then DecimalValue(b.value) else f.from) &&
    text == a + (if b.Some? then [HYPHEN] + b.value else []) + [COLON] + c
  }

  /** The grammar of a fragment, as a statement about texts rather than a parser. */
  ghost predicate Spells(text: JsString, f: Fragment) {
    exists a, b, c :: SpelledBy(text, f, a, b, c)
  }

  lemma {:induction false} DigitRunStops(a: JsString, rest: JsString)
    requires AllDecimal(a)
    requires rest == [] || !IsDecimalDigit(rest[0])
    ensures DigitRun(a + rest) == |a|
  {
    if a == [] {
      assert a + rest == rest;
    } else {
      assert (a + rest)[1..] == a[1..] + rest;
      DigitRunStops(a[1..], rest);
    }
  }

  lemma SplitAtRun(a: JsString, rest: JsString)
    requires AllDecimal(a)
    requires rest == [] || !IsDecimalDigit(rest[0])
    ensures var n := DigitRun(a + rest); n == |a| && (a + rest)[..n] == a && (a + rest)[n..] == rest
  {
    DigitRunStops(a, rest);
    assert (a + rest)[..|a|] == a && (a + rest)[|a|..] == rest;
  }

  lemma ShardTail(from: nat, to: nat, c: JsString)
    requires Number(c)
    ensures ParseShard(from, to, [COLON] + c) == Some(Fragment(from, to, DecimalValue(c)))
  {
    assert ([COLON] + c)[1..] == c;
  }

  lemma SpelledParses(text: JsString, f: Fragment, a: JsString, b: Option<JsString>, c: JsString)
    requires SpelledBy(text, f, a, b, c)
    ensures ParseFragment(text) == Some(f)
  {
    var tail := [COLON] + c;
    ShardTail(f.from, f.to, c);
    if b.None? {
      assert text == a + tail;
      SplitAtRun(a, tail);
    } else {
      var rest := [HYPHEN] + (b.value + tail);
      assert text == a + rest;
      SplitAtRun(a, rest);
      assert rest[1..] == b.value + tail;
      SplitAtRun(b.value, tail);
    }
  }

  lemma SplitFirst(s: JsString)
    ensures s != [] ==> s == [s[0]] + s[1..]
  {}

  lemma Glue(a: JsString, b: Option<JsString>, c: JsString)
    ensures a + (if b.Some? then [HYPHEN] + b.value else []) + [COLON] + c ==
            a + (if b.Some? then [HYPHEN] + (b.value + ([COLON] + c)) else [COLON] + c)
  {}

  lemma ParsedTail(from: nat, to: nat, tail: JsString, f: Fragment)
    requires ParseShard(from, to, tail) == Some(f)
    ensures tail == [COLON] + tail[1..] && Number(tail[1..])
    ensures f == Fragment(from, to, DecimalValue(tail[1..]))
  {
    SplitFirst(tail);
  }

  lemma SpellsFrom(text: JsString, f: Fragment, a: JsString, b: Option<JsString>, c: JsString)
    requires Number(a) && Number(c) && (b.Some? ==> Number(b.value))
    requires f == Fragment(DecimalValue(a), if b.Some? then DecimalValue(b.value) else DecimalValue(a), DecimalValue(c))
    requires text == a + (if b.Some? then [HYPHEN] + (b.value + ([COLON] + c)) else [COLON] + c)
    ensures Spells(text, f)
  {
    Glue(a, b, c);
    assert SpelledBy(text, f, a, b, c);
  }

  lemma CutAt(s: JsString, n: nat)
    requires n <= |s|
    ensures s == s[..n] + s[n..]
  {}

  lemma ParsedSpells(text: JsString, f: Fragment)
    requires ParseFragment(text) == Some(f)
    ensures Spells(text, f)
  {
    var n := DigitRun(text);
    CutAt(text, n);
    var a, rest := text[..n], text[n..];
    SplitFirst(rest);
    if rest != [] && rest[0] == HYPHEN {
      var m := DigitRun(rest[1..]);
      CutAt(rest[1..], m);
      var b, tail := rest[1..][..m], rest[1..][m..];
      ParsedTail(DecimalValue(a), DecimalValue(b), tail, f);
      SpellsFrom(text, f, a, Some(b), tail[1..]);
    } else {
      ParsedTail(DecimalValue(a), DecimalValue(a), rest, f);
      SpellsFrom(text, f, a, None, rest[1..]);
    }
  }

  /** The parser accepts exactly the texts of the grammar, with the numbers they spell. */
  lemma FragmentGrammar(text: JsString, f: Fragment)
    ensures ParseFragment(text) == Some(f) <==> Spells(text, f)
  {
    if ParseFragment(text) == Some(f) { ParsedSpells(text, f); }
    if Spells(text, f) {
      var a, b, c :| SpelledBy(text, f, a, b, c);
      SpelledParses(text, f, a, b, c);
    }
  }

  // ---------------------------------------------------------------- the map

  /** A fragment as accepted by the map builder, or the reason it is refused. */
  function Checked(part: JsString, shardCount: nat): Result<Fragment, MapError> {
    match ParseFragment(Trim(part))
    case None => Err(Malformed(part))
    case Some(f) =>
      if f.from > f.to || f.to >= BUCKETS || f.shard >= shardCount then Err(OutOfRange(part)) else Ok(f)
  }

  predicate Blank(spec: Option<JsString>) { spec.None? || Trim(spec.value) == [] }

  /** The fragments of an accepted list of parts. */
  function Accepted(parts: seq<JsString>, shardCount: nat): (fs: seq<Fragment>)
    requires forall i :: 0 <= i < |parts| ==> Checked(parts[i], shardCount).Ok?
    ensures |fs| == |parts|
  {
    seq(|parts|, i requires 0 <= i < |parts| => Checked(parts[i], shardCount).value)
  }

  predicate Covers(f: Fragment, bucket: nat) { f.from <= bucket <= f.to }

  /** The shard of a bucket: what the last fragment covering it says, else round robin. */
  function Owner(fs: seq<Fragment>, bucket: nat, shardCount: nat): nat
    requires shardCount >= 1
  {
    if fs == [] then bucket % shardCount
    else if Covers(fs[|fs| - 1], bucket) then fs[|fs| - 1].shard
    else Owner(fs[..|fs| - 1], bucket, shardCount)
  }

  /** The index of the first refused part, or the number of parts. */
  function FirstRefused(parts: seq<JsString>, shardCount: nat): (k: nat)
    ensures k <= |parts|
    ensures forall i :: 0 <= i < k ==> Checked(parts[i], shardCount).Ok?
    ensures k < |parts| ==> Checked(parts[k], shardCount).Err?
  {
    if parts == [] || Checked(parts[0], shardCount).Err? then 0
    else
      var rest := FirstRefused(parts[1..], shardCount);
      assert forall i :: 1 <= i < 1 + rest ==> parts[i] == parts[1..][i - 1];
      1 + rest
  }

  /** The whole map the fragments give; without fragments, the round-robin default. */
  function MapOfFragments(fs: seq<Fragment>, shardCount: nat): (m: seq<nat>)
    requires shardCount >= 1
    ensures |m| == BUCKETS
    ensures forall b :: 0 <= b < BUCKETS ==> m[b] == Owner(fs, b, shardCount)
  {
    seq(BUCKETS, bucket requires 0 <= bucket => Owner(fs, bucket, shardCount))
  }

  /** What buildBucketMap answers. */
  function MapOf(shardCount: nat, spec: Option<JsString>): Result<seq<nat>, MapError>
    requires shardCount >= 1
  {
    if Blank(spec) then Ok(MapOfFragments([], shardCount))
    else
      var parts := Split(spec.value, COMMA);
      var k := FirstRefused(parts, shardCount);
      if k < |parts| then Err(Checked(parts[k], shardCount).error)
      else Ok(MapOfFragments(Accepted(parts, shardCount), shardCount))
  }

  lemma OwnerAfter(fs: seq<Fragment>, f: Fragment, bucket: nat, shardCount: nat)
    requires shardCount >= 1
    ensures Owner(fs + [f], bucket, shardCount) == if Covers(f, bucket) then f.shard else Owner(fs, bucket, shardCount)
  {
    assert (fs + [f])[..|fs|] == fs;
  }

  lemma TableAfter(fs: seq<Fragment>, f: Fragment, before: seq<nat>, after: seq<nat>, shardCount: nat)
    requires shardCount >= 1 && before == MapOfFragments(fs, shardCount) && |after| == BUCKETS
    requires forall b :: 0 <= b < BUCKETS ==> after[b] == if Covers(f, b) then f.shard else before[b]
    ensures after == MapOfFragments(fs + [f], shardCount)
  {
    forall b | 0 <= b < BUCKETS ensures after[b] == Owner(fs + [f], b, shardCount) { OwnerAfter(fs, f, b, shardCount); }
  }

  /** One fragment written over the map in place. */
  method Overwrite(table: array<nat>, f: Fragment)
    requires f.from <= f.to < table.Length
    modifies table
    ensures forall b :: 0 <= b < table.Length ==> table[b] == if Covers(f, b) then f.shard else old(table[b])
  {
    var bucket := f.from;
    while bucket <= f.to
      invariant f.from <= bucket <= f.to + 1
      invariant forall b :: 0 <= b < table.Length ==>
        table[b] == if f.from <= b < bucket then f.shard else old(table[b])
    {
      table[bucket] := f.shard;
      bucket := bucket + 1;
    }
  }

  lemma RefusedAt(parts: seq<JsString>, fs: seq<Fragment>, i: nat, shardCount: nat)
    requires i == |fs| <= |parts| && forall j :: 0 <= j < i ==> Checked(parts[j], shardCount) == Ok(fs[j])
    requires i < |parts| ==> Checked(parts[i], shardCount).Err?
    ensures FirstRefused(parts, shardCount) == i
    ensures i == |parts| ==> Accepted(parts, shardCount) == fs
  {}

  /** The map is overwritten fragment by fragment, and given up at the first bad fragment. */
  method BuildBucketMap(shardCount: nat, spec: Option<JsString>) returns (r: Result<seq<nat>, MapError>)
    requires shardCount >= 1
    ensures r == MapOf(shardCount, spec)
  {
    var table := new nat[BUCKETS](bucket requires 0 <= bucket => bucket % shardCount);
    TableStarts(table[..], shardCount);
    if Blank(spec) { return Ok(table[..]); }
    var parts := Split(spec.value, COMMA);
    ghost var fs: seq<Fragment> := [];
    var i := 0;
    while i < |parts|
      invariant 0 <= i == |fs| <= |parts|
      invariant forall j :: 0 <= j < i ==> Checked(parts[j], shardCount) == Ok(fs[j])
      invariant table.Length == BUCKETS && table[..] == MapOfFragments(fs, shardCount)
    {
      var checked := Checked(parts[i], shardCount);
      if checked.Err? {
        RefusedAt(parts, fs, i, shardCount);
        return Err(checked.error);
      }
      ghost var before := table[..];
      Overwrite(table, checked.value);
      TableAfter(fs, checked.value, before, table[..], shardCount);
      fs := fs + [checked.value];
      i := i + 1;
    }
    RefusedAt(parts, fs, |parts|, shardCount);
    r := Ok(table[..]);
  }

  lemma TableStarts(table: seq<nat>, shardCount: nat)
    requires shardCount >= 1 && |table| == BUCKETS && forall b :: 0 <= b < BUCKETS ==> table[b] == b % shardCount
    ensures table == MapOfFragments([], shardCount)
  {}

  lemma {:induction false} LastCoverWins(fs: seq<Fragment>, bucket: nat, shardCount: nat, k: nat)
    requires shardCount >= 1
    requires k < |fs| && Covers(fs[k], bucket)
    requires forall j :: k < j < |fs| ==> !Covers(fs[j], bucket)
    ensures Owner(fs, bucket, shardCount) == fs[k].shard
  {
    if k < |fs| - 1 { LastCoverWins(fs[..|fs| - 1], bucket, shardCount, k); }
  }

  lemma {:induction false} UncoveredGoesRound(fs: seq<Fragment>, bucket: nat, shardCount: nat)
    requires shardCount >= 1
    requires forall j :: 0 <= j < |fs| ==> !Covers(fs[j], bucket)
    ensures Owner(fs, bucket, shardCount) == bucket % shardCount
  {
    if fs != [] { UncoveredGoesRound(fs[..|fs| - 1], bucket, shardCount); }
  }

  /** fs[k] is the last fragment covering the bucket; k == |fs| when there is none. */
  predicate IsLastCover(fs: seq<Fragment>, bucket: nat, k: nat) {
    k <= |fs| && (k < |fs| ==> Covers(fs[k], bucket)) &&
    forall j :: 0 <= j < |fs| && (k < j || k == |fs|) ==> !Covers(fs[j], bucket)
  }

  /**
   A specification is refused exactly when some part of it is; an accepted one sends each bucket
   to the shard of the last fragment covering it, and round robin when no fragment does.
   */
  lemma MapFollowsSpec(shardCount: nat, spec: JsString, bucket: nat, k: nat)
    requires shardCount >= 1 && bucket < BUCKETS && !Blank(Some(spec))
    ensures var parts := Split(spec, COMMA);
      MapOf(shardCount, Some(spec)).Err? <==> exists i :: 0 <= i < |parts| && Checked(parts[i], shardCount).Err?
    ensures var parts := Split(spec, COMMA);
      MapOf(shardCount, Some(spec)).Ok? ==>
        var m, fs := MapOf(shardCount, Some(spec)).value, Accepted(parts, shardCount);
        |m| == BUCKETS &&
        (IsLastCover(fs, bucket, k) ==> m[bucket] == if k < |fs| then fs[k].shard else bucket % shardCount)
  {
    var parts := Split(spec, COMMA);
    var first := FirstRefused(parts, shardCount);
    if first < |parts| {
      assert Checked(parts[first], shardCount).Err?;
    } else {
      var fs := Accepted(parts, shardCount);
      if IsLastCover(fs, bucket, k) {
        if k < |fs| { LastCoverWins(fs, bucket, shardCount, k); } else { UncoveredGoesRound(fs, bucket, shardCount); }
      }
    }
  }

  // ---------------------------------------------------------------- the map, told by the texts

  /** The part, trimmed, spells a range of buckets below 64 and one of the shards. */
  ghost predicate Orders(part: JsString, f: Fragment, shardCount: nat) {
    Spells(Trim(part), f) && f.from <= f.to < 64 && f.shard < shardCount
  }

  ghost predicate Ordered(part: JsString, shardCount: nat) { exists f :: Orders(part, f, shardCount) }

  ghost predicate OrdersNothing(parts: seq<JsString>, i: int, shardCount: nat) { 0 <= i < |parts| && !Ordered(parts[i], shardCount) }

  /** A part is accepted, as the fragment it orders, exactly when it orders one; other parts are malformed or out of range. */
  lemma CheckedExactly(part: JsString, shardCount: nat)
    ensures forall f :: Checked(part, shardCount) == Ok(f) <==> Orders(part, f, shardCount)
    ensures Checked(part, shardCount).Ok? <==> Ordered(part, shardCount)
    ensures Checked(part, shardCount) == Err(Malformed(part)) <==> forall f :: !Spells(Trim(part), f)
    ensures Checked(part, shardCount) == Err(OutOfRange(part)) <==>
      !Ordered(part, shardCount) && exists f :: Spells(Trim(part), f)
  {
    forall f ensures ParseFragment(Trim(part)) == Some(f) <==> Spells(Trim(part), f) { FragmentGrammar(Trim(part), f); }
    if Checked(part, shardCount).Ok? { assert Orders(part, Checked(part, shardCount).value, shardCount); }
  }

  /** Part k orders the bucket's shard, and no later part covers the bucket. */
  ghost predicate LastWord(parts: seq<JsString>, shardCount: nat, bucket: nat, k: nat, f: Fragment) {
    k < |parts| && Orders(parts[k], f, shardCount) && f.from <= bucket <= f.to &&
    forall j, g :: k < j < |parts| && Orders(parts[j], g, shardCount) ==> !(g.from <= bucket <= g.to)
  }

  /** No part covers the bucket. */
  ghost predicate Unmentioned(parts: seq<JsString>, shardCount: nat, bucket: nat) {
    forall j, g :: 0 <= j < |parts| && Orders(parts[j], g, shardCount) ==> !(g.from <= bucket <= g.to)
  }

  lemma PartsChecked(parts: seq<JsString>, shardCount: nat)
    ensures forall i :: 0 <= i < |parts| ==> (Checked(parts[i], shardCount).Ok? <==> !OrdersNothing(parts, i, shardCount))
  {
    forall i | 0 <= i < |parts| ensures Checked(parts[i], shardCount).Ok? <==> !OrdersNothing(parts, i, shardCount) {
      CheckedExactly(parts[i], shardCount);
    }
  }

  /** Some part orders nothing. */
  ghost predicate HasIdlePart(parts: seq<JsString>, shardCount: nat) { exists i :: OrdersNothing(parts, i, shardCount) }

  lemma IdleExactly(parts: seq<JsString>, shardCount: nat)
    ensures HasIdlePart(parts, shardCount) <==> FirstRefused(parts, shardCount) < |parts|
  {
    PartsChecked(parts, shardCount);
    var first := FirstRefused(parts, shardCount);
    if first < |parts| { assert OrdersNothing(parts, first, shardCount); }
    if i :| OrdersNothing(parts, i, shardCount) { assert Checked(parts[i], shardCount).Err?; }
  }

  /** A specification that is not blank is refused exactly when some part between its commas orders nothing. */
  lemma RefusedExactly(shardCount: nat, spec: JsString)
    requires shardCount >= 1 && Trim(spec) != []
    ensures MapOf(shardCount, Some(spec)).Err? <==> HasIdlePart(Split(spec, COMMA), shardCount)
  {
    IdleExactly(Split(spec, COMMA), shardCount);
  }

  /** The refusal names the first such part, and whether it spells no fragment or one out of range. */
  lemma RefusedForTheFirst(shardCount: nat, spec: JsString) returns (i: nat)
    requires shardCount >= 1 && Trim(spec) != [] && MapOf(shardCount, Some(spec)).Err?
    ensures var parts := Split(spec, COMMA);
      OrdersNothing(parts, i, shardCount) && (forall j :: 0 <= j < i ==> !OrdersNothing(parts, j, shardCount)) &&
      MapOf(shardCount, Some(spec)) == Err(if exists f :: Spells(Trim(parts[i]), f) then OutOfRange(parts[i]) else Malformed(parts[i]))
  {
    var parts := Split(spec, COMMA);
    PartsChecked(parts, shardCount);
    i := FirstRefused(parts, shardCount);
    CheckedExactly(parts[i], shardCount);
  }

  /**
   In an accepted map a bucket has the shard the last part covering it orders, and its number modulo the
   shard count when no part covers it.
   */
  lemma AcceptedExactly(shardCount: nat, spec: JsString, bucket: nat)
    requires shardCount >= 1 && Trim(spec) != [] && MapOf(shardCount, Some(spec)).Ok? && bucket < 64
    ensures var parts, m := Split(spec, COMMA), MapOf(shardCount, Some(spec)).value;
      |m| == 64 &&
      (forall k: nat, f :: LastWord(parts, shardCount, bucket, k, f) ==> m[bucket] == f.shard) &&
      (Unmentioned(parts, shardCount, bucket) ==> m[bucket] == bucket % shardCount)
  {
    var parts, m := Split(spec, COMMA), MapOf(shardCount, Some(spec)).value;
    forall k: nat, f | LastWord(parts, shardCount, bucket, k, f) ensures m[bucket] == f.shard {
      LastWordHolds(parts, shardCount, bucket, k, f);
    }
    if Unmentioned(parts, shardCount, bucket) { UnmentionedGoesRound(parts, shardCount, bucket); }
  }

  lemma LastWordHolds(parts: seq<JsString>, shardCount: nat, bucket: nat, k: nat, f: Fragment)
    requires shardCount >= 1 && forall i :: 0 <= i < |parts| ==> Checked(parts[i], shardCount).Ok?
    requires LastWord(parts, shardCount, bucket, k, f)
    ensures Owner(Accepted(parts, shardCount), bucket, shardCount) == f.shard
  {
    var fs := Accepted(parts, shardCount);
    CheckedExactly(parts[k], shardCount);
    assert fs[k] == f;
    forall j | k < j < |fs| ensures !Covers(fs[j], bucket) {
      CheckedExactly(parts[j], shardCount);
      assert Orders(parts[j], fs[j], shardCount);
    }
    LastCoverWins(fs, bucket, shardCount, k);
  }

  lemma UnmentionedGoesRound(parts: seq<JsString>, shardCount: nat, bucket: nat)
    requires shardCount >= 1 && forall i :: 0 <= i < |parts| ==> Checked(parts[i], shardCount).Ok?
    requires Unmentioned(parts, shardCount, bucket)
    ensures Owner(Accepted(parts, shardCount), bucket, shardCount) == bucket % shardCount
  {
    var fs := Accepted(parts, shardCount);
    forall j | 0 <= j < |fs| ensures !Covers(fs[j], bucket) {
      CheckedExactly(parts[j], shardCount);
      assert Orders(parts[j], fs[j], shardCount);
    }
    UncoveredGoesRound(fs, bucket, shardCount);
  }

  /** Without a specification, or with a blank one, buckets go round the shards. */
  lemma DefaultMap(shardCount: nat, spec: Option<JsString>)
    requires shardCount >= 1 && (spec.None? || Trim(spec.value) == [])
    ensures MapOf(shardCount, spec).Ok? && |MapOf(shardCount, spec).value| == 64
    ensures forall bucket :: 0 <= bucket < 64 ==> MapOf(shardCount, spec).value[bucket] == bucket % shardCount
  {}

  lemma {:induction false} OwnersAreShards(fs: seq<Fragment>, bucket: nat, shardCount: nat)
    requires shardCount >= 1
    requires forall j :: 0 <= j < |fs| ==> fs[j].shard < shardCount
    ensures Owner(fs, bucket, shardCount) < shardCount
  {
    if fs != [] { OwnersAreShards(fs[..|fs| - 1], bucket, shardCount); }
  }

  predicate IsMap(m: seq<nat>, shardCount: nat) {
    |m| == BUCKETS && forall b :: 0 <= b < BUCKETS ==> m[b] < shardCount
  }

  /** Whatever the specification, an accepted map sends every bucket, hence every identifier, to a shard. */
  lemma EveryKeyRoutes(shardCount: nat, spec: Option<JsString>, id: JsString)
    requires shardCount >= 1 && MapOf(shardCount, spec).Ok?
    ensures IsMap(MapOf(shardCount, spec).value, shardCount)
    ensures BucketOf(id) < BUCKETS && MapOf(shardCount, spec).value[BucketOf(id)] < shardCount
  {
    if !Blank(spec) {
      var fs := Accepted(Split(spec.value, COMMA), shardCount);
      forall b | 0 <= b < BUCKETS ensures Owner(fs, b, shardCount) < shardCount {
        OwnersAreShards(fs, b, shardCount);
      }
    }
    BucketOfInRange(id);
  }

  // ---------------------------------------------------------------- every map can be written

  function FragmentText(bucket: nat, shard: nat): JsString { Render(bucket, 10) + [COLON] + Render(shard, 10) }

  /** One fragment per bucket. */
  function SpecParts(m: seq<nat>): seq<JsString> {
    seq(|m|, b requires 0 <= b < |m| => FragmentText(b, m[b]))
  }

  /** A text that trimming leaves alone. */
  predicate Solid(s: JsString) { s != [] && !IsSpace(s[0]) && !IsSpace(s[|s| - 1]) }

  lemma TrimKeepsSolid(s: JsString)
    requires Solid(s)
    ensures Trim(s) == s
  {}

  lemma FragmentTextParses(bucket: nat, shard: nat)
    ensures Trim(FragmentText(bucket, shard)) == FragmentText(bucket, shard)
    ensures ParseFragment(FragmentText(bucket, shard)) == Some(Fragment(bucket, bucket, shard))
    ensures Solid(FragmentText(bucket, shard)) && COMMA !in FragmentText(bucket, shard)
  {
    DecimalRoundTrip(bucket);
    DecimalRoundTrip(shard);
    SingletonParses(Render(bucket, 10), Render(shard, 10));
    SingletonIsSolid(Render(bucket, 10), Render(shard, 10));
    TrimKeepsSolid(FragmentText(bucket, shard));
  }

  lemma SingletonParses(a: JsString, c: JsString)
    requires Number(a) && Number(c)
    ensures ParseFragment(a + [COLON] + c) == Some(Fragment(DecimalValue(a), DecimalValue(a), DecimalValue(c)))
  {
    assert a + [COLON] + c == a + [] + [COLON] + c;
    SpelledParses(a + [COLON] + c, Fragment(DecimalValue(a), DecimalValue(a), DecimalValue(c)), a, None, c);
  }

  lemma SingletonIsSolid(a: JsString, c: JsString)
    requires Number(a) && Number(c)
    ensures Solid(a + [COLON] + c) && COMMA !in a + [COLON] + c
  {
    var text := a + [COLON] + c;
    assert text[0] == a[0] && text[|text| - 1] == c[|c| - 1];
  }

  lemma {:induction false} SingletonOwner(fs: seq<Fragment>, m: seq<nat>, bucket: nat, shardCount: nat)
    requires shardCount >= 1
    requires |fs| <= |m| && forall j :: 0 <= j < |fs| ==> fs[j] == Fragment(j, j, m[j])
    requires bucket < |fs|
    ensures Owner(fs, bucket, shardCount) == m[bucket]
  {
    if bucket < |fs| - 1 { SingletonOwner(fs[..|fs| - 1], m, bucket, shardCount); }
  }

  lemma {:induction false} JoinStartsSolid(parts: seq<JsString>)
    requires |parts| >= 1
    requires forall i :: 0 <= i < |parts| ==> Solid(parts[i])
    ensures Solid(Join(parts, COMMA))
  {
    if |parts| > 1 { JoinStartsSolid(parts[1..]); }
  }

  lemma SpecPart(m: seq<nat>, b: nat, shardCount: nat)
    requires IsMap(m, shardCount) && b < BUCKETS
    ensures var part := SpecParts(m)[b];
      COMMA !in part && Solid(part) && Checked(part, shardCount) == Ok(Fragment(b, b, m[b]))
  {
    FragmentTextParses(b, m[b]);
  }

  lemma SpecFragments(m: seq<nat>, shardCount: nat)
    requires shardCount >= 1 && IsMap(m, shardCount)
    requires forall b :: 0 <= b < BUCKETS ==> Checked(SpecParts(m)[b], shardCount) == Ok(Fragment(b, b, m[b]))
    ensures MapOfFragments(Accepted(SpecParts(m), shardCount), shardCount) == m
  {
    var fs := Accepted(SpecParts(m), shardCount);
    forall b | 0 <= b < BUCKETS ensures Owner(fs, b, shardCount) == m[b] {
      SingletonOwner(fs, m, b, shardCount);
    }
  }

  /** Every map is the answer to some specification. */
  lemma EveryMapIsSpelled(m: seq<nat>, shardCount: nat)
    requires shardCount >= 1 && IsMap(m, shardCount)
    ensures MapOf(shardCount, Some(Join(SpecParts(m), COMMA))) == Ok(m)
  {
    var parts := SpecParts(m);
    forall b | 0 <= b < BUCKETS
      ensures COMMA !in parts[b] && Solid(parts[b]) && Checked(parts[b], shardCount) == Ok(Fragment(b, b, m[b]))
    {
      SpecPart(m, b, shardCount);
    }
    SplitJoin(parts, COMMA);
    JoinStartsSolid(parts);
    TrimKeepsSolid(Join(parts, COMMA));
    SpecFragments(m, shardCount);
  }
}
