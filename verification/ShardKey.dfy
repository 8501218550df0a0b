/**
 The shard key (src/sharding/shard-key.ts): the FNV-1a hash on 32-bit words, and identifiers
 that carry their bucket in the first two hexadecimal digits.
 */
module ShardKey {
  import opened JsText

  const BUCKETS: nat := 64
  const WORD: nat := 0x1_0000_0000
  const OFFSET_BASIS: nat := 0x811c9dc5
  const PRIME: nat := 0x01000193
  const PRIME_INVERSE: nat := 0x359c449b

  // ---------------------------------------------------------------- 32-bit arithmetic

  /** Bitwise exclusive or of two non-negative integers. */
  function Xor(a: nat, b: nat): nat
    decreases a + b
  {
    if a == 0 && b == 0 then 0
    else 2 * Xor(a / 2, b / 2) + (if a % 2 != b % 2 then 1 else 0)
  }

  function Pow2(k: nat): nat { if k == 0 then 1 else 2 * Pow2(k - 1) }

  lemma {:induction false} XorRange(a: nat, b: nat, k: nat)
    requires a < Pow2(k) && b < Pow2(k)
    ensures Xor(a, b) < Pow2(k)
  {
    if k > 0 && !(a == 0 && b == 0) { XorRange(a / 2, b / 2, k - 1); }
  }

  lemma {:induction false} XorCancels(a: nat, b: nat)
    ensures Xor(Xor(a, b), b) == a
    decreases a + b
  {
    if !(a == 0 && b == 0) {
      XorCancels(a / 2, b / 2);
      var x := Xor(a, b);
      assert x / 2 == Xor(a / 2, b / 2);
    }
  }

  lemma {:induction false} XorCommutes(a: nat, b: nat)
    ensures Xor(a, b) == Xor(b, a)
    decreases a + b
  {
    if !(a == 0 && b == 0) { XorCommutes(a / 2, b / 2); }
  }

  lemma WordIsPow2()
    ensures Pow2(32) == WORD
  {
    assert Pow2(8) == 256;
    assert Pow2(16) == 65536;
    assert Pow2(24) == 16777216;
  }

  lemma XorWord(a: nat, b: nat)
    requires a < WORD && b < WORD
    ensures Xor(a, b) < WORD
  {
    WordIsPow2();
    XorRange(a, b, 32);
  }

  /** ToInt32 of the language: the representative of n modulo 2^32 in -2^31 .. 2^31 - 1. */
  function ToInt32(n: int): (r: int)
    ensures r % WORD == n % WORD
    ensures -0x8000_0000 <= r < 0x8000_0000
  {
    var u := n % WORD;
    if u < 0x8000_0000 then u else u - WORD
  }

  /** The ^ operator: both operands become 32-bit words, the result is signed. */
  function SignedXor(a: int, b: int): int { ToInt32(Xor(a % WORD, b % WORD)) }

  /** Math.imul. */
  function Imul(a: int, b: int): int { ToInt32((a % WORD) * (b % WORD)) }

  // ---------------------------------------------------------------- FNV-1a

  function FnvStep(h: nat, c: CodeUnit): nat { (Xor(h, c) * PRIME) % WORD }

  /** FNV-1a as the unsigned fold over code units. */
  function Fnv(s: JsString): nat {
    if s == [] then OFFSET_BASIS else FnvStep(Fnv(s[..|s| - 1]), s[|s| - 1])
  }

  lemma FnvIsWord(s: JsString)
    ensures Fnv(s) < WORD
  {}

  lemma AddMultiple(x: int, k: int)
    ensures (x + k * WORD) % WORD == x % WORD
  {}

  /** A signed step and an unsigned step agree on the word. */
  lemma SignedStep(hash: int, h: nat, c: CodeUnit)
    requires hash % WORD == h
    ensures Imul(SignedXor(hash, c), PRIME) % WORD == FnvStep(h, c)
  {
    XorWord(h, c);
    assert SignedXor(hash, c) % WORD == Xor(h, c);
  }

  /** fnv1a as the program runs it: signed words inside the loop, made unsigned at the end. */
  method Fnv1a(input: JsString) returns (r: nat)
    ensures r == Fnv(input)
    ensures r < WORD
  {
    var hash: int := OFFSET_BASIS;
    var i := 0;
    while i < |input|
      invariant 0 <= i <= |input|
      invariant hash % WORD == Fnv(input[..i])
    {
      SignedStep(hash, Fnv(input[..i]), input[i]);
      hash := SignedXor(hash, input[i]);
      hash := Imul(hash, PRIME);
      assert input[..i + 1][..i] == input[..i];
      i := i + 1;
    }
    assert input[..i] == input;
    r := hash % WORD;
  }

  lemma {:induction false} XorZero(a: nat)
    ensures Xor(a, 0) == a
  {
    if a > 0 { XorZero(a / 2); }
  }

  lemma XorHalves(a: nat, b: nat, x: nat)
    requires !(a == 0 && b == 0) && Xor(a / 2, b / 2) == x
    ensures Xor(a, b) == 2 * x + if a % 2 != b % 2 then 1 else 0
  {}

  lemma OffsetXorA()
    ensures Xor(OFFSET_BASIS, 97) == 0x811c9da4
  {
    XorZero(16922939);
    XorHalves(33845879, 1, 16922939);
    XorHalves(67691758, 3, 33845878);
    XorHalves(135383516, 6, 67691757);
    XorHalves(270767032, 12, 135383514);
    XorHalves(541534065, 24, 270767028);
    XorHalves(1083068130, 48, 541534057);
    XorHalves(2166136261, 97, 1083068114);
  }

  lemma OneUnit(c: CodeUnit, x: nat)
    requires Xor(OFFSET_BASIS, c) == x
    ensures Fnv([]) == OFFSET_BASIS && Fnv([c]) == (x * PRIME) % WORD
  {
    assert [c][..0] == [];
  }

  lemma StepOnA()
    ensures (0x811c9da4 * PRIME) % WORD == 0xe40c292c
  {
    assert 0x811c9da4 * PRIME == 0xe40c292c + 8461672 * WORD;
  }

  /** Published test vectors of the 32-bit FNV-1a hash: the empty text and "a". */
  lemma KnownHashes()
    ensures Fnv([]) == 0x811c9dc5 && Fnv([97]) == 0xe40c292c
  {
    OffsetXorA();
    OneUnit(97, 0x811c9da4);
    StepOnA();
  }

  /** One step undone: multiply by the inverse of the prime, then take the code unit off again. */
  function FnvUnstep(h: nat, c: CodeUnit): nat { Xor((h * PRIME_INVERSE) % WORD, c) }

  lemma PrimeInverts(x: nat)
    requires x < WORD
    ensures (((x * PRIME) % WORD) * PRIME_INVERSE) % WORD == x
    ensures (((x * PRIME_INVERSE) % WORD) * PRIME) % WORD == x
  {
    assert PRIME * PRIME_INVERSE == 1 + WORD * 3513497;
    var q := (x * PRIME) / WORD;
    assert ((x * PRIME) % WORD) * PRIME_INVERSE == x + (x * 3513497 - q * PRIME_INVERSE) * WORD;
    AddMultiple(x, x * 3513497 - q * PRIME_INVERSE);
    var q' := (x * PRIME_INVERSE) / WORD;
    assert ((x * PRIME_INVERSE) % WORD) * PRIME == x + (x * 3513497 - q' * PRIME) * WORD;
    AddMultiple(x, x * 3513497 - q' * PRIME);
  }

  /** For every code unit a step is a bijection on 32-bit words, because the prime is odd. */
  lemma StepIsBijective(h: nat, c: CodeUnit)
    requires h < WORD
    ensures FnvUnstep(FnvStep(h, c), c) == h
    ensures FnvUnstep(h, c) < WORD && FnvStep(FnvUnstep(h, c), c) == h
  {
    XorWord(h, c);
    PrimeInverts(Xor(h, c));
    XorCancels(h, c);
    var u := (h * PRIME_INVERSE) % WORD;
    XorWord(u, c);
    XorCancels(u, c);
    PrimeInverts(h);
  }

  /** From one word, two different code units lead to two different words. */
  lemma StepSeparates(h: nat, c: CodeUnit, d: CodeUnit)
    requires h < WORD && c != d
    ensures FnvStep(h, c) != FnvStep(h, d)
  {
    XorWord(h, c);
    XorWord(h, d);
    PrimeInverts(Xor(h, c));
    PrimeInverts(Xor(h, d));
    XorCommutes(h, c);
    XorCommutes(h, d);
    XorCancels(c, h);
    XorCancels(d, h);
  }

  /** Equal tails keep different prefixes apart. */
  lemma {:induction false} TailKeepsApart(s: JsString, t: JsString, k: nat)
    requires |s| == |t| && k <= |s|
    requires Fnv(s[..k]) != Fnv(t[..k])
    requires forall i :: k <= i < |s| ==> s[i] == t[i]
    ensures Fnv(s) != Fnv(t)
    decreases |s| - k
  {
    if k == |s| {
      assert s[..k] == s && t[..k] == t;
    } else {
      assert s[..k + 1][..k] == s[..k] && t[..k + 1][..k] == t[..k];
      FnvIsWord(s[..k]);
      FnvIsWord(t[..k]);
      StepIsBijective(Fnv(s[..k]), s[k]);
      StepIsBijective(Fnv(t[..k]), s[k]);
      TailKeepsApart(s, t, k + 1);
    }
  }

  /** Two strings of one length that differ in exactly one code unit never collide. */
  lemma OneUnitApartNeverCollide(s: JsString, t: JsString, k: nat)
    requires |s| == |t| && k < |s| && s[k] != t[k]
    requires forall i :: 0 <= i < |s| && i != k ==> s[i] == t[i]
    ensures Fnv(s) != Fnv(t)
  {
    assert s[..k] == t[..k];
    assert s[..k + 1][..k] == s[..k] && t[..k + 1][..k] == t[..k];
    FnvIsWord(s[..k]);
    StepSeparates(Fnv(s[..k]), s[k], t[k]);
    TailKeepsApart(s, t, k + 1);
  }

  // ---------------------------------------------------------------- identifiers

  predicate HasHexPrefix(id: JsString) { |id| >= 2 && IsHexDigit(id[0]) && IsHexDigit(id[1]) }

  /** The bucket an identifier belongs to: its prefix, or its hash when it has none. */
  function BucketOf(id: JsString): nat {
    if HasHexPrefix(id) then (16 * DigitValue(id[0]) + DigitValue(id[1])) % BUCKETS else Fnv(id) % BUCKETS
  }

  function PadStart2(s: JsString): JsString {
    if |s| >= 2 then s else if |s| == 1 then [48] + s else [48, 48]
  }

  /** A UUID text whose first byte is replaced by the bucket. */
  function IdInBucket(bucket: nat, uuid: JsString): JsString {
    PadStart2(Render(bucket, 16)) + (if |uuid| < 2 then [] else uuid[2..])
  }

  /** The identifier of a room or a booking, in the bucket of its parent. */
  function ChildId(parentId: JsString, uuid: JsString): JsString { IdInBucket(BucketOf(parentId), uuid) }

  lemma TwoDigits(b: nat)
    requires b < 256
    ensures PadStart2(Render(b, 16)) == [Digit(b / 16), Digit(b % 16)]
  {
    if b >= 16 { assert Render(b / 16, 16) == [Digit(b / 16)]; }
  }

  /** Every identifier routes to one of the 64 buckets. */
  lemma BucketOfInRange(id: JsString)
    ensures 0 <= BucketOf(id) < BUCKETS
  {}

  /** A bucket written into an identifier is read back exactly when it is one of the 64. */
  /** What is left of a number above a multiple of 64. */
  ghost predicate IsResidue(n: nat, b: nat) { b < 64 && exists k: nat :: n == 64 * k + b }

  /** An identifier's bucket: its first byte, when it is written in hexadecimal digits, and its hash otherwise, modulo 64. */
  lemma BucketOfExactly(id: JsString)
    ensures |id| >= 2 && DigitValue(id[0]) >= 0 && DigitValue(id[1]) >= 0 ==>
      IsResidue(16 * DigitValue(id[0]) + DigitValue(id[1]), BucketOf(id))
    ensures !(|id| >= 2 && DigitValue(id[0]) >= 0 && DigitValue(id[1]) >= 0) ==> IsResidue(Fnv(id), BucketOf(id))
  {
    var n := if HasHexPrefix(id) then 16 * DigitValue(id[0]) + DigitValue(id[1]) else Fnv(id);
    assert n == 64 * (n / 64) + n % 64;
  }

  lemma BucketRoundTrip(bucket: nat, uuid: JsString)
    ensures BucketOf(IdInBucket(bucket, uuid)) == bucket <==> bucket < BUCKETS
  {
    if bucket < BUCKETS {
      TwoDigits(bucket);
      var id := IdInBucket(bucket, uuid);
      assert id[0] == Digit(bucket / 16) && id[1] == Digit(bucket % 16);
      assert 16 * (bucket / 16) + bucket % 16 == bucket;
    } else {
      BucketOfInRange(IdInBucket(bucket, uuid));
    }
  }

  /** A child stays in its parent's bucket, whatever string the parent's identifier is. */
  lemma ChildKeepsBucket(parentId: JsString, uuid: JsString)
    ensures BucketOf(ChildId(parentId, uuid)) == BucketOf(parentId)
  {
    BucketOfInRange(parentId);
    BucketRoundTrip(BucketOf(parentId), uuid);
  }

  /** The text layout of a version 4 UUID (section 5.4 of RFC 9562), lower case. */
  predicate IsUuidV4(id: JsString) {
    |id| == 36 &&
    (forall i :: 0 <= i < 36 ==>
      if i == 8 || i == 13 || i == 18 || i == 23 then id[i] == HYPHEN
      else DigitValue(id[i]) >= 0 && id[i] == Digit(DigitValue(id[i]))) &&
    DigitValue(id[14]) == 4 &&
    8 <= DigitValue(id[19]) < 12
  }

  /** Writing the bucket into a UUID keeps its layout, its version and its variant, and every unit past the first byte. */
  lemma LayoutKept(bucket: nat, uuid: JsString)
    requires bucket < BUCKETS && IsUuidV4(uuid)
    ensures IsUuidV4(IdInBucket(bucket, uuid))
    ensures IdInBucket(bucket, uuid)[2..] == uuid[2..]
  {
    TwoDigits(bucket);
    var id := IdInBucket(bucket, uuid);
    assert forall i :: 2 <= i < 36 ==> id[i] == uuid[i];
  }
}
