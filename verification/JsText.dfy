/**
 JavaScript strings as sequences of UTF-16 code units, with the few string operations the
 router and the bucket-map parser use: digits in a radix, trim and split.
 */
module JsText {
  type CodeUnit = u: int | 0 <= u < 0x1_0000
  type JsString = seq<CodeUnit>

  /** Identifiers of rows. */
  type Id = JsString

  const COMMA: CodeUnit := 44
  const HYPHEN: CodeUnit := 45
  const COLON: CodeUnit := 58

  // ---------------------------------------------------------------- digits

  /** The lower-case digit for d, as Number.prototype.toString writes it. */
  function Digit(d: nat): (c: CodeUnit)
    requires d < 16
    ensures DigitValue(c) == d
  {
    if d < 10 then 48 + d else 87 + d
  }

  /** The value of a hexadecimal digit in either case, or -1 for any other code unit. */
  function DigitValue(c: CodeUnit): (v: int)
    ensures -1 <= v < 16
  {
    if 48 <= c <= 57 then c - 48
    else if 97 <= c <= 102 then c - 87
    else if 65 <= c <= 70 then c - 55
    else -1
  }

  predicate IsHexDigit(c: CodeUnit) { DigitValue(c) >= 0 }

  predicate IsDecimalDigit(c: CodeUnit) { 48 <= c <= 57 }

  predicate AllDecimal(s: JsString) { forall i :: 0 <= i < |s| ==> IsDecimalDigit(s[i]) }

  /** n.toString(radix). */
  function Render(n: nat, radix: nat): (s: JsString)
    requires 2 <= radix <= 16
    ensures |s| >= 1
    ensures forall i :: 0 <= i < |s| ==> 0 <= DigitValue(s[i]) < radix && s[i] == Digit(DigitValue(s[i]))
    decreases n
  {
    if n < radix then [Digit(n)] else Render(n / radix, radix) + [Digit(n % radix)]
  }

  /** Number(s) for a string of decimal digits. */
  function DecimalValue(s: JsString): nat
    requires AllDecimal(s)
  {
    if s == [] then 0 else 10 * DecimalValue(s[..|s| - 1]) + DigitValue(s[|s| - 1])
  }

  function Pow10(n: nat): nat { if n == 0 then 1 else 10 * Pow10(n - 1) }

  /** Digits are read in positional notation, leading zeros included. */
  lemma {:induction false} DecimalIsPositional(s: JsString, t: JsString)
    requires AllDecimal(s) && AllDecimal(t)
    ensures DecimalValue(s + t) == DecimalValue(s) * Pow10(|t|) + DecimalValue(t)
    ensures |t| == 1 ==> DecimalValue(t) == t[0] - 48
  {
    if t == [] {
      assert s + t == s;
    } else {
      var init := t[..|t| - 1];
      assert (s + t)[..|s + t| - 1] == s + init;
      DecimalIsPositional(s, init);
      assert DecimalValue(s) * Pow10(|t|) == 10 * (DecimalValue(s) * Pow10(|init|));
    }
  }

  /** Reading back what toString wrote gives the number again. */
  lemma {:induction false} DecimalRoundTrip(n: nat)
    ensures AllDecimal(Render(n, 10))
    ensures DecimalValue(Render(n, 10)) == n
  {
    if n < 10 {
      assert Render(n, 10)[..0] == [];
    } else {
      DecimalRoundTrip(n / 10);
      var s := Render(n, 10);
      assert s[..|s| - 1] == Render(n / 10, 10);
      assert s[|s| - 1] == Digit(n % 10);
    }
  }

  // ---------------------------------------------------------------- trim

  /** White space and line terminators in the sense of String.prototype.trim. */
  predicate IsSpace(c: CodeUnit) {
    9 <= c <= 13 || c == 0x20 || c == 0xA0 || c == 0x1680 || 0x2000 <= c <= 0x200A ||
    c == 0x2028 || c == 0x2029 || c == 0x202F || c == 0x205F || c == 0x3000 || c == 0xFEFF
  }

  function TrimStart(s: JsString): JsString {
    if s != [] && IsSpace(s[0]) then TrimStart(s[1..]) else s
  }

  function TrimEnd(s: JsString): JsString {
    if s != [] && IsSpace(s[|s| - 1]) then TrimEnd(s[..|s| - 1]) else s
  }

  function Trim(s: JsString): JsString { TrimEnd(TrimStart(s)) }

  predicate AllSpace(s: JsString) { forall i :: 0 <= i < |s| ==> IsSpace(s[i]) }

  lemma {:induction false} TrimStartCuts(s: JsString) returns (a: JsString)
    ensures s == a + TrimStart(s) && AllSpace(a) && (TrimStart(s) != [] ==> !IsSpace(TrimStart(s)[0]))
  {
    if s != [] && IsSpace(s[0]) {
      var b := TrimStartCuts(s[1..]);
      a := [s[0]] + b;
    } else {
      a := [];
    }
  }

  lemma {:induction false} TrimEndCuts(s: JsString) returns (b: JsString)
    ensures s == TrimEnd(s) + b && AllSpace(b) && (TrimEnd(s) != [] ==> !IsSpace(TrimEnd(s)[|TrimEnd(s)| - 1]))
  {
    if s != [] && IsSpace(s[|s| - 1]) {
      var c := TrimEndCuts(s[..|s| - 1]);
      b := c + [s[|s| - 1]];
    } else {
      b := [];
    }
  }

  /** Trimming cuts white space off both ends, and all of it. */
  lemma TrimExactly(s: JsString) returns (a: JsString, b: JsString)
    ensures s == a + Trim(s) + b && AllSpace(a) && AllSpace(b)
    ensures Trim(s) != [] ==> !IsSpace(Trim(s)[0]) && !IsSpace(Trim(s)[|Trim(s)| - 1])
  {
    a := TrimStartCuts(s);
    b := TrimEndCuts(TrimStart(s));
    assert Trim(s) != [] ==> Trim(s)[0] == TrimStart(s)[0];
  }

  // ---------------------------------------------------------------- split

  /** s.split(sep) for a one-unit separator. */
  function Split(s: JsString, sep: CodeUnit): (parts: seq<JsString>)
    ensures |parts| >= 1
  {
    if s == [] then [[]]
    else
      var rest := Split(s[1..], sep);
      if s[0] == sep then [[]] + rest else [[s[0]] + rest[0]] + rest[1..]
  }

  function Join(parts: seq<JsString>, sep: CodeUnit): JsString
    requires |parts| >= 1
  {
    if |parts| == 1 then parts[0] else parts[0] + [sep] + Join(parts[1..], sep)
  }

  /** Splitting a join gives the parts back when no part holds the separator. */
  lemma {:induction false} SplitJoin(parts: seq<JsString>, sep: CodeUnit)
    requires |parts| >= 1
    requires forall i :: 0 <= i < |parts| ==> sep !in parts[i]
    ensures Split(Join(parts, sep), sep) == parts
    decreases |parts|, if |parts| > 0 then |parts[0]| else 0
  {
    var head := parts[0];
    if head == [] {
      if |parts| == 1 {
      } else {
        assert Join(parts, sep)[1..] == Join(parts[1..], sep);
        SplitJoin(parts[1..], sep);
      }
    } else {
      var shorter := [head[1..]] + parts[1..];
      if |parts| == 1 {
        assert shorter == [head[1..]];
      } else {
        assert shorter[1..] == parts[1..];
      }
      assert Join(parts, sep) == [head[0]] + Join(shorter, sep);
      assert head[0] in head;
      SplitJoin(shorter, sep);
      assert Join(parts, sep)[1..] == Join(shorter, sep);
      assert [head[0]] + head[1..] == head;
    }
  }
}
