/**
 * The JavaScript string machinery the block hash is built from: the decimal
 * text of a number, the string of zeros the mining target is compared with,
 * `String.prototype.substring(0, d)`, and the two library calls (SHA-256 and
 * `JSON.stringify`), which are kept abstract and passed in as a `Hasher`.
 */
module Encoding {

  /** A JSON-serialisable payload, the `data` a block carries. */
  datatype Json =
    | JNull
    | JBool(b: bool)
    | JNumber(n: int)
    | JString(s: string)
    | JArray(items: seq<Json>)
    | JObject(members: seq<(string, Json)>)

  /**
   * The two library functions the hash depends on: `SHA256(..).toString()`
   * from crypto-js and `JSON.stringify`. Neither body is modelled; every
   * operation that hashes takes the pair as a parameter.
   */
  datatype Hasher = Hasher(sha256: string -> string, stringify: Json -> string)

  /** No two inputs share an output; assumed explicitly wherever a proof needs it. */
  ghost predicate Injective<A(!new), B>(f: A -> B)
  {
    forall x, y :: f(x) == f(y) ==> x == y
  }

  /** The character of a decimal digit. */
  function DigitChar(d: nat): (c: char)
    requires d < 10
    ensures '0' <= c <= '9'
    ensures DigitOf(c) == d
  {
    (d + '0' as int) as char
  }

  predicate IsDigit(c: char)
  {
    '0' <= c <= '9'
  }

  /** The value of a decimal digit character. */
  function DigitOf(c: char): int
  {
    c as int - '0' as int
  }

  predicate AllDigits(s: string)
  {
    forall i :: 0 <= i < |s| ==> IsDigit(s[i])
  }

  /** A numeral as JavaScript writes a non-negative integer up to 2^53: digits only, no leading zero except in "0". */
  predicate Canonical(s: string)
  {
    s != [] && AllDigits(s) && (|s| > 1 ==> s[0] != '0')
  }

  /** The number a string of decimal digits denotes, read most significant digit first. */
  function DigitsValue(s: string): nat
    requires AllDigits(s)
  {
    if s == [] then 0 else DigitsValue(s[..|s| - 1]) * 10 + DigitOf(s[|s| - 1])
  }

  /**
   * The text JavaScript produces when a non-negative integer up to 2^53 is
   * concatenated to a string; larger numbers are written with their exact
   * digits, which JavaScript does not do.
   */
  function Decimal(n: nat): (r: string)
    ensures Canonical(r)
    ensures n < 10 <==> |r| == 1
  {
    if n < 10 then [DigitChar(n)] else Decimal(n / 10) + [DigitChar(n % 10)]
  }

  /** Reading back the text of a number gives the number. */
  lemma {:induction false} DecimalRoundTrip(n: nat)
    ensures DigitsValue(Decimal(n)) == n
  {
    if n >= 10 {
      var r := Decimal(n);
      assert r[..|r| - 1] == Decimal(n / 10);
      DecimalRoundTrip(n / 10);
    }
  }

  /** A numeral with a non-zero leading digit denotes a positive number. */
  lemma {:induction false} LeadingDigitPositive(s: string)
    requires s != [] && AllDigits(s) && s[0] != '0'
    ensures DigitsValue(s) > 0
  {
    if |s| > 1 {
      LeadingDigitPositive(s[..|s| - 1]);
    }
  }

  /** Every canonical numeral is the text of the number it denotes. */
  lemma {:induction false} CanonicalRoundTrip(s: string)
    requires Canonical(s)
    ensures Decimal(DigitsValue(s)) == s
  {
    if |s| > 1 {
      var t := s[..|s| - 1];
      LeadingDigitPositive(t);
      CanonicalRoundTrip(t);
      var n := DigitsValue(s);
      assert n / 10 == DigitsValue(t) && n % 10 == DigitOf(s[|s| - 1]);
      assert DigitChar(n % 10) == s[|s| - 1];
      assert s == t + [s[|s| - 1]];
    } else {
      assert s[..0] == [];
      assert IsDigit(s[0]) && DigitsValue(s) == DigitOf(s[0]);
      assert DigitChar(DigitsValue(s)) == s[0];
    }
  }

  /** Different numbers have different texts. */
  lemma DecimalInjective(m: nat, n: nat)
    requires Decimal(m) == Decimal(n)
    ensures m == n
  {
    DecimalRoundTrip(m);
    DecimalRoundTrip(n);
  }

  /** The text JavaScript produces for a property that has not been assigned yet. */
  const Undefined: string := "undefined"

  /** `Array(d + 1).join("0")`: `d + 1` empty slots joined by `d` separators. */
  function Zeros(d: nat): (r: string)
    ensures |r| == d
    ensures forall i :: 0 <= i < d ==> r[i] == '0'
  {
    if d == 0 then "" else Zeros(d - 1) + "0"
  }

  /** `s.substring(0, d)` for `d >= 0`: the first `d` characters, or all of `s` when it is shorter. */
  function Prefix(s: string, d: nat): string
  {
    if d <= |s| then s[..d] else s
  }

  /** `substring(0, d)` is the prefix of `s` whose length is the smaller of `d` and `|s|`. */
  lemma PrefixIsSubstring(s: string, d: nat)
    ensures Prefix(s, d) <= s
    ensures |Prefix(s, d)| == if d <= |s| then d else |s|
  {
  }

  /** The mining loop's exit test: `hash.substring(0, d) === stringOfZeros`. */
  predicate MeetsDifficulty(hash: string, d: nat)
  {
    Prefix(hash, d) == Zeros(d)
  }

  /** The exit test holds exactly when the hash is long enough and starts with `d` zeros. */
  lemma MeetsDifficultyIff(hash: string, d: nat)
    ensures MeetsDifficulty(hash, d) <==> d <= |hash| && forall i :: 0 <= i < d ==> hash[i] == '0'
  {
  }

  /** An empty target is met by every hash, so mining with difficulty 0 never iterates. */
  lemma ZeroDifficultyAlwaysMet(hash: string)
    ensures MeetsDifficulty(hash, 0)
  {
  }

  /** Removing a common prefix and a common suffix keeps two strings apart. */
  lemma ConcatCancel(a: string, x: string, y: string, b: string)
    requires a + x + b == a + y + b
    ensures x == y
  {
    var s := a + x + b;
    assert |x| == |y|;
    assert x == s[|a|..|a| + |x|];
    assert y == (a + y + b)[|a|..|a| + |y|];
  }

  /** `"undefined"` ends in a letter and a number's text ends in a digit, so the two endings keep any strings apart. */
  lemma UndefinedIsNotDecimal(a: string, b: string, n: nat)
    ensures a + Undefined != b + Decimal(n)
  {
    var d := Decimal(n);
    if |a + Undefined| == |b + d| {
      var last := |a + Undefined| - 1;
      assert (a + Undefined)[last] == 'd' != d[|d| - 1] == (b + d)[last];
    }
  }
}
