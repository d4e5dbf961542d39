/** JavaScript values and the string built-ins the model relies on. */
module Js {

  datatype Option<+T> = None | Some(value: T)

  /** A value as JSON.parse or an object literal produces it. An object is
      represented by its entries in the order Object.entries yields them.
      JavaScript's `undefined` behaves like `null` in every function modelled
      here, so JNull stands for both. Numbers are integers. */
  datatype Json =
    | JNull
    | JBool(b: bool)
    | JNum(n: int)
    | JStr(s: string)
    | JArr(items: seq<Json>)
    | JObj(fields: seq<Field>)

  datatype Field = Field(key: string, val: Json)

  /** JavaScript truthiness: null, false, 0 and "" are falsy; arrays and
      objects (even empty ones) are truthy. */
  predicate Truthy(v: Json) {
    match v
    case JNull => false
    case JBool(b) => b
    case JNum(n) => n != 0
    case JStr(s) => s != ""
    case JArr(_) => true
    case JObj(_) => true
  }

  /** Property access `v[key]`: the value of the first entry named `key` of an
      object, None (undefined) when there is none or `v` is not an object. */
  function Get(v: Json, key: string): (r: Option<Json>)
    ensures r.Some? <==> v.JObj? && exists i :: 0 <= i < |v.fields| && v.fields[i].key == key
    ensures r.Some? ==> exists i :: 0 <= i < |v.fields| && v.fields[i] == Field(key, r.value)
  {
    if v.JObj? then FindField(v.fields, key) else None
  }

  function FindField(fields: seq<Field>, key: string): (r: Option<Json>)
    ensures r.Some? <==> exists i :: 0 <= i < |fields| && fields[i].key == key
    ensures r.Some? ==> exists i :: 0 <= i < |fields| && fields[i] == Field(key, r.value)
  {
    if fields == [] then None
    else if fields[0].key == key then Some(fields[0].val)
    else
      var r := FindField(fields[1..], key);
      assert forall i :: 0 <= i < |fields| - 1 ==> fields[1..][i] == fields[i + 1];
      r
  }

  /** `s || fallback` for an optional text field: absent and empty both fall back. */
  function OrElse(s: Option<string>, fallback: string): (r: string)
    ensures r == fallback <==> s == None || s.value == "" || s.value == fallback
    ensures r != fallback ==> s == Some(r)
  {
    if s.Some? && s.value != "" then s.value else fallback
  }

  /** `parts.join(sep)` */
  function Join(parts: seq<string>, sep: string): (r: string)
    ensures parts == [] ==> r == ""
    ensures |parts| == 1 ==> r == parts[0]
  {
    if parts == [] then ""
    else if |parts| == 1 then parts[0]
    else parts[0] + sep + Join(parts[1..], sep)
  }

  /** `s.replace(/c/g, rep)` for a single character `c`. */
  function ReplaceChar(s: string, c: char, rep: string): (r: string)
    ensures c !in rep ==> c !in r
  {
    if s == [] then ""
    else (if s[0] == c then rep else [s[0]]) + ReplaceChar(s[1..], c, rep)
  }

  /** Replacing brings in no character that neither the text nor the
      replacement holds. */
  lemma {:induction false} ReplaceCharKeepsAbsent(s: string, c: char, rep: string, x: char)
    requires x !in s && x !in rep
    ensures x !in ReplaceChar(s, c, rep)
  {
    if s != [] {
      assert x !in s[1..];
      ReplaceCharKeepsAbsent(s[1..], c, rep, x);
    }
  }

  /** Replacing a character the text does not hold changes nothing. */
  lemma {:induction false} ReplaceCharAbsent(s: string, c: char, rep: string)
    requires c !in s
    ensures ReplaceChar(s, c, rep) == s
  {
    if s != [] {
      assert s[0] != c && c !in s[1..];
      ReplaceCharAbsent(s[1..], c, rep);
      assert s == [s[0]] + s[1..];
    }
  }

  lemma {:induction false} ReplaceCharAppend(a: string, b: string, c: char, rep: string)
    ensures ReplaceChar(a + b, c, rep) == ReplaceChar(a, c, rep) + ReplaceChar(b, c, rep)
  {
    if a != [] {
      assert (a + b)[0] == a[0] && (a + b)[1..] == a[1..] + b;
      ReplaceCharAppend(a[1..], b, c, rep);
      var head := if a[0] == c then rep else [a[0]];
      assert ReplaceChar(a, c, rep) == head + ReplaceChar(a[1..], c, rep);
    } else {
      assert a + b == b;
    }
  }

  /** `s.split(sep)[0]`: the text before the first `sep`, or all of `s`. */
  function BeforeFirst(s: string, sep: char): (r: string)
    ensures sep !in r
    ensures |r| <= |s| && r == s[..|r|]
    ensures |r| < |s| ==> s[|r|] == sep
    ensures sep !in s ==> r == s
  {
    if s == [] then ""
    else if s[0] == sep then ""
    else [s[0]] + BeforeFirst(s[1..], sep)
  }

  /** The characters String.prototype.trim removes: ECMAScript WhiteSpace
      and LineTerminator code points. */
  predicate IsWhitespace(c: char) {
    ('\U{0009}' <= c <= '\U{000D}') || c == ' ' || c == '\U{00A0}' || c == '\U{1680}'
    || ('\U{2000}' <= c <= '\U{200A}') || c == '\U{2028}' || c == '\U{2029}'
    || c == '\U{202F}' || c == '\U{205F}' || c == '\U{3000}' || c == '\U{FEFF}'
  }

  /** `s.trim() === ''` */
  predicate IsBlank(s: string) {
    forall i :: 0 <= i < |s| ==> IsWhitespace(s[i])
  }

  /** Length as JavaScript counts it: UTF-16 code units, so a character
      outside the Basic Multilingual Plane counts twice. */
  function Utf16Length(s: string): (n: nat)
    ensures |s| <= n <= 2 * |s|
    ensures (forall i :: 0 <= i < |s| ==> s[i] < '\U{10000}') ==> n == |s|
    ensures |s| == 1 ==> (n == 2 <==> s[0] >= '\U{10000}')
  {
    if s == [] then 0
    else (if s[0] < '\U{10000}' then 1 else 2) + Utf16Length(s[1..])
  }

  /** The length of a concatenation is the sum of the lengths: together with
      the one-character case, each character counts 1, or 2 (a surrogate pair)
      outside the Basic Multilingual Plane. */
  lemma {:induction false} Utf16LengthAppend(a: string, b: string)
    ensures Utf16Length(a + b) == Utf16Length(a) + Utf16Length(b)
  {
    if a == [] {
      assert a + b == b;
    } else {
      assert (a + b)[0] == a[0] && (a + b)[1..] == a[1..] + b;
      Utf16LengthAppend(a[1..], b);
    }
  }

  // ---------------------------------------------------------------------
  // Math.min, Math.max, Math.abs and Math.round on integers and ratios

  function Min(a: int, b: int): int { if a <= b then a else b }

  function Max(a: int, b: int): int { if a >= b then a else b }

  function Abs(a: int): nat { if a < 0 then -a else a }

  /** Math.round(num / den): the integer nearest to the ratio, halves
      rounded up (towards +infinity), computed exactly. */
  function RoundRatio(num: int, den: int): (r: int)
    requires den > 0
    ensures 2 * den * r - den <= 2 * num < 2 * den * r + den
  {
    var q := (2 * num + den) / (2 * den);
    var m := (2 * num + den) % (2 * den);
    assert 2 * num + den == 2 * den * q + m && 0 <= m < 2 * den;
    q
  }

  lemma MulAtLeast(d: int, t: int)
    requires d > 0 && t >= 1
    ensures d * t >= d
  {
    assert d * t == d + d * (t - 1);
  }

  /** Math.round(num / den) is the only integer within half of the ratio. */
  lemma RoundRatioUnique(num: int, den: int, x: int)
    requires den > 0
    requires 2 * den * x - den <= 2 * num < 2 * den * x + den
    ensures RoundRatio(num, den) == x
  {
    var r := RoundRatio(num, den);
    if r > x {
      MulAtLeast(2 * den, r - x);
    } else if r < x {
      MulAtLeast(2 * den, x - r);
    }
  }

  /** The sign of a product with a positive factor is the sign of the other factor. */
  lemma MulSign(q: int, t: int)
    requires q > 0
    ensures t > 0 ==> q * t > 0
    ensures t <= 0 ==> q * t <= 0
  {
    if t > 0 {
      MulAtLeast(q, t);
    } else if t < 0 {
      MulAtLeast(q, -t);
      assert q * -t == -(q * t);
    }
  }

  lemma ScaledProducts(p: int, q: int, k: int, r: int)
    ensures 2 * q * r + q == q * (2 * r + 1)
    ensures 2 * q * r - q - 2 * (k * q) == q * (2 * r - 1 - 2 * k)
    ensures k * q - k * p == k * (q - p)
  {
  }

  /** Math.round(p / q * k) for 0 <= p <= q lies in [0, k]. */
  lemma RoundRatioScaledBounds(p: int, q: int, k: int)
    requires q > 0 && 0 <= p <= q && k >= 0
    ensures 0 <= RoundRatio(k * p, q) <= k
  {
    var r := RoundRatio(k * p, q);
    ScaledProducts(p, q, k, r);
    if k > 0 {
      MulSign(k, p);
      MulSign(k, q - p);
    }
    // 0 <= k * p <= k * q, and r is within half of (k * p) / q
    MulSign(q, 2 * r + 1);
    MulSign(q, 2 * r - 1 - 2 * k);
  }

  // ---------------------------------------------------------------------
  // Decimal rendering of integers (`${n}` / String(n)) and its inverse

  function DigitChar(d: nat): (c: char)
    requires d < 10
    ensures '0' <= c <= '9'
  {
    "0123456789"[d]
  }

  function DigitValue(c: char): nat
    requires '0' <= c <= '9'
  {
    (c as int - '0' as int) as nat
  }

  predicate AllDigits(s: string) {
    forall i :: 0 <= i < |s| ==> '0' <= s[i] <= '9'
  }

  /** The decimal form of a natural number, without leading zeros. */
  function NatToString(n: nat): (s: string)
    ensures s != [] && AllDigits(s)
    ensures s[0] == '0' ==> n == 0
    decreases n
  {
    if n < 10 then [DigitChar(n)] else NatToString(n / 10) + [DigitChar(n % 10)]
  }

  /** The value a string of decimal digits denotes. */
  function DigitsValue(s: string): nat
    requires AllDigits(s)
  {
    if s == [] then 0 else DigitsValue(s[..|s| - 1]) * 10 + DigitValue(s[|s| - 1])
  }

  /** Reading the rendered digits back gives the number: the rendering is exact. */
  lemma {:induction false} NatToStringRoundTrip(n: nat)
    ensures DigitsValue(NatToString(n)) == n
    decreases n
  {
    var s := NatToString(n);
    if n < 10 {
      assert DigitValue("0123456789"[n]) == n;
    } else {
      NatToStringRoundTrip(n / 10);
      var p := NatToString(n / 10);
      assert s == p + [DigitChar(n % 10)];
      assert s[..|s| - 1] == p;
      assert DigitValue("0123456789"[n % 10]) == n % 10;
    }
  }

  /** `${n}` for an integer: decimal digits, with a leading '-' when negative. */
  function IntToString(n: int): (s: string)
    ensures s != []
    ensures (s[0] == '-') <==> n < 0
    ensures n < 0 ==> s[1..] == NatToString(-n)
    ensures n >= 0 ==> s == NatToString(n)
  {
    if n < 0 then "-" + NatToString(-n) else NatToString(n)
  }
}
