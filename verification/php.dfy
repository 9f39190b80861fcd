/**
 * The fragment of PHP's value model and standard string functions that the
 * driver's pure logic relies on: ordered arrays, truthiness, the `(string)`
 * and `(int)` casts, `explode`/`implode`, `str_replace`, `strtolower`, `ltrim`.
 * Integers are unbounded here; PHP's 64-bit saturation is not modelled.
 */
module Php {
  import opened Wrappers

  /** An array key: PHP arrays are ordered maps keyed by int or string. */
  datatype Key = IntKey(i: int) | StrKey(s: string)

  /** A PHP value as far as the driver inspects it (floats are not modelled). */
  datatype Value =
    | Null
    | Bool(b: bool)
    | Int(i: int)
    | Str(s: string)
    | Arr(entries: seq<Entry>)

  /** One key/value pair of an ordered array. */
  datatype Entry = Entry(key: Key, value: Value)

  /**
   * The two branches of PHP's `Throwable` hierarchy: a `catch (\Exception)`
   * or `catch (SomeException)` clause never stops an `\Error`.
   */
  datatype ThrowableClass = ErrorClass | ExceptionClass

  // ---------------------------------------------------------------------------
  // Ordered arrays
  // ---------------------------------------------------------------------------

  /** PHP arrays never hold the same key twice. */
  ghost predicate DistinctKeys(a: seq<Entry>) {
    forall i, j :: 0 <= i < j < |a| ==> a[i].key != a[j].key
  }

  predicate HasKey(a: seq<Entry>, k: Key) {
    exists i :: 0 <= i < |a| && a[i].key == k
  }

  lemma HasKeyCons(a: seq<Entry>, k: Key)
    requires |a| > 0
    ensures HasKey(a, k) <==> a[0].key == k || HasKey(a[1..], k)
  {
    if HasKey(a, k) && a[0].key != k {
      var i :| 0 <= i < |a| && a[i].key == k;
      assert a[1..][i - 1].key == k;
    }
    if HasKey(a[1..], k) {
      var i :| 0 <= i < |a[1..]| && a[1..][i].key == k;
      assert a[i + 1].key == k;
    }
  }

  /** `$a[$k]`, or None when the key is absent. */
  function Lookup(a: seq<Entry>, k: Key): (r: Option<Value>)
    ensures r.Some? <==> HasKey(a, k)
  {
    if |a| == 0 then None
    else
      HasKeyCons(a, k);
      if a[0].key == k then Some(a[0].value) else Lookup(a[1..], k)
  }

  /** `isset($a[$k])`: the key is present and its value is not null. */
  predicate IsSet(a: seq<Entry>, k: Key) {
    var v := Lookup(a, k); v.Some? && !v.value.Null?
  }

  /** `$a[$k] ?? $default`. */
  function Coalesce(a: seq<Entry>, k: Key, default: Value): (r: Value)
    ensures IsSet(a, k) ==> Some(r) == Lookup(a, k)
    ensures !IsSet(a, k) ==> r == default
  {
    if IsSet(a, k) then Lookup(a, k).value else default
  }

  /** `$a[$k] = $v`: overwrites in place when the key exists, appends otherwise. */
  function Assign(a: seq<Entry>, k: Key, v: Value): (r: seq<Entry>)
    ensures Lookup(r, k) == Some(v)
    ensures forall k' :: k' != k ==> Lookup(r, k') == Lookup(a, k')
    ensures !HasKey(a, k) ==> r == a + [Entry(k, v)]
  {
    if |a| == 0 then [Entry(k, v)]
    else
      HasKeyCons(a, k);
      if a[0].key == k then [Entry(k, v)] + a[1..]
      else [a[0]] + Assign(a[1..], k, v)
  }

  /** `array_diff_key($a, $b)`: the entries of `a` whose key `b` does not hold. */
  function DiffKeys(a: seq<Entry>, b: seq<Entry>): (r: seq<Entry>)
    ensures forall k :: Lookup(r, k) == (if HasKey(b, k) then None else Lookup(a, k))
    ensures forall e :: e in r <==> e in a && !HasKey(b, e.key)
  {
    if |a| == 0 then []
    else if HasKey(b, a[0].key) then DiffKeys(a[1..], b)
    else [a[0]] + DiffKeys(a[1..], b)
  }

  /** `$a + $b`: every entry of `a`, then the entries of `b` with new keys. */
  function Plus(a: seq<Entry>, b: seq<Entry>): (r: seq<Entry>)
    ensures forall k :: Lookup(r, k) == (if HasKey(a, k) then Lookup(a, k) else Lookup(b, k))
  {
    var d := DiffKeys(b, a);
    LookupConcat(a, d);
    a + d
  }

  lemma LookupConcat(a: seq<Entry>, b: seq<Entry>)
    ensures forall k :: Lookup(a + b, k) == (if HasKey(a, k) then Lookup(a, k) else Lookup(b, k))
  {
    if |a| > 0 {
      assert (a + b)[1..] == a[1..] + b;
      LookupConcat(a[1..], b);
    } else {
      assert a + b == b;
    }
  }

  /** `unset($a[$k])`: drops the entry with key `k`, keeping the order of the rest. */
  function Unset(a: seq<Entry>, k: Key): (r: seq<Entry>)
    ensures !HasKey(r, k)
    ensures forall k' :: k' != k ==> Lookup(r, k') == Lookup(a, k')
    ensures |r| <= |a|
  {
    if |a| == 0 then []
    else
      HasKeyCons(a, k);
      var rest := Unset(a[1..], k);
      if a[0].key == k then rest
      else
        HasKeyCons([a[0]] + rest, k);
        assert ([a[0]] + rest)[1..] == rest;
        [a[0]] + rest
  }

  /** The values of an array in order (`foreach ($a as $v)`). */
  function Values(a: seq<Entry>): (r: seq<Value>)
    ensures |r| == |a|
    ensures forall i :: 0 <= i < |a| ==> r[i] == a[i].value
  {
    if |a| == 0 then [] else [a[0].value] + Values(a[1..])
  }

  /** The `(array)` cast: arrays unchanged, null empty, a scalar wrapped at key 0. */
  function ToArray(v: Value): (r: seq<Entry>)
    ensures v.Arr? ==> r == v.entries
    ensures v.Null? ==> r == []
    ensures !v.Arr? && !v.Null? ==> r == [Entry(IntKey(0), v)]
  {
    match v
    case Arr(es) => es
    case Null => []
    case _ => [Entry(IntKey(0), v)]
  }

  // ---------------------------------------------------------------------------
  // Conversions
  // ---------------------------------------------------------------------------

  /** PHP truthiness (`if ($v)`). */
  predicate Truthy(v: Value) {
    match v
    case Null => false
    case Bool(b) => b
    case Int(i) => i != 0
    case Str(s) => s != "" && s != "0"
    case Arr(es) => |es| > 0
  }

  predicate IsDigit(c: char) { '0' <= c <= '9' }

  function DigitChar(d: nat): (c: char)
    requires d < 10
    ensures IsDigit(c)
  {
    "0123456789"[d]
  }

  function DigitValue(c: char): (d: nat)
    requires IsDigit(c)
    ensures d < 10 && DigitChar(d) == c
  {
    (c as int - '0' as int) as nat
  }

  /** Decimal rendering of a natural number, most significant digit first. */
  function NatToString(n: nat): (s: string)
    ensures |s| > 0
    ensures forall i :: 0 <= i < |s| ==> IsDigit(s[i])
    decreases n
  {
    if n < 10 then [DigitChar(n)] else NatToString(n / 10) + [DigitChar(n % 10)]
  }

  /** Decimal rendering of an integer, as `(string)$i` and string interpolation do. */
  function IntToString(i: int): (s: string)
    ensures |s| > 0
    ensures forall k :: 0 <= k < |s| ==> IsDigit(s[k]) || (k == 0 && s[k] == '-')
  {
    if i < 0 then "-" + NatToString(-i) else NatToString(i)
  }

  /** The value of a string made only of digits. */
  function DigitsValue(s: string): (n: nat)
    requires forall i :: 0 <= i < |s| ==> IsDigit(s[i])
    decreases |s|
  {
    if |s| == 0 then 0 else DigitsValue(s[..|s| - 1]) * 10 + DigitValue(s[|s| - 1])
  }

  /** The longest prefix of `s` made of digits. */
  function LeadingDigits(s: string): (d: string)
    ensures d <= s
    ensures forall i :: 0 <= i < |d| ==> IsDigit(d[i])
    ensures |d| < |s| ==> !IsDigit(s[|d|])
  {
    if |s| == 0 || !IsDigit(s[0]) then "" else [s[0]] + LeadingDigits(s[1..])
  }

  predicate IsSpace(c: char) { c == ' ' || c == '\t' || c == '\n' || c == '\r' || c == '\U{0b}' || c == '\U{0c}' }

  function SkipSpaces(s: string): (t: string)
    ensures |t| <= |s|
    ensures |t| > 0 ==> !IsSpace(t[0])
  {
    if |s| == 0 || !IsSpace(s[0]) then s else SkipSpaces(s[1..])
  }

  function DropSign(s: string): (t: string)
    ensures |t| <= |s|
  {
    if |s| > 0 && (s[0] == '+' || s[0] == '-') then s[1..] else s
  }

  function Pow10(k: nat): (p: nat)
    ensures p >= 1
  {
    if k == 0 then 1 else 10 * Pow10(k - 1)
  }

  /** `m` times ten to the power `k`, truncated toward zero when `k` is negative. */
  function Scale(m: nat, k: int): nat
    decreases if k >= 0 then k else -k
  {
    if k == 0 then m
    else if k > 0 then Scale(m, k - 1) * 10
    else Scale(m, k + 1) / 10
  }

  lemma {:induction false} ScalePow10(m: nat, k: nat)
    ensures Scale(m, k) == m * Pow10(k)
  {
    if k > 0 {
      ScalePow10(m, k - 1);
      assert m * Pow10(k) == m * Pow10(k - 1) * 10;
    }
  }

  /** An exponent at the start of `s`: `e` or `E`, an optional sign, at least one digit. */
  function ExponentOf(s: string): (e: Option<int>)
    ensures e.Some? ==> |s| >= 2
  {
    if |s| > 0 && (s[0] == 'e' || s[0] == 'E') then
      var d := LeadingDigits(DropSign(s[1..]));
      if |d| == 0 then None
      else Some(if s[1] == '-' then -(DigitsValue(d) as int) else DigitsValue(d))
    else None
  }

  predicate Digits(s: string) {
    forall i :: 0 <= i < |s| ==> IsDigit(s[i])
  }

  /**
   * The numeric prefix of a string, read as PHP reads one: leading white
   * space, an optional sign, digits with at most one point among them, and
   * an exponent when at least one digit precedes it. `mantissa` is the value
   * of all those digits read as one integer, `count` how many there are and
   * `scale` how many of them follow the point.
   */
  datatype Numeral = Numeral(negative: bool, mantissa: nat, count: nat, scale: nat, exponent: Option<int>)

  /** The numeral before anything is read. */
  function Unread(negative: bool): Numeral {
    Numeral(negative, 0, 0, 0, None)
  }

  /** `acc` followed by the digits of `d`, read left to right. */
  function Horner(acc: nat, d: string): nat
    requires Digits(d)
    decreases |d|
  {
    if |d| == 0 then acc else Horner(acc * 10 + DigitValue(d[0]), d[1..])
  }

  /** Reads the digits and the point at the start of `u` into `n`; `point` once the point is passed. */
  function ScanMantissa(u: string, n: Numeral, point: bool): Numeral
    decreases |u|
  {
    if |u| > 0 && IsDigit(u[0]) then
      ScanMantissa(u[1..], n.(mantissa := n.mantissa * 10 + DigitValue(u[0]), count := n.count + 1,
                              scale := if point then n.scale + 1 else n.scale), point)
    else if |u| > 0 && u[0] == '.' && !point then ScanMantissa(u[1..], n, true)
    else if n.count >= 1 then n.(exponent := ExponentOf(u))
    else n
  }

  function NumeralOf(s: string): Numeral
    decreases |s|
  {
    if |s| > 0 && IsSpace(s[0]) then NumeralOf(s[1..])
    else if |s| > 0 && (s[0] == '+' || s[0] == '-') then ScanMantissa(s[1..], Unread(s[0] == '-'), false)
    else ScanMantissa(s, Unread(false), false)
  }

  /**
   * Does the string start, after white space and a sign, with a digit, or
   * with a point and a digit?
   */
  predicate HasNumericPrefix(s: string) {
    var u := DropSign(SkipSpaces(s));
    (|u| > 0 && IsDigit(u[0])) || (|u| > 1 && u[0] == '.' && IsDigit(u[1]))
  }

  /** Scanning never forgets a digit, and reads the first one if it is there. */
  lemma {:induction false} ScanCounts(u: string, n: Numeral, point: bool)
    ensures ScanMantissa(u, n, point).count >= n.count
    ensures |u| > 0 && IsDigit(u[0]) ==> ScanMantissa(u, n, point).count > n.count
    decreases |u|
  {
    if |u| > 0 && IsDigit(u[0]) {
      ScanCounts(u[1..], n.(mantissa := n.mantissa * 10 + DigitValue(u[0]), count := n.count + 1,
                            scale := if point then n.scale + 1 else n.scale), point);
    } else if |u| > 0 && u[0] == '.' && !point {
      ScanCounts(u[1..], n, true);
    }
  }

  /** A numeral with no digit yet gains one exactly when a digit, or a point and a digit, comes first. */
  lemma ScanFindsDigit(u: string, negative: bool)
    ensures ScanMantissa(u, Unread(negative), false).count >= 1
            <==> (|u| > 0 && IsDigit(u[0])) || (|u| > 1 && u[0] == '.' && IsDigit(u[1]))
  {
    ScanCounts(u, Unread(negative), false);
    if |u| > 0 && u[0] == '.' {
      ScanCounts(u[1..], Unread(negative), true);
      if |u| > 1 && !IsDigit(u[1]) {
        assert ScanMantissa(u[1..], Unread(negative), true) == Unread(negative);
      }
    }
  }

  /** A string has a numeric prefix exactly when its numeral has at least one digit. */
  lemma {:induction false} NumericPrefixHasDigits(s: string)
    ensures HasNumericPrefix(s) <==> NumeralOf(s).count >= 1
    decreases |s|
  {
    if |s| > 0 && IsSpace(s[0]) {
      NumericPrefixHasDigits(s[1..]);
    } else if |s| > 0 && (s[0] == '+' || s[0] == '-') {
      ScanFindsDigit(s[1..], s[0] == '-');
    } else {
      ScanFindsDigit(s, false);
    }
  }

  /** The exact value of a numeral, truncated toward zero. */
  function Truncated(n: Numeral): int {
    var magnitude :=
      if n.exponent.None? && n.scale == 0 then n.mantissa   // an integer numeral needs no scaling
      else Scale(n.mantissa, n.exponent.GetOr(0) - n.scale);
    if n.negative then -(magnitude as int) else magnitude
  }

  /**
   * `intval` of a string: the numeric prefix truncated toward zero (a
   * fraction or an exponent included, so `"1e3"` gives 1000); a string
   * without one gives 0.
   */
  function ParseInt(s: string): int {
    Truncated(NumeralOf(s))
  }

  /** The leading digits of digits followed by a non-digit are those digits. */
  lemma {:induction false} LeadingDigitsStop(d: string, rest: string)
    requires Digits(d) && (|rest| == 0 || !IsDigit(rest[0]))
    ensures LeadingDigits(d + rest) == d
  {
    if |d| > 0 {
      assert (d + rest)[1..] == d[1..] + rest;
      LeadingDigitsStop(d[1..], rest);
      assert [d[0]] + d[1..] == d;
    } else {
      assert d + rest == rest;
    }
  }

  /** Scanning a run of digits adds them to the mantissa. */
  lemma {:induction false} ScanDigits(d: string, rest: string, n: Numeral, point: bool)
    requires Digits(d)
    ensures ScanMantissa(d + rest, n, point)
         == ScanMantissa(rest, n.(mantissa := Horner(n.mantissa, d), count := n.count + |d|,
                                  scale := if point then n.scale + |d| else n.scale), point)
    decreases |d|
  {
    if |d| > 0 {
      assert (d + rest)[0] == d[0];
      assert (d + rest)[1..] == d[1..] + rest;
      ScanDigits(d[1..], rest, n.(mantissa := n.mantissa * 10 + DigitValue(d[0]), count := n.count + 1,
                                  scale := if point then n.scale + 1 else n.scale), point);
    } else {
      assert d + rest == rest;
    }
  }

  lemma {:induction false} HornerSnoc(acc: nat, d: string, c: char)
    requires Digits(d) && IsDigit(c)
    ensures Horner(acc, d + [c]) == Horner(acc, d) * 10 + DigitValue(c)
    decreases |d|
  {
    if |d| > 0 {
      assert (d + [c])[1..] == d[1..] + [c];
      HornerSnoc(acc * 10 + DigitValue(d[0]), d[1..], c);
    } else {
      assert (d + [c])[1..] == [];
    }
  }

  /** Reading digits left to right gives their value. */
  lemma {:induction false} HornerValue(d: string)
    requires Digits(d)
    ensures Horner(0, d) == DigitsValue(d)
    decreases |d|
  {
    if |d| > 0 {
      var init := d[..|d| - 1];
      assert init + [d[|d| - 1]] == d;
      HornerValue(init);
      HornerSnoc(0, init, d[|d| - 1]);
    }
  }

  /** Digits followed by anything but a point, an exponent or another digit form an integer numeral. */
  lemma ScanWhole(d: string, rest: string, negative: bool)
    requires |d| > 0 && Digits(d)
    requires |rest| == 0 || (rest[0] != '.' && rest[0] != 'e' && rest[0] != 'E' && !IsDigit(rest[0]))
    ensures ScanMantissa(d + rest, Unread(negative), false) == Numeral(negative, DigitsValue(d), |d|, 0, None)
  {
    ScanDigits(d, rest, Unread(negative), false);
    HornerValue(d);
  }

  lemma NumeralOfDigits(d: string, rest: string)
    requires |d| > 0 && Digits(d)
    requires |rest| == 0 || (rest[0] != '.' && rest[0] != 'e' && rest[0] != 'E' && !IsDigit(rest[0]))
    ensures NumeralOf(d + rest) == Numeral(false, DigitsValue(d), |d|, 0, None)
  {
    assert (d + rest)[0] == d[0];
    ScanWhole(d, rest, false);
  }

  lemma NumeralOfSigned(d: string, rest: string)
    requires |d| > 0 && Digits(d)
    requires |rest| == 0 || (rest[0] != '.' && rest[0] != 'e' && rest[0] != 'E' && !IsDigit(rest[0]))
    ensures NumeralOf("-" + (d + rest)) == Numeral(true, DigitsValue(d), |d|, 0, None)
  {
    assert ("-" + (d + rest))[1..] == d + rest;
    ScanWhole(d, rest, true);
  }

  lemma NumeralOfSpaced(d: string, rest: string)
    requires |d| > 0 && Digits(d)
    requires |rest| == 0 || (rest[0] != '.' && rest[0] != 'e' && rest[0] != 'E' && !IsDigit(rest[0]))
    ensures NumeralOf(" " + (d + rest)) == Numeral(false, DigitsValue(d), |d|, 0, None)
  {
    assert (" " + (d + rest))[1..] == d + rest;
    NumeralOfDigits(d, rest);
  }

  /** A digit string, possibly signed or after white space, is read as its value. */
  lemma ParseIntDigits(d: string, rest: string)
    requires |d| > 0 && Digits(d)
    requires |rest| == 0 || (rest[0] != '.' && rest[0] != 'e' && rest[0] != 'E' && !IsDigit(rest[0]))
    ensures ParseInt(d + rest) == DigitsValue(d)
    ensures ParseInt("-" + (d + rest)) == -(DigitsValue(d) as int)
    ensures ParseInt(" " + (d + rest)) == DigitsValue(d)
  {
    NumeralOfDigits(d, rest);
    NumeralOfSigned(d, rest);
    NumeralOfSpaced(d, rest);
  }

  /** White space before or after a digit string, or a sign before it, leaves a numeric prefix. */
  lemma NumericPrefixLenient(d: string)
    requires |d| > 0 && Digits(d)
    ensures HasNumericPrefix(" " + d) && HasNumericPrefix(d + " ") && HasNumericPrefix("-" + d)
  {
    assert (" " + d)[1..] == d;
    assert SkipSpaces(" " + d) == d;
    assert (d + " ")[0] == d[0];
    assert SkipSpaces(d + " ") == d + " ";
    assert SkipSpaces("-" + d) == "-" + d && DropSign("-" + d) == d;
  }

  /** A digit string has a numeric prefix, and `intval` reads its value. */
  lemma DigitStringValue(t: string)
    ensures |t| > 0 && Digits(t) ==> HasNumericPrefix(t) && ParseInt(t) == DigitsValue(t)
  {
    if |t| > 0 && Digits(t) {
      assert t + "" == t;
      NumeralOfDigits(t, "");
      NumericPrefixHasDigits(t);
    }
  }

  lemma ExponentDigits(x: string)
    requires |x| > 0 && Digits(x)
    ensures ExponentOf("e" + x) == Some(DigitsValue(x) as int)
  {
    var s := "e" + x;
    assert s[0] == 'e' && s[1..] == x && s[1] == x[0];
    assert IsDigit(x[0]);
    assert DropSign(x) == x;
    assert LeadingDigits(x) == x by {
      LeadingDigitsStop(x, "");
      assert x + "" == x;
    }
  }

  /** An exponent after at least one digit ends the numeral. */
  lemma ScanExponent(x: string, n: Numeral)
    requires |x| > 0 && Digits(x) && n.count >= 1
    ensures ScanMantissa("e" + x, n, false) == n.(exponent := Some(DigitsValue(x) as int))
  {
    assert ("e" + x)[0] == 'e';
    ExponentDigits(x);
  }

  lemma NumeralOfExponent(d: string, x: string)
    requires |d| > 0 && Digits(d) && |x| > 0 && Digits(x)
    ensures NumeralOf(d + ("e" + x)) == Numeral(false, DigitsValue(d), |d|, 0, Some(DigitsValue(x) as int))
  {
    assert (d + ("e" + x))[0] == d[0];
    ScanDigits(d, "e" + x, Unread(false), false);
    HornerValue(d);
    ScanExponent(x, Numeral(false, DigitsValue(d), |d|, 0, None));
  }

  lemma TruncatedExponent(m: nat, count: nat, e: nat)
    ensures Truncated(Numeral(false, m, count, 0, Some(e as int))) == m * Pow10(e)
  {
    ScalePow10(m, e);
  }

  /** A digit string followed by `e` and digits is multiplied by that power of ten: `"1e3"` gives 1000. */
  lemma ParseIntExponent(d: string, x: string)
    requires |d| > 0 && Digits(d) && |x| > 0 && Digits(x)
    ensures ParseInt(d + ("e" + x)) == DigitsValue(d) * Pow10(DigitsValue(x))
  {
    NumeralOfExponent(d, x);
    TruncatedExponent(DigitsValue(d), |d|, DigitsValue(x));
  }

  /** The example: `intval("1e3")` is 1000. */
  lemma IntValOfExponent()
    ensures IntVal(Str("1e3")) == 1000
  {
    var d, x := "1", "3";
    assert d + ("e" + x) == "1e3";
    assert DigitsValue(d) == 1 && DigitsValue(x) == 3 by {
      assert d[..0] == "" && x[..0] == "";
    }
    assert Pow10(3) == 1000;
    ParseIntExponent(d, x);
  }

  /** The `(string)` cast / `strval`. */
  function StrVal(v: Value): string {
    match v
    case Null => ""
    case Bool(b) => if b then "1" else ""
    case Int(i) => IntToString(i)
    case Str(s) => s
    case Arr(_) => "Array"
  }

  /** The `(int)` cast / `intval`. */
  function IntVal(v: Value): int {
    match v
    case Null => 0
    case Bool(b) => if b then 1 else 0
    case Int(i) => i
    case Str(s) => ParseInt(s)
    case Arr(es) => if |es| == 0 then 0 else 1
  }

  lemma {:induction false} DigitsValueOfNat(n: nat)
    ensures DigitsValue(NatToString(n)) == n
    decreases n
  {
    var s := NatToString(n);
    if n >= 10 {
      DigitsValueOfNat(n / 10);
      assert s[..|s| - 1] == NatToString(n / 10);
    }
  }

  lemma LeadingDigitsOfDigits(s: string)
    requires forall i :: 0 <= i < |s| ==> IsDigit(s[i])
    ensures LeadingDigits(s) == s
  {
    if |s| > 0 {
      LeadingDigitsOfDigits(s[1..]);
      assert [s[0]] + s[1..] == s;
    }
  }

  /** `(int)` of a decimal rendering never sees a `:` or `;` inside it. */
  lemma IntToStringHasNo(i: int, c: char)
    requires !IsDigit(c) && c != '-'
    ensures c !in IntToString(i)
  {
    var s := IntToString(i);
    forall k | 0 <= k < |s|
      ensures s[k] != c
    {
    }
  }

  // ---------------------------------------------------------------------------
  // Strings
  // ---------------------------------------------------------------------------

  function ToLowerChar(c: char): char {
    if 'A' <= c <= 'Z' then (c as int + 32) as char else c
  }

  /** `strtolower` (ASCII letters only, as PHP 8 does). */
  function ToLower(s: string): (r: string)
    ensures |r| == |s|
    ensures forall i :: 0 <= i < |s| ==> r[i] == ToLowerChar(s[i])
  {
    if |s| == 0 then "" else [ToLowerChar(s[0])] + ToLower(s[1..])
  }

  /** Lower-casing leaves a string without upper-case ASCII letters alone. */
  lemma ToLowerOfLower(s: string)
    requires forall i :: 0 <= i < |s| ==> !('A' <= s[i] <= 'Z')
    ensures ToLower(s) == s
  {
  }

  /** `str_replace([$c1, $c2, ...], '', $s)` for single characters. */
  function RemoveChars(s: string, cs: set<char>): (r: string)
    ensures forall i :: 0 <= i < |r| ==> r[i] !in cs
    ensures |r| <= |s|
  {
    if |s| == 0 then "" else (if s[0] in cs then "" else [s[0]]) + RemoveChars(s[1..], cs)
  }

  lemma RemoveCharsNone(s: string, cs: set<char>)
    requires forall i :: 0 <= i < |s| ==> s[i] !in cs
    ensures RemoveChars(s, cs) == s
  {
    if |s| > 0 {
      RemoveCharsNone(s[1..], cs);
      assert [s[0]] + s[1..] == s;
    }
  }

  lemma RemoveCharsConcat(a: string, b: string, cs: set<char>)
    ensures RemoveChars(a + b, cs) == RemoveChars(a, cs) + RemoveChars(b, cs)
  {
    if |a| > 0 {
      assert (a + b)[1..] == a[1..] + b;
      RemoveCharsConcat(a[1..], b, cs);
    } else {
      assert a + b == b;
    }
  }

  /** `ltrim($s, $c)` for a single character. */
  function LTrim(s: string, c: char): (r: string)
    ensures |r| <= |s| && r == s[|s| - |r|..]
    ensures |r| > 0 ==> r[0] != c
    ensures forall i :: 0 <= i < |s| - |r| ==> s[i] == c
  {
    if |s| > 0 && s[0] == c then LTrim(s[1..], c) else s
  }

  /** A single leading `c` is all `ltrim` removes. */
  lemma LTrimOnce(s: string, c: char)
    requires |s| > 0 && s[0] == c && (|s| > 1 ==> s[1] != c)
    ensures LTrim(s, c) == s[1..]
  {
    assert LTrim(s[1..], c) == s[1..];
  }

  /** `explode($c, $s)`: the pieces between occurrences of `c`. */
  function Split(s: string, c: char): (parts: seq<string>)
    ensures |parts| >= 1
    decreases |s|
  {
    if |s| == 0 then [""]
    else
      var rest := Split(s[1..], c);
      if s[0] == c then [""] + rest else [[s[0]] + rest[0]] + rest[1..]
  }

  /** `implode($sep, $parts)`. */
  function Join(parts: seq<string>, sep: string): string
    decreases |parts|
  {
    if |parts| == 0 then ""
    else if |parts| == 1 then parts[0]
    else parts[0] + sep + Join(parts[1..], sep)
  }

  /** A join whose first piece is not empty is not empty. */
  lemma JoinNotEmpty(parts: seq<string>, sep: string)
    requires |parts| > 0 && |parts[0]| > 0
    ensures |Join(parts, sep)| > 0
  {
  }

  /** `explode($c, $s, $limit)` for a positive limit: the last piece keeps the rest. */
  function SplitN(s: string, c: char, limit: nat): (parts: seq<string>)
    requires limit >= 1
    ensures 1 <= |parts| <= limit
  {
    var all := Split(s, c);
    if |all| <= limit then all else all[..limit - 1] + [Join(all[limit - 1..], [c])]
  }

  /** Joining the pieces of `explode` with the separator gives the string back. */
  lemma {:induction false} JoinSplit(s: string, c: char)
    ensures Join(Split(s, c), [c]) == s
    decreases |s|
  {
    if |s| > 0 {
      var rest := Split(s[1..], c);
      JoinSplit(s[1..], c);
      if s[0] == c {
        assert Join([""] + rest, [c]) == "" + [c] + Join(rest, [c]);
      } else if |rest| == 1 {
        assert [s[0]] + s[1..] == s;
      } else {
        assert Join(rest, [c]) == rest[0] + [c] + Join(rest[1..], [c]);
        assert ([[s[0]] + rest[0]] + rest[1..])[1..] == rest[1..];
      }
    }
  }

  lemma {:induction false} SplitPrefix(p: string, t: string, c: char)
    requires c !in p
    ensures Split(p + t, c) == [p + Split(t, c)[0]] + Split(t, c)[1..]
    decreases |p|
  {
    if |p| > 0 {
      assert (p + t)[1..] == p[1..] + t;
      SplitPrefix(p[1..], t, c);
      assert [p[0]] + (p[1..] + Split(t, c)[0]) == p + Split(t, c)[0];
    } else {
      assert p + t == t;
      assert p + Split(t, c)[0] == Split(t, c)[0];
    }
  }

  /** `explode` undoes `implode` when no piece contains the separator. */
  lemma {:induction false} SplitJoin(parts: seq<string>, c: char)
    requires |parts| >= 1
    requires forall i :: 0 <= i < |parts| ==> c !in parts[i]
    ensures Split(Join(parts, [c]), c) == parts
    decreases |parts|
  {
    if |parts| == 1 {
      SplitPrefix(parts[0], "", c);
      assert parts[0] + "" == parts[0];
      assert Split("", c) == [""];
    } else {
      var j := Join(parts[1..], [c]);
      SplitJoin(parts[1..], c);
      assert Join(parts, [c]) == parts[0] + ([c] + j);
      SplitPrefix(parts[0], [c] + j, c);
      assert ([c] + j)[1..] == j;
      assert Split([c] + j, c) == [""] + Split(j, c);
      assert parts[0] + "" == parts[0];
      assert parts == [parts[0]] + parts[1..];
    }
  }

  /** `str_replace($search, $repl, $subject)`: left to right, non-overlapping. */
  function ReplaceAll(subject: string, search: string, repl: string): (r: string)
    ensures |search| == 0 ==> r == subject
    decreases |subject|
  {
    if |search| == 0 || |subject| < |search| then subject
    else if subject[..|search|] == search then repl + ReplaceAll(subject[|search|..], search, repl)
    else [subject[0]] + ReplaceAll(subject[1..], search, repl)
  }

  /** `search` occurs in `s` starting at index `i`. */
  predicate OccursAt(s: string, search: string, i: nat) {
    i + |search| <= |s| && s[i..i + |search|] == search
  }

  /** A subject in which `search` never occurs comes back unchanged. */
  lemma {:induction false} ReplaceAllAbsent(subject: string, search: string, repl: string)
    requires forall i: nat :: i <= |subject| ==> !OccursAt(subject, search, i)
    ensures ReplaceAll(subject, search, repl) == subject
    decreases |subject|
  {
    if |search| > 0 && |subject| >= |search| {
      assert !OccursAt(subject, search, 0);
      assert subject[0..|search|] == subject[..|search|];
      forall i: nat | i <= |subject[1..]|
        ensures !OccursAt(subject[1..], search, i)
      {
        assert !OccursAt(subject, search, i + 1);
        if i + |search| <= |subject[1..]| {
          assert subject[1..][i..i + |search|] == subject[i + 1..i + 1 + |search|];
        }
      }
      ReplaceAllAbsent(subject[1..], search, repl);
    }
  }

  /** Cutting `k + c + v` at its first `c` gives `k` and `v` back when `k` has no `c`. */
  lemma CutAtFirst(k: string, v: string, c: char)
    requires c !in k
    ensures SplitN(k + [c] + v, c, 2) == [k, v]
  {
    SplitPrefix(k, [c] + v, c);
    assert k + [c] + v == k + ([c] + v);
    assert ([c] + v)[1..] == v;
    assert Split([c] + v, c) == [""] + Split(v, c);
    assert k + "" == k;
    var all := Split(k + [c] + v, c);
    assert all == [k] + Split(v, c);
    JoinSplit(v, c);
    if |all| > 2 {
      assert all[1..] == Split(v, c);
    } else {
      assert |Split(v, c)| == 1;
      assert Join(Split(v, c), [c]) == Split(v, c)[0];
    }
  }

  predicate StartsWith(s: string, prefix: string) {
    prefix <= s
  }
}
