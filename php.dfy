/**
 * The slice of PHP's runtime that the framework core leans on: scalar values,
 * string-keyed arrays kept in insertion order, the exception classes the core
 * throws, and the string built-ins (`ltrim`, `rtrim`, `implode`, `strtoupper`,
 * `strtolower`, `lcfirst`, `ucfirst`, `str_starts_with`, `str_contains`) on
 * single-byte ASCII text.
 */
module Php {
  import opened Wrappers

  /** The scalar values that travel through rows, parameters and settings. */
  datatype Value = Null | Int(i: int) | Str(s: string)

  /** The exception classes thrown by the core, each with its message. */
  datatype Throwable =
    | Exception(message: string)
    | InvalidArgumentException(message: string)
    | TypeError(message: string)
    | Error(message: string)

  predicate DistinctKeys(entries: seq<(string, Value)>)
  {
    forall i, j | 0 <= i < j < |entries| :: entries[i].0 != entries[j].0
  }

  /** A PHP array with string keys: its entries in iteration order, no key twice. */
  type Row = r: seq<(string, Value)> | DistinctKeys(r) witness []

  /** `array_keys($row)` */
  function Keys(row: Row): (ks: seq<string>)
    ensures |ks| == |row|
    ensures forall i | 0 <= i < |row| :: ks[i] == row[i].0
  {
    seq(|row|, i requires 0 <= i < |row| => row[i].0)
  }

  /** `array_values($row)` */
  function Values(row: Row): (vs: seq<Value>)
    ensures |vs| == |row|
    ensures forall i | 0 <= i < |row| :: vs[i] == row[i].1
  {
    seq(|row|, i requires 0 <= i < |row| => row[i].1)
  }

  /** `$row[$key]`, or None when the key is absent. */
  function Lookup(row: seq<(string, Value)>, key: string): (r: Option<Value>)
    ensures r.None? <==> forall i | 0 <= i < |row| :: row[i].0 != key
    ensures r.Some? ==> exists i | 0 <= i < |row| :: row[i] == (key, r.value)
  {
    if |row| == 0 then None
    else if row[0].0 == key then Some(row[0].1)
    else Lookup(row[1..], key)
  }

  /** `isset($row[$key])`: present and not null. */
  predicate IsSet(row: Row, key: string)
  {
    var v := Lookup(row, key); v.Some? && v.value != Null
  }

  // ---------------------------------------------------------------- strings

  /** `ltrim($s, $c)` for a one-character mask. */
  function LTrim(s: string, c: char): (r: string)
    ensures |r| <= |s|
    ensures r == [] || r[0] != c
    ensures forall i | 0 <= i < |s| - |r| :: s[i] == c
  {
    if |s| > 0 && s[0] == c then LTrim(s[1..], c) else s
  }

  /** What `ltrim` keeps is a suffix of its input. */
  lemma {:induction false} LTrimSuffix(s: string, c: char)
    ensures LTrim(s, c) == s[|s| - |LTrim(s, c)|..]
  {
    if |s| > 0 && s[0] == c {
      LTrimSuffix(s[1..], c);
      assert s[1..][|s| - 1 - |LTrim(s, c)|..] == s[|s| - |LTrim(s, c)|..];
    }
  }

  /** `rtrim($s, $c)` for a one-character mask. */
  function RTrim(s: string, c: char): (r: string)
    ensures |r| <= |s| && r == s[..|r|]
    ensures r == [] || r[|r| - 1] != c
    ensures forall i | |r| <= i < |s| :: s[i] == c
  {
    if |s| > 0 && s[|s| - 1] == c then RTrim(s[..|s| - 1], c) else s
  }

  /** `implode($sep, $parts)` */
  function Join(parts: seq<string>, sep: string): string
  {
    if |parts| == 0 then ""
    else if |parts| == 1 then parts[0]
    else parts[0] + sep + Join(parts[1..], sep)
  }

  predicate StartsWith(s: string, prefix: string)
  {
    |prefix| <= |s| && s[..|prefix|] == prefix
  }

  predicate IsUpper(c: char) { 'A' <= c <= 'Z' }

  predicate IsLower(c: char) { 'a' <= c <= 'z' }

  predicate IsDigit(c: char) { '0' <= c <= '9' }

  function UpperChar(c: char): (u: char)
    ensures !IsLower(u)
  {
    if IsLower(c) then (c as int - 32) as char else c
  }

  function LowerChar(c: char): (l: char)
    ensures !IsUpper(l)
  {
    if IsUpper(c) then (c as int + 32) as char else c
  }

  /** `strtoupper` (byte-wise ASCII, as PHP 8 does it) */
  function ToUpper(s: string): (u: string)
    ensures |u| == |s|
    ensures forall i | 0 <= i < |s| :: u[i] == UpperChar(s[i])
  {
    seq(|s|, i requires 0 <= i < |s| => UpperChar(s[i]))
  }

  /** `strtolower` (byte-wise ASCII, as PHP 8 does it) */
  function ToLower(s: string): (l: string)
    ensures |l| == |s|
    ensures forall i | 0 <= i < |s| :: l[i] == LowerChar(s[i])
  {
    seq(|s|, i requires 0 <= i < |s| => LowerChar(s[i]))
  }

  /** `ucfirst` */
  function UcFirst(s: string): string
  {
    if |s| == 0 then s else [UpperChar(s[0])] + s[1..]
  }

  /** `lcfirst` */
  function LcFirst(s: string): string
  {
    if |s| == 0 then s else [LowerChar(s[0])] + s[1..]
  }

  /** Number of occurrences of `c` in `s`. */
  function CountChar(s: string, c: char): nat
  {
    if |s| == 0 then 0 else (if s[0] == c then 1 else 0) + CountChar(s[1..], c)
  }

  lemma {:induction false} CountCharConcat(a: string, b: string, c: char)
    ensures CountChar(a + b, c) == CountChar(a, c) + CountChar(b, c)
  {
    if |a| > 0 {
      assert (a + b)[1..] == a[1..] + b;
      CountCharConcat(a[1..], b, c);
    } else {
      assert a + b == b;
    }
  }

  /** Index of the first `c` in `s`, if any (`strpos`). */
  function IndexOf(s: string, c: char): (r: Option<nat>)
    ensures r.None? <==> c !in s
    ensures r.Some? ==> r.value < |s| && s[r.value] == c && c !in s[..r.value]
  {
    if |s| == 0 then None
    else if s[0] == c then Some(0)
    else match IndexOf(s[1..], c)
      case None => None
      case Some(k) => Some(k + 1)
  }

  // ---------------------------------------------------------------- numbers

  function DigitChar(d: nat): (c: char)
    requires d < 10
    ensures IsDigit(c)
  {
    ('0' as int + d) as char
  }

  /** Decimal text of a natural number, as string interpolation writes it. */
  function NatToString(n: nat): (r: string)
    ensures |r| > 0
    ensures forall i | 0 <= i < |r| :: IsDigit(r[i])
  {
    if n < 10 then [DigitChar(n)] else NatToString(n / 10) + [DigitChar(n % 10)]
  }

  function IntToString(n: int): string
  {
    if n < 0 then "-" + NatToString(-n) else NatToString(n)
  }

  function DigitsValue(s: string): nat
    requires forall i | 0 <= i < |s| :: IsDigit(s[i])
  {
    if |s| == 0 then 0
    else
      assert IsDigit(s[|s| - 1]);
      10 * DigitsValue(s[..|s| - 1]) + (s[|s| - 1] as int - '0' as int)
  }

  predicate AllDigits(s: string) { |s| > 0 && forall i | 0 <= i < |s| :: IsDigit(s[i]) }

  /** The range of PHP's 64-bit `int`. */
  const IntMin: int := -0x8000_0000_0000_0000
  const IntMax: int := 0x7fff_ffff_ffff_ffff

  /** Decimal digits after an optional sign, as their value. */
  function SignedDigits(s: string): Option<int>
  {
    if AllDigits(s) then Some(DigitsValue(s))
    else if |s| > 1 && s[0] == '+' && AllDigits(s[1..]) then Some(DigitsValue(s[1..]))
    else if |s| > 1 && s[0] == '-' && AllDigits(s[1..]) then Some(0 - DigitsValue(s[1..]))
    else None
  }

  /**
   * An integer-numeric string (optional sign, then decimal digits) as its value; a
   * value outside the 64-bit range is a float in PHP and cannot become an `int`.
   */
  function ParseInt(s: string): (r: Option<int>)
    ensures r.Some? ==> IntMin <= r.value <= IntMax
    ensures r.Some? ==> r == SignedDigits(s)
  {
    match SignedDigits(s)
    case Some(n) => if IntMin <= n <= IntMax then Some(n) else None
    case None => None
  }

  lemma {:induction false} DigitsValueOfNatToString(n: nat)
    ensures AllDigits(NatToString(n)) && DigitsValue(NatToString(n)) == n
  {
    var r := NatToString(n);
    if n >= 10 {
      DigitsValueOfNatToString(n / 10);
      assert r[..|r| - 1] == NatToString(n / 10);
    }
  }

  /** Reading back the decimal text of a 64-bit integer gives the integer. */
  lemma ParseIntToString(n: int)
    requires IntMin <= n <= IntMax
    ensures ParseInt(IntToString(n)) == Some(n)
  {
    SignedDigitsOfIntToString(n);
  }

  /** The decimal text of an integer beyond 64 bits is not an `int`. */
  lemma ParseIntOutOfRange(n: int)
    requires n < IntMin || IntMax < n
    ensures ParseInt(IntToString(n)) == None
  {
    SignedDigitsOfIntToString(n);
  }

  lemma SignedDigitsOfIntToString(n: int)
    ensures SignedDigits(IntToString(n)) == Some(n)
  {
    if n < 0 {
      DigitsValueOfNatToString(-n);
      assert IntToString(n)[1..] == NatToString(-n);
      assert !AllDigits(IntToString(n));
    } else {
      DigitsValueOfNatToString(n);
    }
  }

  /** A leading plus sign changes nothing. */
  lemma ParseIntPlus(s: string)
    requires AllDigits(s)
    ensures ParseInt("+" + s) == ParseInt(s)
  {
    assert ("+" + s)[1..] == s;
    assert ("+" + s)[0] == '+';
  }

  // ------------------------------------------------------ coercive typing

  /** What an `int` parameter receives from `v` in PHP's coercive typing mode, or None for a TypeError. */
  function ToIntArg(v: Value): (r: Option<int>)
    ensures v.Int? ==> r == Some(v.i)
    ensures v.Null? ==> r.None?
  {
    match v
    case Null => None
    case Int(i) => Some(i)
    case Str(s) => ParseInt(s)
  }

  /** What a `string` parameter receives from `v` in PHP's coercive typing mode, or None for a TypeError. */
  function ToStringArg(v: Value): (r: Option<string>)
    ensures v.Str? ==> r == Some(v.s)
    ensures v.Null? ==> r.None?
  {
    match v
    case Null => None
    case Int(i) => Some(IntToString(i))
    case Str(s) => Some(s)
  }
}
