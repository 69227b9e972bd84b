/**
 * The few string operations of the Qt library that the controller
 * configuration's file format relies on: rendering a number in a base
 * (`QString::number(n, base)`), left padding (`rightJustified`), parsing
 * unsigned and signed numbers (`toUInt(ok, base)`, `toInt()`, which give 0
 * on failure), and splitting and joining on a separator character.
 */
module QtText {

  const UINT_MAX: nat := 0xFFFF_FFFF
  const INT_MIN: int := -0x8000_0000
  const INT_MAX: int := 0x7FFF_FFFF

  /** The lower-case digit for a value below 16. */
  function DigitChar(d: nat): (c: char)
    requires d < 16
    ensures DigitValue(c) == d
  {
    if d < 10 then ('0' as int + d) as char else ('a' as int + d - 10) as char
  }

  /** The value of a digit in any base up to 16, either case; 16 for a character that is not a digit. */
  function DigitValue(c: char): (d: nat)
    ensures d <= 16
  {
    if '0' <= c <= '9' then c as int - '0' as int
    else if 'a' <= c <= 'f' then c as int - 'a' as int + 10
    else if 'A' <= c <= 'F' then c as int - 'A' as int + 10
    else 16
  }

  predicate AllDigits(s: string, base: nat) {
    forall k :: 0 <= k < |s| ==> DigitValue(s[k]) < base
  }

  /** The value of a string of digits, most significant first. */
  function ValueOf(s: string, base: nat): nat
    requires AllDigits(s, base)
  {
    if s == [] then 0 else ValueOf(s[..|s| - 1], base) * base + DigitValue(s[|s| - 1])
  }

  /** `QString::number(v, base)`: the digits of `v`, lower case, no leading zeros. */
  function Number(v: nat, base: nat): (s: string)
    requires 2 <= base <= 16
    ensures |s| >= 1 && AllDigits(s, base)
    decreases v
  {
    if v < base then [DigitChar(v)] else Number(v / base, base) + [DigitChar(v % base)]
  }

  /** `s.rightJustified(width, fill)`: padded on the left to `width`, never truncated. */
  function RightJustified(s: string, width: nat, fill: char): (r: string)
    ensures |r| == if |s| < width then width else |s|
  {
    if |s| >= width then s else seq(width - |s|, _ => fill) + s
  }

  /** A string of digits in `base` whose value fits an unsigned int, or 0 (a failed conversion). */
  function CheckedValue(s: string, base: nat): (v: nat)
    ensures v <= UINT_MAX
  {
    if |s| >= 1 && AllDigits(s, base) && ValueOf(s, base) <= UINT_MAX then ValueOf(s, base) else 0
  }

  /** `s.toUInt(NULL, 0)`: `0x` or `0X` selects hexadecimal, a leading `0` octal, anything else decimal. */
  function ToUIntBase0(s: string): (v: nat)
    ensures v <= UINT_MAX
  {
    if |s| >= 2 && s[0] == '0' && (s[1] == 'x' || s[1] == 'X') then CheckedValue(s[2..], 16)
    else if |s| >= 1 && s[0] == '0' then CheckedValue(s, 8)
    else CheckedValue(s, 10)
  }

  const LLONG_MIN: int := -0x8000_0000_0000_0000
  const LLONG_MAX: int := 0x7FFF_FFFF_FFFF_FFFF

  /** The conversion of a 64-bit value to int: two's complement truncation to 32 bits. */
  function Int32Wrap(v: int): (r: int)
    ensures INT_MIN <= r <= INT_MAX
    ensures (v - r) % 0x1_0000_0000 == 0
    ensures INT_MIN <= v <= INT_MAX ==> r == v
  {
    var m := v % 0x1_0000_0000;
    if m > INT_MAX then m - 0x1_0000_0000 else m
  }

  /**
   * `QString::toLongLong()`: an optionally signed decimal number in the
   * range of a 64-bit integer, or 0.
   */
  function ToLongLong(s: string): (v: int)
    ensures LLONG_MIN <= v <= LLONG_MAX
  {
    var signed := |s| >= 1 && (s[0] == '-' || s[0] == '+');
    var digits := if signed then s[1..] else s;
    if |digits| >= 1 && AllDigits(digits, 10) then
      var magnitude := ValueOf(digits, 10);
      var v: int := if signed && s[0] == '-' then -(magnitude as int) else magnitude;
      if LLONG_MIN <= v <= LLONG_MAX then v else 0
    else 0
  }

  /**
   * `QVariant::toInt()` of a string value: the string is read as a 64-bit
   * number, which is then truncated to int.
   */
  function ToInt(s: string): (v: int)
    ensures INT_MIN <= v <= INT_MAX
  {
    Int32Wrap(ToLongLong(s))
  }

  /** `s` starts with the `0x` or `0X` that selects hexadecimal in base-0 parsing. */
  predicate HexPrefixed(s: string) {
    |s| >= 2 && s[0] == '0' && (s[1] == 'x' || s[1] == 'X')
  }

  /** A character that is not a digit of `base` makes the digit check fail. */
  lemma NotAllDigits(s: string, base: nat, k: nat)
    requires k < |s| && DigitValue(s[k]) >= base
    ensures !AllDigits(s, base)
  {
  }

  /**
   * The failed conversions of `toUInt(ok, 0)`, which give 0: an empty
   * string, a bare `0x`, a character that is not a digit of the selected
   * base, and a value above UINT_MAX.
   */
  lemma ToUIntFailures(s: string, k: nat)
    ensures ToUIntBase0("") == 0 && ToUIntBase0("0x") == 0 && ToUIntBase0("0X") == 0
    ensures HexPrefixed(s) && 2 <= k < |s| && DigitValue(s[k]) >= 16 ==> ToUIntBase0(s) == 0
    ensures !HexPrefixed(s) && k < |s| && DigitValue(s[k]) >= (if s[0] == '0' then 8 else 10) ==> ToUIntBase0(s) == 0
    ensures HexPrefixed(s) && AllDigits(s[2..], 16) && ValueOf(s[2..], 16) > UINT_MAX ==> ToUIntBase0(s) == 0
    ensures !HexPrefixed(s) && |s| >= 1 && s[0] != '0' && AllDigits(s, 10) && ValueOf(s, 10) > UINT_MAX ==> ToUIntBase0(s) == 0
    ensures !HexPrefixed(s) && |s| >= 1 && s[0] == '0' && AllDigits(s, 8) && ValueOf(s, 8) > UINT_MAX ==> ToUIntBase0(s) == 0
  {
    if HexPrefixed(s) && 2 <= k < |s| && DigitValue(s[k]) >= 16 {
      NotAllDigits(s[2..], 16, k - 2);
    }
    if !HexPrefixed(s) && k < |s| && DigitValue(s[k]) >= (if s[0] == '0' then 8 else 10) {
      NotAllDigits(s, if s[0] == '0' then 8 else 10, k);
    }
  }

  /**
   * The failed conversions of `QVariant::toInt()` on a string, which give 0:
   * no digits after the optional sign, a character that is not a decimal
   * digit, and a value outside the 64-bit range.
   */
  lemma ToIntFailures(s: string, k: nat)
    ensures ToInt("") == 0 && ToInt("-") == 0 && ToInt("+") == 0
    ensures var first := if |s| >= 1 && (s[0] == '-' || s[0] == '+') then 1 else 0;
      first <= k < |s| && DigitValue(s[k]) >= 10 ==> ToInt(s) == 0
    ensures |s| >= 1 && '0' <= s[0] <= '9' && AllDigits(s, 10) && ValueOf(s, 10) > LLONG_MAX ==> ToInt(s) == 0
    ensures |s| >= 2 && s[0] == '+' && AllDigits(s[1..], 10) && ValueOf(s[1..], 10) > LLONG_MAX ==> ToInt(s) == 0
    ensures |s| >= 2 && s[0] == '-' && AllDigits(s[1..], 10) && ValueOf(s[1..], 10) > -LLONG_MIN ==> ToInt(s) == 0
  {
    var first := if |s| >= 1 && (s[0] == '-' || s[0] == '+') then 1 else 0;
    if first <= k < |s| && DigitValue(s[k]) >= 10 {
      NotAllDigits(s[first..], 10, k - first);
    }
  }

  /**
   * A decimal value inside the 64-bit range but outside the int range is
   * not a failure: it is truncated to the int congruent to it modulo 2^32.
   */
  lemma ToIntTruncates(s: string)
    requires |s| >= 1 && AllDigits(s, 10)
    ensures ValueOf(s, 10) <= LLONG_MAX ==> ToInt(s) == Int32Wrap(ValueOf(s, 10))
    ensures ValueOf(s, 10) <= LLONG_MAX ==> (ValueOf(s, 10) - ToInt(s)) % 0x1_0000_0000 == 0
    ensures ValueOf(s, 10) <= INT_MAX ==> ToInt(s) == ValueOf(s, 10)
  {
    assert DigitValue(s[0]) < 10;
  }

  /** The position of the last `c` in `s`. */
  function LastIndexOf(s: string, c: char): (k: nat)
    requires c in s
    ensures k < |s| && s[k] == c && c !in s[k + 1..]
  {
    if s[|s| - 1] == c then |s| - 1
    else
      var k := LastIndexOf(s[..|s| - 1], c);
      assert s[k + 1..] == s[..|s| - 1][k + 1..] + [s[|s| - 1]];
      k
  }

  /** `s.split(sep)`: the parts between separators, empty parts kept; never an empty list. */
  function Split(s: string, sep: char): (parts: seq<string>)
    ensures |parts| >= 1
    decreases |s|
  {
    if sep !in s then [s]
    else
      var k := LastIndexOf(s, sep);
      Split(s[..k], sep) + [s[k + 1..]]
  }

  /** `parts.join(sep)`. */
  function Join(parts: seq<string>, sep: char): string {
    if |parts| == 0 then ""
    else if |parts| == 1 then parts[0]
    else Join(parts[..|parts| - 1], sep) + [sep] + parts[|parts| - 1]
  }

  // ---------------------------------------------------------------------
  // Round trips

  /** Parsing what Number renders gives the number back. */
  lemma {:induction false} NumberRoundTrip(v: nat, base: nat)
    requires 2 <= base <= 16
    ensures ValueOf(Number(v, base), base) == v
    decreases v
  {
    if v < base {
      SingleDigit(DigitChar(v), base);
    } else {
      var q := v / base;
      assert q < v;
      NumberRoundTrip(q, base);
      NumberStep(v, base);
    }
  }

  /** One step of the round trip: the last digit is `v % base`, the rest renders `v / base`. */
  lemma NumberStep(v: nat, base: nat)
    requires 2 <= base <= 16 && v >= base
    requires ValueOf(Number(v / base, base), base) == v / base
    ensures ValueOf(Number(v, base), base) == v
  {
    var q, r := v / base, v % base;
    ValueOfSnoc(Number(q, base), DigitChar(r), base);
    DivModParts(v, base);
  }

  lemma SingleDigit(c: char, base: nat)
    requires DigitValue(c) < base
    ensures AllDigits([c], base) && ValueOf([c], base) == DigitValue(c)
  {
    assert [c][..0] == [];
  }

  /** Appending a digit multiplies by the base and adds the digit. */
  lemma ValueOfSnoc(a: string, c: char, base: nat)
    requires AllDigits(a, base) && DigitValue(c) < base
    ensures AllDigits(a + [c], base)
    ensures ValueOf(a + [c], base) == ValueOf(a, base) * base + DigitValue(c)
  {
    assert (a + [c])[..|a|] == a;
  }

  lemma DivModParts(v: nat, b: nat)
    requires b >= 1
    ensures v == (v / b) * b + v % b
  {
  }

  /** Leading zeros add nothing to a value. */
  lemma {:induction false} LeadingZeros(n: nat, s: string, base: nat)
    requires 2 <= base && AllDigits(s, base)
    ensures AllDigits(seq(n, _ => '0') + s, base)
    ensures ValueOf(seq(n, _ => '0') + s, base) == ValueOf(s, base)
    decreases |s|, n
  {
    var z := seq(n, _ => '0');
    var t := z + s;
    if s == [] {
      assert t == z;
      if n > 0 {
        assert t[..|t| - 1] == seq(n - 1, _ => '0') + [];
        LeadingZeros(n - 1, [], base);
      }
    } else {
      assert t[..|t| - 1] == z + s[..|s| - 1];
      LeadingZeros(n, s[..|s| - 1], base);
    }
  }

  /** 16 to the powers 0 to 8. */
  const HEX_POWERS: seq<nat> := [1, 0x10, 0x100, 0x1000, 0x1_0000, 0x10_0000, 0x100_0000, 0x1000_0000, 0x1_0000_0000]

  /** A number below 16^k has at most k hexadecimal digits (at least one: zero is "0"). */
  lemma {:induction false} HexLength(v: nat, k: nat)
    requires 1 <= k <= 8 && v < HEX_POWERS[k]
    ensures |Number(v, 16)| <= k
    decreases v
  {
    if v >= 16 {
      var q := v / 16;
      assert HEX_POWERS[k] == 16 * HEX_POWERS[k - 1];
      HexLength(q, k - 1);
      assert Number(v, 16) == Number(q, 16) + [DigitChar(v % 16)];
    }
  }

  /** The last separator of a join is the one before the last part. */
  lemma {:induction false} LastSeparator(a: string, sep: char, b: string)
    requires sep !in b
    ensures sep in a + [sep] + b
    ensures LastIndexOf(a + [sep] + b, sep) == |a|
    decreases |b|
  {
    var s := a + [sep] + b;
    assert s[|a|] == sep;
    if b != [] {
      assert s[..|s| - 1] == a + [sep] + b[..|b| - 1];
      LastSeparator(a, sep, b[..|b| - 1]);
    }
  }

  /** Splitting a join gives the parts back, when no part holds the separator. */
  lemma {:induction false} SplitJoin(parts: seq<string>, sep: char)
    requires |parts| >= 1
    requires forall i :: 0 <= i < |parts| ==> sep !in parts[i]
    ensures Split(Join(parts, sep), sep) == parts
  {
    if |parts| > 1 {
      SplitJoin(parts[..|parts| - 1], sep);
      SplitLast(parts, sep);
    }
  }

  /** One step of the round trip: the last part comes off at the last separator. */
  lemma SplitLast(parts: seq<string>, sep: char)
    requires |parts| >= 2 && sep !in parts[|parts| - 1]
    requires Split(Join(parts[..|parts| - 1], sep), sep) == parts[..|parts| - 1]
    ensures Split(Join(parts, sep), sep) == parts
  {
    var init, last := parts[..|parts| - 1], parts[|parts| - 1];
    var a := Join(init, sep);
    var s := a + [sep] + last;
    assert Join(parts, sep) == s;
    LastSeparator(a, sep, last);
    assert s[..|a|] == a;
    assert s[|a| + 1..] == last;
    InitLast(parts);
  }

  lemma InitLast<T>(s: seq<T>)
    requires |s| >= 1
    ensures s[..|s| - 1] + [s[|s| - 1]] == s
  {
  }

  /** The empty string splits into one empty part. */
  lemma SplitEmpty(sep: char)
    ensures Split("", sep) == [""]
  {
  }

  /** A join gains one separator and one part per appended part. */
  lemma JoinAppend(parts: seq<string>, sep: char, p: string)
    ensures Join(parts + [p], sep) == if |parts| == 0 then p else Join(parts, sep) + [sep] + p
  {
    assert (parts + [p])[..|parts|] == parts;
  }

  /** Appending a part written in two pieces, as a loop that does `+= sep; += a; += b` builds it. */
  lemma JoinAppendParts(parts: seq<string>, sep: char, p: string, a: string, b: string)
    requires p == a + b
    ensures Join(parts + [p], sep) == ((if |parts| == 0 then [] else Join(parts, sep) + [sep]) + a) + b
  {
    JoinAppend(parts, sep, p);
    if |parts| == 0 {
      assert ([] + a) + b == a + b;
    } else {
      Associative(Join(parts, sep) + [sep], a, b);
    }
  }

  lemma Associative(x: string, y: string, z: string)
    ensures x + (y + z) == (x + y) + z
  {
  }
}
