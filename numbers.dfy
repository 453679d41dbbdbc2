/**
 * Go's strconv.ParseUint(s, 10, 64) and strconv.ParseInt(s, 10, 64) as the
 * stat reply parser uses them: with the error discarded. strconv reads the
 * digits left to right and reports a range error, with the bound it crossed,
 * as soon as the digits read so far overflow, even if a non-digit follows
 * later; otherwise any non-digit is a syntax error and yields 0.
 */
module Numbers {

  const MaxUint64: nat := 0xFFFF_FFFF_FFFF_FFFF
  const MaxInt64: int := 0x7FFF_FFFF_FFFF_FFFF
  const MinInt64: int := -0x8000_0000_0000_0000

  predicate IsDigit(c: char) {
    '0' <= c <= '9'
  }

  /** A non-empty run of decimal digits: the only text base-10 ParseUint accepts. */
  predicate IsDecimal(s: string) {
    s != [] && forall i :: 0 <= i < |s| ==> IsDigit(s[i])
  }

  function DigitChar(d: nat): (c: char)
    requires d < 10
    ensures IsDigit(c) && c as int - '0' as int == d
  {
    ('0' as int + d) as char
  }

  /** The number a run of digits denotes, read most significant digit first. */
  function DecimalValue(s: string): nat
    requires forall i :: 0 <= i < |s| ==> IsDigit(s[i])
    decreases |s|
  {
    if s == [] then 0
    else
      var last := s[|s| - 1];
      assert IsDigit(last);
      DecimalValue(s[..|s| - 1]) * 10 + (last as int - '0' as int)
  }

  /** strconv.FormatUint(n, 10): the shortest decimal text of `n`. */
  function FormatUint(n: nat): (s: string)
    ensures IsDecimal(s)
    decreases n
  {
    if n < 10 then [DigitChar(n)] else FormatUint(n / 10) + [DigitChar(n % 10)]
  }

  /** strconv.FormatInt(x, 10). */
  function FormatInt(x: int): (s: string)
    ensures s != [] && IsDigit(s[|s| - 1])
    ensures s[0] == '-' || IsDigit(s[0])
  {
    if x < 0 then "-" + FormatUint(-x) else FormatUint(x)
  }

  /** Reading back the decimal text of `n` gives `n`. */
  lemma {:induction false} DecimalRoundTrip(n: nat)
    ensures DecimalValue(FormatUint(n)) == n
    decreases n
  {
    if n >= 10 {
      var s := FormatUint(n);
      assert s[..|s| - 1] == FormatUint(n / 10);
      DecimalRoundTrip(n / 10);
    }
  }

  /** The longest run of digits `s` starts with: what strconv reads before it meets anything else. */
  function DigitPrefix(s: string): (p: string)
    ensures |p| <= |s| && p == s[..|p|]
    ensures forall i :: 0 <= i < |p| ==> IsDigit(p[i])
    ensures |p| < |s| ==> !IsDigit(s[|p|])
  {
    if s != [] && IsDigit(s[0]) then [s[0]] + DigitPrefix(s[1..]) else []
  }

  /**
   * strconv.ParseUint(s, 10, 64) with its error ignored: the bound once the
   * leading digits overflow, the value of an all-digit text, 0 otherwise.
   */
  function ParseUint(s: string): (v: nat)
    ensures v <= MaxUint64
  {
    var prefix := DigitPrefix(s);
    if DecimalValue(prefix) > MaxUint64 then MaxUint64
    else if IsDecimal(s) then
      DigitPrefixOfDecimal(s);
      DecimalValue(s)
    else 0
  }

  /**
   * strconv.ParseInt(s, 10, 64) with its error ignored: an optional sign,
   * then ParseUint of the rest, clamped to the signed range.
   */
  function ParseInt(s: string): (v: int)
    ensures MinInt64 <= v <= MaxInt64
  {
    if s == [] then 0
    else
      var negative := s[0] == '-';
      var digits := if s[0] == '+' || s[0] == '-' then s[1..] else s;
      var magnitude: int := ParseUint(digits);
      if !negative && magnitude > MaxInt64 then MaxInt64
      else if negative && magnitude > -MinInt64 then MinInt64
      else if negative then -magnitude
      else magnitude
  }

  /** A run of digits is its own digit prefix. */
  lemma {:induction false} DigitPrefixOfDecimal(s: string)
    requires forall i :: 0 <= i < |s| ==> IsDigit(s[i])
    ensures DigitPrefix(s) == s
  {
    if s != [] {
      DigitPrefixOfDecimal(s[1..]);
    }
  }

  /** Every unsigned 64-bit value survives formatting and parsing. */
  lemma ParseUintRoundTrip(n: nat)
    requires n <= MaxUint64
    ensures ParseUint(FormatUint(n)) == n
  {
    DecimalRoundTrip(n);
    DigitPrefixOfDecimal(FormatUint(n));
  }

  /** Every signed 64-bit value survives formatting and parsing. */
  lemma ParseIntRoundTrip(x: int)
    requires MinInt64 <= x <= MaxInt64
    ensures ParseInt(FormatInt(x)) == x
  {
    var s := FormatInt(x);
    if x < 0 {
      ParseUintRoundTrip(-x);
      assert s[0] == '-' && s[1..] == FormatUint(-x);
    } else {
      ParseUintRoundTrip(x);
      assert IsDigit(s[0]) && s == FormatUint(x);
    }
  }

  /** Text that is not a run of digits, and whose leading digits stay in range, reads as 0 rather than failing. */
  lemma ParseUintNonNumeric(s: string)
    requires !IsDecimal(s) && DecimalValue(DigitPrefix(s)) <= MaxUint64
    ensures ParseUint(s) == 0
  {
  }

  /** The same for a signed field: what follows the optional sign is not a run of digits. */
  lemma ParseIntNonNumeric(s: string)
    requires s != []
    requires var digits := if s[0] == '+' || s[0] == '-' then s[1..] else s;
      !IsDecimal(digits) && DecimalValue(DigitPrefix(digits)) <= MaxUint64
    ensures ParseInt(s) == 0
  {
  }

  /**
   * Once the leading digits exceed the unsigned 64-bit range the result is
   * the bound, whatever follows them: "18446744073709551616x" reads as
   * 18446744073709551615.
   */
  lemma ParseUintSaturates(s: string)
    requires DecimalValue(DigitPrefix(s)) > MaxUint64
    ensures ParseUint(s) == MaxUint64
  {
  }

  /** A signed field whose leading digits overflow clamps to the bound on its sign's side. */
  lemma ParseIntSaturates(s: string)
    requires s != []
    requires var digits := if s[0] == '+' || s[0] == '-' then s[1..] else s;
      DecimalValue(DigitPrefix(digits)) > MaxUint64
    ensures ParseInt(s) == if s[0] == '-' then MinInt64 else MaxInt64
  {
  }

  /** The leading digits decide: a decimal text's prefix value is its value. */
  lemma {:induction false} DigitPrefixValue(s: string, junk: string)
    requires IsDecimal(s) && (junk == [] || !IsDigit(junk[0]))
    ensures DigitPrefix(s + junk) == s
    decreases |s|
  {
    if |s| > 1 {
      assert (s + junk)[1..] == s[1..] + junk;
      DigitPrefixValue(s[1..], junk);
    } else {
      assert (s + junk)[1..] == junk;
    }
  }

  /**
   * Any decimal beyond the unsigned range followed by a non-digit saturates:
   * the range error wins over the syntax error.
   */
  lemma OverflowBeforeJunk(s: string, junk: string)
    requires IsDecimal(s) && DecimalValue(s) > MaxUint64
    requires junk != [] && !IsDigit(junk[0])
    ensures ParseUint(s + junk) == MaxUint64
    ensures ParseInt("-" + s + junk) == MinInt64
  {
    DigitPrefixValue(s, junk);
    assert ("-" + s + junk)[1..] == s + junk;
  }
}
