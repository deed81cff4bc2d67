/**
 * `strconv.ParseInt(s, 10, bitSize)` as the recognizers call it: an optional
 * sign, then one or more decimal digits, then a range check for the bit size.
 */
module StrConv {
  import opened Wrappers

  predicate IsDigit(c: char) {
    '0' <= c <= '9'
  }

  predicate AllDigits(s: string) {
    forall i :: 0 <= i < |s| ==> IsDigit(s[i])
  }

  /** The value of a digit string read most significant digit first. */
  function DecimalValue(s: string): nat
    requires AllDigits(s)
  {
    if s == [] then 0 else 10 * DecimalValue(s[..|s| - 1]) + (s[|s| - 1] as int - '0' as int)
  }

  /** The bit sizes the recognizers pass. */
  predicate ValidBitSize(bitSize: nat) {
    bitSize == 16 || bitSize == 32 || bitSize == 64
  }

  /** 2^(bitSize-1): the magnitude of the most negative value of the signed width. */
  function Cutoff(bitSize: nat): nat
    requires ValidBitSize(bitSize)
  {
    if bitSize == 16 then 0x8000
    else if bitSize == 32 then 0x8000_0000
    else 0x8000_0000_0000_0000
  }

  predicate InRange(n: int, bitSize: nat)
    requires ValidBitSize(bitSize)
  {
    -(Cutoff(bitSize) as int) <= n < Cutoff(bitSize)
  }

  /** `strconv.ParseUint(s, 10, _)` without its own width check, which `ParseInt` subsumes. */
  function ParseUint(s: string): Option<nat> {
    if s != [] && AllDigits(s) then Some(DecimalValue(s)) else None
  }

  /**
   * `strconv.ParseInt(s, 10, bitSize)`; `None` is any non-nil error, a syntax
   * error or a range error alike.
   */
  function ParseInt(s: string, bitSize: nat): (r: Option<int>)
    requires ValidBitSize(bitSize)
    ensures r.Some? ==> InRange(r.value, bitSize)
  {
    if s == [] then None
    else
      var neg := s[0] == '-';
      var body := if s[0] == '+' || s[0] == '-' then s[1..] else s;
      match ParseUint(body)
      case None => None
      case Some(un) =>
        if !neg && un >= Cutoff(bitSize) then None
        else if neg && un > Cutoff(bitSize) then None
        else Some(if neg then -(un as int) else un)
  }

  /** The strings `ParseInt` can accept: an optional `+` or `-` followed by one or more digits. */
  predicate IsDecimalLiteral(s: string) {
    if |s| > 0 && (s[0] == '+' || s[0] == '-') then |s| > 1 && AllDigits(s[1..])
    else |s| > 0 && AllDigits(s)
  }

  /** The signed value a decimal literal denotes. */
  function LiteralValue(s: string): int
    requires IsDecimalLiteral(s)
  {
    if s[0] == '-' then -(DecimalValue(s[1..]) as int)
    else if s[0] == '+' then DecimalValue(s[1..])
    else DecimalValue(s)
  }

  /** `ParseInt` succeeds exactly on decimal literals whose value fits the width, and yields that value. */
  lemma ParseIntExact(s: string, bitSize: nat)
    requires ValidBitSize(bitSize)
    ensures ParseInt(s, bitSize).Some? <==> IsDecimalLiteral(s) && InRange(LiteralValue(s), bitSize)
    ensures ParseInt(s, bitSize).Some? ==> ParseInt(s, bitSize).value == LiteralValue(s)
  {
  }

  /** Widths nest: a parse at a narrower width succeeds at every wider one with the same value. */
  lemma ParseIntWidens(s: string, narrow: nat, wide: nat)
    requires ValidBitSize(narrow) && ValidBitSize(wide) && narrow <= wide
    ensures ParseInt(s, narrow).Some? ==> ParseInt(s, wide) == ParseInt(s, narrow)
    ensures ParseInt(s, narrow).Some? <==> ParseInt(s, wide).Some? && InRange(ParseInt(s, wide).value, narrow)
  {
    ParseIntExact(s, narrow);
    ParseIntExact(s, wide);
  }

  /** A digit string followed by one more digit: the value is shifted one decimal place. */
  lemma {:induction false} DecimalValueSnoc(s: string, c: char)
    requires AllDigits(s) && IsDigit(c)
    ensures AllDigits(s + [c]) && DecimalValue(s + [c]) == 10 * DecimalValue(s) + (c as int - '0' as int)
  {
    assert (s + [c])[..|s|] == s;
  }

  /** The digit character for 0..9. */
  function Digit(d: nat): char
    requires d < 10
  {
    ('0' as int + d) as char
  }

  /** The shortest decimal spelling of a natural number. */
  function FormatNat(n: nat): (r: string)
    ensures r != [] && AllDigits(r)
  {
    if n < 10 then [Digit(n)] else FormatNat(n / 10) + [Digit(n % 10)]
  }

  /**
   * The decimal spelling of an integer: a minus sign for negatives, then the
   * shortest digit string. A reference definition for `ParseFormatRoundTrip`.
   */
  function FormatInt(n: int): string {
    if n < 0 then "-" + FormatNat(-n) else FormatNat(n)
  }

  /** Reading back the shortest spelling gives the number. */
  lemma {:induction false} DecimalValueOfFormat(n: nat)
    ensures DecimalValue(FormatNat(n)) == n
  {
    if n >= 10 {
      DecimalValueOfFormat(n / 10);
      DecimalValueSnoc(FormatNat(n / 10), Digit(n % 10));
    }
  }

  /** The decimal spelling of an integer is a decimal literal that denotes it. */
  lemma FormatIntLiteral(n: int)
    ensures IsDecimalLiteral(FormatInt(n)) && LiteralValue(FormatInt(n)) == n
  {
    if n < 0 {
      DecimalValueOfFormat(-n);
      assert ("-" + FormatNat(-n))[1..] == FormatNat(-n);
    } else {
      DecimalValueOfFormat(n);
    }
  }

  /** `ParseInt` inverts decimal formatting within the width and rejects the spelling of anything outside it. */
  lemma ParseFormatRoundTrip(n: int, bitSize: nat)
    requires ValidBitSize(bitSize)
    ensures ParseInt(FormatInt(n), bitSize) == if InRange(n, bitSize) then Some(n) else None
  {
    FormatIntLiteral(n);
    ParseIntExact(FormatInt(n), bitSize);
  }
}
