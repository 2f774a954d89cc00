/**
 * Decimal integer tokens, read the way Rust's `str::parse` reads them for the
 * fixed-width integer types the solvers use: an optional sign (`+` for every
 * type, `-` only for signed ones), then at least one ASCII digit and nothing
 * else; a value outside the type's range is an error.
 */
module Decimal {
  import opened Wrappers

  const U8_MAX: nat := 0xff
  const U16_MAX: nat := 0xffff
  const ISIZE_MIN: int := -0x8000_0000_0000_0000
  const ISIZE_MAX: int := 0x7fff_ffff_ffff_ffff

  predicate IsDigit(c: char)
  {
    '0' <= c <= '9'
  }

  predicate AllDigits(s: string)
  {
    forall i :: 0 <= i < |s| ==> IsDigit(s[i])
  }

  /**
   * The number a run of decimal digits denotes, most significant first, or
   * `None` when some character is not a digit.
   */
  function Value(s: string): (r: Option<nat>)
    ensures r.Some? <==> AllDigits(s)
  {
    if s == [] then Some(0)
    else
      var last := s[|s| - 1];
      match Value(s[..|s| - 1])
      case None => None
      case Some(v) => if IsDigit(last) then Some(v * 10 + (last as int - '0' as int)) else None
  }

  /** The shortest decimal rendering of `n` (no sign, no leading zeros). */
  function Show(n: nat): (s: string)
    ensures |s| > 0 && AllDigits(s)
  {
    var last := ('0' as int + n % 10) as char;
    if n < 10 then [last] else Show(n / 10) + [last]
  }

  /** Rendering with a leading `-` for negative numbers. */
  function ShowSigned(n: int): string
  {
    if n < 0 then "-" + Show(-n) else Show(n)
  }

  /** An unsigned integer type whose largest value is `max`. */
  function ParseUnsigned(s: string, max: nat): (r: Option<nat>)
    ensures r.Some? ==> r.value <= max
    ensures r.Some? ==> |s| > 0 && (IsDigit(s[0]) || s[0] == '+')
  {
    var digits := if |s| > 0 && s[0] == '+' then s[1..] else s;
    if |digits| == 0 then None
    else
      match Value(digits)
      case Some(v) => if v <= max then Some(v) else None
      case None => None
  }

  /** A signed integer type ranging over `min..=max`. */
  function ParseSigned(s: string, min: int, max: nat): (r: Option<int>)
    requires min <= 0
    ensures r.Some? ==> min <= r.value <= max
  {
    if |s| > 0 && s[0] == '-' then
      var digits := s[1..];
      if |digits| == 0 then None
      else
        match Value(digits)
        case Some(v) => if min <= -(v as int) then Some(-(v as int)) else None
        case None => None
    else
      match ParseUnsigned(s, max)
      case Some(v) => Some(v)
      case None => None
  }

  lemma {:induction false} ValueShow(n: nat)
    ensures Value(Show(n)) == Some(n)
  {
    var s := Show(n);
    var last := ('0' as int + n % 10) as char;
    if n >= 10 {
      assert s[..|s| - 1] == Show(n / 10);
      ValueShow(n / 10);
    }
  }

  /** Rendering then parsing gives back every value of the type. */
  lemma {:induction false} ParseShow(n: nat, max: nat)
    requires n <= max
    ensures ParseUnsigned(Show(n), max) == Some(n)
  {
    ValueShow(n);
  }

  /** The same round trip for signed types. */
  lemma {:induction false} ParseShowSigned(n: int, min: int, max: nat)
    requires min <= 0 && min <= n <= max
    ensures ParseSigned(ShowSigned(n), min, max) == Some(n)
  {
    if n < 0 {
      ValueShow(-n);
      assert ShowSigned(n)[1..] == Show(-n);
    } else {
      ValueShow(n);
    }
  }
}
