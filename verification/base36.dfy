/**
 * `strconv.FormatInt(v, 36)`: the decimal-style rendering of an integer in
 * base 36 with digits 0-9 then a-z, and a leading '-' for negative values.
 * The parser proves that the rendering is injective, so distinct
 * counters give distinct short ids.
 */
module Base36 {
  import opened Wrappers

  /** The digit character for a value below 36. */
  function DigitChar(d: nat): char
    requires d < 36
  {
    if d < 10 then ('0' as int + d) as char else ('a' as int + (d - 10)) as char
  }

  /** The value of a base-36 digit character, if it is one. */
  function DigitValue(c: char): (r: Option<nat>)
    ensures r.Some? ==> r.value < 36 && DigitChar(r.value) == c
    ensures c == '-' ==> r.None?
  {
    if '0' <= c <= '9' then Some(c as int - '0' as int)
    else if 'a' <= c <= 'z' then Some(c as int - 'a' as int + 10)
    else None
  }

  /** The base-36 digits of a non-negative integer, most significant first, without leading zeros. */
  function FormatNat(n: nat): (s: string)
    ensures |s| >= 1
    ensures forall i | 0 <= i < |s| :: DigitValue(s[i]).Some?
    ensures n > 0 ==> s[0] != '0'
    ensures n == 0 ==> s == "0"
    decreases n
  {
    if n < 36 then [DigitChar(n)] else FormatNat(n / 36) + [DigitChar(n % 36)]
  }

  /** `strconv.FormatInt(v, 36)`. */
  function FormatInt(v: int): (s: string)
    ensures |s| >= 1
    ensures s[0] == '-' <==> v < 0
  {
    if v < 0 then "-" + FormatNat(-v) else FormatNat(v)
  }

  /** Reads a non-empty string of base-36 digits. */
  function ParseNat(s: string): (r: Option<nat>)
    decreases |s|
  {
    if |s| == 0 then None
    else match DigitValue(s[|s| - 1])
      case None => None
      case Some(d) =>
        if |s| == 1 then Some(d)
        else match ParseNat(s[..|s| - 1])
          case None => None
          case Some(high) => Some(high * 36 + d)
  }

  /** Reads an optionally negative base-36 integer. */
  function ParseInt(s: string): Option<int>
  {
    if |s| > 0 && s[0] == '-' then
      match ParseNat(s[1..])
      case None => None
      case Some(n) => Some(0 - n)
    else
      match ParseNat(s)
      case None => None
      case Some(n) => Some(n as int)
  }

  lemma DigitRoundTrip(d: nat)
    requires d < 36
    ensures DigitValue(DigitChar(d)) == Some(d)
  {
  }

  /** Parsing the rendering of a natural number gives it back. */
  lemma {:induction false} ParseFormatNat(n: nat)
    ensures ParseNat(FormatNat(n)) == Some(n)
    decreases n
  {
    if n < 36 {
      DigitRoundTrip(n);
    } else {
      var s := FormatNat(n);
      DigitRoundTrip(n % 36);
      assert s[..|s| - 1] == FormatNat(n / 36);
      ParseFormatNat(n / 36);
    }
  }

  /** Parsing the rendering of any integer gives it back. */
  lemma ParseFormatInt(v: int)
    ensures ParseInt(FormatInt(v)) == Some(v)
  {
    var s := FormatInt(v);
    if v < 0 {
      var digits := FormatNat(-v);
      assert s == "-" + digits;
      assert s[1..] == digits;
      ParseFormatNat(-v);
      assert ParseNat(s[1..]) == Some(-v);
    } else {
      assert s == FormatNat(v);
      ParseFormatNat(v);
      assert DigitValue(s[0]).Some?;
      assert s[0] != '-';
    }
  }

  /** Distinct integers have distinct renderings. */
  lemma FormatIntInjective(a: int, b: int)
    ensures FormatInt(a) == FormatInt(b) ==> a == b
  {
    ParseFormatInt(a);
    ParseFormatInt(b);
  }
}
