/**
 * JSON scalars as the dashboard receives them from the vehicle feed, and
 * Python's `str()` on them. `str()` is what makes a numeric id and a string id
 * compare equal: both `42` and `"42"` become the text "42".
 */
module PyText {

  /** The JSON scalars an id, destination or heading can hold: null, an integer or a string. */
  datatype Value = Null | Int(n: int) | Str(s: string)

  predicate IsDigit(c: char) {
    '0' <= c <= '9'
  }

  function Digit(d: nat): (c: char)
    requires d < 10
    ensures IsDigit(c)
  {
    ('0' as int + d) as char
  }

  function DigitValue(c: char): (d: nat)
    requires IsDigit(c)
    ensures d < 10
  {
    c as int - '0' as int
  }

  /**
   * Decimal rendering of a natural number, most significant digit first, as
   * Python writes it: canonical, so a leading zero appears only in "0" itself.
   */
  function NatToString(n: nat): (s: string)
    ensures |s| >= 1
    ensures forall k :: 0 <= k < |s| ==> IsDigit(s[k])
    ensures s[0] == '0' <==> n == 0
    ensures n == 0 ==> s == "0"
  {
    if n < 10 then [Digit(n)] else NatToString(n / 10) + [Digit(n % 10)]
  }

  /**
   * Python's `str()` on an `int`: a minus sign exactly for negative numbers,
   * then the canonical digits (no "-0", no leading zero).
   */
  function IntToString(n: int): (s: string)
    ensures |s| >= 1
    ensures s[0] == '-' || IsDigit(s[0])
    ensures s[0] == '-' <==> n < 0
    ensures s[0] == '-' ==> |s| >= 2 && IsDigit(s[1]) && s[1] != '0'
    ensures s[0] == '0' ==> s == "0"
    ensures forall k :: (if n < 0 then 1 else 0) <= k < |s| ==> IsDigit(s[k])
  {
    if n < 0 then "-" + NatToString(-n) else NatToString(n)
  }

  /** Reading back a string of decimal digits (the digits part of Python's `int()`). */
  function ParseNat(s: string): (n: nat)
    requires forall k :: 0 <= k < |s| ==> IsDigit(s[k])
  {
    if s == [] then 0 else ParseNat(s[..|s| - 1]) * 10 + DigitValue(s[|s| - 1])
  }

  /** Python's `int()` on a string produced by `str()` on an `int`. */
  function ParseInt(s: string): int
    requires |s| >= 1
    requires s[0] == '-' ==> forall k :: 1 <= k < |s| ==> IsDigit(s[k])
    requires s[0] != '-' ==> forall k :: 0 <= k < |s| ==> IsDigit(s[k])
  {
    if s[0] == '-' then -(ParseNat(s[1..]) as int) else ParseNat(s)
  }

  /** Python's `str()` on a JSON scalar: `None`, the decimal digits, or the string itself. */
  function StrOf(v: Value): string {
    match v
    case Null => "None"
    case Int(n) => IntToString(n)
    case Str(s) => s
  }

  lemma {:induction false} ParseNatOfNatToString(n: nat)
    ensures ParseNat(NatToString(n)) == n
  {
    if n >= 10 {
      var s := NatToString(n);
      var init := NatToString(n / 10);
      assert s == init + [Digit(n % 10)];
      assert s[..|s| - 1] == init;
      ParseNatOfNatToString(n / 10);
    }
  }

  /** `int(str(n)) == n`: the decimal rendering loses nothing. */
  lemma ParseIntOfIntToString(n: int)
    ensures ParseInt(IntToString(n)) == n
  {
    var s := IntToString(n);
    if n < 0 {
      assert s[1..] == NatToString(-n);
      ParseNatOfNatToString(-n);
    } else {
      ParseNatOfNatToString(n);
    }
  }

  /** Two integers render to the same text only when they are the same integer. */
  lemma IntToStringInjective(a: int, b: int)
    requires IntToString(a) == IntToString(b)
    ensures a == b
  {
    ParseIntOfIntToString(a);
    ParseIntOfIntToString(b);
  }

  /**
   * The values whose `str()` is the rendering of the integer `n` are exactly
   * the integer `n` and the string of its digits: never null, never another integer.
   */
  lemma StrOfMatchesInt(n: int, v: Value)
    ensures StrOf(v) == IntToString(n) <==> v == Int(n) || v == Str(IntToString(n))
  {
    match v
    case Null =>
      assert StrOf(v)[0] == 'N';
    case Int(m) =>
      if IntToString(m) == IntToString(n) {
        IntToStringInjective(m, n);
      }
    case Str(_) =>
  }

  /** No integer renders to a text that starts with a letter. */
  lemma StrOfNotInt(v: Value, t: string)
    requires |t| >= 1 && t[0] != '-' && !IsDigit(t[0])
    ensures StrOf(v) == t <==> v == Str(t) || (v == Null && t == "None")
  {
    match v
    case Null =>
    case Int(m) =>
      assert StrOf(v)[0] == '-' || IsDigit(StrOf(v)[0]);
    case Str(_) =>
  }
}
