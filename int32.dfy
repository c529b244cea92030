/**
 * Rust's `i32` as the handlers use it: `str::parse::<i32>` (FromStr) and
 * `i32::to_string` (Display), over unbounded integers with the range checked
 * explicitly.
 */
module Int32 {
  import opened Wrappers

  const MinI32: int := -0x8000_0000
  const MaxI32: int := 0x7fff_ffff

  predicate InRange(x: int)
  {
    MinI32 <= x <= MaxI32
  }

  predicate IsDigit(c: char)
  {
    '0' <= c <= '9'
  }

  predicate AllDigits(s: string)
  {
    forall i :: 0 <= i < |s| ==> IsDigit(s[i])
  }

  function DigitValue(c: char): nat
    requires IsDigit(c)
  {
    (c as int) - ('0' as int)
  }

  function DigitChar(d: nat): (c: char)
    requires d < 10
    ensures IsDigit(c) && DigitValue(c) == d
  {
    (('0' as int) + d) as char
  }

  /** The number a run of decimal digits denotes, most significant digit first. */
  function DigitsValue(s: string): nat
    requires AllDigits(s)
  {
    if s == [] then 0 else DigitsValue(s[..|s| - 1]) * 10 + DigitValue(s[|s| - 1])
  }

  /**
   * `s.parse::<i32>()`: an optional `+` or `-`, then at least one ASCII digit
   * and nothing else; the value must fit in 32 bits. No whitespace is skipped.
   */
  function Parse(s: string): (r: Option<int>)
    ensures r.Some? ==> InRange(r.value)
    ensures r.Some? ==> |s| > 0 && (s[0] == '-' || s[0] == '+' || IsDigit(s[0]))
    ensures r.Some? ==> forall i :: 1 <= i < |s| ==> IsDigit(s[i])
    ensures r.Some? ==> IsDigit(s[|s| - 1])
  {
    if s == [] then None
    else
      var signed := s[0] == '-' || s[0] == '+';
      var digits := if signed then s[1..] else s;
      if digits == [] || !AllDigits(digits) then None
      else
        var magnitude := DigitsValue(digits);
        var v := if s[0] == '-' then -(magnitude as int) else magnitude as int;
        if InRange(v) then Some(v) else None
  }

  /** The shortest decimal representation of `n`: no leading zero except for zero itself. */
  function Digits(n: nat): (s: string)
    ensures |s| > 0 && AllDigits(s)
    ensures DigitsValue(s) == n
    ensures s[0] == '0' ==> s == "0"
  {
    if n < 10 then [DigitChar(n)]
    else
      var init := Digits(n / 10);
      var s := init + [DigitChar(n % 10)];
      assert s[..|s| - 1] == init;
      s
  }

  /** `x.to_string()` for an `i32`: a minus sign for negative values, then the digits. */
  function ToString(x: int): (s: string)
    ensures |s| > 0
    ensures s[0] == '-' <==> x < 0
    ensures x >= 0 ==> AllDigits(s) && DigitsValue(s) == x && (s[0] == '0' ==> s == "0")
    ensures x < 0 ==> AllDigits(s[1..]) && DigitsValue(s[1..]) == -x && s[1] != '0'
  {
    if x < 0 then "-" + Digits(-x) else Digits(x)
  }

  /**
   * The other direction of `Parse`'s contract: a non-empty run of digits,
   * bare, after `+` or after `-`, does parse, to the value it denotes with
   * that sign, whenever that value fits in 32 bits.
   */
  lemma ParseDigits(d: string)
    requires d != [] && AllDigits(d)
    ensures Parse(d) == (if InRange(DigitsValue(d)) then Some(DigitsValue(d) as int) else None)
    ensures Parse("+" + d) == Parse(d)
    ensures Parse("-" + d) == (if InRange(-(DigitsValue(d) as int)) then Some(-(DigitsValue(d) as int)) else None)
  {
    assert ("+" + d)[1..] == d;
    assert ("-" + d)[1..] == d;
  }

  /** Leading zeros do not change the value: `"007"` denotes 7. */
  lemma {:induction false} LeadingZero(d: string)
    requires AllDigits(d)
    ensures AllDigits("0" + d) && DigitsValue("0" + d) == DigitsValue(d)
    decreases |d|
  {
    if d != [] {
      var init := d[..|d| - 1];
      LeadingZero(init);
      assert ("0" + d)[..|d|] == "0" + init;
    }
  }

  /** An explicit `+` is accepted: `"+5"` parses as 5. */
  lemma ParsePlusSign()
    ensures Parse("+5") == Some(5)
  {
    ParseDigits("5");
    assert "+" + "5" == "+5";
  }

  /** Leading zeros are accepted: `"007"` parses as 7. */
  lemma ParseLeadingZeros()
    ensures Parse("007") == Some(7)
  {
    LeadingZero("7");
    assert "0" + "7" == "07";
    LeadingZero("07");
    assert "0" + "07" == "007";
    ParseDigits("007");
  }

  /** A bare sign is no number. */
  lemma ParseBareSign()
    ensures Parse("-") == None && Parse("+") == None
  {
  }

  /** Parsing what `to_string` printed gives the number back. */
  lemma ParseToString(x: int)
    requires InRange(x)
    ensures Parse(ToString(x)) == Some(x)
  {
    var s := ToString(x);
    if x < 0 {
      assert s[1..] == Digits(-x);
    }
  }
}
