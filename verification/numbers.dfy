/**
 Decimal integers as text: Python's `int(s)` for base-10 input, and the
 decimal form `str(n)` / `f"{n}"` produces.
 */
module Numbers {
  import opened Basics

  predicate IsDigit(c: char)
  {
    '0' <= c <= '9'
  }

  function DigitValue(c: char): nat
    requires IsDigit(c)
  {
    (c as int) - ('0' as int)
  }

  function DigitChar(d: nat): (c: char)
    requires d < 10
    ensures IsDigit(c) && DigitValue(c) == d
  {
    (('0' as int) + d) as char
  }

  /** Characters allowed in the digit part of an `int()` literal. */
  predicate DigitOrUnderscore(c: char)
  {
    IsDigit(c) || c == '_'
  }

  /**
   The digit part of a base-10 `int()` literal: decimal digits, where a single
   underscore may stand between two digits.
   */
  predicate IsDigitRun(s: string)
  {
    && |s| > 0
    && IsDigit(s[0])
    && IsDigit(s[|s| - 1])
    && (forall k :: 0 <= k < |s| ==> DigitOrUnderscore(s[k]))
    && (forall k :: 0 <= k < |s| - 1 ==> s[k] == '_' ==> s[k + 1] != '_')
  }

  /** The value of a run of digits, underscores ignored. */
  function DigitsValue(s: string): nat
    requires forall k :: 0 <= k < |s| ==> DigitOrUnderscore(s[k])
    decreases |s|
  {
    if s == [] then 0
    else
      var init := s[..|s| - 1];
      var last := s[|s| - 1];
      assert DigitOrUnderscore(last);
      if last == '_' then DigitsValue(init)
      else 10 * DigitsValue(init) + DigitValue(last)
  }

  /**
   `int(s)`: an optional sign followed by a digit run; anything else (the empty
   string, spaces, letters, a doubled or trailing underscore) raises ValueError,
   modelled as None.
   */
  function ParseInt(s: string): (r: Option<int>)
    ensures r.Some? ==> s != [] && IsDigit(s[|s| - 1])
    ensures r.Some? && IsDigit(s[0]) ==> r.value >= 0
  {
    if |s| > 0 && (s[0] == '+' || s[0] == '-') then
      var digits := s[1..];
      if IsDigitRun(digits) then
        var v: int := DigitsValue(digits);
        Some(if s[0] == '-' then -v else v)
      else None
    else if IsDigitRun(s) then Some(DigitsValue(s))
    else None
  }

  /** The decimal digits of a natural number, most significant first, without leading zeros. */
  function ShowNat(n: nat): (r: string)
    ensures |r| >= 1
    ensures forall k :: 0 <= k < |r| ==> IsDigit(r[k])
    ensures r[0] == '0' ==> n == 0
    decreases n
  {
    if n < 10 then [DigitChar(n)] else ShowNat(n / 10) + [DigitChar(n % 10)]
  }

  /** `str(n)` for a Python int. */
  function ShowInt(n: int): (r: string)
    ensures |r| >= 1
    ensures r[0] == '-' <==> n < 0
  {
    if n < 0 then "-" + ShowNat(-n) else ShowNat(n)
  }

  lemma {:induction false} ShowNatValue(n: nat)
    ensures IsDigitRun(ShowNat(n))
    ensures DigitsValue(ShowNat(n)) == n
    decreases n
  {
    var s := ShowNat(n);
    if n >= 10 {
      ShowNatValue(n / 10);
      assert s[..|s| - 1] == ShowNat(n / 10);
    }
  }

  /** `int(str(n)) == n`: the decimal form reads back as the same number. */
  lemma ParseShow(n: int)
    ensures ParseInt(ShowInt(n)) == Some(n)
  {
    var s := ShowInt(n);
    if n < 0 {
      ShowNatValue(-n);
      assert s[0] == '-' && s[1..] == ShowNat(-n);
      assert IsDigitRun(s[1..]);
    } else {
      ShowNatValue(n);
      assert s == ShowNat(n);
      assert s[0] != '+' && s[0] != '-';
    }
  }

  /** Different numbers have different decimal forms. */
  lemma ShowIntInjective(m: int, n: int)
    requires ShowInt(m) == ShowInt(n)
    ensures m == n
  {
    ParseShow(m);
    ParseShow(n);
  }
}
