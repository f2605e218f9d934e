/**
 * Decimal text of whole numbers, as a JavaScript template literal `${n}` writes an
 * integral number, together with the parser that reads it back.
 */
module Decimal {
  import opened Wrappers

  predicate IsDigit(c: char) {
    '0' <= c <= '9'
  }

  function DigitChar(d: nat): (c: char)
    requires d < 10
    ensures IsDigit(c)
  {
    "0123456789"[d]
  }

  function DigitValue(c: char): (r: Option<nat>)
    ensures r.Some? <==> IsDigit(c)
    ensures r.Some? ==> r.value < 10 && DigitChar(r.value) == c
  {
    if IsDigit(c) then Some(c as int - '0' as int) else None
  }

  /** Shortest decimal text of `n`: digits only, no leading zero unless `n` is 0. */
  function ShowNat(n: nat): (s: string)
    ensures |s| > 0
    ensures forall k :: 0 <= k < |s| ==> IsDigit(s[k])
    ensures |s| > 1 ==> s[0] != '0'
    decreases n
  {
    if n < 10 then [DigitChar(n)] else ShowNat(n / 10) + [DigitChar(n % 10)]
  }

  /** `${i}` for an integral number: a minus sign in front of a negative one. */
  function Show(i: int): (s: string)
    ensures |s| > 0
    ensures (s[0] == '-') <==> i < 0
  {
    if i < 0 then "-" + ShowNat(-i) else ShowNat(i)
  }

  /** Reads a non-empty string of digits; anything else is rejected. */
  function ParseNat(s: string): (r: Option<nat>)
    ensures r.Some? ==> |s| > 0
    decreases |s|
  {
    if |s| == 0 then None
    else
      match DigitValue(s[|s| - 1])
      case None => None
      case Some(d) =>
        if |s| == 1 then Some(d)
        else
          match ParseNat(s[..|s| - 1])
          case None => None
          case Some(p) => Some(10 * p + d)
  }

  /** Reads an optional minus sign followed by digits. */
  function Parse(s: string): (r: Option<int>)
  {
    if |s| > 0 && s[0] == '-' then
      match ParseNat(s[1..])
      case None => None
      case Some(m) => Some(-(m as int))
    else
      match ParseNat(s)
      case None => None
      case Some(m) => Some(m)
  }

  /** Reading back the text of a whole number gives the number. */
  lemma {:induction false} ParseShowNat(n: nat)
    ensures ParseNat(ShowNat(n)) == Some(n)
    decreases n
  {
    if n >= 10 {
      var s := ShowNat(n);
      ParseShowNat(n / 10);
      assert s[..|s| - 1] == ShowNat(n / 10);
      assert s[|s| - 1] == DigitChar(n % 10);
    }
  }

  /** Reading back `${i}` gives `i`, for every integer `i`. */
  lemma ParseShow(i: int)
    ensures Parse(Show(i)) == Some(i)
  {
    var s := Show(i);
    if i < 0 {
      assert s[1..] == ShowNat(-i);
      ParseShowNat(-i);
    } else {
      assert s == ShowNat(i) && s[0] != '-';
      ParseShowNat(i);
    }
  }
}
