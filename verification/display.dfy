/**
  The cycle selector's label (`formatCycleDisplay` of `src/hooks/useAppLogic.ts`)
  and the decimal rendering of an integer that its template literal performs.
*/
module Display {
  /** The character of a decimal digit. */
  function DigitChar(d: int): char
    requires 0 <= d < 10
  {
    "0123456789"[d]
  }

  /** The value of a decimal digit character. */
  function DigitValue(c: char): int
    requires '0' <= c <= '9'
  {
    c as int - '0' as int
  }

  /** The decimal digits of `n`, most significant first, without leading zeros. */
  function NatToString(n: nat): (r: string)
    ensures |r| > 0
    ensures forall k :: 0 <= k < |r| ==> '0' <= r[k] <= '9'
    decreases n
  {
    if n < 10 then [DigitChar(n)] else NatToString(n / 10) + [DigitChar(n % 10)]
  }

  /** The value of a string of decimal digits (0 for the empty string). */
  function ParseNat(s: string): nat
    requires forall k :: 0 <= k < |s| ==> '0' <= s[k] <= '9'
    decreases |s|
  {
    if |s| == 0 then 0 else ParseNat(s[..|s| - 1]) * 10 + DigitValue(s[|s| - 1])
  }

  /** Reading the digits of `n` back gives `n`. */
  lemma {:induction false} NatToStringRoundTrip(n: nat)
    ensures ParseNat(NatToString(n)) == n
    decreases n
  {
    var s := NatToString(n);
    if n < 10 {
      assert DigitValue(DigitChar(n)) == n;
    } else {
      NatToStringRoundTrip(n / 10);
      assert s[..|s| - 1] == NatToString(n / 10);
      assert DigitValue(DigitChar(n % 10)) == n % 10;
    }
  }

  /** A string of decimal digits, optionally after a minus sign. */
  predicate IsNumeral(s: string) {
    |s| > 0 && forall k :: (if s[0] == '-' then 1 else 0) <= k < |s| ==> '0' <= s[k] <= '9'
  }

  /** JavaScript's rendering of an integer: a minus sign before the digits of a negative one. */
  function IntToString(i: int): (r: string)
    ensures IsNumeral(r)
    ensures r[0] == '-' <==> i < 0
  {
    if i < 0 then "-" + NatToString(-i) else NatToString(i)
  }

  /** Reading back a rendered integer. */
  function ParseInt(s: string): int
    requires IsNumeral(s)
  {
    if s[0] == '-' then 0 - ParseNat(s[1..]) else ParseNat(s)
  }

  /** A minus sign before digits reads as the negated value of the digits. */
  lemma ParseNegative(digits: string)
    requires |digits| > 0 && forall k :: 0 <= k < |digits| ==> '0' <= digits[k] <= '9'
    ensures IsNumeral("-" + digits) && ParseInt("-" + digits) == 0 - ParseNat(digits)
  {
    var s := "-" + digits;
    assert s[0] == '-' && s[1..] == digits;
  }

  /** Rendering then reading an integer gives it back. */
  lemma IntToStringRoundTrip(i: int)
    ensures ParseInt(IntToString(i)) == i
  {
    if i < 0 {
      NatToStringRoundTrip(-i);
      ParseNegative(NatToString(-i));
    } else {
      NatToStringRoundTrip(i);
    }
  }

  /** Distinct integers are rendered differently. */
  lemma IntToStringInjective(i: int, j: int)
    requires IntToString(i) == IntToString(j)
    ensures i == j
  {
    IntToStringRoundTrip(i);
    IntToStringRoundTrip(j);
  }

  const CyclesAgo := " Cycles Ago"

  /**
    `formatCycleDisplay(cycleNumber)` with `cycleCount` cycles recorded: a
    fixed label for no cycles, the current and the previous cycle, otherwise
    the position followed by " Cycles Ago".
  */
  function FormatCycleDisplay(cycleCount: nat, cycleNumber: int): (r: string)
    ensures cycleCount == 0 ==> r == "No Cycles"
    ensures cycleCount > 0 && cycleNumber == 0 ==> r == "Current Cycle"
    ensures cycleCount > 0 && cycleNumber == 1 ==> r == "Previous Cycle"
    ensures cycleCount > 0 && cycleNumber != 0 && cycleNumber != 1 ==>
      |r| > |CyclesAgo| && r[|r| - |CyclesAgo|..] == CyclesAgo &&
      IsNumeral(r[..|r| - |CyclesAgo|]) && ParseInt(r[..|r| - |CyclesAgo|]) == cycleNumber
  {
    if cycleCount == 0 then "No Cycles"
    else if cycleNumber == 0 then "Current Cycle"
    else if cycleNumber == 1 then "Previous Cycle"
    else
      var digits := IntToString(cycleNumber);
      var r := digits + CyclesAgo;
      assert r[..|r| - |CyclesAgo|] == digits && r[|r| - |CyclesAgo|..] == CyclesAgo;
      IntToStringRoundTrip(cycleNumber);
      r
  }

  /** While any cycle is recorded, different positions get different labels. */
  lemma FormatCycleDisplayInjective(cycleCount: nat, i: int, j: int)
    requires cycleCount > 0
    requires FormatCycleDisplay(cycleCount, i) == FormatCycleDisplay(cycleCount, j)
    ensures i == j
  {
    var r := FormatCycleDisplay(cycleCount, i);
    if i != 0 && i != 1 {
      assert r[|r| - 1] == 'o';
    }
    if j != 0 && j != 1 {
      assert r[|r| - 1] == 'o';
    }
  }
}
