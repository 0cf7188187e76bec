/**
 * The game's small string and number helpers. A Go string is a sequence of
 * bytes and `len` counts bytes; here a string is a sequence of characters,
 * one per byte.
 */
module Util {

  /** `Contains`: whether e is one of the elements of s, scanning from the front. */
  method Contains(s: seq<string>, e: string) returns (found: bool)
    ensures found <==> e in s
  {
    var i := 0;
    while i < |s|
      invariant 0 <= i <= |s|
      invariant e !in s[..i]
    {
      if e == s[i] {
        return true;
      }
      i := i + 1;
    }
    assert s[..i] == s;
    return false;
  }

  // ---------------------------------------------------------------------------
  // Decimal formatting, as `fmt.Sprintf("%d", n)` prints an integer

  predicate IsDigit(c: char) {
    '0' <= c <= '9'
  }

  predicate AllDigits(s: string) {
    forall i :: 0 <= i < |s| ==> IsDigit(s[i])
  }

  /** The number a string of decimal digits denotes, most significant digit first. */
  function DigitsValue(s: string): nat
    requires AllDigits(s)
  {
    if s == [] then 0 else DigitsValue(s[..|s| - 1]) * 10 + (s[|s| - 1] as int - '0' as int)
  }

  function DigitChar(d: nat): (c: char)
    requires d < 10
    ensures IsDigit(c) && c as int - '0' as int == d
  {
    (d + '0' as int) as char
  }

  /** The decimal digits of a natural number: they denote it, and there are
      one, two or three of them exactly when it is below 10, 100 or 1000. */
  function NatString(n: nat): (s: string)
    ensures AllDigits(s) && DigitsValue(s) == n
    ensures 1 <= |s|
    ensures n < 10 <==> |s| == 1
    ensures n < 100 <==> |s| <= 2
    ensures n < 1000 <==> |s| <= 3
    ensures s[0] == '0' ==> n == 0
  {
    if n < 10 then
      [DigitChar(n)]
    else
      var s := NatString(n / 10) + [DigitChar(n % 10)];
      assert s[..|s| - 1] == NatString(n / 10);
      s
  }

  /** `%d` of any integer: a minus sign before the digits of a negative one. */
  function IntString(n: int): string {
    if n < 0 then "-" + NatString(-n) else NatString(n)
  }

  /** A zero in front of a digit string does not change the number it denotes. */
  lemma {:induction false} LeadingZero(s: string)
    requires AllDigits(s)
    ensures AllDigits("0" + s) && DigitsValue("0" + s) == DigitsValue(s)
  {
    if s != [] {
      var t := s[..|s| - 1];
      LeadingZero(t);
      assert ("0" + s)[..|s|] == "0" + t;
    }
  }

  /** `PaddingID`: the id with zeros in front, to three characters when it has
      fewer digits; a negative id keeps its sign after the two zeros. */
  function PaddingID(id: int): (s: string)
    ensures 0 <= id < 1000 ==> |s| == 3
    ensures id >= 1000 ==> |s| > 3 && s == NatString(id)
    ensures id < 0 ==> |s| >= 4 && s[..3] == "00-" && s == "00-" + NatString(-id)
  {
    if id < 0 then
      var n := NatString(-id);
      assert "00" + ("-" + n) == "00-" + n;
      "00" + IntString(id)
    else if id < 10 then "00" + IntString(id)
    else if id < 100 then "0" + IntString(id)
    else IntString(id)
  }

  /** For an id of at most three digits, PaddingID gives three digits that
      denote the id again. */
  lemma PaddingIDValue(id: int)
    requires 0 <= id < 1000
    ensures AllDigits(PaddingID(id)) && DigitsValue(PaddingID(id)) == id
  {
    var s := NatString(id);
    if id < 10 {
      LeadingZero(s);
      LeadingZero("0" + s);
      assert "00" + s == "0" + ("0" + s);
    } else if id < 100 {
      LeadingZero(s);
    }
  }

  // ---------------------------------------------------------------------------
  // Padding

  /** n copies of unit, one after the other. */
  function Repeat(unit: string, n: nat): string {
    if n == 0 then [] else unit + Repeat(unit, n - 1)
  }

  /** n copies of unit are n times as long as unit. */
  lemma {:induction false} RepeatLength(unit: string, n: nat)
    ensures |Repeat(unit, n)| == n * |unit|
  {
    if n > 0 {
      RepeatLength(unit, n - 1);
    }
  }

  /** One more copy can be added at either end. */
  lemma {:induction false} RepeatAppend(unit: string, n: nat)
    ensures Repeat(unit, n) + unit == Repeat(unit, n + 1)
  {
    if n > 0 {
      RepeatAppend(unit, n - 1);
      assert Repeat(unit, n) + unit == unit + (Repeat(unit, n - 1) + unit);
    }
  }

  /** What `PaddingLeft(str, to, pad)` returns: str when it already has `to`
      characters, otherwise pad put in front of it once per missing character. */
  function LeftPadded(str: string, to: nat, pad: string): string {
    if |str| >= to then str else Repeat(pad, to - |str|) + str
  }

  /** `PaddingLeft`: prepends pad to str, once per character str lacks of `to`. */
  method PaddingLeft(str: string, to: nat, pad: string) returns (r: string)
    ensures r == LeftPadded(str, to, pad)
  {
    r := str;
    var i := |str|;
    while i < to
      invariant |str| <= i && (i == |str| || i <= to)
      invariant r == Repeat(pad, i - |str|) + str
    {
      assert pad + r == Repeat(pad, i + 1 - |str|) + str;
      r := pad + r;
      i := i + 1;
    }
    if |str| >= to {
      assert i - |str| == 0 && r == str;
    }
  }

  /** The padded string ends with the original one; with a one-character pad it
      is exactly `to` long when it was shorter. */
  lemma LeftPaddedShape(str: string, to: nat, pad: string)
    ensures |str| <= |LeftPadded(str, to, pad)|
    ensures LeftPadded(str, to, pad)[|LeftPadded(str, to, pad)| - |str|..] == str
    ensures |pad| == 1 ==> |LeftPadded(str, to, pad)| == if |str| >= to then |str| else to
  {
    if |str| < to {
      RepeatLength(pad, to - |str|);
    }
  }

  lemma {:induction false} MulAtLeast(k: nat, m: nat)
    requires m >= 1
    ensures k * m >= k
  {
    if m > 1 {
      MulAtLeast(k, m - 1);
      assert k * m == k * (m - 1) + k;
    }
  }

  /** Padding a padded string again changes nothing, whatever the pad. */
  lemma LeftPaddedIdempotent(str: string, to: nat, pad: string)
    ensures LeftPadded(LeftPadded(str, to, pad), to, pad) == LeftPadded(str, to, pad)
  {
    if |str| < to {
      var k := to - |str|;
      RepeatLength(pad, k);
      if |pad| == 0 {
        assert Repeat(pad, k) == [];
      } else {
        MulAtLeast(k, |pad|);
      }
    }
  }

  /** What `PaddingRight(str, to)` returns: str followed by one space per
      character it lacks of `to`. */
  function RightPadded(str: string, to: nat): string {
    if |str| >= to then str else str + Repeat(" ", to - |str|)
  }

  /** `PaddingRight`: appends a space to str, once per character it lacks of `to`. */
  method PaddingRight(str: string, to: nat) returns (r: string)
    ensures r == RightPadded(str, to)
  {
    r := str;
    var i := |str|;
    while i < to
      invariant |str| <= i && (i == |str| || i <= to)
      invariant r == str + Repeat(" ", i - |str|)
    {
      RepeatAppend(" ", i - |str|);
      r := r + " ";
      i := i + 1;
    }
    if |str| >= to {
      assert i - |str| == 0 && r == str;
    }
  }

  /** The right-padded string starts with the original one, is max(|str|, to)
      long, and padding it again changes nothing. */
  lemma RightPaddedShape(str: string, to: nat)
    ensures |RightPadded(str, to)| == if |str| >= to then |str| else to
    ensures RightPadded(str, to)[..|str|] == str
    ensures RightPadded(RightPadded(str, to), to) == RightPadded(str, to)
  {
    if |str| < to {
      RepeatLength(" ", to - |str|);
    }
  }

  /** `IsSwitchCommand`: the commands numbered 5 to 9 are the switch commands. */
  predicate IsSwitchCommand(command: nat): (r: bool)
    ensures r <==> command in {5, 6, 7, 8, 9}
  {
    command >= 5 && command <= 9
  }
}
