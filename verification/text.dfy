/** Decimal rendering of non-negative integers as `Number.prototype.toString`
    produces it, the two-character zero padding of `padStart(2, '0')`, the
    "HH:MM" clock text built from them, and the parsers that invert each. */
module Text {

  predicate IsDigit(c: char) {
    '0' <= c <= '9'
  }

  predicate AllDigits(s: string) {
    forall i :: 0 <= i < |s| ==> IsDigit(s[i])
  }

  function DigitChar(d: int): (c: char)
    requires 0 <= d < 10
    ensures IsDigit(c)
  {
    (d + '0' as int) as char
  }

  function DigitValue(c: char): (d: int)
    requires IsDigit(c)
    ensures 0 <= d < 10
  {
    c as int - '0' as int
  }

  /** The decimal form of `n`: only digits, and no leading zero unless `n` is 0. */
  function NatToString(n: nat): (s: string)
    ensures 1 <= |s|
    ensures AllDigits(s)
    ensures s[0] == '0' <==> n == 0
  {
    if n < 10 then [DigitChar(n)] else NatToString(n / 10) + [DigitChar(n % 10)]
  }

  /** The value of a string of decimal digits. */
  function ParseDigits(s: string): nat
    requires AllDigits(s)
  {
    if |s| == 0 then 0 else ParseDigits(s[..|s| - 1]) * 10 + DigitValue(s[|s| - 1])
  }

  /** Reading back the decimal form of `n` gives `n`. */
  lemma {:induction false} ParseNatToString(n: nat)
    ensures ParseDigits(NatToString(n)) == n
  {
    if n >= 10 {
      var s := NatToString(n);
      assert s[..|s| - 1] == NatToString(n / 10);
      ParseNatToString(n / 10);
    }
  }

  /** Distinct numbers have distinct decimal forms. */
  lemma NatToStringInjective(a: nat, b: nat)
    requires NatToString(a) == NatToString(b)
    ensures a == b
  {
    ParseNatToString(a);
    ParseNatToString(b);
  }

  /** `n.toString().padStart(2, '0')` for `n` below 100. */
  function Pad2(n: nat): (s: string)
    requires n < 100
    ensures |s| == 2
    ensures AllDigits(s)
  {
    if n < 10 then "0" + NatToString(n)
    else
      assert |NatToString(n / 10)| == 1;
      NatToString(n)
  }

  lemma ParsePad2(n: nat)
    requires n < 100
    ensures ParseDigits(Pad2(n)) == n
  {
    ParseNatToString(n);
    var s := Pad2(n);
    if n < 10 {
      assert s[..1] == "0";
      assert s[1] == NatToString(n)[0];
    } else {
      assert s == NatToString(n);
    }
  }

  /** "HH:MM" with both fields zero-padded to two characters. */
  function ClockText(hour: nat, minute: nat): (s: string)
    requires hour < 100 && minute < 100
    ensures |s| == 5 && s[2] == ':'
    ensures AllDigits(s[..2]) && AllDigits(s[3..])
  {
    var s := Pad2(hour) + ":" + Pad2(minute);
    assert s[..2] == Pad2(hour) && s[3..] == Pad2(minute);
    s
  }

  /** Reads the hour and minute back out of "HH:MM". */
  function ParseClock(s: string): (int, int)
    requires |s| == 5
    requires AllDigits(s[..2]) && AllDigits(s[3..])
  {
    (ParseDigits(s[..2]), ParseDigits(s[3..]))
  }

  lemma ClockTextRoundTrip(hour: nat, minute: nat)
    requires hour < 100 && minute < 100
    ensures ParseClock(ClockText(hour, minute)) == (hour, minute)
  {
    var s := ClockText(hour, minute);
    assert s[..2] == Pad2(hour) && s[3..] == Pad2(minute);
    ParsePad2(hour);
    ParsePad2(minute);
  }

  /** A run of digits ended by a non-digit has one length: two digit
      prefixes of `s` that both stop at a non-digit are the same prefix. */
  lemma DigitRunLength(s: string, i: nat, j: nat)
    requires i < |s| && j < |s|
    requires AllDigits(s[..i]) && AllDigits(s[..j])
    requires !IsDigit(s[i]) && !IsDigit(s[j])
    ensures i == j
  {
    assert forall k :: 0 <= k < i ==> s[..i][k] == s[k];
    assert forall k :: 0 <= k < j ==> s[..j][k] == s[k];
  }
}
