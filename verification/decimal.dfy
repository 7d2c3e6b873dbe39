/**
 Decimal digits as the timer's script reads and writes them: `parseInt(s, 10)`
 on a string of ASCII digits, `n.toString()` on a non-negative integer, and
 the `pad` helper that left-pads that text with zeros to two characters.
 */
module Decimal {

  predicate IsDigit(c: char) {
    '0' <= c <= '9'
  }

  predicate AllDigits(s: string) {
    forall i | 0 <= i < |s| :: IsDigit(s[i])
  }

  function DigitValue(c: char): (d: nat)
    requires IsDigit(c)
    ensures d < 10
  {
    c as int - '0' as int
  }

  function DigitChar(d: nat): (c: char)
    requires d < 10
    ensures IsDigit(c) && DigitValue(c) == d
  {
    ('0' as int + d) as char
  }

  /** The number a string of decimal digits denotes (most significant digit first). */
  function Value(s: string): nat
    requires AllDigits(s)
  {
    if s == [] then 0 else 10 * Value(s[..|s| - 1]) + DigitValue(s[|s| - 1])
  }

  /** Appending a digit shifts the value one decimal place. */
  lemma ValueSnoc(s: string, c: char)
    requires AllDigits(s) && IsDigit(c)
    ensures AllDigits(s + [c]) && Value(s + [c]) == 10 * Value(s) + DigitValue(c)
  {
    assert (s + [c])[..|s|] == s;
  }

  /** Two digits denote ten times the first plus the second. */
  lemma ValuePair(a: char, b: char)
    requires IsDigit(a) && IsDigit(b)
    ensures AllDigits([a, b]) && Value([a, b]) == 10 * DigitValue(a) + DigitValue(b)
  {
    assert [a, b][..1] == [a];
    assert [a][..0] == [];
    assert Value([a]) == DigitValue(a);
  }

  /** At most two digits denote a number below one hundred. */
  lemma ValueShort(s: string)
    requires AllDigits(s) && |s| <= 2
    ensures Value(s) < 100
    ensures |s| <= 1 ==> Value(s) < 10
  {
    if |s| == 2 {
      assert s == [s[0], s[1]];
      ValuePair(s[0], s[1]);
    } else if |s| == 1 {
      assert s[..0] == [];
    }
  }

  /** `n.toString()` for a non-negative integer: shortest decimal text, no leading zero. */
  function Show(n: nat): (s: string)
    ensures 1 <= |s| && AllDigits(s)
    ensures Value(s) == n
    ensures n == 0 ==> s == "0"
    ensures n > 0 ==> s[0] != '0'
    ensures |s| == 1 <==> n < 10
    ensures n < 100 ==> |s| <= 2
    decreases n
  {
    if n < 10 then
      [DigitChar(n)]
    else
      var prefix := Show(n / 10);
      ValueSnoc(prefix, DigitChar(n % 10));
      prefix + [DigitChar(n % 10)]
  }

  /** JavaScript's `String.prototype.padStart` with a one-character filler. */
  function PadStart(s: string, width: nat, fill: char): (r: string)
    ensures |r| == if |s| >= width then |s| else width
    ensures r[|r| - |s|..] == s
    ensures forall i | 0 <= i < |r| - |s| :: r[i] == fill
  {
    if |s| >= width then s else seq(width - |s|, _ => fill) + s
  }

  /** `pad(n)`: the decimal text of `n`, with a leading zero when it has one digit. */
  function Pad(n: nat): (s: string)
    ensures AllDigits(s) && Value(s) == n
    ensures |s| >= 2
    ensures n < 100 ==> |s| == 2
    ensures n >= 10 ==> s == Show(n)
  {
    if n < 10 then
      ValuePair('0', DigitChar(n));
      ['0', DigitChar(n)]
    else
      Show(n)
  }

  /** `Pad` is `n.toString().padStart(2, '0')`. */
  lemma PadIsPadStart(n: nat)
    ensures Pad(n) == PadStart(Show(n), 2, '0')
  {
    if n < 10 {
      assert Show(n) == [DigitChar(n)];
      assert PadStart(Show(n), 2, '0') == ['0'] + Show(n);
    }
  }

  /** The two-character text of a count below sixty starts with a digit from 0 to 5. */
  lemma PadBelowSixty(n: nat)
    requires n < 60
    ensures |Pad(n)| == 2 && '0' <= Pad(n)[0] <= '5' && IsDigit(Pad(n)[1])
    ensures Value(Pad(n)) == 10 * DigitValue(Pad(n)[0]) + DigitValue(Pad(n)[1])
  {
    var s := Pad(n);
    assert s == [s[0], s[1]];
    ValuePair(s[0], s[1]);
  }
}
