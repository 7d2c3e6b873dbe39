/**
 The overtime stopwatch of `updateOvertime`: whole seconds of overtime split
 into hours, minutes and seconds and shown as `HH:MM:SS`, each field padded
 with `pad`. `Decode` reads such a text back, so the display is shown to lose
 nothing.
 */
module Stopwatch {
  import opened Wrappers
  import opened Decimal

  /** The three fields of the display. */
  datatype Fields = Fields(hours: nat, minutes: nat, seconds: nat)

  /** The mixed-radix split the script computes with `Math.floor`, `/` and `%`. */
  function Split(n: nat): (f: Fields)
    ensures 3600 * f.hours + 60 * f.minutes + f.seconds == n
    ensures f.minutes < 60 && f.seconds < 60
  {
    var rest := n % 3600;
    assert n == 3600 * (n / 3600) + rest;
    assert rest == 60 * (rest / 60) + rest % 60;
    assert rest % 60 == n % 60 by {
      assert n == 60 * (60 * (n / 3600) + rest / 60) + rest % 60;
    }
    Fields(n / 3600, rest / 60, n % 60)
  }

  /** The split is the only one with minutes and seconds below sixty. */
  lemma SplitUnique(f: Fields)
    requires f.minutes < 60 && f.seconds < 60
    ensures Split(3600 * f.hours + 60 * f.minutes + f.seconds) == f
  {
    var n := 3600 * f.hours + 60 * f.minutes + f.seconds;
    var g := Split(n);
    assert 0 <= 60 * f.minutes + f.seconds < 3600;
    assert 0 <= 60 * g.minutes + g.seconds < 3600;
    assert g.hours == f.hours;
    assert g.minutes == f.minutes;
  }

  /** Where the fields sit in a text joined from an hour field and two two-character fields. */
  lemma JoinedFields(h: string, m: string, s: string)
    requires |m| == 2 && |s| == 2
    ensures var t := h + ":" + m + ":" + s;
      && |t| == |h| + 6 && t[|t| - 6] == ':' && t[|t| - 3] == ':'
      && t[..|t| - 6] == h && t[|t| - 5..|t| - 3] == m && t[|t| - 2..] == s
  {
  }

  /** The stopwatch text for `n` seconds, `pad(h) + ':' + pad(m) + ':' + pad(s)`. */
  function Format(n: nat): (text: string)
    ensures |text| >= 8
    ensures n < 100 * 3600 ==> |text| == 8
    ensures text[|text| - 6] == ':' && text[|text| - 3] == ':'
    ensures '0' <= text[|text| - 5] <= '5' && '0' <= text[|text| - 2] <= '5'
  {
    var f := Split(n);
    var h, m, s := Pad(f.hours), Pad(f.minutes), Pad(f.seconds);
    JoinedFields(h, m, s);
    PadBelowSixty(f.minutes);
    PadBelowSixty(f.seconds);
    assert n < 100 * 3600 ==> f.hours < 100;
    h + ":" + m + ":" + s
  }

  /**
   Reads a stopwatch text back into seconds: digits, a colon, two digits below
   sixty, a colon, two digits below sixty. Texts of any other shape give `None`.
   */
  function Decode(text: string): Option<nat> {
    var n := |text|;
    if n >= 8 && text[n - 6] == ':' && text[n - 3] == ':'
       && '0' <= text[n - 5] <= '5' && '0' <= text[n - 2] <= '5'
       && AllDigits(text[..n - 6]) && AllDigits(text[n - 5..n - 3]) && AllDigits(text[n - 2..])
    then
      Some(3600 * Value(text[..n - 6]) + 60 * Value(text[n - 5..n - 3]) + Value(text[n - 2..]))
    else
      None
  }

  /** The display loses nothing: decoding the text gives back the seconds shown. */
  lemma DecodeFormat(n: nat)
    ensures Decode(Format(n)) == Some(n)
  {
    var f := Split(n);
    var h, m, s := Pad(f.hours), Pad(f.minutes), Pad(f.seconds);
    JoinedFields(h, m, s);
  }

  /** Two different second counts are never shown as the same text. */
  lemma FormatInjective(a: nat, b: nat)
    requires Format(a) == Format(b)
    ensures a == b
  {
    DecodeFormat(a);
    DecodeFormat(b);
  }

  /**
   `updateOvertime`: the whole seconds past the end of the period, shown when
   not negative; a negative count leaves the display as it was.
   */
  function UpdateOvertime(elapsed: real, duration: int, shown: string): (text: string)
    ensures (elapsed - duration as real).Floor < 0 ==> text == shown
    ensures (elapsed - duration as real).Floor >= 0 ==> |text| >= 8 && Decode(text) == Some((elapsed - duration as real).Floor)
    ensures 0 <= (elapsed - duration as real).Floor < 100 * 3600 ==> |text| == 8
  {
    var overtime := (elapsed - duration as real).Floor;
    if overtime >= 0 then
      DecodeFormat(overtime);
      Format(overtime)
    else
      shown
  }

  /** Five minutes over reads `00:05:00`. */
  lemma FiveMinutesOver()
    ensures UpdateOvertime(29100.0, 28800, "00:00:00") == "00:05:00"
  {
    assert Split(300) == Fields(0, 5, 0);
  }
}
