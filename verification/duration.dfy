/**
 The work-duration field: `parseDuration` trims the text, recognises
 `/^(\d{1,2}):([0-5]\d)$/` and turns a match into seconds, falling back to
 eight hours on anything else. The regular expression is modelled twice: as
 the language `InPattern` describes, and as the small automaton `Scan` that
 reads it one character at a time; `ScanRecognisesPattern` proves the two agree.
 */
module Duration {
  import opened Wrappers
  import opened Decimal

  /** What the script substitutes for an unreadable duration: 8 hours. */
  const DefaultSeconds: nat := 8 * 3600

  /** The largest duration the pattern admits: 99 hours 59 minutes. */
  const MaxSeconds: nat := 99 * 3600 + 59 * 60

  /**
   The code points `String.prototype.trim` removes: ECMAScript WhiteSpace
   (tab, vertical tab, form feed, space, no-break space, byte order mark and the
   Unicode space separators) and LineTerminator (LF, CR, U+2028, U+2029).
   */
  predicate IsWhitespace(c: char) {
    var k := c as int;
    k == 0x09 || k == 0x0A || k == 0x0B || k == 0x0C || k == 0x0D || k == 0x20
    || k == 0xA0 || k == 0x1680 || (0x2000 <= k <= 0x200A) || k == 0x2028
    || k == 0x2029 || k == 0x202F || k == 0x205F || k == 0x3000 || k == 0xFEFF
  }

  predicate AllWhitespace(s: string) {
    forall i | 0 <= i < |s| :: IsWhitespace(s[i])
  }

  /** True of a string with no whitespace at either end (as `trim` leaves it). */
  predicate Trimmed(s: string) {
    s == [] || (!IsWhitespace(s[0]) && !IsWhitespace(s[|s| - 1]))
  }

  function TrimStart(s: string): (r: string)
    ensures |r| <= |s| && r == s[|s| - |r|..]
    ensures AllWhitespace(s[..|s| - |r|])
    ensures r == [] || !IsWhitespace(r[0])
  {
    if s != [] && IsWhitespace(s[0]) then
      var r := TrimStart(s[1..]);
      assert s[..|s| - |r|] == [s[0]] + s[1..][..|s[1..]| - |r|];
      r
    else
      s
  }

  function TrimEnd(s: string): (r: string)
    ensures |r| <= |s| && r == s[..|r|]
    ensures AllWhitespace(s[|r|..])
    ensures r == [] || !IsWhitespace(r[|r| - 1])
  {
    if s != [] && IsWhitespace(s[|s| - 1]) then
      var r := TrimEnd(s[..|s| - 1]);
      assert s[|r|..] == s[..|s| - 1][|r|..] + [s[|s| - 1]];
      r
    else
      s
  }

  /** `str.trim()`: the part of `s` between its leading and trailing whitespace. */
  function Trim(s: string): (r: string)
    ensures Trimmed(r)
    ensures |r| <= |s|
  {
    TrimEnd(TrimStart(s))
  }

  lemma {:induction false} TrimStartSkips(w: string, u: string)
    requires AllWhitespace(w)
    ensures TrimStart(w + u) == TrimStart(u)
  {
    if w != [] {
      assert (w + u)[0] == w[0] && IsWhitespace(w[0]);
      assert (w + u)[1..] == w[1..] + u;
      assert AllWhitespace(w[1..]) by {
        forall i | 0 <= i < |w[1..]| ensures IsWhitespace(w[1..][i]) {
          assert w[1..][i] == w[i + 1];
        }
      }
      TrimStartSkips(w[1..], u);
    } else {
      assert w + u == u;
    }
  }

  lemma {:induction false} TrimEndSkips(u: string, w: string)
    requires AllWhitespace(w)
    ensures TrimEnd(u + w) == TrimEnd(u)
  {
    if w != [] {
      var w' := w[..|w| - 1];
      assert (u + w)[|u + w| - 1] == w[|w| - 1] && IsWhitespace(w[|w| - 1]);
      assert (u + w)[..|u + w| - 1] == u + w';
      assert AllWhitespace(w') by {
        forall i | 0 <= i < |w'| ensures IsWhitespace(w'[i]) {
          assert w'[i] == w[i];
        }
      }
      TrimEndSkips(u, w');
    } else {
      assert u + w == u;
    }
  }

  /**
   Trimming removes exactly the surrounding whitespace: whatever whitespace is
   put around a string without whitespace at its ends, `Trim` gives it back.
   */
  lemma TrimRemovesPadding(before: string, t: string, after: string)
    requires AllWhitespace(before) && AllWhitespace(after) && Trimmed(t)
    ensures Trim(before + t + after) == t
  {
    assert before + t + after == before + (t + after);
    TrimStartSkips(before, t + after);
    if t == [] {
      assert t + after == after + [];
      TrimStartSkips(after, []);
      assert TrimStart(before + t + after) == [];
    } else {
      assert TrimStart(t + after) == t + after;
      TrimEndSkips(t, after);
    }
  }

  /**
   The language of `/^(\d{1,2}):([0-5]\d)$/`: one or two ASCII digits, a
   colon, a digit from 0 to 5 and one more digit, with nothing before or after.
   */
  predicate InPattern(s: string) {
    && (|s| == 4 || |s| == 5)
    && AllDigits(s[..|s| - 3])
    && s[|s| - 3] == ':'
    && '0' <= s[|s| - 2] <= '5'
    && IsDigit(s[|s| - 1])
  }

  /** The first capture group's number, `parseInt(match[1], 10)`. */
  function Hours(s: string): (h: nat)
    requires InPattern(s)
    ensures h <= 99
  {
    ValueShort(s[..|s| - 3]);
    Value(s[..|s| - 3])
  }

  /** The second capture group's number, `parseInt(match[2], 10)`. */
  function Minutes(s: string): (m: nat)
    requires InPattern(s)
    ensures m <= 59
  {
    var mm := s[|s| - 2..];
    assert mm == [s[|s| - 2], s[|s| - 1]];
    ValuePair(s[|s| - 2], s[|s| - 1]);
    Value(mm)
  }

  /** States of the automaton that reads the pattern left to right. */
  datatype Scan =
    | Start
    | OneDigit(h: nat)
    | TwoDigits(h: nat)
    | Colon(h: nat)
    | Tens(h: nat, tens: nat)
    | Done(h: nat, m: nat)
    | Reject

  function Feed(st: Scan, c: char): Scan {
    match st
    case Start => if IsDigit(c) then OneDigit(DigitValue(c)) else Reject
    case OneDigit(h) =>
      if IsDigit(c) then TwoDigits(10 * h + DigitValue(c))
      else if c == ':' then Colon(h)
      else Reject
    case TwoDigits(h) => if c == ':' then Colon(h) else Reject
    case Colon(h) => if '0' <= c <= '5' then Tens(h, DigitValue(c)) else Reject
    case Tens(h, t) => if IsDigit(c) then Done(h, 10 * t + DigitValue(c)) else Reject
    case Done(_, _) => Reject
    case Reject => Reject
  }

  /** The automaton's state after reading all of `s` from `Start`. */
  function ScanText(s: string): Scan {
    if s == [] then Start else Feed(ScanText(s[..|s| - 1]), s[|s| - 1])
  }

  /** The result of `exec`: the two captured numbers, or no match. */
  function MatchDuration(s: string): Option<(nat, nat)> {
    match ScanText(s)
    case Done(h, m) => Some((h, m))
    case _ => None
  }

  /** A prefix of a pattern string up to and including the colon. */
  ghost predicate HoursColon(s: string) {
    (|s| == 2 || |s| == 3) && AllDigits(s[..|s| - 1]) && s[|s| - 1] == ':'
  }

  /** What having read `s` means for each state the automaton can be in. */
  ghost predicate Denotes(st: Scan, s: string) {
    match st
    case Start => s == []
    case OneDigit(h) => |s| == 1 && AllDigits(s) && h == Value(s)
    case TwoDigits(h) => |s| == 2 && AllDigits(s) && h == Value(s)
    case Colon(h) => HoursColon(s) && h == Value(s[..|s| - 1])
    case Tens(h, t) =>
      && 3 <= |s|
      && var colon := s[..|s| - 1];
      && HoursColon(colon) && h == Value(colon[..|colon| - 1])
      && '0' <= s[|s| - 1] <= '5' && t == DigitValue(s[|s| - 1])
    case Done(h, m) => InPattern(s) && h == Hours(s) && m == Minutes(s)
    case Reject => true
  }

  /** Every state the automaton reaches is faithful to the text read so far. */
  lemma {:induction false} ScanSound(s: string)
    ensures Denotes(ScanText(s), s)
  {
    if s != [] {
      var p, c := s[..|s| - 1], s[|s| - 1];
      assert s == p + [c];
      ScanSound(p);
      match ScanText(p)
      case Start =>
      case OneDigit(h) =>
        if IsDigit(c) {
          ValueSnoc(p, c);
        } else if c == ':' {
        }
      case TwoDigits(h) =>
      case Colon(h) =>
        if '0' <= c <= '5' {
          assert s[..|s| - 1] == p;
        }
      case Tens(h, t) =>
        if IsDigit(c) {
          assert s[..|s| - 3] == p[..|p| - 2] == p[..|p| - 1][..|p| - 2];
          assert s[|s| - 2..] == [p[|p| - 1], c];
          ValuePair(p[|p| - 1], c);
        }
      case Done(_, _) =>
      case Reject =>
    }
  }

  /** One or two digits leave the automaton holding their number. */
  lemma ScanHours(hh: string)
    requires 1 <= |hh| <= 2 && AllDigits(hh)
    ensures ScanText(hh) == if |hh| == 1 then OneDigit(Value(hh)) else TwoDigits(Value(hh))
  {
    assert hh[..1][..0] == [];
    assert ScanText(hh[..1]) == OneDigit(DigitValue(hh[0]));
    if |hh| == 2 {
      assert hh[..1] == hh[..|hh| - 1];
      ValueSnoc(hh[..1], hh[1]);
      assert hh[..1] + [hh[1]] == hh;
    } else {
      assert hh == hh[..1];
    }
  }

  /** Every string of the pattern drives the automaton to `Done` with its two numbers. */
  lemma ScanComplete(s: string)
    requires InPattern(s)
    ensures ScanText(s) == Done(Hours(s), Minutes(s))
  {
    var n := |s|;
    var hh := s[..n - 3];
    ScanHours(hh);
    var colon := s[..n - 2];
    assert colon[..|colon| - 1] == hh;
    assert ScanText(colon) == Colon(Value(hh));
    var tens := s[..n - 1];
    assert tens[..|tens| - 1] == colon;
    assert ScanText(tens) == Tens(Value(hh), DigitValue(s[n - 2]));
    ValuePair(s[n - 2], s[n - 1]);
    assert s[n - 2..] == [s[n - 2], s[n - 1]];
  }

  /** The automaton accepts exactly the pattern's language and captures the right numbers. */
  lemma ScanRecognisesPattern(s: string)
    ensures MatchDuration(s) == if InPattern(s) then Some((Hours(s), Minutes(s))) else None
  {
    if InPattern(s) {
      ScanComplete(s);
    } else {
      ScanSound(s);
    }
  }

  /** `hours * 3600 + minutes * 60`, which gives the hours and minutes back. */
  function Seconds(hours: nat, minutes: nat): (seconds: nat)
    requires hours <= 99 && minutes <= 59
    ensures seconds % 60 == 0 && seconds <= MaxSeconds
    ensures seconds / 3600 == hours && seconds % 3600 / 60 == minutes
  {
    var r := 60 * minutes;
    assert 0 <= r < 3600 && r % 60 == 0 && r / 60 == minutes;
    hours * 3600 + minutes * 60
  }

  /**
   `parseDuration(str)`: a trimmed `H:MM` or `HH:MM` gives `H * 3600 + MM * 60`
   seconds; anything else gives the eight-hour default.
   */
  function ParseDuration(str: string): (seconds: nat)
    ensures seconds % 60 == 0 && seconds <= MaxSeconds
    ensures InPattern(Trim(str)) ==> seconds == Seconds(Hours(Trim(str)), Minutes(Trim(str)))
    ensures !InPattern(Trim(str)) ==> seconds == DefaultSeconds
  {
    var t := Trim(str);
    var captured := MatchDuration(t);
    ScanRecognisesPattern(t);
    if captured.None? then DefaultSeconds else Seconds(captured.value.0, captured.value.1)
  }

  /** `H:MM` or `HH:MM` as typed is in the pattern and has no surrounding whitespace. */
  lemma TypedInPattern(hours: string, mm: string)
    requires 1 <= |hours| <= 2 && AllDigits(hours)
    requires |mm| == 2 && '0' <= mm[0] <= '5' && IsDigit(mm[1])
    ensures InPattern(hours + ":" + mm) && Trimmed(hours + ":" + mm)
  {
    var t := hours + ":" + mm;
    assert t[..|t| - 3] == hours;
    assert t[|t| - 3] == ':' && t[|t| - 2] == mm[0] && t[|t| - 1] == mm[1];
    assert t[0] == hours[0];
  }

  /** The capture groups of a typed `H:MM` or `HH:MM` are its hour and minute numbers. */
  lemma TypedCaptures(hours: string, mm: string)
    requires 1 <= |hours| <= 2 && AllDigits(hours)
    requires |mm| == 2 && '0' <= mm[0] <= '5' && IsDigit(mm[1])
    requires InPattern(hours + ":" + mm)
    ensures Hours(hours + ":" + mm) == Value(hours)
    ensures Minutes(hours + ":" + mm) == Value(mm)
  {
    var t := hours + ":" + mm;
    assert t[..|t| - 3] == hours;
    assert t[|t| - 2..] == mm;
  }

  /**
   The duration text a user types, `H:MM` or `HH:MM`, surrounded by any
   whitespace, parses to its number of seconds.
   */
  lemma ParseTypedDuration(before: string, hours: string, minutes: nat, after: string)
    requires AllWhitespace(before) && AllWhitespace(after)
    requires 1 <= |hours| <= 2 && AllDigits(hours) && minutes < 60
    ensures ParseDuration(before + (hours + ":" + Pad(minutes)) + after) == 3600 * Value(hours) + 60 * minutes
  {
    var mm := Pad(minutes);
    var t := hours + ":" + mm;
    var whole := before + t + after;
    PadBelowSixty(minutes);
    TypedInPattern(hours, mm);
    TypedCaptures(hours, mm);
    TrimRemovesPadding(before, t, after);
    assert Trim(whole) == t;
    assert ParseDuration(whole) == Seconds(Hours(t), Minutes(t));
    assert Hours(t) == Value(hours) && Minutes(t) == minutes;
  }

  /** Durations the timer accepts: `8:00` is eight hours, `08:30` eight and a half. */
  lemma ParseDurationAccepts()
    ensures ParseDuration("8:00") == 28800
    ensures ParseDuration("08:30") == 30600
    ensures ParseDuration("99:59") == MaxSeconds
  {
    AcceptsEight();
    AcceptsEightThirty();
    AcceptsLongest();
  }

  lemma AcceptsEight()
    ensures ParseDuration("8:00") == 28800
  {
    assert Trim("8:00") == "8:00";
    assert "8:00"[..1] == "8" && "8:00"[2..] == "00";
    ValuePair('0', '0');
  }

  lemma AcceptsEightThirty()
    ensures ParseDuration("08:30") == 30600
  {
    assert Trim("08:30") == "08:30";
    assert "08:30"[..2] == "08" && "08:30"[3..] == "30";
    ValuePair('0', '8');
    ValuePair('3', '0');
  }

  lemma AcceptsLongest()
    ensures ParseDuration("99:59") == MaxSeconds
  {
    assert Trim("99:59") == "99:59";
    assert "99:59"[..2] == "99" && "99:59"[3..] == "59";
    ValuePair('9', '9');
    ValuePair('5', '9');
  }

  /** Text outside the pattern falls back to eight hours: bad minutes, three hour digits, no colon, nothing. */
  lemma ParseDurationRejects()
    ensures ParseDuration("25:61") == DefaultSeconds
    ensures ParseDuration("100:00") == DefaultSeconds
    ensures ParseDuration("800") == DefaultSeconds
    ensures ParseDuration("") == DefaultSeconds
  {
    RejectsBadMinutes();
    RejectsLongHours();
    RejectsNoColon();
  }

  lemma RejectsBadMinutes()
    ensures ParseDuration("25:61") == DefaultSeconds
  {
    assert TrimStart("25:61") == "25:61";
    assert TrimEnd("25:61") == "25:61";
    assert Trim("25:61") == "25:61";
    assert "25:61"[3] == '6';
    assert !InPattern("25:61");
  }

  lemma RejectsLongHours()
    ensures ParseDuration("100:00") == DefaultSeconds
  {
    assert TrimStart("100:00") == "100:00";
    assert TrimEnd("100:00") == "100:00";
    assert Trim("100:00") == "100:00";
    assert !InPattern("100:00");
  }

  lemma RejectsNoColon()
    ensures ParseDuration("800") == DefaultSeconds
  {
    assert TrimStart("800") == "800";
    assert TrimEnd("800") == "800";
    assert Trim("800") == "800";
    assert !InPattern("800");
  }
}
