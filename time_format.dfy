/** The player's time formatter, `_formatTime`, over whole seconds.

    For a non-negative input every field the formatter computes depends only
    on the whole seconds, so working over `nat` loses nothing.  The decimal
    rendering of numbers and the reading of a clock string back (`Fields`,
    `ParseClock`) are defined here as the independent partners the formatter
    is proved against. */
module TimeFormat {

  import opened Wrappers

  // ---------------------------------------------------------------------
  // Decimal numerals
  // ---------------------------------------------------------------------

  predicate IsDigit(c: char) {
    '0' <= c <= '9'
  }

  predicate IsDigits(s: string) {
    forall k :: 0 <= k < |s| ==> IsDigit(s[k])
  }

  function DigitValue(c: char): nat
    requires IsDigit(c)
  {
    (c as int) - ('0' as int)
  }

  function DigitChar(d: nat): (c: char)
    requires d < 10
    ensures IsDigit(c) && DigitValue(c) == d
  {
    ((('0' as int) + d) as char)
  }

  /** The number a string of decimal digits denotes (the empty string denotes 0). */
  function Value(s: string): nat
    requires IsDigits(s)
  {
    if |s| == 0 then 0 else Value(s[..|s| - 1]) * 10 + DigitValue(s[|s| - 1])
  }

  /** JavaScript's rendering of a non-negative integer: its shortest decimal numeral. */
  function NatToString(n: nat): (r: string)
    ensures IsDigits(r) && |r| >= 1
    ensures Value(r) == n
    ensures r[0] == '0' ==> n == 0
    ensures n < 10 <==> |r| == 1
    ensures 10 <= n < 100 ==> |r| == 2
    decreases n
  {
    if n < 10 then [DigitChar(n)]
    else
      var front := NatToString(n / 10);
      var r := front + [DigitChar(n % 10)];
      assert r[..|r| - 1] == front;
      r
  }

  /** A leading zero does not change the value of a numeral. */
  lemma {:induction false} ZeroPrefix(s: string)
    requires IsDigits(s)
    ensures IsDigits("0" + s) && Value("0" + s) == Value(s)
    decreases |s|
  {
    var z := "0" + s;
    if |s| > 0 {
      assert z[..|z| - 1] == "0" + s[..|s| - 1];
      ZeroPrefix(s[..|s| - 1]);
    }
  }

  /** `(n < 10 ? "0" : "") + n`: a numeral with at least two digits. */
  function Padded(n: nat): (r: string)
    ensures IsDigits(r) && Value(r) == n
    ensures n < 100 ==> |r| == 2
    ensures |r| >= 2
    ensures n >= 10 ==> r == NatToString(n)
  {
    var digits := NatToString(n);
    if n < 10 then ZeroPrefix(digits); "0" + digits else digits
  }

  // ---------------------------------------------------------------------
  // Reading a clock string back
  // ---------------------------------------------------------------------

  predicate NoColon(s: string) {
    forall k :: 0 <= k < |s| ==> s[k] != ':'
  }

  /** Splits a string at every ':'. */
  function Fields(s: string): (r: seq<string>)
    ensures |r| >= 1
    decreases |s|
  {
    if |s| == 0 then [""]
    else if s[0] == ':' then [""] + Fields(s[1..])
    else
      var rest := Fields(s[1..]);
      [[s[0]] + rest[0]] + rest[1..]
  }

  /** Splitting a colon-free field followed by ':' peels that field off. */
  lemma {:induction false} FieldsCons(a: string, rest: string)
    requires NoColon(a)
    ensures Fields(a + ":" + rest) == [a] + Fields(rest)
    decreases |a|
  {
    var s := a + ":" + rest;
    if |a| > 0 {
      assert s[1..] == a[1..] + ":" + rest;
      FieldsCons(a[1..], rest);
      assert [a[0]] + a[1..] == a;
    } else {
      assert s[1..] == rest;
    }
  }

  /** A colon-free string is a single field. */
  lemma {:induction false} FieldsSingle(a: string)
    requires NoColon(a)
    ensures Fields(a) == [a]
    decreases |a|
  {
    if |a| > 0 {
      FieldsSingle(a[1..]);
      assert [a[0]] + a[1..] == a;
    }
  }

  predicate IsNumeral(s: string) {
    |s| >= 1 && IsDigits(s)
  }

  /** A two-digit field below 60, as the minutes of `H:MM:SS` and the seconds of a clock. */
  predicate IsSexagesimal(s: string) {
    |s| == 2 && IsDigits(s) && Value(s) < 60
  }

  /** Reads `M:SS` or `H:MM:SS` (hours positive) back to a number of
      seconds; `None` for any string of another shape. */
  function ParseClock(t: string): Option<nat> {
    var f := Fields(t);
    if |f| == 2 && IsNumeral(f[0]) && IsSexagesimal(f[1]) then
      Some(Value(f[0]) * 60 + Value(f[1]))
    else if |f| == 3 && IsNumeral(f[0]) && Value(f[0]) > 0 && IsSexagesimal(f[1]) && IsSexagesimal(f[2]) then
      Some(Value(f[0]) * 3600 + Value(f[1]) * 60 + Value(f[2]))
    else
      None
  }

  lemma DigitsNoColon(s: string)
    requires IsDigits(s)
    ensures NoColon(s)
  {
    forall k | 0 <= k < |s| ensures s[k] != ':' {
      assert IsDigit(s[k]);
    }
  }

  /** The fields of a string made of colon-free parts joined by ':'. */
  lemma FieldsOfTwo(a: string, b: string)
    requires NoColon(a) && NoColon(b)
    ensures Fields(a + ":" + b) == [a, b]
  {
    FieldsCons(a, b);
    FieldsSingle(b);
    assert [a] + [b] == [a, b];
  }

  lemma FieldsOfThree(a: string, b: string, c: string)
    requires NoColon(a) && NoColon(b) && NoColon(c)
    ensures Fields(a + ":" + b + ":" + c) == [a, b, c]
  {
    var bc := b + ":" + c;
    assert a + ":" + b + ":" + c == a + ":" + bc;
    FieldsCons(a, bc);
    FieldsOfTwo(b, c);
    assert [a] + [b, c] == [a, b, c];
  }

  // ---------------------------------------------------------------------
  // The formatter
  // ---------------------------------------------------------------------

  /** The rendering step of `_formatTime`: `H:MM:SS` when there are hours,
      `M:SS` otherwise; every padded field is `(n < 10 ? "0" : "") + n`. */
  function Clock(hours: nat, minutes: nat, seconds: nat): string {
    if hours > 0 then
      NatToString(hours) + ":" + Padded(minutes) + ":" + Padded(seconds)
    else
      NatToString(minutes) + ":" + Padded(seconds)
  }

  /** `_formatTime` exactly as the source computes it: the seconds field is
      `secs - 60 * minutes`, the hours are never subtracted from it. */
  function FormatTimeAsWritten(secs: nat): string {
    var hours := secs / 3600;
    var minutes := (secs - hours * 3600) / 60;
    Clock(hours, minutes, secs - minutes * 60)
  }

  /** `_formatTime` as intended: the hours are also taken out of the seconds
      field. */
  function FormatTime(secs: nat): string {
    var hours := secs / 3600;
    var minutes := (secs - hours * 3600) / 60;
    Clock(hours, minutes, secs - hours * 3600 - minutes * 60)
  }

  /** The number of whole seconds in `x`, counted one second at a time. */
  function WholeSeconds(x: real): nat
    requires x >= 0.0
    decreases x.Floor
  {
    if x < 1.0 then 0 else 1 + WholeSeconds(x - 1.0)
  }

  /** `WholeSeconds` is `Math.floor` on non-negative numbers. */
  lemma {:induction false} WholeSecondsIsFloor(x: real)
    requires x >= 0.0
    ensures WholeSeconds(x) == x.Floor
    ensures WholeSeconds(x) as real <= x < WholeSeconds(x) as real + 1.0
    decreases x.Floor
  {
    if x >= 1.0 {
      WholeSecondsIsFloor(x - 1.0);
    }
  }

  /** `_formatTime` over the engine's real-valued seconds, exactly as the
      source computes it, through their whole part: for a non-negative input
      `Math.floor` of each field equals the field computed from the floor. */
  function FormatSeconds(x: real): string
    requires x >= 0.0
  {
    FormatTimeAsWritten(WholeSeconds(x))
  }

  /** Below one hour the text is `M:SS`, at or above it `H:MM:SS`; either way
      it reads back as exactly the seconds formatted, so every minutes and
      seconds field lies in [0,59] and is zero-padded to two digits. */
  lemma FormatTimeRoundTrip(secs: nat)
    ensures |Fields(FormatTime(secs))| == (if secs < 3600 then 2 else 3)
    ensures ParseClock(FormatTime(secs)) == Some(secs)
  {
    var hours := secs / 3600;
    var minutes := (secs - hours * 3600) / 60;
    var seconds := secs - hours * 3600 - minutes * 60;
    var text := Clock(hours, minutes, seconds);
    assert FormatTime(secs) == text;
    assert minutes < 60 && seconds < 60;
    ClockRoundTrip(hours, minutes, seconds);
  }

  /** A clock reading with minutes and seconds below 60 has two fields
      without hours and three with them, and parses back to its total. */
  lemma ClockRoundTrip(hours: nat, minutes: nat, seconds: nat)
    requires minutes < 60 && seconds < 60
    ensures |Fields(Clock(hours, minutes, seconds))| == (if hours > 0 then 3 else 2)
    ensures ParseClock(Clock(hours, minutes, seconds)) == Some(hours * 3600 + minutes * 60 + seconds)
  {
    var b, c := Padded(minutes), Padded(seconds);
    DigitsNoColon(b);
    DigitsNoColon(c);
    assert IsSexagesimal(c);
    if hours > 0 {
      var a := NatToString(hours);
      assert Clock(hours, minutes, seconds) == a + ":" + b + ":" + c;
      DigitsNoColon(a);
      FieldsOfThree(a, b, c);
      assert IsNumeral(a) && Value(a) == hours && IsSexagesimal(b);
    } else {
      var a := NatToString(minutes);
      assert Clock(hours, minutes, seconds) == a + ":" + c;
      DigitsNoColon(a);
      FieldsOfTwo(a, c);
      assert IsNumeral(a) && Value(a) == minutes;
    }
  }

  /** Two different numbers of seconds are never shown as the same text. */
  lemma FormatTimeInjective(a: nat, b: nat)
    requires FormatTime(a) == FormatTime(b)
    ensures a == b
  {
    FormatTimeRoundTrip(a);
    FormatTimeRoundTrip(b);
  }

  /** The three fields of the intended formatter are the usual hours,
      minutes within the hour and seconds within the minute. */
  lemma FormatTimeFields(secs: nat)
    ensures FormatTime(secs) == Clock(secs / 3600, (secs % 3600) / 60, secs % 60)
  {
    var hours := secs / 3600;
    var within := secs % 3600;
    assert secs == hours * 3600 + within;
    var minutes := within / 60;
    assert within == minutes * 60 + within % 60;
    assert secs == (hours * 60 + minutes) * 60 + within % 60;
    assert secs % 60 == within % 60;
    assert FormatTime(secs) == Clock(hours, minutes, within % 60);
  }

  lemma FormatTimeExamples()
    ensures FormatTime(0) == "0:00"
    ensures FormatTime(65) == "1:05"
  {
    SmallNumerals();
    FormatTimeFields(0);
    FormatTimeFields(65);
    assert 65 / 3600 == 0 && (65 % 3600) / 60 == 1 && 65 % 60 == 5;
    assert FormatTime(0) == NatToString(0) + ":" + Padded(0);
    assert FormatTime(65) == NatToString(1) + ":" + Padded(5);
  }

  lemma FormatTimeHourExample()
    ensures FormatTime(3661) == "1:01:01"
  {
    SmallNumerals();
    FormatTimeFields(3661);
    assert 3661 / 3600 == 1 && (3661 % 3600) / 60 == 1 && 3661 % 60 == 1;
  }

  lemma SmallNumerals()
    ensures NatToString(0) == "0" && NatToString(1) == "1"
    ensures Padded(0) == "00" && Padded(1) == "01" && Padded(5) == "05"
  {
  }

  /** Below one hour the code as written agrees with the intended formatter. */
  lemma AsWrittenBelowHour(secs: nat)
    requires secs < 3600
    ensures FormatTimeAsWritten(secs) == FormatTime(secs)
  {
  }

  /** Below one hour the player's formatter gives the intended text for the
      whole seconds of `x`, which parses back to `Math.floor(x)`. */
  lemma FormatSecondsBelowHour(x: real)
    requires 0.0 <= x < 3600.0
    ensures FormatSeconds(x) == FormatTime(x.Floor)
    ensures ParseClock(FormatSeconds(x)) == Some(x.Floor)
  {
    WholeSecondsIsFloor(x);
    AsWrittenBelowHour(WholeSeconds(x));
    FormatTimeRoundTrip(WholeSeconds(x));
  }

  /** The seconds field the code as written computes from one hour on. */
  lemma AsWrittenSecondsField(secs: nat)
    requires secs >= 3600
    ensures (secs - (secs / 3600) * 3600) / 60 == (secs % 3600) / 60 < 60
    ensures secs - ((secs - (secs / 3600) * 3600) / 60) * 60 >= 3600
  {
    assert secs - (secs / 3600) * 3600 == secs % 3600;
  }

  /** From one hour on, the code as written shows the hours, then the
      zero-padded minutes within the hour, then `secs - 60 * minutes` in the
      seconds field: a number of at least 3600 that no clock reading
      accepts, and not the seconds within the minute. */
  lemma AsWrittenFromHour(secs: nat)
    requires secs >= 3600
    ensures var f := Fields(FormatTimeAsWritten(secs));
      |f| == 3 && f[0] == NatToString(secs / 3600) &&
      IsSexagesimal(f[1]) && Value(f[1]) == (secs % 3600) / 60 &&
      IsDigits(f[2]) && Value(f[2]) == secs - 60 * ((secs % 3600) / 60) && Value(f[2]) >= 3600
    ensures ParseClock(FormatTimeAsWritten(secs)) == None
    ensures FormatTimeAsWritten(secs) != FormatTime(secs)
  {
    var hours := secs / 3600;
    var minutes := (secs - hours * 3600) / 60;
    assert FormatTimeAsWritten(secs) == Clock(hours, minutes, secs - minutes * 60);
    AsWrittenSecondsField(secs);
    assert hours > 0;
    var last := Padded(secs - minutes * 60);
    var text := NatToString(hours) + ":" + Padded(minutes) + ":" + last;
    assert Clock(hours, minutes, secs - minutes * 60) == text;
    DigitsNoColon(NatToString(hours));
    DigitsNoColon(Padded(minutes));
    DigitsNoColon(last);
    FieldsOfThree(NatToString(hours), Padded(minutes), last);
    assert IsSexagesimal(Padded(minutes));
    assert !IsSexagesimal(last);
    FormatTimeRoundTrip(secs);
    assert IsSexagesimal(Fields(FormatTime(secs))[2]);
  }

  lemma AsWrittenExample()
    ensures FormatTimeAsWritten(3661) == "1:01:3601"
  {
    assert FormatTimeAsWritten(3661) == Clock(1, 1, 3601) by {
      assert 3661 / 3600 == 1 && (3661 - 3600) / 60 == 1;
    }
    SmallNumerals();
    Numeral3601();
  }

  lemma Numeral3601()
    ensures Padded(3601) == "3601"
  {
    assert NatToString(36) == "36";
    assert NatToString(360) == NatToString(36) + "0";
    assert NatToString(3601) == NatToString(360) + "1";
  }
}
