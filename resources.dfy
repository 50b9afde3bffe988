/**
 * Normalisation of the wall-time and memory requests of a job
 * (Proto.format_time and the time/mem properties of Proto in sgepy/SGE.py).
 */
module Resources {
  import opened Wrappers
  import opened Text

  /**
   * A value given to the time or mem setter: either a plain value, held as the
   * text str() gives for it, or a function of (attempt, threads) whose result is
   * likewise held as text.
   */
  datatype ResourceArg = Given(text: string) | Computed(f: (int, int) -> string)

  // ---------------------------------------------------------------- time

  /** The shape ^[0-9]{2}:[0-5][0-9]:[0-5][0-9] on exactly eight characters. */
  predicate ClockShape(s: string)
  {
    |s| == 8 && IsDigit(s[0]) && IsDigit(s[1]) && s[2] == ':' &&
    '0' <= s[3] <= '5' && IsDigit(s[4]) && s[5] == ':' &&
    '0' <= s[6] <= '5' && IsDigit(s[7])
  }

  /**
   * Python's re.match('^[0-9]{2}:[0-5][0-9]:[0-5][0-9]$', s): `$` also matches
   * just before a final newline.
   */
  predicate MatchesClock(s: string)
  {
    ClockShape(s) || (|s| == 9 && s[8] == '\n' && ClockShape(s[..8]))
  }

  /** Python's re.match('^[0-9]+$', s), with the same reading of `$`. */
  predicate MatchesDigits(s: string)
  {
    (|s| > 0 && AllDigits(s)) || (|s| > 1 && s[|s| - 1] == '\n' && AllDigits(s[..|s| - 1]))
  }

  /** The digits of a string that MatchesDigits, without the final newline. */
  function DigitsPart(s: string): (d: string)
    requires MatchesDigits(s)
    ensures |d| > 0 && AllDigits(d)
  {
    if AllDigits(s) then s else s[..|s| - 1]
  }

  /** Python's '{:0>2}'.format(n): str(n) padded on the left with '0' to width two. */
  function Pad2(n: int): string
  {
    var t := IntToString(n);
    if |t| < 2 then "0" + t else t
  }

  /**
   * The HH:MM:SS text format_time builds from a number of seconds, with
   * `perHour` as the divisor for the hours field (360 in sgepy/SGE.py:61-63).
   */
  function Clock(perHour: int, n: int): string
    requires perHour > 0
  {
    var hours := n / perHour;
    var minutes := (n - hours * perHour) / 60;
    var secs := n - (hours * perHour + minutes * 60);
    Pad2(hours) + ":" + Pad2(minutes) + ":" + Pad2(secs)
  }

  /**
   * format_time with a given divisor for hours: digit input is converted with
   * Clock, anything else is passed through, and the outcome must match the
   * HH:MM:SS pattern or ValueError is raised.
   */
  function FormatTimeWith(perHour: int, s: string): (r: Result<string, Error>)
    requires perHour > 0
    ensures r.Success? ==> MatchesClock(r.value)
    ensures r.Failure? ==> r.error == ValueError(BadTime)
    ensures !MatchesDigits(s) ==> (r.Success? <==> MatchesClock(s)) && (r.Success? ==> r.value == s)
  {
    var x := if MatchesDigits(s) then Clock(perHour, DigitsValue(DigitsPart(s))) else s;
    if MatchesClock(x) then Success(x) else Failure(ValueError(BadTime))
  }

  /** Proto.format_time exactly as written: hours are seconds divided by 360. */
  function FormatTimeAsWritten(s: string): Result<string, Error>
  {
    FormatTimeWith(360, s)
  }

  /** Proto.format_time with hours as seconds divided by 3600, as the HH:MM:SS format intends. */
  function FormatTime(s: string): Result<string, Error>
  {
    FormatTimeWith(3600, s)
  }

  /** The number of seconds an HH:MM:SS text stands for. */
  function Duration(t: string): nat
    requires MatchesClock(t)
  {
    DigitsValue(t[0..2]) * 3600 + DigitsValue(t[3..5]) * 60 + DigitsValue(t[6..8])
  }

  lemma TwoDigitsValue(a: char, b: char)
    requires IsDigit(a) && IsDigit(b)
    ensures DigitsValue([a, b]) == DigitValue(a) * 10 + DigitValue(b)
  {
    assert [a, b][..1] == [a];
    assert [a][..0] == [];
    assert DigitsValue([a]) == DigitValue(a);
  }

  lemma Pad2Small(v: int)
    requires 0 <= v < 100
    ensures Pad2(v) == [DigitChar(v / 10), DigitChar(v % 10)]
    ensures DigitsValue(Pad2(v)) == v
  {
    if v >= 10 {
      assert NatToString(v) == NatToString(v / 10) + [DigitChar(v % 10)];
    }
    TwoDigitsValue(DigitChar(v / 10), DigitChar(v % 10));
  }

  lemma NatToStringAtLeastThree(n: nat)
    requires n >= 100
    ensures |NatToString(n)| >= 3
  {
    assert NatToString(n) == NatToString(n / 10) + [DigitChar(n % 10)];
    assert NatToString(n / 10) == NatToString(n / 100) + [DigitChar((n / 10) % 10)];
  }

  /** The plain decimal text of a number of seconds is read back as that number. */
  lemma DigitInput(n: nat)
    ensures MatchesDigits(NatToString(n))
    ensures DigitsPart(NatToString(n)) == NatToString(n)
    ensures DigitsValue(DigitsPart(NatToString(n))) == n
  {
    DigitsValueOfNatToString(n);
  }

  /** On the decimal text of N seconds, format_time checks Clock(perHour, N) against the pattern. */
  lemma FormatTimeOfSeconds(perHour: int, n: nat)
    requires perHour > 0
    ensures FormatTimeWith(perHour, NatToString(n)) ==
      if MatchesClock(Clock(perHour, n)) then Success(Clock(perHour, n)) else Failure(ValueError(BadTime))
  {
    DigitInput(n);
  }

  /** A clock text built from three fields below 100, 60 and 60 matches the pattern and stands for their sum. */
  lemma ClockFields(h: int, m: int, s: int)
    requires 0 <= h < 100 && 0 <= m < 60 && 0 <= s < 60
    ensures var t := Pad2(h) + ":" + Pad2(m) + ":" + Pad2(s);
      ClockShape(t) && MatchesClock(t) && Duration(t) == h * 3600 + m * 60 + s
  {
    Pad2Small(h);
    Pad2Small(m);
    Pad2Small(s);
    var t := Pad2(h) + ":" + Pad2(m) + ":" + Pad2(s);
    assert t[0..2] == Pad2(h);
    assert t[3..5] == Pad2(m);
    assert t[6..8] == Pad2(s);
  }

  /** A clock text whose hours field has three or more digits never matches the pattern. */
  lemma WideHoursRejected(h: int, m: int, s: int)
    requires h >= 100
    ensures !MatchesClock(Pad2(h) + ":" + Pad2(m) + ":" + Pad2(s))
  {
    NatToStringAtLeastThree(h);
    var t := Pad2(h) + ":" + Pad2(m) + ":" + Pad2(s);
    assert Pad2(h) == NatToString(h);
    assert t[2] == Pad2(h)[2];
    assert IsDigit(t[2]);
    if |t| == 9 { assert t[..8][2] == t[2]; }
  }

  /** The three fields Clock computes from N seconds with the given divisor for hours. */
  lemma ClockOfFields(perHour: int, n: nat, hours: int, minutes: int, secs: int)
    requires perHour > 0
    requires hours == n / perHour && minutes == (n - hours * perHour) / 60 && secs == n - (hours * perHour + minutes * 60)
    ensures Clock(perHour, n) == Pad2(hours) + ":" + Pad2(minutes) + ":" + Pad2(secs)
  {
  }

  /** What format_time does with the decimal text of N seconds, given the three fields Clock computes. */
  lemma FormatTimeOfFields(perHour: int, n: nat, hours: int, minutes: int, secs: int)
    requires perHour > 0
    requires Clock(perHour, n) == Pad2(hours) + ":" + Pad2(minutes) + ":" + Pad2(secs)
    requires 0 <= minutes < 60 && 0 <= secs < 60 && hours >= 0
    ensures hours < 100 ==> FormatTimeWith(perHour, NatToString(n)) == Success(Clock(perHour, n))
    ensures hours < 100 ==> Duration(Clock(perHour, n)) == hours * 3600 + minutes * 60 + secs
    ensures hours >= 100 ==> FormatTimeWith(perHour, NatToString(n)) == Failure(ValueError(BadTime))
  {
    FormatTimeOfSeconds(perHour, n);
    if hours < 100 {
      ClockFields(hours, minutes, secs);
    } else {
      WideHoursRejected(hours, minutes, secs);
    }
  }

  /**
   * format_time as written, on N seconds: hours = N div 360, minutes = the
   * remainder div 60 and seconds what is left, so hours*360 + minutes*60 + seconds
   * = N with minutes at most 5; the text is accepted exactly when N < 36000,
   * larger N giving an hours field of three digits and a ValueError.
   */
  lemma FormatTimeAsWrittenSeconds(n: nat, hours: int, minutes: int, secs: int)
    requires hours == n / 360 && minutes == (n - hours * 360) / 60 && secs == n - (hours * 360 + minutes * 60)
    ensures hours * 360 + minutes * 60 + secs == n
    ensures 0 <= minutes <= 5 && 0 <= secs < 60
    ensures n < 36000 ==> FormatTimeAsWritten(NatToString(n)) == Success(Pad2(hours) + ":" + Pad2(minutes) + ":" + Pad2(secs))
    ensures n >= 36000 ==> FormatTimeAsWritten(NatToString(n)) == Failure(ValueError(BadTime))
  {
    ClockOfFields(360, n, hours, minutes, secs);
    assert n < 36000 <==> hours < 100;
    FormatTimeOfFields(360, n, hours, minutes, secs);
  }

  lemma DecimalOf3600()
    ensures NatToString(3600) == "3600"
  {
    assert NatToString(3) == "3";
    assert NatToString(36) == NatToString(3) + [DigitChar(6)];
    assert NatToString(360) == NatToString(36) + [DigitChar(0)];
    assert NatToString(3600) == NatToString(360) + [DigitChar(0)];
  }

  lemma TenHoursText()
    ensures Pad2(10) + ":" + Pad2(0) + ":" + Pad2(0) == "10:00:00"
  {
    Pad2Small(10);
    Pad2Small(0);
  }

  /** As written, 3600 seconds (one hour) becomes "10:00:00", which the scheduler reads as ten hours. */
  lemma FormatTimeAsWrittenOneHour()
    ensures FormatTimeAsWritten("3600") == Success("10:00:00")
    ensures Duration("10:00:00") == 36000
  {
    DecimalOf3600();
    TenHoursText();
    FormatTimeAsWrittenSeconds(3600, 10, 0, 0);
    ClockFields(10, 0, 0);
  }

  /**
   * format_time with the 3600 divisor round-trips: N seconds below 100 hours
   * become an HH:MM:SS text that stands for exactly N seconds; from 100 hours on
   * the text is rejected.
   */
  lemma FormatTimeSeconds(n: nat)
    ensures n < 360000 ==> FormatTime(NatToString(n)).Success? && Duration(FormatTime(NatToString(n)).value) == n
    ensures n >= 360000 ==> FormatTime(NatToString(n)) == Failure(ValueError(BadTime))
  {
    var hours := n / 3600;
    var minutes := (n - hours * 3600) / 60;
    var secs := n - (hours * 3600 + minutes * 60);
    ClockOfFields(3600, n, hours, minutes, secs);
    assert n < 360000 <==> hours < 100;
    FormatTimeOfFields(3600, n, hours, minutes, secs);
  }

  /** Formatting an already formatted time changes nothing (the Pool hands formatted times to its Workers). */
  lemma FormatTimeIdempotent(perHour: int, s: string)
    requires perHour > 0
    requires FormatTimeWith(perHour, s).Success?
    ensures FormatTimeWith(perHour, FormatTimeWith(perHour, s).value) == FormatTimeWith(perHour, s)
  {
    var t := FormatTimeWith(perHour, s).value;
    assert !IsDigit(t[2]);
    if |t| == 9 && t[8] == '\n' { assert t[..8][2] == t[2]; }
    assert !MatchesDigits(t);
  }

  /** A value already written HH:MM:SS passes format_time unchanged, whatever the divisor. */
  lemma FormatTimeOfClock(perHour: int, t: string)
    requires perHour > 0 && MatchesClock(t)
    ensures FormatTimeWith(perHour, t) == Success(t)
  {
    assert !IsDigit(t[2]);
    if |t| == 9 && t[8] == '\n' { assert t[..8][2] == t[2]; }
    assert !MatchesDigits(t);
  }

  /** Proto.time: the stored value or function evaluated at (attempt, threads), then format_time as written. */
  function TimeAt(arg: ResourceArg, attempt: int, threads: int): (r: Result<string, Error>)
    ensures r.Success? ==> MatchesClock(r.value)
    ensures arg.Given? ==> r == FormatTimeAsWritten(arg.text)
    ensures arg.Computed? ==> r == FormatTimeAsWritten(arg.f(attempt, threads))
  {
    match arg
    case Given(t) => FormatTimeAsWritten(t)
    case Computed(f) => FormatTimeAsWritten(f(attempt, threads))
  }

  /**
   * The time getter on a number of seconds n: the 360-second hours of
   * format_time, the same at every attempt; ValueError from 36000 on.
   */
  lemma TimeAtSeconds(n: nat, hours: int, minutes: int, secs: int, attempt: int, threads: int)
    requires hours == n / 360 && minutes == (n - hours * 360) / 60 && secs == n - (hours * 360 + minutes * 60)
    ensures n < 36000 ==> TimeAt(Given(NatToString(n)), attempt, threads) == Success(Pad2(hours) + ":" + Pad2(minutes) + ":" + Pad2(secs))
    ensures n >= 36000 ==> TimeAt(Given(NatToString(n)), attempt, threads) == Failure(ValueError(BadTime))
  {
    assert TimeAt(Given(NatToString(n)), attempt, threads) == FormatTimeAsWritten(NatToString(n));
    FormatTimeAsWrittenSeconds(n, hours, minutes, secs);
  }

  /** Set to 3600 seconds, the time getter asks qsub for ten hours, at every attempt. */
  lemma TimeAtOneHour(attempt: int, threads: int)
    ensures TimeAt(Given("3600"), attempt, threads) == Success("10:00:00")
  {
    FormatTimeAsWrittenOneHour();
  }

  // ---------------------------------------------------------------- memory

  /** The unit letters the mem setter strips. */
  const MemUnits: set<char> := {'G', 'M', 'g', 'm'}

  /** What the mem setter stores: a whole number of gigabytes, or the function itself. */
  datatype MemSpec = MemFixed(gigabytes: int) | MemComputed(f: (int, int) -> string)

  /** The mem setter: a plain value loses its trailing unit letters and is parsed with int(). */
  function SetMem(arg: ResourceArg): (r: Result<MemSpec, Error>)
    ensures arg.Computed? ==> r == Success(MemComputed(arg.f))
    ensures r.Failure? ==> r.error == ValueError(BadMemory)
    ensures r.Success? && arg.Given? ==> r.value.MemFixed? && ParseInt(RStrip(arg.text, MemUnits)) == Some(r.value.gigabytes)
    ensures arg.Given? ==> (r.Success? <==> ParseInt(RStrip(arg.text, MemUnits)).Some?)
  {
    match arg
    case Computed(f) => Success(MemComputed(f))
    case Given(t) =>
      match ParseInt(RStrip(t, MemUnits))
      case Some(n) => Success(MemFixed(n))
      case None => Failure(ValueError(BadMemory))
  }

  /** The mem getter: str(int(value)) + "G", the value being the function's result when one was stored. */
  function MemAt(m: MemSpec, attempt: int, threads: int): (r: Result<string, Error>)
    ensures r.Success? ==> |r.value| > 1 && r.value[|r.value| - 1] == 'G'
    ensures m.MemFixed? ==> r == Success(IntToString(m.gigabytes) + "G")
    ensures m.MemComputed? ==> (r.Success? <==> ParseInt(m.f(attempt, threads)).Some?)
    ensures m.MemComputed? && r.Success? ==> r.value == IntToString(ParseInt(m.f(attempt, threads)).value) + "G"
    ensures r.Failure? ==> r.error == ValueError(BadMemory)
  {
    match m
    case MemFixed(n) => Success(IntToString(n) + "G")
    case MemComputed(f) =>
      match ParseInt(f(attempt, threads))
      case Some(n) => Success(IntToString(n) + "G")
      case None => Failure(ValueError(BadMemory))
  }

  /**
   * A whole number of gigabytes followed by any run of unit letters
   * ("6", "6G", "6g", "6M", "6Gm", ...) is stored as that number and read back as "<n>G".
   */
  lemma MemUnitsStripped(n: nat, units: string, attempt: int, threads: int)
    requires forall i :: 0 <= i < |units| ==> units[i] in MemUnits
    ensures SetMem(Given(NatToString(n) + units)) == Success(MemFixed(n))
    ensures MemAt(SetMem(Given(NatToString(n) + units)).value, attempt, threads) == Success(NatToString(n) + "G")
  {
    var s := NatToString(n);
    assert !(s[|s| - 1] in MemUnits) by { assert IsDigit(s[|s| - 1]); }
    RStripSuffix(s, units, MemUnits);
    ParseIntOfIntToString(n);
  }

  /** The four spellings of six gigabytes all read back as "6G". */
  lemma MemSixGigabytes(t: string, attempt: int, threads: int)
    requires t == "6" || t == "6G" || t == "6g" || t == "6M"
    ensures SetMem(Given(t)) == Success(MemFixed(6))
    ensures MemAt(SetMem(Given(t)).value, attempt, threads) == Success("6G")
  {
    assert NatToString(6) == [t[0]];
    assert t == [t[0]] + t[1..];
    MemUnitsStripped(6, t[1..], attempt, threads);
    assert [t[0]] + "G" == "6G";
  }

  /** A memory value with no digit before its unit letters is rejected with ValueError. */
  lemma MemWithoutDigitsRejected(t: string)
    requires forall i :: 0 <= i < |t| ==> !IsDigit(t[i])
    ensures SetMem(Given(t)) == Failure(ValueError(BadMemory))
  {
    var r := RStrip(t, MemUnits);
    assert forall i :: 0 <= i < |r| ==> r[i] == t[i];
    assert !HasDigit(r);
    assert ParseInt(r) == None;
  }

  /** What the getter prints, given back to the setter, is stored as the same number (Pool forwards it so). */
  lemma MemReparse(n: int)
    ensures SetMem(Given(IntToString(n) + "G")) == Success(MemFixed(n))
  {
    var s := IntToString(n);
    assert s[|s| - 1] !in MemUnits by { assert IsDigit(s[|s| - 1]); }
    RStripSuffix(s, "G", MemUnits);
    ParseIntOfIntToString(n);
  }
}
