/**
 * Text helpers of the player: the time label `fmt_ms` and the marker
 * sidecar path `markers_path_for`.
 *
 * Python's `//` and `%` with a positive divisor round towards minus
 * infinity; for a positive divisor Dafny's Euclidean `/` and `%` agree with
 * them, so the decomposition below holds for negative positions too (the
 * audio engine reports -1 when nothing is loaded).
 */
module Format {
  import opened Wrappers
  import opened Arith

  const MarkersSuffix: string := ".markers.json"

  /** The sidecar file that holds the markers of an audio file. */
  function MarkersPathFor(audioPath: string): (p: string)
    ensures |p| == |audioPath| + |MarkersSuffix|
    ensures p[..|audioPath|] == audioPath && p[|audioPath|..] == MarkersSuffix
  {
    audioPath + MarkersSuffix
  }

  /** Recovers the audio path from a sidecar path, if it is one. */
  function AudioPathOf(p: string): Option<string>
  {
    if |p| >= |MarkersSuffix| && p[|p| - |MarkersSuffix|..] == MarkersSuffix
    then Some(p[..|p| - |MarkersSuffix|])
    else None
  }

  /** The sidecar path determines the audio path: distinct files never share markers. */
  lemma MarkersPathRoundTrip(audioPath: string)
    ensures AudioPathOf(MarkersPathFor(audioPath)) == Some(audioPath)
  {
    var p := MarkersPathFor(audioPath);
    assert p[|p| - |MarkersSuffix|..] == MarkersSuffix;
    assert p[..|p| - |MarkersSuffix|] == audioPath;
  }

  lemma MarkersPathInjective(a: string, b: string)
    requires MarkersPathFor(a) == MarkersPathFor(b)
    ensures a == b
  {
    MarkersPathRoundTrip(a);
    MarkersPathRoundTrip(b);
  }

  // ---------------------------------------------------------------------
  // Decimal digits

  predicate IsDigit(c: char) { '0' <= c <= '9' }

  predicate AllDigits(s: string) { forall i :: 0 <= i < |s| ==> IsDigit(s[i]) }

  function DigitChar(d: int): (c: char)
    requires 0 <= d < 10
    ensures IsDigit(c) && c as int - '0' as int == d
  {
    ('0' as int + d) as char
  }

  /** The decimal numeral of `n`, without leading zeros (Python's `str(n)`). */
  function Decimal(n: nat): (s: string)
    ensures |s| >= 1 && AllDigits(s)
    ensures n < 10 <==> |s| == 1
    ensures 10 <= n < 100 ==> |s| == 2
    ensures n >= 1 ==> s[0] != '0'
  {
    if n < 10 then [DigitChar(n)] else Decimal(n / 10) + [DigitChar(n % 10)]
  }

  /** The value of a numeral (leading zeros allowed). */
  function DecimalValue(s: string): nat
    requires AllDigits(s)
  {
    if s == [] then 0
    else DecimalValue(s[..|s| - 1]) * 10 + (s[|s| - 1] as int - '0' as int)
  }

  lemma {:induction false} DecimalRoundTrip(n: nat)
    ensures DecimalValue(Decimal(n)) == n
  {
    if n >= 10 {
      var s := Decimal(n);
      assert s[..|s| - 1] == Decimal(n / 10);
      DecimalRoundTrip(n / 10);
    }
  }

  /** Python's `f"{n:02d}"`: at least two characters, zero padded; a negative
      number is its sign followed by its digits. */
  function Pad2(n: int): string
  {
    if n < 0 then "-" + Decimal(-n)
    else if n < 10 then "0" + Decimal(n)
    else Decimal(n)
  }

  lemma Pad2OfSmall(n: int)
    requires 0 <= n < 100
    ensures |Pad2(n)| == 2 && AllDigits(Pad2(n)) && DecimalValue(Pad2(n)) == n
  {
    DecimalRoundTrip(n);
    if n < 10 {
      var s := Pad2(n);
      assert s[..1] == "0";
    }
  }

  lemma Pad2OfNat(n: nat)
    ensures |Pad2(n)| >= 2 && AllDigits(Pad2(n)) && DecimalValue(Pad2(n)) == n
    ensures |Pad2(n)| > 2 ==> Pad2(n)[0] != '0'
  {
    if n < 100 { Pad2OfSmall(n); } else { DecimalRoundTrip(n); }
  }

  // ---------------------------------------------------------------------
  // Time labels

  /** `fmt_ms`: whole seconds of `ms` as `HH:MM:SS` when there is an hour
      part and as `MM:SS` otherwise. */
  function FmtMs(ms: int): string
  {
    var totalSeconds := ms / 1000;
    var h := totalSeconds / 3600;
    var m := (totalSeconds % 3600) / 60;
    var s := totalSeconds % 60;
    Clock(h, m, s)
  }

  /** The label of hour, minute and second fields: the hour field only
      when it is not zero. */
  function Clock(h: int, m: int, s: int): string
  {
    if h != 0 then Pad2(h) + ":" + Pad2(m) + ":" + Pad2(s)
    else Pad2(m) + ":" + Pad2(s)
  }

  /** The seconds denoted by hour, minute and second fields. */
  function ClockValue(hh: string, mm: string, ss: string): int
    requires AllDigits(hh) && AllDigits(mm) && AllDigits(ss)
  {
    DecimalValue(hh) * 3600 + DecimalValue(mm) * 60 + DecimalValue(ss)
  }

  /** Reads a label that `fmt_ms` can print back into seconds: `MM:SS`,
      or `HH:MM:SS` with an hour field of at least two digits, not zero, and
      zero padded only to two digits; minutes and seconds lie below 60. */
  function ParseClock(s: string): Option<int>
  {
    if |s| < 5 || s[|s| - 3] != ':' then None
    else
      var hh := if |s| == 5 then "" else s[..|s| - 6];
      var mm, ss := s[|s| - 5..|s| - 3], s[|s| - 2..];
      if !AllDigits(hh) || !AllDigits(mm) || !AllDigits(ss) then None
      else if DecimalValue(mm) >= 60 || DecimalValue(ss) >= 60 then None
      else if |s| == 5 then Some(ClockValue(hh, mm, ss))
      else if |s| >= 8 && s[|s| - 6] == ':' && DecimalValue(hh) != 0 && (|hh| > 2 ==> hh[0] != '0') then
        Some(ClockValue(hh, mm, ss))
      else None
  }

  lemma ParseShortClock(mm: string, ss: string)
    requires |mm| == 2 && |ss| == 2 && AllDigits(mm) && AllDigits(ss)
    requires DecimalValue(mm) < 60 && DecimalValue(ss) < 60
    ensures ParseClock(mm + ":" + ss) == Some(ClockValue("", mm, ss))
  {
    var str := mm + ":" + ss;
    assert |str| == 5 && str[2] == ':';
    assert str[|str| - 5..|str| - 3] == mm;
    assert str[|str| - 2..] == ss;
  }

  lemma ParseLongClock(hh: string, mm: string, ss: string)
    requires |hh| >= 2 && |mm| == 2 && |ss| == 2
    requires AllDigits(hh) && AllDigits(mm) && AllDigits(ss)
    requires DecimalValue(mm) < 60 && DecimalValue(ss) < 60
    requires DecimalValue(hh) != 0 && (|hh| > 2 ==> hh[0] != '0')
    ensures ParseClock(hh + ":" + mm + ":" + ss) == Some(ClockValue(hh, mm, ss))
  {
    var str := hh + ":" + mm + ":" + ss;
    var n := |str|;
    assert n == |hh| + 6;
    assert str[n - 3] == ':' && str[n - 6] == ':';
    assert str[n - 5..n - 3] == mm;
    assert str[n - 2..] == ss;
    assert str[..n - 6] == hh;
  }

  /** The label of a non-negative position reads back as its whole seconds
      through `ParseClock`, which takes only well-formed labels (minutes and
      seconds below 60, a non-zero hour field padded to two digits), and the
      hour field is shown exactly from one hour on. */
  lemma FmtMsRoundTrip(ms: int)
    requires ms >= 0
    ensures ParseClock(FmtMs(ms)) == Some(ms / 1000)
    ensures |FmtMs(ms)| == 5 <==> ms < 3600000
  {
    var t := ms / 1000;
    var h, m, s := t / 3600, (t % 3600) / 60, t % 60;
    SplitSeconds(t);
    HourField(ms);
    assert FmtMs(ms) == Clock(h, m, s);
    ClockRoundTrip(h, m, s);
  }

  /** Fields in range give a label that reads back as their seconds, five
      characters long exactly when there is no hour field. */
  lemma ClockRoundTrip(h: nat, m: nat, s: nat)
    requires m < 60 && s < 60
    ensures ParseClock(Clock(h, m, s)) == Some(h * 3600 + m * 60 + s)
    ensures |Clock(h, m, s)| == 5 <==> h == 0
  {
    Pad2OfSmall(m);
    Pad2OfSmall(s);
    if h != 0 {
      LongLabel(Pad2(h), Pad2(m), Pad2(s), h, m, s);
    } else {
      ShortLabel(Pad2(m), Pad2(s), m, s);
    }
  }

  /** Hours, minutes and seconds decompose the whole seconds exactly. */
  lemma SplitSeconds(t: int)
    requires t >= 0
    ensures t / 3600 >= 0 && 0 <= (t % 3600) / 60 < 60 && 0 <= t % 60 < 60
    ensures t == (t / 3600) * 3600 + ((t % 3600) / 60) * 60 + t % 60
  {
    var h, r := t / 3600, t % 3600;
    var m, sec := r / 60, r % 60;
    assert t == h * 3600 + r && 0 <= r < 3600;
    assert r == m * 60 + sec && 0 <= sec < 60;
    DivBounds(r, 60, 60);
    assert (h * 60 + m) * 60 == h * 3600 + m * 60;
    DivUnique(t, 60, h * 60 + m);
    assert t % 60 == t - (t / 60) * 60;
  }

  /** The hour field of a non-negative position is zero exactly below one hour. */
  lemma HourField(ms: int)
    requires ms >= 0
    ensures ms / 1000 / 3600 == 0 <==> ms < 3600000
  {
    var t := ms / 1000;
    DivBounds(ms, 1000, 3600);
    DivBounds(t, 3600, 1);
  }

  lemma LongLabel(hh: string, mm: string, ss: string, h: nat, m: nat, s: nat)
    requires h >= 1 && hh == Pad2(h) && |mm| == 2 && |ss| == 2 && AllDigits(mm) && AllDigits(ss)
    requires DecimalValue(mm) == m < 60 && DecimalValue(ss) == s < 60
    ensures |hh + ":" + mm + ":" + ss| > 5
    ensures ParseClock(hh + ":" + mm + ":" + ss) == Some(h * 3600 + m * 60 + s)
  {
    Pad2OfNat(h);
    ParseLongClock(hh, mm, ss);
  }

  lemma ShortLabel(mm: string, ss: string, m: nat, s: nat)
    requires |mm| == 2 && |ss| == 2 && AllDigits(mm) && AllDigits(ss)
    requires DecimalValue(mm) == m < 60 && DecimalValue(ss) == s < 60
    ensures |mm + ":" + ss| == 5
    ensures ParseClock(mm + ":" + ss) == Some(m * 60 + s)
  {
    ParseShortClock(mm, ss);
    assert ClockValue("", mm, ss) == m * 60 + s by {
      assert DecimalValue("") == 0;
    }
  }

  /** Labels `fmt_ms` never prints are refused: seconds of 60 or more, an
      unpadded hour field, and an hour field padded beyond two digits. */
  lemma ParseClockRejects()
    ensures ParseClock("00:90") == None
    ensures ParseClock("1:00:00") == None
    ensures ParseClock("001:00:00") == None
  {
    assert DecimalValue("9") == 9;
    assert DecimalValue("90") == 90 by {
      assert "90"[..1] == "9";
    }
    assert "00:90"[3..] == "90";
  }

  /** Before anything is loaded the engine reports -1 ms, shown as a negative hour. */
  lemma FmtMsOfMinusOne()
    ensures FmtMs(-1) == "-1:59:59"
  {
    var t := -1 / 1000;
    assert t == -1;
    assert t / 3600 == -1 && (t % 3600) / 60 == 59 && t % 60 == 59;
    assert Decimal(1) == "1";
    assert Pad2(-1) == "-1";
    assert Decimal(59) == Decimal(5) + "9";
    assert Pad2(59) == "59";
  }
}
