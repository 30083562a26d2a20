/** static/js/sse.js: the elapsed-time text of the pipeline timer. The
    rest of the file wires server-sent events to the page and is not part
    of this model. */
module Sse {
  import opened Text

  /** `Math.floor(a / b)` for a positive divisor. */
  function FloorDiv(a: int, b: int): (q: int)
    requires b > 0
    ensures b * q <= a < b * q + b
  {
    a / b
  }

  /** The quotient of JavaScript's division, truncated toward zero. */
  function TruncDiv(a: int, b: int): int
    requires b > 0
  {
    if a >= 0 then a / b else -((-a) / b)
  }

  /** JavaScript's `a % b`: the remainder of the truncated division, so it
      takes the sign of the dividend. */
  function JsRem(a: int, b: int): (r: int)
    requires b > 0
    ensures a == b * TruncDiv(a, b) + r
    ensures a >= 0 ==> 0 <= r < b
    ensures a < 0 ==> -b < r <= 0
  {
    if a >= 0 then a % b else -((-a) % b)
  }

  /** `s.padStart(2, '0')`. */
  function PadStart2(s: string): (r: string)
    ensures |r| == if |s| < 2 then 2 else |s|
    ensures r[|r| - |s|..] == s
    ensures forall k :: 0 <= k < |r| - |s| ==> r[k] == '0'
  {
    if |s| == 0 then "00" else if |s| == 1 then "0" + s else s
  }

  /** `formatElapsed(ms)`. A negative `ms` (the server's start time ahead
      of the browser's clock) gives a seconds-only text holding the
      truncated remainder of the whole seconds by 60, which is never below
      -59 and may be -0, printed "0". */
  function FormatElapsed(ms: int): (text: string)
    ensures text != [] && text[|text| - 1] == 's'
    ensures 'm' in text <==> ms >= 60000
  {
    var totalSecs := FloorDiv(ms, 1000);
    var mins := FloorDiv(totalSecs, 60);
    var secs := JsRem(totalSecs, 60);
    NatToStringShape(if mins > 0 then mins else 0);
    NatToStringShape(if secs >= 0 then secs else -secs);
    if mins > 0 then
      var text := IntToString(mins) + "m " + PadStart2(IntToString(secs)) + "s";
      assert text[|IntToString(mins)|] == 'm';
      text
    else
      var text := IntToString(secs) + "s";
      assert forall k :: 0 <= k < |text| - 1 ==> text[k] == '-' || IsDigit(text[k]);
      text
  }

  /** Reads a text back to whole seconds: "<digits>s", or
      "<digits>m <two digits>s". */
  function ParseElapsed(text: string): (secs: Option<nat>)
    ensures secs.Some? ==> text != [] && text[|text| - 1] == 's'
  {
    if text == [] || text[|text| - 1] != 's' then None
    else
      var body := text[..|text| - 1];
      if body != [] && AllDigits(body) then Some(DigitsValue(body))
      else if |body| >= 5 && body[|body| - 4..|body| - 2] == "m "
        && body[..|body| - 4] != [] && AllDigits(body[..|body| - 4]) && AllDigits(body[|body| - 2..]) then
        Some(DigitsValue(body[..|body| - 4]) * 60 + DigitsValue(body[|body| - 2..]))
      else None
  }

  lemma PaddedSeconds(secs: nat)
    requires secs < 60
    ensures |PadStart2(NatToString(secs))| == 2
    ensures AllDigits(PadStart2(NatToString(secs))) && DigitsValue(PadStart2(NatToString(secs))) == secs
  {
    NatToStringRoundTrip(secs);
    NatToStringShape(secs);
    var s := NatToString(secs);
    var p := PadStart2(s);
    if |s| == 1 {
      assert p == "0" + s;
      assert p[..1] == "0";
    }
  }

  lemma ParseMinutes(mins: nat, secs: nat)
    requires secs < 60
    ensures ParseElapsed(NatToString(mins) + "m " + PadStart2(NatToString(secs)) + "s") == Some(mins * 60 + secs)
  {
    NatToStringRoundTrip(mins);
    NatToStringShape(mins);
    PaddedSeconds(secs);
    ParseMinutesField(NatToString(mins), PadStart2(NatToString(secs)));
  }

  /** "<digits>m <two digits>s" is read as minutes and seconds. */
  lemma ParseMinutesField(m: string, p: string)
    requires m != [] && AllDigits(m) && |p| == 2 && AllDigits(p)
    ensures ParseElapsed(m + "m " + p + "s") == Some(DigitsValue(m) * 60 + DigitsValue(p))
  {
    var body := m + "m " + p;
    assert (body + "s")[..|body + "s"| - 1] == body;
    assert body[|m|] == 'm' && !IsDigit(body[|m|]);
    assert !AllDigits(body);
    assert body[..|body| - 4] == m;
    assert body[|body| - 2..] == p;
    assert body[|body| - 4..|body| - 2] == "m ";
  }


  lemma ParseSeconds(secs: nat)
    ensures ParseElapsed(NatToString(secs) + "s") == Some(secs)
  {
    NatToStringRoundTrip(secs);
    NatToStringShape(secs);
    var t := NatToString(secs) + "s";
    assert t[..|t| - 1] == NatToString(secs);
  }

  /** The text of a duration of at least a minute, field by field. */
  lemma MinutesText(ms: int)
    requires ms >= 60000
    ensures FormatElapsed(ms) == NatToString(ms / 1000 / 60) + "m " + PadStart2(NatToString(ms / 1000 % 60)) + "s"
  {
    assert FloorDiv(ms, 1000) == ms / 1000;
    assert FloorDiv(ms / 1000, 60) == ms / 1000 / 60 > 0;
    assert JsRem(ms / 1000, 60) == ms / 1000 % 60;
  }

  /** The text of a non-negative duration under a minute. */
  lemma SecondsText(ms: int)
    requires 0 <= ms < 60000
    ensures FormatElapsed(ms) == NatToString(ms / 1000) + "s"
  {
    assert FloorDiv(ms, 1000) == ms / 1000 < 60;
    assert FloorDiv(ms / 1000, 60) == 0;
    assert JsRem(ms / 1000, 60) == ms / 1000;
  }

  /** The text of a non-negative duration reads back as its whole seconds:
      minutes and seconds split the total, and the seconds field is the
      remainder below 60. */
  lemma FormatElapsedRoundTrip(ms: int)
    requires ms >= 0
    ensures ParseElapsed(FormatElapsed(ms)) == Some(ms / 1000)
  {
    var totalSecs: nat := ms / 1000;
    if ms >= 60000 {
      MinutesText(ms);
      ParseMinutes(totalSecs / 60, totalSecs % 60);
      assert totalSecs / 60 * 60 + totalSecs % 60 == totalSecs;
    } else {
      SecondsText(ms);
      ParseSeconds(totalSecs);
    }
  }

  /** The seconds field is below 60 and the two fields make up the total. */
  lemma ElapsedFields(ms: int)
    requires ms >= 0
    ensures 0 <= JsRem(FloorDiv(ms, 1000), 60) < 60
    ensures FloorDiv(FloorDiv(ms, 1000), 60) * 60 + JsRem(FloorDiv(ms, 1000), 60) == FloorDiv(ms, 1000)
  {
  }

  lemma FormatElapsedExamples()
    ensures FormatElapsed(59999) == "59s"
    ensures FormatElapsed(65000) == "1m 05s"
  {
    assert NatToString(59) == "59";
    assert NatToString(5) == "5";
    assert NatToString(1) == "1";
  }

  /** Negative durations: the floored whole seconds, then JavaScript's
      truncated remainder by 60. */
  lemma FormatElapsedNegative()
    ensures FormatElapsed(-61000) == "-1s"
    ensures FormatElapsed(-60000) == "0s"
    ensures FormatElapsed(-500) == "-1s"
  {
    assert NatToString(1) == "1";
    assert NatToString(0) == "0";
  }
}
