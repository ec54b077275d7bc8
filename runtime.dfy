/** `convert_time`: a runtime in minutes becomes the pair (minutes, "H:MM"). */
module Runtime {
  import opened Payload
  import opened Text

  /** The "H:MM" text for `m` minutes: hours are `m // 60`, minutes `m % 60`
      zero-filled to two characters. Python's `//` and `%` round toward minus
      infinity; with the positive divisor 60 they agree with Dafny's Euclidean
      `/` and `%`, negative `m` included. */
  function FormatHM(m: int): string {
    IntToString(m / 60) + ":" + ZFill(IntToString(m % 60), 2)
  }

  /** Exactly two decimal digits for a number below 100. */
  function TwoDigits(n: nat): (s: string)
    requires n < 100
    ensures |s| == 2 && AllDigits(s) && DigitValue(s[0]) * 10 + DigitValue(s[1]) == n
  {
    [DigitChar(n / 10), DigitChar(n % 10)]
  }

  /** Reads "H:MM" back as a number of minutes: hours as a signed integer, a
      colon, and two digits below 60. */
  function ParseHM(s: string): Option<int> {
    if |s| >= 3 && s[|s| - 3] == ':' && IsDigit(s[|s| - 2]) && IsDigit(s[|s| - 1]) then
      var mm := DigitValue(s[|s| - 2]) * 10 + DigitValue(s[|s| - 1]);
      (match ParseInt(s[..|s| - 3])
       case Some(h) => if mm < 60 then Some(60 * h + mm) else None
       case None => None)
    else None
  }

  /** The minutes part is always exactly two digits with a value in 0..59,
      negative runtimes included: zfill pads a single digit and leaves two. */
  lemma FormatHMShape(m: int)
    ensures 0 <= m % 60 < 60 && m == 60 * (m / 60) + m % 60
    ensures FormatHM(m) == IntToString(m / 60) + ":" + TwoDigits(m % 60)
  {
    var mm := m % 60;
    if mm < 10 {
      assert NatToString(mm) == [DigitChar(mm)];
      assert ZFill(NatToString(mm), 2) == "0" + [DigitChar(mm)];
    } else {
      assert NatToString(mm / 10) == [DigitChar(mm / 10)];
      assert NatToString(mm) == [DigitChar(mm / 10), DigitChar(mm % 10)];
    }
  }

  /** Reading back a signed hour count and two minute digits. */
  lemma ParseHMParts(h: int, mm: nat)
    requires mm < 60
    ensures ParseHM(IntToString(h) + ":" + TwoDigits(mm)) == Some(60 * h + mm)
  {
    var hs := IntToString(h);
    var ms := TwoDigits(mm);
    var s := hs + ":" + ms;
    assert |s| == |hs| + 3;
    assert s[|s| - 3] == ':' && s[|s| - 2] == ms[0] && s[|s| - 1] == ms[1];
    assert s[..|s| - 3] == hs;
    IntToStringRoundTrip(h);
  }

  /** The formatted text determines the runtime: reading it back gives `m`. */
  lemma FormatHMRoundTrip(m: int)
    ensures ParseHM(FormatHM(m)) == Some(m)
  {
    FormatHMShape(m);
    ParseHMParts(m / 60, m % 60);
  }

  /** `convert_time(runtime_minutes)`. An int (or a bool, which Python treats
      as the int 0 or 1) comes back unchanged with its "H:MM" text; any other
      value makes `//` raise TypeError, which is caught and gives (0, "0:00"). */
  function ConvertTime(runtimeMinutes: Json): (r: (Json, string))
    ensures runtimeMinutes.JInt? ==>
      && r.0 == runtimeMinutes
      && r.1 == IntToString(runtimeMinutes.i / 60) + ":" + TwoDigits(runtimeMinutes.i % 60)
      && ParseHM(r.1) == Some(runtimeMinutes.i)
    ensures runtimeMinutes.JBool? ==>
      && r.0 == runtimeMinutes
      && r.1 == "0:0" + (if runtimeMinutes.b then "1" else "0")
      && ParseHM(r.1) == Some(if runtimeMinutes.b then 1 else 0)
    ensures !runtimeMinutes.JInt? && !runtimeMinutes.JBool? ==> r == (JInt(0), "0:00")
  {
    match runtimeMinutes
    case JInt(m) =>
      FormatHMShape(m);
      FormatHMRoundTrip(m);
      (runtimeMinutes, FormatHM(m))
    case JBool(b) =>
      var m := if b then 1 else 0;
      FormatHMShape(m);
      FormatHMRoundTrip(m);
      (runtimeMinutes, FormatHM(m))
    case _ => (JInt(0), "0:00")
  }

  /** A missing runtime defaults to 0, which formats as "0:00". */
  lemma ZeroRuntime()
    ensures ConvertTime(JInt(0)) == (JInt(0), "0:00")
  {
    FormatHMShape(0);
    assert IntToString(0) == "0" && TwoDigits(0) == "00";
    assert FormatHM(0) == "0:00";
  }

  /** Worked values: 125, 59 and 0 minutes, a negative runtime, a bool, and two
      values that take the fallback. */
  lemma ConvertTimeExamples()
    ensures ConvertTime(JInt(125)) == (JInt(125), "2:05")
    ensures ConvertTime(JInt(59)) == (JInt(59), "0:59")
    ensures ConvertTime(JInt(0)) == (JInt(0), "0:00")
    ensures ConvertTime(JInt(-1)) == (JInt(-1), "-1:59")
    ensures ConvertTime(JBool(true)) == (JBool(true), "0:01")
    ensures ConvertTime(JNull) == (JInt(0), "0:00")
    ensures ConvertTime(JString("90")) == (JInt(0), "0:00")
  {
    FormatHMShape(125);
    assert 125 / 60 == 2 && 125 % 60 == 5;
    assert IntToString(2) == "2" && TwoDigits(5) == "05";
    assert FormatHM(125) == "2:05";
    FormatHMShape(59);
    assert 59 / 60 == 0 && 59 % 60 == 59;
    assert IntToString(0) == "0" && TwoDigits(59) == "59";
    assert FormatHM(59) == "0:59";
    FormatHMShape(0);
    assert TwoDigits(0) == "00";
    assert FormatHM(0) == "0:00";
    FormatHMShape(-1);
    assert -1 / 60 == -1 && -1 % 60 == 59;
    assert IntToString(-1) == "-1";
    assert FormatHM(-1) == "-1:59";
    FormatHMShape(1);
    assert 1 / 60 == 0 && 1 % 60 == 1;
    assert TwoDigits(1) == "01";
    assert FormatHM(1) == "0:01";
  }
}
