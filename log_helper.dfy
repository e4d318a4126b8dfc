/** LogHelper: the string `log` returns for a setting, a calling file and line, and a
    message. Printing is a side effect and is not modelled; the global setting is a
    parameter. */
module LogHelper {
  import opened Wrappers

  /** `LogSetting`: when to log. */
  datatype LogSetting = Always | DebugOnly | Never

  /** The prefix of every `debugOnly` message. */
  const LibName: string := "CacheMeIfYouCan"

  predicate IsDigit(c: char) {
    '0' <= c <= '9'
  }

  function DigitChar(d: nat): (c: char)
    requires d < 10
    ensures IsDigit(c) && c as int - '0' as int == d
  {
    ('0' as int + d) as char
  }

  /** String interpolation of an unsigned line number: its decimal digits, most
      significant first, without leading zeros. */
  function NatToDecimal(n: nat): (s: string)
    ensures s != []
    ensures forall i :: 0 <= i < |s| ==> IsDigit(s[i])
    ensures |s| > 1 ==> s[0] != '0'
    decreases n
  {
    if n < 10 then [DigitChar(n)] else NatToDecimal(n / 10) + [DigitChar(n % 10)]
  }

  /** The number a string of decimal digits denotes. */
  function DecimalValue(s: string): nat
    requires forall i :: 0 <= i < |s| ==> IsDigit(s[i])
  {
    if s == [] then 0
    else
      assert IsDigit(s[|s| - 1]);
      DecimalValue(s[..|s| - 1]) * 10 + (s[|s| - 1] as int - '0' as int)
  }

  /** The digits `NatToDecimal` writes denote the line number they were made from. */
  lemma {:induction false} DecimalRoundTrip(n: nat)
    ensures DecimalValue(NatToDecimal(n)) == n
    decreases n
  {
    if n >= 10 {
      var s := NatToDecimal(n);
      assert s[..|s| - 1] == NatToDecimal(n / 10);
      DecimalRoundTrip(n / 10);
    }
  }

  /** Distinct line numbers are written differently. */
  lemma DistinctLinesDistinctDigits(m: nat, n: nat)
    requires m != n
    ensures NatToDecimal(m) != NatToDecimal(n)
  {
    DecimalRoundTrip(m);
    DecimalRoundTrip(n);
  }

  /** `"\(file) line \(line): \(message)"`. */
  function FullMessage(file: string, line: nat, message: string): string {
    file + " line " + NatToDecimal(line) + ": " + message
  }

  /** `LogHelper.log`: the logged string, or nothing when logging is off. */
  function Log(setting: LogSetting, file: string, line: nat, message: string): (r: Option<string>)
    ensures r.None? <==> setting == Never
    ensures r.Some? ==> |r.value| >= |message| && r.value[|r.value| - |message|..] == message
    ensures setting == DebugOnly ==> |r.value| >= |LibName| + 2 && r.value[..|LibName| + 2] == LibName + ": "
    ensures setting == Always ==> |r.value| >= |file| && r.value[..|file|] == file
  {
    match setting
    case Always => Some(FullMessage(file, line, message))
    case DebugOnly => Some(LibName + ": " + FullMessage(file, line, message))
    case Never => None
  }

  /** The `debugOnly` string is the library name and a colon in front of the `always`
      string for the same call. */
  lemma DebugOnlyPrefixesAlways(file: string, line: nat, message: string)
    ensures Log(DebugOnly, file, line, message).value == LibName + ": " + Log(Always, file, line, message).value
  {
  }

  /** The `always` string is the file, `" line "`, the line number's digits, `": "` and
      the message, so the line number can be read back from it. */
  lemma AlwaysCarriesTheLine(file: string, line: nat, message: string)
    ensures var s := Log(Always, file, line, message).value;
      var digits := NatToDecimal(line);
      var start := |file| + 6;
      |s| == start + |digits| + 2 + |message| &&
      s[..|file|] == file && s[|file| .. start] == " line " &&
      s[start .. start + |digits|] == digits &&
      s[start + |digits| ..] == ": " + message &&
      DecimalValue(s[start .. start + |digits|]) == line
  {
    var s := Log(Always, file, line, message).value;
    var digits := NatToDecimal(line);
    var prefix := file + " line ";
    assert s == prefix + digits + (": " + message);
    ThreeParts(prefix, digits, ": " + message);
    ThreeParts(file, " line ", []);
    DecimalRoundTrip(line);
  }

  /** The three parts of `a + b + c` are recovered by slicing at their lengths. */
  lemma ThreeParts<X>(a: seq<X>, b: seq<X>, c: seq<X>)
    ensures (a + b + c)[..|a|] == a
    ensures (a + b + c)[|a| .. |a| + |b|] == b
    ensures (a + b + c)[|a| + |b| ..] == c
  {
  }
}
