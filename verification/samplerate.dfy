/** Scanning a server response for a new polling interval.

    The server embeds the interval as `samplerate="<seconds>"></span>`.
    `textBetween` is meant to return the text between the first occurrence of
    a start and an end marker, but its "marker not found" test is inverted:
    it gives up when a marker IS found.  When neither marker is found, the
    unsigned index arithmetic wraps around and it returns a suffix of the
    input.  `TextBetween` models that code exactly, with 64-bit `size_t`
    arithmetic, and is the scanner the polling loop uses; `TextBetweenFixed`
    is the intended one. */
module SampleRate {
  import opened CStrings
  import opened FloatText

  const FILTER_START: string := "samplerate=\""
  const FILTER_END: string := "\"></span>"

  /** The empty string occurs in every string (`find("")` is 0). */
  lemma EmptyOccurs(s: string)
    ensures Occurs(s, "")
  {
    assert OccursAt(s, "", 0);
  }

  /** `textBetween` as written: empty unless neither marker occurs, in which
      case the text from index `|start| - 1` on. */
  function TextBetween(input: string, start: string, end: string): (r: string)
    requires |input| < NPOS && |start| + |end| < NPOS
    ensures |start| + |end| >= |input| ==> r == ""
    ensures Occurs(input, start) || Occurs(input, end) ==> r == ""
    ensures |start| + |end| < |input| && !Occurs(input, start) && !Occurs(input, end) ==>
      |start| >= 1 && r == input[|start| - 1..]
  {
    var filterSize := SizeAdd(|start|, |end|);
    if filterSize >= |input| then ""
    else
      var startIdx := Find(input, start);
      var endIdx := Find(input, end);
      if startIdx != NPOS || endIdx != NPOS then ""
      else if startIdx > endIdx then ""
      else
        EmptyOccurs(input);
        assert |start| >= 1;
        var from := SizeAdd(startIdx, |start|);
        assert NPOS + |start| == SIZE_MODULUS + (|start| - 1);
        assert from == |start| - 1;
        Substr(input, from, SizeSub(endIdx, from))
  }

  /** The scanner as documented: the text between the first start marker and
      the first end marker.  When the end marker's first occurrence overlaps
      the start marker, the unsigned length wraps and the rest of the input
      after the start marker is returned. */
  function TextBetweenFixed(input: string, start: string, end: string): (r: string)
    requires |input| < NPOS && |start| + |end| < NPOS
    ensures |start| + |end| >= |input| ==> r == ""
    ensures !Occurs(input, start) || !Occurs(input, end) ==> r == ""
    ensures |start| + |end| < |input| && Occurs(input, start) && Occurs(input, end) ==>
      var s, e := Find(input, start), Find(input, end);
      && (e < s ==> r == "")
      && (s + |start| <= e ==> r == input[s + |start|..e])
      && (s <= e < s + |start| ==> r == input[s + |start|..])
  {
    var filterSize := SizeAdd(|start|, |end|);
    if filterSize >= |input| then ""
    else
      var startIdx := Find(input, start);
      var endIdx := Find(input, end);
      if startIdx == NPOS || endIdx == NPOS then ""
      else if startIdx > endIdx then ""
      else
        var from := SizeAdd(startIdx, |start|);
        Substr(input, from, SizeSub(endIdx, from))
  }

  /** `extractSampleRate` once the text is cut out: -1 unless the text starts
      with a digit, otherwise its decimal value. */
  function RateOf(text: string): (rate: real)
    ensures rate == -1.0 || rate >= 0.0
    ensures rate >= 0.0 <==> |text| > 0 && IsDigit(text[0])
    ensures |text| > 0 && IsDigit(text[0]) ==> rate == DecimalPrefix(text)
  {
    if text == "" then -1.0
    else if IsDigit(text[0]) then Stof(text)
    else -1.0
  }

  /** `extractSampleRate` with the scanner as written: -1 when the response is
      short or carries either marker; otherwise the rate read from index 11,
      `|FILTER_START| - 1`, onwards. */
  function ExtractSampleRateAsWritten(response: string): (rate: real)
    requires |response| < NPOS
    ensures rate == -1.0 || rate >= 0.0
    ensures |response| <= |FILTER_START| + |FILTER_END| ==> rate == -1.0
    ensures Occurs(response, FILTER_START) || Occurs(response, FILTER_END) ==> rate == -1.0
    ensures |response| > |FILTER_START| + |FILTER_END|
            && !Occurs(response, FILTER_START) && !Occurs(response, FILTER_END) ==>
      rate == RateOf(response[|FILTER_START| - 1..])
  {
    RateOf(TextBetween(response, FILTER_START, FILTER_END))
  }

  /** `extractSampleRate` with the corrected scanner. */
  function ExtractSampleRate(response: string): (rate: real)
    requires |response| < NPOS
    ensures rate == -1.0 || rate >= 0.0
    ensures !Occurs(response, FILTER_START) || !Occurs(response, FILTER_END) ==> rate == -1.0
  {
    RateOf(TextBetweenFixed(response, FILTER_START, FILTER_END))
  }

  /** As written, any response that carries the sample-rate tag yields -1, so
      the tag never changes the polling interval. */
  lemma AsWrittenIgnoresTag(response: string)
    requires |response| < NPOS
    requires Occurs(response, FILTER_START)
    ensures ExtractSampleRateAsWritten(response) == -1.0
  {
  }

  /** The response `samplerate="5"></span>`: as written the rate is -1; the
      corrected scanner reads 5. */
  lemma SampleRateCounterexample()
    ensures ExtractSampleRateAsWritten(FILTER_START + "5" + FILTER_END) == -1.0
    ensures ExtractSampleRate(FILTER_START + "5" + FILTER_END) == 5.0
  {
    var input := FILTER_START + "5" + FILTER_END;
    assert OccursAt(input, FILTER_START, 0);
    AsWrittenIgnoresTag(input);
    assert Find(input, FILTER_START) == 0;
    assert OccursAt(input, FILTER_END, 13);
    assert input == "samplerate=\"5\"></span>";
    forall j | 0 <= j < 13 ensures !OccursAt(input, FILTER_END, j) {
      var k := if j == 11 then 1 else 0;
      assert input[j + k] != FILTER_END[k];
      assert input[j..j + |FILTER_END|][k] == input[j + k];
    }
    assert Find(input, FILTER_END) == 13;
    assert TextBetweenFixed(input, FILTER_START, FILTER_END) == input[12..13] == "5";
    assert DigitRun("5") == 1;
    assert "5"[..1] == "5";
    assert DigitsValue("5") == 5;
    assert "5"[1..] == "";
  }

  /** A pattern whose first character does not appear in `s` does not occur
      in it. */
  lemma FirstCharAbsent(s: string, pat: string)
    requires |pat| > 0
    requires forall i :: 0 <= i < |s| ==> s[i] != pat[0]
    ensures !Occurs(s, pat)
  {
    forall j | 0 <= j <= |s| ensures !OccursAt(s, pat, j) {
      if j + |pat| <= |s| {
        assert s[j..j + |pat|][0] == s[j];
      }
    }
  }

  /** As written, a reply without the tag but with a digit at index 11
      changes the rate: `HTTP/1.1 201 Created xy` yields 1, where the
      corrected scanner yields -1. */
  lemma AsWrittenReadsUntaggedReply()
    ensures ExtractSampleRateAsWritten("HTTP/1.1 201 Created xy") == 1.0
    ensures ExtractSampleRate("HTTP/1.1 201 Created xy") == -1.0
  {
    var input := "HTTP/1.1 201 Created xy";
    assert FILTER_START[0] == 's' && FILTER_END[0] == '"';
    assert forall i :: 0 <= i < |input| ==> input[i] != 's' && input[i] != '"';
    FirstCharAbsent(input, FILTER_START);
    FirstCharAbsent(input, FILTER_END);
    var text := input[11..];
    assert text == "1 Created xy";
    assert DigitRun(text) == 1 by {
      assert IsDigit(text[0]) && !IsDigit(text[1..][0]);
    }
    assert text[..1] == "1" && text[1..][0] == ' ';
    assert DigitsValue("1") == 1 by {
      assert "1"[..0] == "";
    }
  }

  /** `PollingInterval` starts at 5 seconds. */
  const INITIAL_INTERVAL: real := 5.0

  /** The interval update after a send: a rate replaces the interval only when
      it is not -1 and is positive, so a positive interval stays positive. */
  function NextInterval(interval: real, rate: real): (r: real)
    ensures rate != -1.0 && rate > 0.0 ==> r == rate
    ensures !(rate != -1.0 && rate > 0.0) ==> r == interval
    ensures interval > 0.0 ==> r > 0.0
  {
    if rate != -1.0 && rate > 0.0 then rate else interval
  }
}
