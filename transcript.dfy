/**
 * `fetchTranscript` (server/services/aiAnalysis.js): asks the caption provider
 * for the transcript of a video and renders it as one `[<seconds>s] <text>`
 * line per caption entry. The provider itself is an input here.
 */
module Transcript {
  import opened Wrappers
  import opened JsText

  /** One caption entry: its start offset in milliseconds and its text. */
  datatype TranscriptEntry = TranscriptEntry(offsetMillis: nat, text: string)

  /** What the caption provider answered for a video id. */
  datatype ProviderResult =
    | Fetched(entries: seq<TranscriptEntry>)
    | NothingReturned                  // null or undefined
    | ProviderFailed(message: string)  // the provider call threw

  const FailurePrefix := "Failed to fetch transcript: "
  const NoTranscriptMessage := "No transcript available for this video"

  /** `[${Math.floor(offset / 1000)}s] ${text}` */
  function FormatEntry(e: TranscriptEntry): string {
    "[" + NatToString(e.offsetMillis / 1000) + "s] " + e.text
  }

  /** The lines of the formatted transcript, one per entry, in entry order. */
  function FormatLines(entries: seq<TranscriptEntry>): (lines: seq<string>)
    ensures |lines| == |entries|
    ensures forall i :: 0 <= i < |entries| ==> lines[i] == FormatEntry(entries[i])
  {
    seq(|entries|, i requires 0 <= i < |entries| => FormatEntry(entries[i]))
  }

  /** The formatted transcript: the lines joined with newlines. */
  function FormatTranscript(entries: seq<TranscriptEntry>): string {
    Join(FormatLines(entries), '\n')
  }

  /**
   * `fetchTranscript`: a provider failure, and an absent or empty transcript,
   * become an error whose message is the fixed prefix followed by the
   * provider's message (by "No transcript available for this video" when
   * nothing came back); otherwise the formatted transcript.
   */
  function FetchTranscript(provided: ProviderResult): (r: Result<string, string>)
    ensures r.Ok? <==> provided.Fetched? && |provided.entries| > 0
    ensures r.Ok? ==> r.value == FormatTranscript(provided.entries)
    ensures provided.ProviderFailed? ==> r == Err(FailurePrefix + provided.message)
    ensures provided.NothingReturned? || provided == Fetched([]) ==>
              r == Err(FailurePrefix + NoTranscriptMessage)
  {
    match provided
    case ProviderFailed(message) => Err(FailurePrefix + message)
    case NothingReturned => Err(FailurePrefix + NoTranscriptMessage)
    case Fetched(entries) =>
      if |entries| == 0 then Err(FailurePrefix + NoTranscriptMessage)
      else Ok(FormatTranscript(entries))
  }

  /**
   * Reading a formatted line back: the number between `[` and the first `s`,
   * and the text after `s] `.
   */
  function ParseLine(line: string): Option<(nat, string)> {
    match IndexOf(line, 's')
    case None => None
    case Some(k) =>
      if 1 <= k && line[0] == '[' && IsDigits(line[1..k]) && HasAt(line, k, "s] ")
      then Some((DecimalValue(line[1..k]), line[k + 3..]))
      else None
  }

  /** A line laid out as `[`, digits without an `s`, `s] `, text, reads back as those digits and that text. */
  lemma ParseLaidOutLine(line: string, digits: string, text: string)
    requires |digits| > 0 && IsDigits(digits)
    requires |line| == |digits| + 4 + |text| && line[0] == '['
    requires line[1..|digits| + 1] == digits && HasAt(line, |digits| + 1, "s] ")
    requires line[|digits| + 4..] == text
    ensures ParseLine(line) == Some((DecimalValue(digits), text))
  {
    var k := |digits| + 1;
    assert line[k] == line[k..k + 3][0] == 's';
    assert 's' !in line[..k] by {
      forall i | 0 <= i < k ensures line[i] != 's' {
        if i > 0 {
          assert line[i] == line[1..k][i - 1];
        }
      }
    }
  }

  /** Where the four parts of `a + b + c + d` sit. */
  lemma FourParts(a: string, b: string, c: string, d: string)
    ensures var s := a + b + c + d;
            && |s| == |a| + |b| + |c| + |d|
            && s[..|a|] == a
            && s[|a|..|a| + |b|] == b
            && s[|a| + |b|..|a| + |b| + |c|] == c
            && s[|a| + |b| + |c|..] == d
  {
    var s := a + b + c + d;
    assert s == a + (b + (c + d));
  }

  /** A line `[<digits>s] <text>` reads back as the number the digits denote and the text. */
  lemma ParseFormattedLine(digits: string, text: string)
    requires |digits| > 0 && IsDigits(digits)
    ensures ParseLine("[" + digits + "s] " + text) == Some((DecimalValue(digits), text))
  {
    var line := "[" + digits + "s] " + text;
    FourParts("[", digits, "s] ", text);
    assert line[0] == line[..1][0] == '[';
    ParseLaidOutLine(line, digits, text);
  }

  /** Every formatted line reads back as the entry's whole seconds and its text. */
  lemma FormatEntryReadsBack(e: TranscriptEntry)
    ensures ParseLine(FormatEntry(e)) == Some((e.offsetMillis / 1000, e.text))
  {
    ParseFormattedLine(NatToString(e.offsetMillis / 1000), e.text);
    DecimalRoundTrip(e.offsetMillis / 1000);
  }

  /**
   * The formatted transcript has exactly one line per entry, in entry order,
   * when no caption text holds a newline of its own.
   */
  lemma {:induction false} FormattedLines(entries: seq<TranscriptEntry>)
    requires |entries| > 0
    requires forall i :: 0 <= i < |entries| ==> '\n' !in entries[i].text
    ensures Split(FormatTranscript(entries), '\n') == FormatLines(entries)
  {
    var lines := FormatLines(entries);
    forall i | 0 <= i < |lines| ensures '\n' !in lines[i] {
      var digits := NatToString(entries[i].offsetMillis / 1000);
      assert lines[i] == "[" + digits + "s] " + entries[i].text;
      assert '\n' !in digits;
    }
    SplitJoin(lines, '\n');
  }
}
