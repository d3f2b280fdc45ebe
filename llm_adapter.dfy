/**
 * `analyzeWithLLM` (server/services/aiAnalysis.js): builds the prompt around
 * the first 3000 characters of the transcript, sends it to the language
 * model, and parses the JSON array found in the reply. The completion call
 * and `JSON.parse` are inputs (oracles) here.
 */
module LlmAdapter {
  import opened Wrappers
  import opened JsText
  import opened VideoSchema

  /** What the completion call gave back. */
  datatype Completion =
    | Replied(content: string)
    | CallFailed(message: string)    // the call threw, or the reply had no content

  /** What `JSON.parse` made of a candidate array. */
  datatype ParseResult =
    | Parsed(segments: seq<Segment>)
    | Malformed(message: string)     // the SyntaxError it threw

  const ExcerptLimit := 3000
  const TruncationMarker := "...(truncated)"
  const KeyMissingMessage := "OpenAI API key not configured"

  const PromptIntro := "You are analyzing a workout video transcript to identify exercises.\n\nVideo Title: "
  const TranscriptHeading := "\n\nTranscript (with timestamps):\n"
  const PromptInstructions := "\n\n" + ExtractionRequest
  const ExtractionRequest :=
    "Extract all exercises mentioned in this workout video. For each exercise:\n"
    + "1. Exercise name (standardized, e.g., \"Push-ups\", \"Squats\", \"Bench Press\")\n"
    + "2. Timestamp in seconds when the exercise starts\n"
    + "3. Target muscle groups (e.g., [\"Chest\", \"Triceps\"])\n\n"
    + "Return ONLY a JSON array in this exact format:\n"
    + "[\n  {\n    \"exerciseName\": \"Push-ups\",\n    \"timestamp\": 45,\n"
    + "    \"targetMuscles\": [\"Chest\", \"Triceps\", \"Shoulders\"]\n  }\n]\n\n"
    + "If no exercises are found, return an empty array: []"

  /** The prompt up to the place where the transcript goes. */
  function PromptHead(title: string): string {
    PromptIntro + title + TranscriptHeading
  }

  /** `transcript.substring(0, 3000)` */
  function Excerpt(transcript: string): (r: string)
    ensures |r| == if |transcript| < ExcerptLimit then |transcript| else ExcerptLimit
    ensures r == transcript[..|r|]
  {
    transcript[..if |transcript| < ExcerptLimit then |transcript| else ExcerptLimit]
  }

  /** The user prompt with `tail` in place of the instructions. */
  function PromptWith(transcript: string, title: string, tail: string): string {
    PromptHead(title) + Excerpt(transcript) + " "
    + (if |transcript| > ExcerptLimit then TruncationMarker else "")
    + tail
  }

  /** The user prompt sent to the model. */
  function BuildPrompt(transcript: string, title: string): string {
    PromptWith(transcript, title, PromptInstructions)
  }

  /** Where the pieces of `head + body + " " + marker + tail` sit. */
  lemma PromptLayout(head: string, body: string, marker: string, tail: string)
    ensures var s := head + body + " " + marker + tail;
            && HasAt(s, |head|, body)
            && HasAt(s, |head| + |body| + 1, marker)
            && (|tail| > 0 ==> s[|head| + |body| + 1 + |marker|] == tail[0])
  {
    var s := head + body + " " + marker + tail;
    assert s == head + (body + (" " + (marker + tail)));
    assert s[|head|..][..|body|] == body;
    assert s[|head| + |body| + 1..] == marker + tail;
  }

  /** The instructions start with a line break. */
  lemma InstructionsStart()
    ensures |PromptInstructions| > 0 && PromptInstructions[0] == '\n'
  {
  }

  /** A string occurs only where its first character stands. */
  lemma AtStartsWithFirst(s: string, i: nat, lit: string)
    requires i < |s| && |lit| > 0
    ensures HasAt(s, i, lit) ==> s[i] == lit[0]
  {
    if i + |lit| <= |s| {
      assert s[i..i + |lit|][0] == s[i];
    }
  }

  /** Wherever the instructions go, the excerpt sits right after the heading. */
  lemma ExcerptAfterHeadingWith(transcript: string, title: string, tail: string)
    ensures HasAt(PromptWith(transcript, title, tail), |PromptHead(title)|, Excerpt(transcript))
  {
    var marker := if |transcript| > ExcerptLimit then TruncationMarker else "";
    PromptLayout(PromptHead(title), Excerpt(transcript), marker, tail);
  }

  /** Wherever the instructions go, the marker follows a long transcript's excerpt and a space. */
  lemma MarkerAfterLongExcerptWith(transcript: string, title: string, tail: string)
    requires |transcript| > ExcerptLimit
    ensures HasAt(PromptWith(transcript, title, tail), |PromptHead(title)| + ExcerptLimit + 1, TruncationMarker)
  {
    PromptLayout(PromptHead(title), Excerpt(transcript), TruncationMarker, tail);
  }

  /** Instructions that do not start with '.' cannot be mistaken for the marker after a short transcript. */
  lemma NoMarkerAfterShortTranscriptWith(transcript: string, title: string, tail: string)
    requires |transcript| <= ExcerptLimit
    requires |tail| > 0 && tail[0] != '.'
    ensures !HasAt(PromptWith(transcript, title, tail), |PromptHead(title)| + |transcript| + 1, TruncationMarker)
  {
    var head, body := PromptHead(title), Excerpt(transcript);
    var prompt := PromptWith(transcript, title, tail);
    assert prompt == head + body + " " + "" + tail;
    assert |body| == |transcript|;
    PromptLayout(head, body, "", tail);
    assert TruncationMarker[0] == '.';
    AtStartsWithFirst(prompt, |head| + |body| + 1, TruncationMarker);
  }

  /** The layout of the prompt, wherever the instructions go, as long as they do not start with '.'. */
  lemma PromptEmbedsExcerptWith(transcript: string, title: string, tail: string)
    requires |tail| > 0 && tail[0] != '.'
    ensures var n := if |transcript| < ExcerptLimit then |transcript| else ExcerptLimit;
            var prompt := PromptWith(transcript, title, tail);
            var at := |PromptHead(title)|;
            && HasAt(prompt, at, transcript[..n])
            && (HasAt(prompt, at + n + 1, TruncationMarker) <==> |transcript| > ExcerptLimit)
  {
    ExcerptAfterHeadingWith(transcript, title, tail);
    if |transcript| > ExcerptLimit {
      MarkerAfterLongExcerptWith(transcript, title, tail);
    } else {
      NoMarkerAfterShortTranscriptWith(transcript, title, tail);
    }
  }

  /**
   * The prompt holds the first min(3000, length) characters of the transcript
   * right after the heading, and the truncation marker follows them (after a
   * space) exactly when the transcript is longer than 3000 characters.
   */
  lemma PromptEmbedsExcerpt(transcript: string, title: string)
    ensures var n := if |transcript| < ExcerptLimit then |transcript| else ExcerptLimit;
            var prompt := BuildPrompt(transcript, title);
            var at := |PromptHead(title)|;
            && HasAt(prompt, at, transcript[..n])
            && (HasAt(prompt, at + n + 1, TruncationMarker) <==> |transcript| > ExcerptLimit)
  {
    InstructionsStart();
    PromptEmbedsExcerptWith(transcript, title, PromptInstructions);
  }

  /** A transcript of at most 3000 characters appears in the prompt whole. */
  lemma ShortTranscriptWhole(transcript: string, title: string)
    requires |transcript| <= ExcerptLimit
    ensures HasAt(BuildPrompt(transcript, title), |PromptHead(title)|, transcript)
  {
    PromptEmbedsExcerpt(transcript, title);
    assert transcript[..|transcript|] == transcript;
  }

  /** `s[p..q + 1]` runs from the first '[' of `s` to its last ']'. */
  predicate OuterBrackets(s: string, p: nat, q: nat) {
    p < q < |s| && s[p] == '[' && s[q] == ']' && '[' !in s[..p] && ']' !in s[q + 1..]
  }

  /**
   * `response.match(/\[[\s\S]*\]/)`: from the first '[' to the last ']' when a
   * ']' follows that '['; nothing otherwise.
   */
  function ExtractJsonArray(s: string): (r: Option<string>)
    ensures r.None? <==> forall i, j :: 0 <= i < j < |s| ==> !(s[i] == '[' && s[j] == ']')
    ensures r.Some? ==> exists p: nat, q: nat :: OuterBrackets(s, p, q) && r.value == s[p..q + 1]
  {
    match IndexOf(s, '[')
    case None => None
    case Some(p) =>
      match LastIndexOf(s, ']')
      case None => None
      case Some(q) =>
        if p < q then
          assert OuterBrackets(s, p, q);
          Some(s[p..q + 1])
        else None
  }

  /** At most one pair of positions can be the outer brackets. */
  lemma OuterBracketsUnique(s: string, p: nat, q: nat, p2: nat, q2: nat)
    requires OuterBrackets(s, p, q) && OuterBrackets(s, p2, q2)
    ensures p == p2 && q == q2
  {
  }

  /** Whenever `s` has outer brackets, the extracted span is what lies between them. */
  lemma ExtractAtOuterBrackets(s: string, p: nat, q: nat)
    requires OuterBrackets(s, p, q)
    ensures ExtractJsonArray(s) == Some(s[p..q + 1])
  {
  }

  /** The trimmed part of `s` starts at `k`; every bracket of `s` lies inside it. */
  lemma BracketsInsideTrim(s: string, k: nat, t: string)
    requires HasAt(s, k, t) && OnlyWhitespaceOutside(s, k, k + |t|)
    ensures forall i :: 0 <= i < |s| && (s[i] == '[' || s[i] == ']') ==> k <= i < k + |t| && t[i - k] == s[i]
  {
    forall i | 0 <= i < |s| && (s[i] == '[' || s[i] == ']') ensures k <= i < k + |t| && t[i - k] == s[i] {
      assert t == s[k..k + |t|];
    }
  }

  /** The outer brackets of the trimmed part are the outer brackets of the whole. */
  lemma OuterBracketsOfTrim(s: string, k: nat, t: string, p: nat, q: nat)
    requires HasAt(s, k, t) && OnlyWhitespaceOutside(s, k, k + |t|)
    requires OuterBrackets(t, p, q)
    ensures OuterBrackets(s, k + p, k + q) && t[p..q + 1] == s[k + p..k + q + 1]
  {
    BracketsInsideTrim(s, k, t);
    assert t == s[k..k + |t|];
    assert '[' !in s[..k + p] by {
      forall i | 0 <= i < k + p ensures s[i] != '[' {
      }
    }
    assert ']' !in s[k + q + 1..] by {
      forall i | k + q + 1 <= i < |s| ensures s[i] != ']' {
      }
    }
    var inner, outer := t[p..q + 1], s[k + p..k + q + 1];
    forall i | 0 <= i < |inner| ensures inner[i] == outer[i] {
      assert inner[i] == t[p + i];
    }
  }

  /** A bracket pair in `s` is a bracket pair of its trimmed part. */
  lemma NoSpanAfterTrim(s: string, k: nat, t: string)
    requires HasAt(s, k, t) && OnlyWhitespaceOutside(s, k, k + |t|)
    requires ExtractJsonArray(t).None?
    ensures ExtractJsonArray(s).None?
  {
    BracketsInsideTrim(s, k, t);
  }

  /** The span found in the trimmed part is the span found in the whole. */
  lemma SpanAfterTrim(s: string, k: nat, t: string, p: nat, q: nat)
    requires HasAt(s, k, t) && OnlyWhitespaceOutside(s, k, k + |t|)
    requires OuterBrackets(t, p, q)
    ensures ExtractJsonArray(s) == Some(t[p..q + 1])
  {
    OuterBracketsOfTrim(s, k, t, p, q);
    ExtractAtOuterBrackets(s, k + p, k + q);
  }

  /** Trimming the reply first does not change the array span found in it. */
  lemma TrimKeepsArraySpan(s: string)
    ensures ExtractJsonArray(Trim(s)) == ExtractJsonArray(s)
  {
    var t := Trim(s);
    var k: nat :| HasAt(s, k, t) && OnlyWhitespaceOutside(s, k, k + |t|);
    if ExtractJsonArray(t).None? {
      NoSpanAfterTrim(s, k, t);
    } else {
      var p: nat, q: nat :| OuterBrackets(t, p, q) && ExtractJsonArray(t).value == t[p..q + 1];
      SpanAfterTrim(s, k, t, p, q);
      ExtractAtOuterBrackets(t, p, q);
    }
  }

  /**
   * `analyzeWithLLM`: no API key is an error of its own; a failed call
   * propagates its error; a reply without an array span yields no segments
   * and no error; otherwise the span is parsed, and a parse error propagates.
   */
  function AnalyzeWithLlm(
    keyConfigured: bool, transcript: string, title: string,
    complete: string -> Completion, parse: string -> ParseResult): (r: Result<seq<Segment>, string>)
    ensures !keyConfigured ==> r == Err(KeyMissingMessage)
    ensures keyConfigured ==>
      match complete(BuildPrompt(transcript, title))
      case CallFailed(m) => r == Err(m)
      case Replied(content) =>
        match ExtractJsonArray(content)
        case None => r == Ok([])
        case Some(span) =>
          match parse(span)
          case Parsed(segments) => r == Ok(segments)
          case Malformed(m) => r == Err(m)
  {
    if !keyConfigured then Err(KeyMissingMessage)
    else
      match complete(BuildPrompt(transcript, title))
      case CallFailed(m) => Err(m)
      case Replied(content) =>
        var response := Trim(content);
        TrimKeepsArraySpan(content);
        match ExtractJsonArray(response)
        case None => Ok([])
        case Some(span) =>
          match parse(span)
          case Parsed(segments) => Ok(segments)
          case Malformed(m) => Err(m)
  }
}
