/**
 * `analyzeVideo` and `analyzeVideoWithTimeout` (server/services/aiAnalysis.js):
 * one analysis run reads a Video, extracts its YouTube id, fetches and formats
 * the transcript, asks the language model for exercise segments, and writes
 * the outcome (`status`, `segments`, `analysisError`) back to the Video store.
 *
 * The store is a class over a map from document ids to Videos. The caption
 * provider, the completion call and `JSON.parse` come in through `Env`; which
 * side of the 60-second race settles first comes in as a `Race`.
 */
module Analysis {
  import opened Wrappers
  import opened VideoSchema
  import opened YoutubeUrl
  import opened Transcript
  import opened LlmAdapter

  const VideoNotFound := "Video not found"
  const InvalidUrl := "Invalid YouTube URL"
  const NoKeyMessage := "OpenAI API key not configured. Add OPENAI_API_KEY to .env file."
  const TimeoutMessage := "Analysis timeout. Video may be too long or transcript unavailable."
  /** The reason the timer rejects the race with; the store never sees it. */
  const TimerRejection := "Analysis timeout after 60 seconds"

  /** Everything a run depends on besides the store. */
  datatype Env = Env(
    keyConfigured: bool,                   // OPENAI_API_KEY was set at start-up
    captions: string -> ProviderResult,    // the caption provider, by YouTube id
    complete: string -> Completion,        // the chat completion, by user prompt
    parse: string -> ParseResult)          // JSON.parse

  /** Which promise of the race settles first. */
  datatype Race =
    | AnalysisFirst
    | TimerFirst(lateWrite: bool)  // whether the abandoned run's own write lands afterwards

  /** The fields a run writes with `findByIdAndUpdate`. */
  datatype Update = Update(status: Status, segments: seq<Segment>, analysisError: Option<string>)

  /** The update of the catch blocks. */
  function Failure(message: string): Update {
    Update(Failed, [], Some(message))
  }

  /** The update of the soft success without an API key. */
  const NoKeyUpdate := Update(Completed, [], Some(NoKeyMessage))

  /** A partial update: the three analysis fields change, nothing else does. */
  function Apply(v: Video, u: Update): (w: Video)
    ensures w.status == u.status && w.segments == u.segments && w.analysisError == u.analysisError
    ensures w.url == v.url && w.title == v.title && w.thumbnail == v.thumbnail
    ensures w.duration == v.duration && w.createdAt == v.createdAt
  {
    v.(status := u.status, segments := u.segments, analysisError := u.analysisError)
  }

  /** `findByIdAndUpdate(id, u)`: updates the document with that id; an absent id changes nothing. */
  function UpdateById(videos: map<VideoKey, Video>, id: VideoKey, u: Update): (r: map<VideoKey, Video>)
    ensures r.Keys == videos.Keys
    ensures forall k :: k in videos && k != id ==> r[k] == videos[k]
    ensures id in videos ==> r[id] == Apply(videos[id], u)
    ensures id !in videos ==> r == videos
  {
    if id in videos then videos[id := Apply(videos[id], u)] else videos
  }

  /**
   * The try block of `analyzeVideo` for a video that was found: the update it
   * writes, or the message of the error it throws.
   */
  function RunPipeline(v: Video, env: Env): Result<Update, string> {
    match ExtractVideoId(v.url)
    case None => Err(InvalidUrl)
    case Some(youtubeId) =>
      match FetchTranscript(env.captions(youtubeId))
      case Err(m) => Err(m)
      case Ok(transcript) =>
        if !env.keyConfigured then Ok(NoKeyUpdate)
        else
          match AnalyzeWithLlm(true, transcript, v.title, env.complete, env.parse)
          case Err(m) => Err(m)
          case Ok(segments) => Ok(Update(Completed, segments, None))
  }

  /**
   * The one update `analyzeVideo` writes for a stored video. It is terminal,
   * it fails exactly when the try block throws (then with no segments and the
   * thrown message), and a completed run carries an error only in the soft
   * success without an API key.
   */
  function AnalysisUpdate(v: Video, env: Env): (u: Update)
    ensures u.status != Pending
    ensures u.status == Failed <==> RunPipeline(v, env).Err?
    ensures u.status == Failed ==> u == Failure(RunPipeline(v, env).error)
    ensures u.status == Completed ==> u.analysisError.None? || u == NoKeyUpdate
  {
    match RunPipeline(v, env)
    case Ok(u) => u
    case Err(m) => Failure(m)
  }

  /** The store after `analyzeVideo(id)`: a missing video makes its failure write land nowhere. */
  function Analyzed(videos: map<VideoKey, Video>, id: VideoKey, env: Env): map<VideoKey, Video> {
    UpdateById(videos, id, if id in videos then AnalysisUpdate(videos[id], env) else Failure(VideoNotFound))
  }

  /**
   * The store after `analyzeVideoWithTimeout(id)`. When the timer wins, the
   * catch handler writes the fixed timeout failure; the run is not cancelled,
   * so its own write, computed from the video it read at the start, may land
   * afterwards.
   */
  function AfterRace(videos: map<VideoKey, Video>, id: VideoKey, env: Env, race: Race): map<VideoKey, Video> {
    match race
    case AnalysisFirst => Analyzed(videos, id, env)
    case TimerFirst(lateWrite) =>
      var timedOut := UpdateById(videos, id, Failure(TimeoutMessage));
      if lateWrite then
        UpdateById(timedOut, id, if id in videos then AnalysisUpdate(videos[id], env) else Failure(VideoNotFound))
      else timedOut
  }

  // ---- What one run writes ----

  /** A run whose every step succeeds stores exactly the parsed segments, in order, and clears the error. */
  lemma SuccessfulRun(v: Video, env: Env, youtubeId: string, entries: seq<TranscriptEntry>, reply: string, span: string, segments: seq<Segment>)
    requires ExtractVideoId(v.url) == Some(youtubeId)
    requires env.captions(youtubeId) == Fetched(entries) && |entries| > 0
    requires env.keyConfigured
    requires env.complete(BuildPrompt(FormatTranscript(entries), v.title)) == Replied(reply)
    requires ExtractJsonArray(reply) == Some(span) && env.parse(span) == Parsed(segments)
    ensures AnalysisUpdate(v, env) == Update(Completed, segments, None)
  {
  }

  /** A reply without an array span completes the run with no segments and no error. */
  lemma ReplyWithoutArray(v: Video, env: Env, youtubeId: string, entries: seq<TranscriptEntry>, reply: string)
    requires ExtractVideoId(v.url) == Some(youtubeId)
    requires env.captions(youtubeId) == Fetched(entries) && |entries| > 0
    requires env.keyConfigured
    requires env.complete(BuildPrompt(FormatTranscript(entries), v.title)) == Replied(reply)
    requires ExtractJsonArray(reply).None?
    ensures AnalysisUpdate(v, env) == Update(Completed, [], None)
  {
  }

  /** A malformed array span fails the run with the parser's message. */
  lemma MalformedReply(v: Video, env: Env, youtubeId: string, entries: seq<TranscriptEntry>, reply: string, span: string, message: string)
    requires ExtractVideoId(v.url) == Some(youtubeId)
    requires env.captions(youtubeId) == Fetched(entries) && |entries| > 0
    requires env.keyConfigured
    requires env.complete(BuildPrompt(FormatTranscript(entries), v.title)) == Replied(reply)
    requires ExtractJsonArray(reply) == Some(span) && env.parse(span) == Malformed(message)
    ensures AnalysisUpdate(v, env) == Failure(message)
  {
  }

  /** A chat-completion call that throws fails the run with that error's message. */
  lemma CallFailedRun(v: Video, env: Env, youtubeId: string, entries: seq<TranscriptEntry>, message: string)
    requires ExtractVideoId(v.url) == Some(youtubeId)
    requires env.captions(youtubeId) == Fetched(entries) && |entries| > 0
    requires env.keyConfigured
    requires env.complete(BuildPrompt(FormatTranscript(entries), v.title)) == CallFailed(message)
    ensures AnalysisUpdate(v, env) == Failure(message)
  {
  }

  /** A URL the regex does not match fails the run before anything is fetched. */
  lemma InvalidUrlRun(v: Video, env: Env)
    requires ExtractVideoId(v.url).None?
    ensures AnalysisUpdate(v, env) == Failure("Invalid YouTube URL")
  {
  }

  /**
   * The transcript is fetched before the API key is looked at: a failing
   * transcript fails the run with the transcript's error, key or no key.
   */
  lemma TranscriptFailureRun(v: Video, env: Env, youtubeId: string)
    requires ExtractVideoId(v.url) == Some(youtubeId)
    requires FetchTranscript(env.captions(youtubeId)).Err?
    ensures AnalysisUpdate(v, env) == Failure(FetchTranscript(env.captions(youtubeId)).error)
    ensures env.captions(youtubeId).ProviderFailed? ==>
              AnalysisUpdate(v, env) == Failure(FailurePrefix + env.captions(youtubeId).message)
    ensures env.captions(youtubeId).NothingReturned? || env.captions(youtubeId) == Fetched([]) ==>
              AnalysisUpdate(v, env) == Failure(FailurePrefix + NoTranscriptMessage)
  {
  }

  /** Without an API key, a good transcript ends in the soft success: completed, no segments, the fixed hint. */
  lemma NoKeyRun(v: Video, env: Env, youtubeId: string)
    requires ExtractVideoId(v.url) == Some(youtubeId)
    requires FetchTranscript(env.captions(youtubeId)).Ok?
    requires !env.keyConfigured
    ensures AnalysisUpdate(v, env) == Update(Completed, [], Some(NoKeyMessage))
  {
  }

  // ---- What a run does to the store ----

  /** A run changes at most the analysis fields of its own video. */
  lemma RunTouchesOnlyItsVideo(videos: map<VideoKey, Video>, id: VideoKey, env: Env)
    ensures Analyzed(videos, id, env).Keys == videos.Keys
    ensures forall k :: k in videos && k != id ==> Analyzed(videos, id, env)[k] == videos[k]
    ensures id !in videos ==> Analyzed(videos, id, env) == videos
    ensures id in videos ==> Analyzed(videos, id, env)[id] == Apply(videos[id], AnalysisUpdate(videos[id], env))
  {
  }

  /** What a run writes depends on the video's URL and title only. */
  lemma UpdateDependsOnUrlAndTitle(v: Video, w: Video, env: Env)
    requires v.url == w.url && v.title == w.title
    ensures AnalysisUpdate(v, env) == AnalysisUpdate(w, env)
  {
    assert RunPipeline(v, env) == RunPipeline(w, env);
  }

  /** In particular, what a run writes does not depend on the analysis fields an earlier run left. */
  lemma UpdateIgnoresAnalysisFields(v: Video, u: Update, env: Env)
    ensures AnalysisUpdate(Apply(v, u), env) == AnalysisUpdate(v, env)
  {
    UpdateDependsOnUrlAndTitle(Apply(v, u), v, env);
  }

  /** Two runs one after the other, with the same collaborators, leave the store as one run does. */
  lemma AnalyzeTwice(videos: map<VideoKey, Video>, id: VideoKey, env: Env)
    ensures Analyzed(Analyzed(videos, id, env), id, env) == Analyzed(videos, id, env)
  {
    if id in videos {
      var u := AnalysisUpdate(videos[id], env);
      var once := Analyzed(videos, id, env);
      UpdateIgnoresAnalysisFields(videos[id], u, env);
      assert once[id] == Apply(videos[id], u);
      assert Apply(once[id], u) == once[id];
    }
  }

  /** An analysis write keeps every stored video valid and the URLs unique. */
  lemma UpdateKeepsStoreValid(videos: map<VideoKey, Video>, id: VideoKey, u: Update)
    requires UrlsUnique(videos) && forall k :: k in videos ==> ValidVideo(videos[k])
    ensures UrlsUnique(UpdateById(videos, id, u))
    ensures forall k :: k in UpdateById(videos, id, u) ==> ValidVideo(UpdateById(videos, id, u)[k])
  {
    var r := UpdateById(videos, id, u);
    forall k | k in r ensures r[k].url == videos[k].url && ValidVideo(r[k]) {
    }
  }

  // ---- The race against the timer ----

  /**
   * When the timer wins and the abandoned run writes nothing more, the video
   * is failed with the fixed timeout text, not with the timer's rejection reason.
   */
  lemma TimeoutOutcome(videos: map<VideoKey, Video>, id: VideoKey, env: Env)
    requires id in videos
    ensures var after := AfterRace(videos, id, env, TimerFirst(false))[id];
            after.status == Failed && after.segments == []
            && after.analysisError == Some(TimeoutMessage)
            && after.analysisError != Some(TimerRejection)
  {
    assert |TimeoutMessage| != |TimerRejection|;
  }

  /**
   * The timeout write is not final: when the abandoned run's write lands
   * after it, the store ends as if the run had won the race.
   */
  lemma LateWriteOverridesTimeout(videos: map<VideoKey, Video>, id: VideoKey, env: Env)
    ensures AfterRace(videos, id, env, TimerFirst(true)) == AfterRace(videos, id, env, AnalysisFirst)
  {
    if id in videos {
      var u := AnalysisUpdate(videos[id], env);
      var timedOut := UpdateById(videos, id, Failure(TimeoutMessage));
      assert Apply(timedOut[id], u) == Apply(videos[id], u);
    }
  }

  /** The Video store: documents by id. */
  class VideoStore {
    var videos: map<VideoKey, Video>

    /** Every document passes the schema and no two share a URL. */
    ghost predicate Valid()
      reads this
    {
      UrlsUnique(videos) && forall k :: k in videos ==> ValidVideo(videos[k])
    }

    constructor (initial: map<VideoKey, Video>)
      requires UrlsUnique(initial) && forall k :: k in initial ==> ValidVideo(initial[k])
      ensures Valid() && videos == initial
    {
      videos := initial;
    }

    /** `Video.findByIdAndUpdate(id, u)` */
    method FindByIdAndUpdate(id: VideoKey, u: Update)
      requires Valid()
      modifies this
      ensures Valid()
      ensures videos == UpdateById(old(videos), id, u)
    {
      UpdateKeepsStoreValid(videos, id, u);
      videos := UpdateById(videos, id, u);
    }

    /**
     * The try block of `analyzeVideo`: returns the message of the error it
     * throws, or nothing once it has written its update.
     */
    method TryAnalyze(id: VideoKey, env: Env) returns (thrown: Option<string>)
      requires Valid()
      modifies this
      ensures Valid()
      ensures id !in old(videos) ==> thrown == Some(VideoNotFound) && videos == old(videos)
      ensures id in old(videos) ==>
        match RunPipeline(old(videos)[id], env)
        case Ok(u) => thrown.None? && videos == UpdateById(old(videos), id, u)
        case Err(m) => thrown == Some(m) && videos == old(videos)
    {
      if id !in videos {
        return Some(VideoNotFound);
      }
      var video := videos[id];
      var youtubeId := ExtractVideoId(video.url);
      if youtubeId.None? {
        return Some(InvalidUrl);
      }
      var transcript := FetchTranscript(env.captions(youtubeId.value));
      if transcript.Err? {
        return Some(transcript.error);
      }
      if !env.keyConfigured {
        FindByIdAndUpdate(id, NoKeyUpdate);
        return None;
      }
      var exercises := AnalyzeWithLlm(env.keyConfigured, transcript.value, video.title, env.complete, env.parse);
      if exercises.Err? {
        return Some(exercises.error);
      }
      FindByIdAndUpdate(id, Update(Completed, exercises.value, None));
      return None;
    }

    /** `analyzeVideo(id)`: the try block, and the catch block's failure write. */
    method AnalyzeVideo(id: VideoKey, env: Env)
      requires Valid()
      modifies this
      ensures Valid()
      ensures videos == Analyzed(old(videos), id, env)
    {
      var thrown := TryAnalyze(id, env);
      if thrown.Some? {
        FindByIdAndUpdate(id, Failure(thrown.value));
      }
    }

    /**
     * `analyzeVideoWithTimeout(id)`: `analyzeVideo` raced against a timer.
     * The run never rejects, so the catch handler runs only when the timer
     * wins; it ignores the rejection reason and writes the timeout failure.
     */
    method AnalyzeVideoWithTimeout(id: VideoKey, env: Env, race: Race)
      requires Valid()
      modifies this
      ensures Valid()
      ensures videos == AfterRace(old(videos), id, env, race)
    {
      match race
      case AnalysisFirst =>
        AnalyzeVideo(id, env);
      case TimerFirst(lateWrite) =>
        // the run has read its video before the timer fires
        var read := if id in videos then Some(videos[id]) else None;
        FindByIdAndUpdate(id, Failure(TimeoutMessage));
        if lateWrite {
          // the abandoned run is not cancelled and makes its own write
          FindByIdAndUpdate(id, if read.Some? then AnalysisUpdate(read.value, env) else Failure(VideoNotFound));
        }
    }
  }
}
