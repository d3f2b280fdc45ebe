/**
 * The Video document (server/models/Video.js): a saved video with its
 * metadata and the fields the exercise analysis fills in.
 */
module VideoSchema {
  import opened Wrappers
  import opened JsText

  /** The document id of a Video. */
  type VideoKey = nat

  /** The `status` enum; a document can hold no other value. */
  datatype Status = Pending | Completed | Failed

  /** One detected exercise: `timestamp` is in seconds from the start of the video. */
  datatype Segment = Segment(timestamp: int, exerciseName: string, targetMuscles: seq<string>)

  datatype Video = Video(
    url: string,
    title: string,
    thumbnail: string,
    duration: nat,            // seconds
    status: Status,
    segments: seq<Segment>,
    analysisError: Option<string>,
    createdAt: int)

  /** How the enum is stored. */
  function StatusName(s: Status): string {
    match s
    case Pending => "pending"
    case Completed => "completed"
    case Failed => "failed"
  }

  /** The enum validator: accepts exactly the three stored names. */
  function ParseStatus(name: string): (r: Option<Status>)
    ensures r.Some? ==> StatusName(r.value) == name
  {
    if name == "pending" then Some(Pending)
    else if name == "completed" then Some(Completed)
    else if name == "failed" then Some(Failed)
    else None
  }

  /** Every status survives being stored as its name and read back. */
  lemma StatusRoundTrip(s: Status)
    ensures ParseStatus(StatusName(s)) == Some(s)
  {
    match s
    case Pending =>
    case Completed =>
    case Failed =>
  }

  /** A `required` String holds a non-empty string. */
  predicate Present(s: string) {
    s != ""
  }

  /**
   * A document passes the schema: `url`, `title` and `thumbnail` are required,
   * and `url` is stored trimmed. (`duration` is required too; a `nat` is always present.)
   * The `required` fields of a segment are not part of it: the analysis writes
   * segments with `findByIdAndUpdate`, which runs no validators.
   */
  predicate ValidVideo(v: Video) {
    Present(v.url) && Trimmed(v.url) && Present(v.title) && Present(v.thumbnail)
  }

  /** A new document: `status` defaults to `pending`, no segments, no error. */
  function NewVideo(url: string, title: string, thumbnail: string, duration: nat, now: int): (v: Video)
    ensures v.status == Pending && v.segments == [] && v.analysisError.None?
    ensures v.url == Trim(url) && v.title == title && v.thumbnail == thumbnail && v.duration == duration
    ensures Present(Trim(url)) && Present(title) && Present(thumbnail) ==> ValidVideo(v)
  {
    Video(Trim(url), title, thumbnail, duration, Pending, [], None, now)
  }

  /** `url` is `unique`: no two documents of the store share one. */
  ghost predicate UrlsUnique(videos: map<VideoKey, Video>) {
    forall a, b :: a in videos && b in videos && a != b ==> videos[a].url != videos[b].url
  }
}
