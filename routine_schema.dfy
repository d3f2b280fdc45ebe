/**
 * The Routine document (server/models/Routine.js): a named workout routine
 * holding an ordered list of references to Video documents.
 */
module RoutineSchema {
  import opened Wrappers
  import opened JsText
  import opened VideoSchema

  /** The document id of a Routine. */
  type RoutineKey = nat

  datatype Routine = Routine(
    name: string,
    description: string,
    videos: seq<VideoKey>,    // in the routine's order
    createdAt: int)

  /**
   * A document passes the schema: `name` is required, and `name` and
   * `description` are stored trimmed.
   */
  predicate ValidRoutine(r: Routine) {
    r.name != "" && Trimmed(r.name) && Trimmed(r.description)
  }

  /**
   * Building a document applies the schema: the `trim` setters on `name`
   * and `description`, and the default `''` for a missing description.
   */
  function NewRoutine(name: string, description: Option<string>, videos: seq<VideoKey>, now: int): (r: Routine)
    ensures Trimmed(r.name) && Trimmed(r.description)
    ensures description.None? ==> r.description == ""
    ensures description.Some? ==> r.description == Trim(description.value)
    ensures r.videos == videos && r.createdAt == now
    ensures ValidRoutine(r) <==> Trim(name) != ""
  {
    Routine(Trim(name), if description.Some? then Trim(description.value) else "", videos, now)
  }

  /** A video reference replaced by the document it names. */
  datatype PopulatedVideo = PopulatedVideo(id: VideoKey, video: Video)

  /**
   * `populate('videos')`: each reference is replaced by the stored Video, in
   * the routine's order; references to missing documents are dropped.
   */
  function Populate(ids: seq<VideoKey>, catalog: map<VideoKey, Video>): (r: seq<PopulatedVideo>)
    ensures |r| <= |ids|
    ensures forall i :: 0 <= i < |r| ==> r[i].id in catalog && r[i].video == catalog[r[i].id]
    ensures forall k :: k in ids && k in catalog ==> PopulatedVideo(k, catalog[k]) in r
    ensures (forall i :: 0 <= i < |ids| ==> ids[i] in catalog) ==>
              |r| == |ids| && forall i :: 0 <= i < |r| ==> r[i].id == ids[i]
  {
    if ids == [] then []
    else
      var rest := Populate(ids[1..], catalog);
      if ids[0] in catalog then [PopulatedVideo(ids[0], catalog[ids[0]])] + rest else rest
  }

  /** A single reference becomes its document when it resolves, and nothing otherwise. */
  lemma PopulateOne(k: VideoKey, catalog: map<VideoKey, Video>)
    ensures Populate([k], catalog) == if k in catalog then [PopulatedVideo(k, catalog[k])] else []
  {
    assert [k][1..] == [];
  }

  /**
   * `populate` works reference by reference: the result for a list is the
   * results for its parts, in the same order. With `PopulateOne` this fixes
   * the result for every list: the resolved references, in their stored
   * order and with their repeats.
   */
  lemma {:induction false} PopulateConcat(a: seq<VideoKey>, b: seq<VideoKey>, catalog: map<VideoKey, Video>)
    ensures Populate(a + b, catalog) == Populate(a, catalog) + Populate(b, catalog)
  {
    if a == [] {
      assert a + b == b;
    } else {
      assert (a + b)[0] == a[0];
      assert (a + b)[1..] == a[1..] + b;
      PopulateConcat(a[1..], b, catalog);
    }
  }
}
