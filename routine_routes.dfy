/**
 * The routine endpoints (server/routes/routines.js): create, list, read,
 * partially update and delete Routine documents. The Routine collection is a
 * class over a map from document ids to Routines; the Video collection, which
 * `populate` reads, is passed in as a map.
 */
module RoutineRoutes {
  import opened Wrappers
  import opened JsText
  import opened VideoSchema
  import opened RoutineSchema

  const NameRequired := "Routine name is required"
  const NotFound := "Routine not found"
  const CreateFailed := "Failed to create routine"
  const UpdateFailed := "Failed to update routine"
  const DeletedMessage := "Routine deleted successfully"

  /** The POST body; an absent field is `None`. */
  datatype CreateBody = CreateBody(name: Option<string>, description: Option<string>)

  /** The PUT body; an absent (undefined) field is `None`. */
  datatype Patch = Patch(name: Option<string>, description: Option<string>, videos: Option<seq<VideoKey>>)

  /** The status code and JSON body of a response. */
  datatype Reply =
    | Created(key: RoutineKey, routine: Routine)                        // 201
    | Found(key: RoutineKey, routine: Routine, videos: seq<PopulatedVideo>)  // 200, videos populated
    | Deleted                                                            // 200, the fixed message
    | Failure(code: nat, error: string)

  /** A missing string or the empty string: what `!value` is true for. */
  predicate Falsy(value: Option<string>) {
    value.None? || value.value == ""
  }

  /** `value || ''` for a string field. */
  function OrEmpty(value: Option<string>): (r: string)
    ensures Falsy(value) ==> r == ""
    ensures !Falsy(value) ==> r == value.value
  {
    if Falsy(value) then "" else value.value
  }

  /**
   * `findByIdAndUpdate(id, updateData)` on a found document: only the supplied
   * fields are overwritten, strings through the schema's trim setters.
   */
  function ApplyPatch(r: Routine, p: Patch): (s: Routine)
    ensures p.name.None? ==> s.name == r.name
    ensures p.name.Some? ==> s.name == Trim(p.name.value)
    ensures p.description.None? ==> s.description == r.description
    ensures p.description.Some? ==> s.description == Trim(p.description.value)
    ensures p.videos.None? ==> s.videos == r.videos
    ensures p.videos.Some? ==> s.videos == p.videos.value
    ensures s.createdAt == r.createdAt
  {
    var named := if p.name.Some? then r.(name := Trim(p.name.value)) else r;
    var described := if p.description.Some? then named.(description := Trim(p.description.value)) else named;
    if p.videos.Some? then described.(videos := p.videos.value) else described
  }

  /** The update validators reject a supplied name that is empty once trimmed. */
  predicate PatchRejected(p: Patch) {
    p.name.Some? && Trim(p.name.value) == ""
  }

  /** A patch with no fields changes nothing. */
  lemma EmptyPatch(r: Routine)
    ensures ApplyPatch(r, Patch(None, None, None)) == r
  {
  }

  /** Applying the same patch twice is applying it once. */
  lemma PatchTwice(r: Routine, p: Patch)
    ensures ApplyPatch(ApplyPatch(r, p), p) == ApplyPatch(r, p)
  {
  }

  /** A patch the validators accept keeps a valid document valid. */
  lemma PatchKeepsValid(r: Routine, p: Patch)
    requires ValidRoutine(r) && !PatchRejected(p)
    ensures ValidRoutine(ApplyPatch(r, p))
  {
  }

  /** Sending `videos` replaces the whole list: a reorder is a replacement, and nothing else changes. */
  lemma VideosReplaced(r: Routine, ids: seq<VideoKey>)
    ensures ApplyPatch(r, Patch(None, None, Some(ids))) == r.(videos := ids)
  {
  }

  /** The list order: every entry is stored, and `createdAt` never increases along it. */
  ghost predicate NewestFirst(order: seq<RoutineKey>, routines: map<RoutineKey, Routine>) {
    (forall i :: 0 <= i < |order| ==> order[i] in routines)
    && forall i, j :: 0 <= i < j < |order| ==> routines[order[i]].createdAt >= routines[order[j]].createdAt
  }

  /** No entry appears twice. */
  predicate Distinct<T(==)>(s: seq<T>) {
    forall i, j :: 0 <= i < j < |s| ==> s[i] != s[j]
  }

  /** Inserting `k` adds exactly `k`, and keeps a list without repeats so when `k` is new. */
  lemma InsertedMembers<T>(s: seq<T>, at: nat, k: T)
    requires at <= |s|
    ensures forall x :: x in s[..at] + [k] + s[at..] <==> x in s || x == k
    ensures Distinct(s) && k !in s ==> Distinct(s[..at] + [k] + s[at..])
  {
    var r := s[..at] + [k] + s[at..];
    assert s == s[..at] + s[at..];
    if Distinct(s) && k !in s {
      forall i, j | 0 <= i < j < |r| ensures r[i] != r[j] {
        var si := if i < at then i else i - 1;
        var sj := if j <= at then j else j - 1;
        if i != at && j != at {
          assert r[i] == s[si] && r[j] == s[sj];
        } else if i == at {
          assert r[j] == s[sj];
        } else {
          assert r[i] == s[si];
        }
      }
    }
  }

  /** The Routine collection. */
  class RoutineStore {
    var routines: map<RoutineKey, Routine>
    var nextKey: RoutineKey  // ids handed out so far are below it

    /** Every document passes the schema and has an id below `nextKey`. */
    ghost predicate Valid()
      reads this
    {
      forall k :: k in routines ==> k < nextKey && ValidRoutine(routines[k])
    }

    constructor ()
      ensures Valid() && routines == map[]
    {
      routines := map[];
      nextKey := 0;
    }

    /** POST /api/routines */
    method Create(body: CreateBody, now: int) returns (reply: Reply)
      requires Valid()
      modifies this
      ensures Valid()
      ensures Falsy(body.name) ==> reply == Failure(400, NameRequired) && routines == old(routines)
      ensures !Falsy(body.name) && Trim(body.name.value) == "" ==>
                reply == Failure(500, CreateFailed) && routines == old(routines)
      ensures !Falsy(body.name) && Trim(body.name.value) != "" ==>
                reply.Created? && reply.key !in old(routines)
                && reply.routine == NewRoutine(body.name.value, Some(OrEmpty(body.description)), [], now)
                && routines == old(routines)[reply.key := reply.routine]
    {
      if Falsy(body.name) {
        return Failure(400, NameRequired);
      }
      var routine := NewRoutine(body.name.value, Some(OrEmpty(body.description)), [], now);
      if Trim(body.name.value) == "" {
        // save() fails the `required` validator on the trimmed name
        return Failure(500, CreateFailed);
      }
      assert ValidRoutine(routine);
      var key := nextKey;
      routines := routines[key := routine];
      nextKey := nextKey + 1;
      return Created(key, routine);
    }

    /** GET /api/routines: every routine once, newest first. */
    method List() returns (order: seq<RoutineKey>)
      requires Valid()
      ensures NewestFirst(order, routines)
      ensures forall k :: k in routines ==> k in order
      ensures Distinct(order)
    {
      var remaining := routines.Keys;
      order := [];
      while remaining != {}
        invariant remaining <= routines.Keys
        invariant NewestFirst(order, routines) && Distinct(order)
        invariant forall k :: k in order ==> k !in remaining
        invariant forall k :: k in routines && k !in remaining ==> k in order
        decreases remaining
      {
        var k :| k in remaining;
        var at := NewestFirstPosition(order, k);
        InsertedMembers(order, at, k);
        order := order[..at] + [k] + order[at..];
        remaining := remaining - {k};
      }
    }

    /** Where `k` goes in a newest-first list: after every entry at least as new. */
    method NewestFirstPosition(order: seq<RoutineKey>, k: RoutineKey) returns (at: nat)
      requires NewestFirst(order, routines) && k in routines
      ensures at <= |order|
      ensures NewestFirst(order[..at] + [k] + order[at..], routines)
    {
      at := 0;
      while at < |order| && routines[order[at]].createdAt >= routines[k].createdAt
        invariant at <= |order|
        invariant forall j :: 0 <= j < at ==> routines[order[j]].createdAt >= routines[k].createdAt
      {
        at := at + 1;
      }
      var inserted := order[..at] + [k] + order[at..];
      forall i, j | 0 <= i < j < |inserted|
        ensures routines[inserted[i]].createdAt >= routines[inserted[j]].createdAt
      {
        if i < at && j == at {
        } else if i == at && j > at {
          assert inserted[j] == order[j - 1];
          assert routines[order[at]].createdAt >= routines[order[j - 1]].createdAt;
        } else {
          assert inserted[i] == (if i < at then order[i] else order[i - 1]);
          assert inserted[j] == (if j < at then order[j] else order[j - 1]);
        }
      }
    }

    /** GET /api/routines/:id */
    method Get(id: RoutineKey, catalog: map<VideoKey, Video>) returns (reply: Reply)
      ensures id !in routines ==> reply == Failure(404, NotFound)
      ensures id in routines ==> reply == Found(id, routines[id], Populate(routines[id].videos, catalog))
    {
      if id !in routines {
        return Failure(404, NotFound);
      }
      var routine := routines[id];
      return Found(id, routine, Populate(routine.videos, catalog));
    }

    /** PUT /api/routines/:id */
    method Update(id: RoutineKey, patch: Patch, catalog: map<VideoKey, Video>) returns (reply: Reply)
      requires Valid()
      modifies this
      ensures Valid()
      ensures PatchRejected(patch) ==> reply == Failure(500, UpdateFailed) && routines == old(routines)
      ensures !PatchRejected(patch) && id !in old(routines) ==>
                reply == Failure(404, NotFound) && routines == old(routines)
      ensures !PatchRejected(patch) && id in old(routines) ==>
                routines == old(routines)[id := ApplyPatch(old(routines)[id], patch)]
                && reply == Found(id, routines[id], Populate(routines[id].videos, catalog))
    {
      if PatchRejected(patch) {
        return Failure(500, UpdateFailed);
      }
      if id !in routines {
        return Failure(404, NotFound);
      }
      PatchKeepsValid(routines[id], patch);
      var updated := ApplyPatch(routines[id], patch);
      routines := routines[id := updated];
      return Found(id, updated, Populate(updated.videos, catalog));
    }

    /** DELETE /api/routines/:id */
    method Delete(id: RoutineKey) returns (reply: Reply)
      requires Valid()
      modifies this
      ensures Valid()
      ensures id !in old(routines) ==> reply == Failure(404, NotFound) && routines == old(routines)
      ensures id in old(routines) ==> reply == Deleted && routines == old(routines) - {id}
    {
      if id !in routines {
        return Failure(404, NotFound);
      }
      routines := routines - {id};
      return Deleted;
    }
  }
}
