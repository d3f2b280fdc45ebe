/**
 * The logic of the routine detail view
 * (client/src/components/RoutineDetailView.jsx): reordering the routine's
 * videos by drag and drop, and the total duration shown in the header.
 */
module RoutineDetailView {
  import opened Wrappers
  import opened VideoSchema
  import opened RoutineSchema
  import opened RoutineRoutes

  /** `s` without its element at `i`: what `splice(i, 1)` leaves. */
  function Removed<T>(s: seq<T>, i: nat): (r: seq<T>)
    requires i < |s|
    ensures |r| == |s| - 1
    ensures forall j :: 0 <= j < i ==> r[j] == s[j]
    ensures forall j :: i <= j < |r| ==> r[j] == s[j + 1]
  {
    s[..i] + s[i + 1..]
  }

  /** `s` with `x` placed before position `i`: what `splice(i, 0, x)` leaves. */
  function Inserted<T>(s: seq<T>, i: nat, x: T): (r: seq<T>)
    requires i <= |s|
    ensures |r| == |s| + 1 && r[i] == x
    ensures forall j :: 0 <= j < i ==> r[j] == s[j]
    ensures forall j :: i < j < |r| ==> r[j] == s[j - 1]
  {
    s[..i] + [x] + s[i..]
  }

  /** The list after the drag: the item at `source` taken out and put back at `destination`. */
  function Reordered<T>(s: seq<T>, source: nat, destination: nat): seq<T>
    requires source < |s| && destination < |s|
  {
    Inserted(Removed(s, source), destination, s[source])
  }

  /**
   * The same move described position by position: the item lands at
   * `destination`, and the items between the two positions shift by one
   * towards `source`.
   */
  function Moved<T>(s: seq<T>, source: nat, destination: nat): (r: seq<T>)
    requires source < |s| && destination < |s|
    ensures |r| == |s|
  {
    seq(|s|, j requires 0 <= j < |s| =>
      if j == destination then s[source]
      else if source < destination && source <= j < destination then s[j + 1]
      else if destination < source && destination < j <= source then s[j - 1]
      else s[j])
  }

  /** The ids of the populated videos, in order: `items.map(video => video._id)`. */
  function Ids(videos: seq<PopulatedVideo>): (r: seq<VideoKey>)
    ensures |r| == |videos| && forall i :: 0 <= i < |r| ==> r[i] == videos[i].id
  {
    seq(|videos|, i requires 0 <= i < |videos| => videos[i].id)
  }

  /**
   * `handleDragEnd(result)`: a drop outside the list does nothing; otherwise
   * the props list is copied, the dragged item spliced out at `source` and
   * back in at `destination`, and `onUpdateRoutine` is called with the ids in
   * the new order. The props list itself is a value and stays as it was.
   */
  method HandleDragEnd(videos: seq<PopulatedVideo>, source: nat, destination: Option<nat>)
    returns (payload: Option<seq<VideoKey>>)
    requires source < |videos|
    requires destination.Some? ==> destination.value < |videos|
    ensures destination.None? <==> payload.None?
    ensures destination.Some? ==> payload == Some(Ids(Reordered(videos, source, destination.value)))
  {
    if destination.None? {
      return None;
    }
    var items := new PopulatedVideo[|videos|](i requires 0 <= i < |videos| => videos[i]);
    assert items[..] == videos;
    var dragged := SpliceOut(items, source);
    SpliceIn(items, destination.value, dragged);
    assert items[..] == Reordered(videos, source, destination.value);
    return Some(Ids(items[..]));
  }

  /**
   * `items.splice(source, 1)` on an array of fixed length: the items after
   * `source` move one place down and the removed item is returned; the last
   * slot is left over.
   */
  method SpliceOut<T>(items: array<T>, source: nat) returns (removed: T)
    requires source < items.Length
    modifies items
    ensures removed == old(items[source])
    ensures items[..items.Length - 1] == Removed(old(items[..]), source)
  {
    ghost var before := items[..];
    removed := items[source];
    var i := source;
    while i < items.Length - 1
      invariant source <= i <= items.Length - 1
      invariant forall j :: 0 <= j < source ==> items[j] == before[j]
      invariant forall j :: source <= j < i ==> items[j] == before[j + 1]
      invariant forall j :: i <= j < items.Length ==> items[j] == before[j]
    {
      items[i] := items[i + 1];
      i := i + 1;
    }
  }

  /**
   * `items.splice(destination, 0, x)` on an array whose last slot is free:
   * the items from `destination` on move one place up and `x` goes in.
   */
  method SpliceIn<T>(items: array<T>, destination: nat, x: T)
    requires destination < items.Length
    modifies items
    ensures items[..] == Inserted(old(items[..items.Length - 1]), destination, x)
  {
    ghost var rest := items[..items.Length - 1];
    var i := items.Length - 1;
    while i > destination
      invariant destination <= i <= items.Length - 1
      invariant forall j :: 0 <= j < i ==> items[j] == rest[j]
      invariant forall j :: i < j < items.Length ==> items[j] == rest[j - 1]
    {
      items[i] := items[i - 1];
      i := i - 1;
    }
    items[destination] := x;
  }

  /** The splice form and the position-by-position form are the same move. */
  lemma ReorderedIsMoved<T>(s: seq<T>, source: nat, destination: nat)
    requires source < |s| && destination < |s|
    ensures Reordered(s, source, destination) == Moved(s, source, destination)
  {
    var r := Reordered(s, source, destination);
    var m := Moved(s, source, destination);
    forall j | 0 <= j < |s| ensures r[j] == m[j] {
      if j < destination && j >= source {
        assert Removed(s, source)[j] == s[j + 1];
      }
      if j > destination && j > source {
        assert Removed(s, source)[j - 1] == s[j];
      }
    }
  }

  /** The dragged item ends up at the drop position. */
  lemma DraggedLandsAtDestination<T>(s: seq<T>, source: nat, destination: nat)
    requires source < |s| && destination < |s|
    ensures |Reordered(s, source, destination)| == |s|
    ensures Reordered(s, source, destination)[destination] == s[source]
  {
  }

  /** Reordering keeps every item, each as often as before. */
  lemma ReorderedIsPermutation<T>(s: seq<T>, source: nat, destination: nat)
    requires source < |s| && destination < |s|
    ensures multiset(Reordered(s, source, destination)) == multiset(s)
  {
    var x := s[source];
    var rest := Removed(s, source);
    assert s == s[..source] + [x] + s[source + 1..];
    assert multiset(s) == multiset(rest) + multiset{x};
    var r := Reordered(s, source, destination);
    assert rest == rest[..destination] + rest[destination..];
    assert r == rest[..destination] + [x] + rest[destination..];
  }

  /** Taking the dragged item back out leaves the others in their old relative order. */
  lemma OthersKeepOrder<T>(s: seq<T>, source: nat, destination: nat)
    requires source < |s| && destination < |s|
    ensures Removed(Reordered(s, source, destination), destination) == Removed(s, source)
  {
    var rest := Removed(s, source);
    var r := Reordered(s, source, destination);
    var back := Removed(r, destination);
    forall j | 0 <= j < |rest| ensures back[j] == rest[j] {
      if j >= destination {
        assert back[j] == r[j + 1];
      }
    }
  }

  /** Dragging the item back from `destination` to `source` undoes the move. */
  lemma DragBackUndoes<T>(s: seq<T>, source: nat, destination: nat)
    requires source < |s| && destination < |s|
    ensures Reordered(Reordered(s, source, destination), destination, source) == s
  {
    var r := Reordered(s, source, destination);
    DraggedLandsAtDestination(s, source, destination);
    OthersKeepOrder(s, source, destination);
    var back := Reordered(r, destination, source);
    assert back == Inserted(Removed(s, source), source, s[source]);
    forall j | 0 <= j < |s| ensures back[j] == s[j] {
      if j > source {
        assert back[j] == Removed(s, source)[j - 1];
      }
    }
  }

  /** Moving the items and taking their ids commute. */
  lemma IdsOfReordered(videos: seq<PopulatedVideo>, source: nat, destination: nat)
    requires source < |videos| && destination < |videos|
    ensures Ids(Reordered(videos, source, destination)) == Reordered(Ids(videos), source, destination)
  {
    var l := Ids(Reordered(videos, source, destination));
    var r := Reordered(Ids(videos), source, destination);
    forall j | 0 <= j < |videos| ensures l[j] == r[j] {
      var rest := Removed(videos, source);
      var restIds := Removed(Ids(videos), source);
      if j < destination {
        assert l[j] == rest[j].id && r[j] == restIds[j];
      } else if j > destination {
        assert l[j] == rest[j - 1].id && r[j] == restIds[j - 1];
      }
    }
  }

  /** `reduce((sum, video) => sum + video.duration, 0)`: the durations added from the left. */
  function TotalDuration(videos: seq<PopulatedVideo>): nat {
    if videos == [] then 0
    else TotalDuration(videos[..|videos| - 1]) + videos[|videos| - 1].video.duration
  }

  /** The total shown in the header: 0 when the routine has no video list. */
  function DisplayedTotal(videos: Option<seq<PopulatedVideo>>): (total: nat)
    ensures videos.None? ==> total == 0
    ensures videos.Some? ==> total == TotalDuration(videos.value)
  {
    match videos
    case None => 0
    case Some(vs) => TotalDuration(vs)
  }

  /** The total of a list is the totals of its parts added; the empty list totals 0. */
  lemma {:induction false} TotalOfConcat(a: seq<PopulatedVideo>, b: seq<PopulatedVideo>)
    ensures TotalDuration(a + b) == TotalDuration(a) + TotalDuration(b)
    decreases |b|
  {
    if b == [] {
      assert a + b == a;
    } else {
      var last := |b| - 1;
      assert (a + b)[..|a + b| - 1] == a + b[..last];
      TotalOfConcat(a, b[..last]);
    }
  }

  /** An item in the middle of a list adds its duration to the total. */
  lemma TotalAround(a: seq<PopulatedVideo>, x: PopulatedVideo, b: seq<PopulatedVideo>)
    ensures TotalDuration(a + [x] + b) == TotalDuration(a) + x.video.duration + TotalDuration(b)
  {
    TotalOfConcat(a + [x], b);
    TotalOfConcat(a, [x]);
    assert [x][..0] == [];
  }

  /** A list is the part before position `i`, the item at `i`, and the part after. */
  lemma AroundItem<T>(s: seq<T>, i: nat)
    requires i < |s|
    ensures s == s[..i] + [s[i]] + s[i + 1..]
    ensures Removed(s, i) == s[..i] + s[i + 1..]
  {
  }

  /** Inserting puts the item between the two halves of the list. */
  lemma AroundInserted<T>(s: seq<T>, i: nat, x: T)
    requires i <= |s|
    ensures Inserted(s, i, x) == s[..i] + [x] + s[i..]
    ensures s == s[..i] + s[i..]
  {
  }

  /** Splicing an item out takes its duration off the total. */
  lemma TotalOfRemoved(s: seq<PopulatedVideo>, i: nat)
    requires i < |s|
    ensures TotalDuration(Removed(s, i)) + s[i].video.duration == TotalDuration(s)
  {
    AroundItem(s, i);
    TotalAround(s[..i], s[i], s[i + 1..]);
    TotalOfConcat(s[..i], s[i + 1..]);
  }

  /** Splicing an item in adds its duration to the total. */
  lemma TotalOfInserted(s: seq<PopulatedVideo>, i: nat, x: PopulatedVideo)
    requires i <= |s|
    ensures TotalDuration(Inserted(s, i, x)) == TotalDuration(s) + x.video.duration
  {
    AroundInserted(s, i, x);
    TotalAround(s[..i], x, s[i..]);
    TotalOfConcat(s[..i], s[i..]);
  }

  /** Dragging never changes the total duration. */
  lemma TotalUnchangedByDrag(videos: seq<PopulatedVideo>, source: nat, destination: nat)
    requires source < |videos| && destination < |videos|
    ensures TotalDuration(Reordered(videos, source, destination)) == TotalDuration(videos)
  {
    TotalOfRemoved(videos, source);
    TotalOfInserted(Removed(videos, source), destination, videos[source]);
  }

  /**
   * A drag on a routine whose references all resolve, followed by the PUT it
   * triggers, stores the routine with its references moved the same way and
   * nothing else changed.
   */
  lemma DragThenSave(r: Routine, catalog: map<VideoKey, Video>, source: nat, destination: nat)
    requires forall i :: 0 <= i < |r.videos| ==> r.videos[i] in catalog
    requires source < |r.videos| && destination < |r.videos|
    ensures var shown := Populate(r.videos, catalog);
            |shown| == |r.videos|
            && ApplyPatch(r, Patch(None, None, Some(Ids(Reordered(shown, source, destination)))))
               == r.(videos := Reordered(r.videos, source, destination))
  {
    var shown := Populate(r.videos, catalog);
    assert Ids(shown) == r.videos;
    IdsOfReordered(shown, source, destination);
  }
}
