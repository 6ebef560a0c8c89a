/** Proximity grouping: every timestamped fix goes into the bucket of every
    named place it lies within `radius` of (`group_by_location` in
    Tag_Tracking_Check/list_kml_positions.py, `group_positions` in
    Tag_Tracking_Check/kml_viewer_gui.py). */
module Proximity {
  import opened Wrappers
  import opened Sorting

  /** A GPS fix `(dt, lat, lon)`; the time is an integer instant. */
  datatype Fix = Fix(time: int, lat: real, lon: real)

  /** A reference place `{"name", "lon", "lat"}`. */
  datatype Place = Place(name: string, lon: real, lat: real)

  /** The radius both scripts use by default. */
  const DefaultRadius: real := 300.0

  function Time(f: Fix): int { f.time }

  /** The inclusive proximity test `haversine(...) <= radius`. */
  predicate Near(f: Fix, p: Place, radius: real, dist: Distance) {
    dist(f.lon, f.lat, p.lon, p.lat) <= radius
  }

  /** What the inner loop has appended for `f` to the bucket `name` after
      visiting `places[..j]`: one copy of `f` per place called `name` that
      `f` is near, in place order. */
  function HitsUpTo(f: Fix, places: seq<Place>, j: nat, name: string, radius: real, dist: Distance): seq<Fix>
    requires j <= |places|
  {
    if j == 0 then []
    else
      HitsUpTo(f, places, j - 1, name, radius, dist)
      + (if places[j - 1].name == name && Near(f, places[j - 1], radius, dist) then [f] else [])
  }

  /** The bucket of `name` after the outer loop has visited `fixes[..i]`. */
  function BucketUpTo(fixes: seq<Fix>, i: nat, places: seq<Place>, name: string, radius: real, dist: Distance): seq<Fix>
    requires i <= |fixes|
  {
    if i == 0 then []
    else
      BucketUpTo(fixes, i - 1, places, name, radius, dist)
      + HitsUpTo(fixes[i - 1], places, |places|, name, radius, dist)
  }

  /** The bucket of `name` once every fix has been visited. */
  function Bucket(fixes: seq<Fix>, places: seq<Place>, name: string, radius: real, dist: Distance): seq<Fix> {
    BucketUpTo(fixes, |fixes|, places, name, radius, dist)
  }

  /** For each entry of `BucketUpTo(fixes, i, ...)`, the index in `fixes` it was copied from. */
  function OriginsUpTo(fixes: seq<Fix>, i: nat, places: seq<Place>, name: string, radius: real, dist: Distance): seq<nat>
    requires i <= |fixes|
  {
    if i == 0 then []
    else
      OriginsUpTo(fixes, i - 1, places, name, radius, dist)
      + seq(|HitsUpTo(fixes[i - 1], places, |places|, name, radius, dist)|, _ => i - 1)
  }

  ghost predicate Distinct(keys: seq<string>) {
    forall i, j :: 0 <= i < j < |keys| ==> keys[i] != keys[j]
  }

  /** The place names without repeats, in order of first appearance: the key
      order of the dict `{p["name"]: [] for p in places}`. */
  function Names(places: seq<Place>): (r: seq<string>)
    ensures Distinct(r)
    ensures forall j :: 0 <= j < |places| ==> places[j].name in r
    decreases |places|
  {
    if places == [] then []
    else
      var rest := Names(places[..|places| - 1]);
      var p := places[|places| - 1];
      if p.name in rest then rest else rest + [p.name]
  }

  /** Every key of `Names(places)` is the name of some place. */
  lemma {:induction false} NamesSound(places: seq<Place>, n: string)
    requires n in Names(places)
    ensures exists j :: 0 <= j < |places| && places[j].name == n
    decreases |places|
  {
    var init := places[..|places| - 1];
    if n in Names(init) {
      NamesSound(init, n);
      var j :| 0 <= j < |init| && init[j].name == n;
      assert places[j] == init[j];
    }
  }

  /** A Python dict from place name to fixes, as its ordered entries: key
      `keys[k]` holds the list `lists[k]`. */
  datatype Groups = Groups(keys: seq<string>, lists: seq<seq<Fix>>)

  ghost predicate WellFormed(g: Groups) {
    Distinct(g.keys) && |g.keys| == |g.lists|
  }

  /** The entry index of `name`: the dict lookup `groups[name]`. */
  function Slot(keys: seq<string>, name: string): (k: nat)
    requires name in keys
    ensures k < |keys| && keys[k] == name
  {
    if keys[0] == name then 0 else 1 + Slot(keys[1..], name)
  }

  /** The dict with the entries whose list is empty left out, in order:
      `{k: v for k, v in groups.items() if v}`. */
  function NonEmpty(g: Groups): (r: Groups)
    requires |g.keys| == |g.lists|
    ensures |r.keys| == |r.lists|
    decreases |g.keys|
  {
    if g.keys == [] then g
    else
      var rest := NonEmpty(Groups(g.keys[1..], g.lists[1..]));
      if g.lists[0] != [] then Groups([g.keys[0]] + rest.keys, [g.lists[0]] + rest.lists) else rest
  }

  /** The names among `keys` whose bucket is not empty, in order. */
  function Occupied(keys: seq<string>, fixes: seq<Fix>, places: seq<Place>, radius: real, dist: Distance): seq<string>
    decreases |keys|
  {
    if keys == [] then []
    else
      var rest := Occupied(keys[1..], fixes, places, radius, dist);
      if Bucket(fixes, places, keys[0], radius, dist) != [] then [keys[0]] + rest else rest
  }

  /** `Occupied` keeps exactly the names with a non-empty bucket, and no
      name twice when `keys` has none twice. */
  lemma {:induction false} OccupiedMembers(keys: seq<string>, fixes: seq<Fix>, places: seq<Place>, radius: real, dist: Distance)
    ensures forall n :: n in Occupied(keys, fixes, places, radius, dist) <==>
      n in keys && Bucket(fixes, places, n, radius, dist) != []
    ensures Distinct(keys) ==> Distinct(Occupied(keys, fixes, places, radius, dist))
    decreases |keys|
  {
    if keys != [] {
      OccupiedMembers(keys[1..], fixes, places, radius, dist);
      assert keys == [keys[0]] + keys[1..];
      assert forall n :: n in keys <==> n == keys[0] || n in keys[1..];
    }
  }

  /** Loop invariant of the outer loop: every entry holds its bucket so far. */
  ghost predicate Filled(lists: seq<seq<Fix>>, keys: seq<string>, fixes: seq<Fix>, i: nat, places: seq<Place>, radius: real, dist: Distance)
    requires i <= |fixes|
  {
    |lists| == |keys| &&
    forall k :: 0 <= k < |keys| ==> lists[k] == BucketUpTo(fixes, i, places, keys[k], radius, dist)
  }

  /** Loop invariant of the inner loop: entry k has gained `HitsUpTo(..., j, ...)`
      since the visit of `f` began. */
  ghost predicate Partial(lists: seq<seq<Fix>>, start: seq<seq<Fix>>, keys: seq<string>, f: Fix, places: seq<Place>, j: nat, radius: real, dist: Distance)
    requires j <= |places|
  {
    |lists| == |start| == |keys| &&
    forall k :: 0 <= k < |keys| ==> lists[k] == start[k] + HitsUpTo(f, places, j, keys[k], radius, dist)
  }

  /** A place that `f` is near adds `f` to the entry of its name. */
  lemma AppendHit(lists: seq<seq<Fix>>, start: seq<seq<Fix>>, keys: seq<string>, f: Fix, places: seq<Place>, j: nat, s: nat, radius: real, dist: Distance)
    requires j < |places| && s < |keys| && keys[s] == places[j].name && Distinct(keys)
    requires Near(f, places[j], radius, dist)
    requires Partial(lists, start, keys, f, places, j, radius, dist)
    ensures Partial(lists[s := lists[s] + [f]], start, keys, f, places, j + 1, radius, dist)
  {
    var next := lists[s := lists[s] + [f]];
    forall k | 0 <= k < |keys|
      ensures next[k] == start[k] + HitsUpTo(f, places, j + 1, keys[k], radius, dist)
    {
      if k != s {
        assert places[j].name != keys[k];
      }
    }
  }

  /** A place that `f` is not near changes no entry. */
  lemma AppendMiss(lists: seq<seq<Fix>>, start: seq<seq<Fix>>, keys: seq<string>, f: Fix, places: seq<Place>, j: nat, radius: real, dist: Distance)
    requires j < |places| && !Near(f, places[j], radius, dist)
    requires Partial(lists, start, keys, f, places, j, radius, dist)
    ensures Partial(lists, start, keys, f, places, j + 1, radius, dist)
  {
  }

  lemma FillStep(lists: seq<seq<Fix>>, start: seq<seq<Fix>>, keys: seq<string>, fixes: seq<Fix>, i: nat, places: seq<Place>, radius: real, dist: Distance)
    requires i < |fixes|
    requires Filled(start, keys, fixes, i, places, radius, dist)
    requires Partial(lists, start, keys, fixes[i], places, |places|, radius, dist)
    ensures Filled(lists, keys, fixes, i + 1, places, radius, dist)
  {
  }

  /** The inner loop of `group_by_location`: append `f` to the entry of
      every place it is near, one place at a time. */
  method AddFix(lists0: seq<seq<Fix>>, keys: seq<string>, f: Fix, places: seq<Place>, radius: real, dist: Distance)
    returns (lists: seq<seq<Fix>>)
    requires |lists0| == |keys| && Distinct(keys)
    requires forall j :: 0 <= j < |places| ==> places[j].name in keys
    ensures Partial(lists, lists0, keys, f, places, |places|, radius, dist)
  {
    lists := lists0;
    var j := 0;
    while j < |places|
      invariant 0 <= j <= |places|
      invariant Partial(lists, lists0, keys, f, places, j, radius, dist)
    {
      var p := places[j];
      if Near(f, p, radius, dist) {
        var s := Slot(keys, p.name);
        AppendHit(lists, lists0, keys, f, places, j, s, radius, dist);
        lists := lists[s := lists[s] + [f]];
      } else {
        AppendMiss(lists, lists0, keys, f, places, j, radius, dist);
      }
      j := j + 1;
    }
  }

  /** `group_by_location`: every place name is a key (in order of first
      appearance), empty buckets are kept, and the entry of each name is
      exactly its `Bucket`. */
  method GroupByLocation(fixes: seq<Fix>, places: seq<Place>, radius: real, dist: Distance) returns (g: Groups)
    ensures WellFormed(g)
    ensures g.keys == Names(places)
    ensures forall k :: 0 <= k < |g.keys| ==> g.lists[k] == Bucket(fixes, places, g.keys[k], radius, dist)
  {
    var keys := Names(places);
    var lists: seq<seq<Fix>> := seq(|keys|, _ => []);
    var i := 0;
    while i < |fixes|
      invariant 0 <= i <= |fixes|
      invariant Filled(lists, keys, fixes, i, places, radius, dist)
    {
      ghost var start := lists;
      lists := AddFix(lists, keys, fixes[i], places, radius, dist);
      FillStep(lists, start, keys, fixes, i, places, radius, dist);
      i := i + 1;
    }
    g := Groups(keys, lists);
  }

  /** `group_positions`: the same loops, after which only the names that
      collected at least one fix are kept, in key order. */
  method GroupPositions(fixes: seq<Fix>, places: seq<Place>, radius: real, dist: Distance) returns (g: Groups)
    ensures WellFormed(g)
    ensures g.keys == Occupied(Names(places), fixes, places, radius, dist)
    ensures forall n :: n in g.keys <==> n in Names(places) && Bucket(fixes, places, n, radius, dist) != []
    ensures forall k :: 0 <= k < |g.keys| ==>
      g.lists[k] == Bucket(fixes, places, g.keys[k], radius, dist) && g.lists[k] != []
  {
    var all := GroupByLocation(fixes, places, radius, dist);
    NonEmptyKeys(all.keys, all.lists, fixes, places, radius, dist);
    NonEmptyLists(all, fixes, places, radius, dist);
    OccupiedMembers(all.keys, fixes, places, radius, dist);
    g := NonEmpty(all);
  }

  /** Dropping the empty entries of the full grouping leaves the occupied
      names, in key order. */
  lemma {:induction false} NonEmptyKeys(keys: seq<string>, lists: seq<seq<Fix>>,
                                        fixes: seq<Fix>, places: seq<Place>, radius: real, dist: Distance)
    requires |keys| == |lists|
    requires forall k :: 0 <= k < |keys| ==> lists[k] == Bucket(fixes, places, keys[k], radius, dist)
    ensures NonEmpty(Groups(keys, lists)).keys == Occupied(keys, fixes, places, radius, dist)
    decreases |keys|
  {
    if keys != [] {
      NonEmptyKeys(keys[1..], lists[1..], fixes, places, radius, dist);
    }
  }

  /** Every entry of `g` holds the whole bucket of its name. */
  ghost predicate Complete(g: Groups, fixes: seq<Fix>, places: seq<Place>, radius: real, dist: Distance) {
    |g.keys| == |g.lists| &&
    forall k :: 0 <= k < |g.keys| ==> g.lists[k] == Bucket(fixes, places, g.keys[k], radius, dist)
  }

  /** Dropping the empty entries keeps every remaining entry whole, and
      leaves no empty one. */
  lemma {:induction false} NonEmptyLists(g: Groups, fixes: seq<Fix>, places: seq<Place>, radius: real, dist: Distance)
    requires Complete(g, fixes, places, radius, dist)
    ensures Complete(NonEmpty(g), fixes, places, radius, dist)
    ensures forall k :: 0 <= k < |NonEmpty(g).lists| ==> NonEmpty(g).lists[k] != []
    decreases |g.keys|
  {
    if g.keys != [] {
      var tail := Groups(g.keys[1..], g.lists[1..]);
      assert Complete(tail, fixes, places, radius, dist) by {
        forall k | 0 <= k < |tail.keys|
          ensures tail.lists[k] == Bucket(fixes, places, tail.keys[k], radius, dist)
        {
          assert tail.lists[k] == g.lists[k + 1] && tail.keys[k] == g.keys[k + 1];
        }
      }
      NonEmptyLists(tail, fixes, places, radius, dist);
      var rest := NonEmpty(tail);
      var r := NonEmpty(g);
      if g.lists[0] != [] {
        assert r == Groups([g.keys[0]] + rest.keys, [g.lists[0]] + rest.lists);
        assert r.lists[0] == Bucket(fixes, places, r.keys[0], radius, dist);
        forall k | 0 < k < |r.keys|
          ensures r.lists[k] == Bucket(fixes, places, r.keys[k], radius, dist) && r.lists[k] != []
        {
          assert r.lists[k] == rest.lists[k - 1] && r.keys[k] == rest.keys[k - 1];
        }
      }
    }
  }

  lemma {:induction false} HitsMembership(f: Fix, places: seq<Place>, j: nat, name: string, radius: real, dist: Distance, x: Fix)
    requires j <= |places|
    ensures x in HitsUpTo(f, places, j, name, radius, dist) <==>
      x == f && exists q :: 0 <= q < j && places[q].name == name && Near(f, places[q], radius, dist)
  {
    if j > 0 {
      HitsMembership(f, places, j - 1, name, radius, dist, x);
    }
  }

  lemma {:induction false} BucketUpToMembership(fixes: seq<Fix>, i: nat, places: seq<Place>, name: string, radius: real, dist: Distance, x: Fix)
    requires i <= |fixes|
    ensures x in BucketUpTo(fixes, i, places, name, radius, dist) <==>
      x in fixes[..i] && exists q :: 0 <= q < |places| && places[q].name == name && Near(x, places[q], radius, dist)
  {
    if i > 0 {
      BucketUpToMembership(fixes, i - 1, places, name, radius, dist, x);
      HitsMembership(fixes[i - 1], places, |places|, name, radius, dist, x);
      assert fixes[..i] == fixes[..i - 1] + [fixes[i - 1]];
    }
  }

  /** Soundness and completeness with the inclusive boundary: a fix is in the
      bucket of `name` exactly when it is one of the input fixes and lies
      within `radius` (a distance equal to the radius included) of some place
      called `name`. */
  lemma BucketMembership(fixes: seq<Fix>, places: seq<Place>, name: string, radius: real, dist: Distance, x: Fix)
    ensures x in Bucket(fixes, places, name, radius, dist) <==>
      x in fixes && exists q :: 0 <= q < |places| && places[q].name == name && Near(x, places[q], radius, dist)
  {
    BucketUpToMembership(fixes, |fixes|, places, name, radius, dist, x);
    assert fixes[..|fixes|] == fixes;
  }

  /** A fix near several places is in the bucket of each of them. */
  lemma NearImpliesInBucket(fixes: seq<Fix>, places: seq<Place>, radius: real, dist: Distance, i: nat, j: nat)
    requires i < |fixes| && j < |places|
    requires Near(fixes[i], places[j], radius, dist)
    ensures fixes[i] in Bucket(fixes, places, places[j].name, radius, dist)
  {
    BucketMembership(fixes, places, places[j].name, radius, dist, fixes[i]);
  }

  lemma {:induction false} HitsAllEqual(f: Fix, places: seq<Place>, j: nat, name: string, radius: real, dist: Distance)
    requires j <= |places|
    ensures forall k :: 0 <= k < |HitsUpTo(f, places, j, name, radius, dist)| ==> HitsUpTo(f, places, j, name, radius, dist)[k] == f
  {
    if j > 0 {
      HitsAllEqual(f, places, j - 1, name, radius, dist);
    }
  }

  /** Input order is kept: entry k of a bucket is `fixes[o[k]]` where the
      origins `o` never go backwards. */
  lemma {:induction false} BucketOrigins(fixes: seq<Fix>, i: nat, places: seq<Place>, name: string, radius: real, dist: Distance)
    requires i <= |fixes|
    ensures |OriginsUpTo(fixes, i, places, name, radius, dist)| == |BucketUpTo(fixes, i, places, name, radius, dist)|
    ensures forall k :: 0 <= k < |BucketUpTo(fixes, i, places, name, radius, dist)| ==>
      OriginsUpTo(fixes, i, places, name, radius, dist)[k] < i &&
      BucketUpTo(fixes, i, places, name, radius, dist)[k] == fixes[OriginsUpTo(fixes, i, places, name, radius, dist)[k]]
    ensures forall k1, k2 :: 0 <= k1 <= k2 < |OriginsUpTo(fixes, i, places, name, radius, dist)| ==>
      OriginsUpTo(fixes, i, places, name, radius, dist)[k1] <= OriginsUpTo(fixes, i, places, name, radius, dist)[k2]
  {
    if i > 0 {
      BucketOrigins(fixes, i - 1, places, name, radius, dist);
      var h := HitsUpTo(fixes[i - 1], places, |places|, name, radius, dist);
      HitsAllEqual(fixes[i - 1], places, |places|, name, radius, dist);
      var b := BucketUpTo(fixes, i, places, name, radius, dist);
      var o := OriginsUpTo(fixes, i, places, name, radius, dist);
      var b0 := BucketUpTo(fixes, i - 1, places, name, radius, dist);
      var o0 := OriginsUpTo(fixes, i - 1, places, name, radius, dist);
      assert b == b0 + h;
      assert o == o0 + seq(|h|, _ => i - 1);
      forall k | 0 <= k < |b| ensures o[k] < i && b[k] == fixes[o[k]] {
        if k < |b0| {
          assert o[k] == o0[k] && b[k] == b0[k];
        } else {
          assert b[k] == h[k - |b0|];
        }
      }
    }
  }

  /** Fed a time-ordered track (as `parse_kml` returns it), every bucket is
      time-ordered. */
  lemma BucketSorted(fixes: seq<Fix>, places: seq<Place>, name: string, radius: real, dist: Distance)
    requires SortedBy(fixes, Time)
    ensures SortedBy(Bucket(fixes, places, name, radius, dist), Time)
  {
    BucketOrigins(fixes, |fixes|, places, name, radius, dist);
    var b := Bucket(fixes, places, name, radius, dist);
    var o := OriginsUpTo(fixes, |fixes|, places, name, radius, dist);
    forall i, j | 0 <= i < j < |b| ensures Time(b[i]) <= Time(b[j]) {
      assert o[i] <= o[j];
      if o[i] < o[j] {
        assert Time(fixes[o[i]]) <= Time(fixes[o[j]]);
      }
    }
  }
}
