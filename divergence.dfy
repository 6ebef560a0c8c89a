/** Pairwise comparison of two tracks in kmz_compare_gui.py: the index-wise
    "far" mask of `CompareGUI.compare` and the colour runs `generate_html`
    draws. */
module Divergence {
  import opened Wrappers
  import opened LineCoords

  /** Points further apart than this are far. */
  const FarLimit: real := 150.0

  predicate Far(b: LatLon, t: LatLon, dist: Distance) {
    dist(b.lon, b.lat, t.lon, t.lat) > FarLimit
  }

  function Min(a: nat, b: nat): nat { if a <= b then a else b }

  /** The mask loop of `compare`: one entry per index both tracks have. */
  method FarMask(base: seq<LatLon>, test: seq<LatLon>, dist: Distance) returns (mask: seq<bool>)
    ensures |mask| == Min(|base|, |test|) && |mask| <= |base| && |mask| <= |test|
    ensures forall i :: 0 <= i < |mask| ==> (mask[i] <==> Far(base[i], test[i], dist))
  {
    var n := Min(|base|, |test|);
    mask := [];
    for i := 0 to n
      invariant |mask| == i
      invariant forall j :: 0 <= j < i ==> (mask[j] <==> Far(base[j], test[j], dist))
    {
      var b := base[i];
      var t := test[i];
      var d := dist(b.lon, b.lat, t.lon, t.lat);
      mask := mask + [d > 150.0];
    }
  }

  /** One drawn polyline: its colour and its points. */
  datatype Segment = Segment(color: string, coords: seq<LatLon>)

  const Red: string := "#ff0000"
  const Green: string := "#00aa00"

  function ColorOf(isFar: bool): string {
    if isFar then Red else Green
  }

  /** The points of all segments, in order. */
  function Flatten(segments: seq<Segment>): seq<LatLon> {
    if segments == [] then [] else Flatten(segments[..|segments| - 1]) + segments[|segments| - 1].coords
  }

  /** The colour of every point of all segments, in order. */
  function Shades(segments: seq<Segment>): seq<string> {
    if segments == [] then []
    else
      var last := segments[|segments| - 1];
      Shades(segments[..|segments| - 1]) + seq(|last.coords|, _ => last.color)
  }

  /** The segments are maximal runs: none is empty and neighbours differ in
      colour. */
  predicate Runs(segments: seq<Segment>) {
    (forall k :: 0 <= k < |segments| ==> segments[k].coords != []) &&
    forall k :: 0 < k < |segments| ==> segments[k - 1].color != segments[k].color
  }

  /** The colour of each of the first `n` mask entries. */
  function MaskShades(mask: seq<bool>, n: nat): (r: seq<string>)
    requires n <= |mask|
    ensures |r| == n && forall i :: 0 <= i < n ==> r[i] == ColorOf(mask[i])
  {
    seq(n, i requires 0 <= i < n => ColorOf(mask[i]))
  }

  /** The segment loop of `generate_html` over `zip(test_coords, mask)`:
      its segments are maximal colour runs that together hold the zipped
      points in order, each point coloured red exactly when its mask entry
      is set. */
  method BuildSegments(test: seq<LatLon>, mask: seq<bool>) returns (segments: seq<Segment>)
    ensures Flatten(segments) == test[..Min(|test|, |mask|)]
    ensures Shades(segments) == MaskShades(mask, Min(|test|, |mask|))
    ensures Runs(segments)
  {
    var n := Min(|test|, |mask|);
    segments := [];
    for i := 0 to n
      invariant Flatten(segments) == test[..i]
      invariant Shades(segments) == MaskShades(mask, i)
      invariant Runs(segments)
    {
      var color := if mask[i] then Red else Green;
      segments := AddPoint(segments, color, test[i]);
      assert test[..i + 1] == test[..i] + [test[i]];
      assert MaskShades(mask, i + 1) == MaskShades(mask, i) + [color];
    }
  }

  /** One step of the loop: open a segment when the colour changes, then
      append the point to the last segment. */
  method AddPoint(segments: seq<Segment>, color: string, point: LatLon) returns (r: seq<Segment>)
    requires Runs(segments)
    ensures Flatten(r) == Flatten(segments) + [point]
    ensures Shades(r) == Shades(segments) + [color]
    ensures Runs(r)
  {
    if segments == [] || segments[|segments| - 1].color != color {
      r := segments + [Segment(color, [])];
      OpenRun(segments, color);
    } else {
      r := segments;
    }
    r := AppendToLast(r, point);
  }

  /** Runs whose last segment may still be empty. */
  predicate Growing(segments: seq<Segment>) {
    segments != [] &&
    (forall k :: 0 <= k < |segments| - 1 ==> segments[k].coords != []) &&
    forall k :: 0 < k < |segments| ==> segments[k - 1].color != segments[k].color
  }

  /** `segments.append({'color': color, 'coords': []})` after a colour change
      adds no point and keeps neighbours distinct. */
  lemma OpenRun(segments: seq<Segment>, color: string)
    requires Runs(segments)
    requires segments == [] || segments[|segments| - 1].color != color
    ensures Growing(segments + [Segment(color, [])])
    ensures Flatten(segments + [Segment(color, [])]) == Flatten(segments)
    ensures Shades(segments + [Segment(color, [])]) == Shades(segments)
  {
    var r := segments + [Segment(color, [])];
    assert r[..|r| - 1] == segments;
  }

  /** `segments[-1]['coords'].append(point)` */
  method AppendToLast(segments: seq<Segment>, point: LatLon) returns (r: seq<Segment>)
    requires Growing(segments) || (segments != [] && Runs(segments))
    ensures |r| == |segments| && r[..|r| - 1] == segments[..|segments| - 1]
    ensures r[|r| - 1] == Segment(segments[|segments| - 1].color, segments[|segments| - 1].coords + [point])
    ensures Flatten(r) == Flatten(segments) + [point]
    ensures Shades(r) == Shades(segments) + [segments[|segments| - 1].color]
    ensures Runs(r)
  {
    var last := segments[|segments| - 1];
    r := segments[..|segments| - 1] + [Segment(last.color, last.coords + [point])];
    assert r[..|r| - 1] == segments[..|segments| - 1];
    assert seq(|last.coords| + 1, _ => last.color) == seq(|last.coords|, _ => last.color) + [last.color];
  }
}
