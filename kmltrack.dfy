/** `parse_kml` of Tag_Tracking_Check/list_kml_positions.py, repeated verbatim
    in Tag_Tracking_Check_2/list_kml_positions.py: one fix per usable
    placemark, with the `lon,lat` text swapped into `(time, lat, lon)`, sorted
    by time. */
module KmlTrack {
  import opened Wrappers
  import opened Text
  import opened Sorting
  import opened Rows
  import opened Proximity

  /** A placemark as the two `find` calls see it: the text of its
      `TimeStamp/when` element and of its `Point/coordinates` element, `None`
      where the element is absent. */
  datatype Placemark = Placemark(when: Option<string>, coords: Option<string>)

  /** `datetime.fromisoformat(text.replace('Z', '+00:00'))` converted to an
      instant; `None` is the ValueError the script catches. */
  type TimeParser = string -> Option<int>

  /** What one placemark contributes: a missing element or a bad timestamp
      skips it; a coordinate text with fewer than two comma fields, or a
      non-numeric one, raises ValueError (the conversion is outside the
      `try`). */
  function FixVerdict(pm: Placemark, parseTime: TimeParser, parseFloat: FloatParser): Verdict<Fix> {
    if pm.when.None? || pm.coords.None? then Skip
    else if parseTime(pm.when.value).None? then Skip
    else
      var pieces := Split(Strip(pm.coords.value), ',');
      if |pieces| < 2 || parseFloat(pieces[0]).None? || parseFloat(pieces[1]).None? then Bad(ValueError)
      else Keep(Fix(parseTime(pm.when.value).value, parseFloat(pieces[1]).value, parseFloat(pieces[0]).value))
  }

  function FixRow(parseTime: TimeParser, parseFloat: FloatParser): Placemark -> Verdict<Fix> {
    pm => FixVerdict(pm, parseTime, parseFloat)
  }

  /** The collected fixes, sorted by time. */
  function SortedTrack(r: Result<seq<Fix>>): Result<seq<Fix>> {
    match r
    case Ok(v) => Ok(SortBy(v, Time))
    case Fail(e) => Fail(e)
  }

  /** The body of the placemark loop: `continue` for a missing element or a
      bad timestamp, ValueError from the coordinate conversion, otherwise
      the fix to append. */
  method ReadPlacemark(pm: Placemark, parseTime: TimeParser, parseFloat: FloatParser) returns (v: Verdict<Fix>)
    ensures v == FixRow(parseTime, parseFloat)(pm)
  {
    if pm.when.None? || pm.coords.None? {
      return Skip;
    }
    var t := parseTime(pm.when.value);
    if t.None? {
      return Skip;
    }
    var pieces := Split(Strip(pm.coords.value), ',');
    if |pieces| < 2 {
      return Bad(ValueError);
    }
    var lon := parseFloat(pieces[0]);
    var lat := parseFloat(pieces[1]);
    if lon.None? || lat.None? {
      return Bad(ValueError);
    }
    v := Keep(Fix(t.value, lat.value, lon.value));
  }

  /** The placemark loop of `parse_kml`, before the sort. */
  method CollectFixes(placemarks: seq<Placemark>, parseTime: TimeParser, parseFloat: FloatParser) returns (r: Result<seq<Fix>>)
    ensures r == Collect(placemarks, FixRow(parseTime, parseFloat))
  {
    var positions: seq<Fix> := [];
    var i := 0;
    while i < |placemarks|
      invariant 0 <= i <= |placemarks|
      invariant CollectUpTo(placemarks, i, FixRow(parseTime, parseFloat)) == Ok(positions)
    {
      var v := ReadPlacemark(placemarks[i], parseTime, parseFloat);
      match v {
        case Skip =>
        case Bad(e) =>
          CollectBad(placemarks, i, FixRow(parseTime, parseFloat), positions, e);
          return Fail(e);
        case Keep(x) =>
          positions := positions + [x];
      }
      i := i + 1;
    }
    r := Ok(positions);
  }

  /** `parse_kml`: the collected fixes, then `positions.sort(key=time)`. */
  method ParseKml(placemarks: seq<Placemark>, parseTime: TimeParser, parseFloat: FloatParser) returns (r: Result<seq<Fix>>)
    ensures r == SortedTrack(Collect(placemarks, FixRow(parseTime, parseFloat)))
  {
    r := CollectFixes(placemarks, parseTime, parseFloat);
    if r.Ok? {
      var positions := r.value;
      positions := SortBy(positions, Time);
      r := Ok(positions);
    }
  }

  /** A placemark is used when both elements are present and its timestamp
      parses. */
  predicate Usable(pm: Placemark, parseTime: TimeParser) {
    pm.when.Some? && pm.coords.Some? && parseTime(pm.when.value).Some?
  }

  /** The fix a usable placemark yields carries its time, and the first and
      second comma fields as longitude and latitude (swapped into
      `(time, lat, lon)`). */
  lemma FixFields(pm: Placemark, parseTime: TimeParser, parseFloat: FloatParser)
    ensures FixVerdict(pm, parseTime, parseFloat).Skip? <==> !Usable(pm, parseTime)
    ensures FixVerdict(pm, parseTime, parseFloat).Keep? ==>
      var x := FixVerdict(pm, parseTime, parseFloat).item;
      var pieces := Split(Strip(pm.coords.value), ',');
      Usable(pm, parseTime) && parseTime(pm.when.value) == Some(x.time) &&
      |pieces| >= 2 && parseFloat(pieces[0]) == Some(x.lon) && parseFloat(pieces[1]) == Some(x.lat)
  {
  }

  /** `parse_kml` raises exactly when a usable placemark has a bad coordinate
      text; otherwise it returns one fix per usable placemark, in time order,
      with placemarks of equal time in file order. */
  lemma TrackFacts(placemarks: seq<Placemark>, parseTime: TimeParser, parseFloat: FloatParser)
    ensures var r := SortedTrack(Collect(placemarks, FixRow(parseTime, parseFloat)));
      (r.Ok? <==> forall i :: 0 <= i < |placemarks| && Usable(placemarks[i], parseTime) ==>
        FixVerdict(placemarks[i], parseTime, parseFloat).Keep?) &&
      (r.Fail? ==> r.error == ValueError)
    ensures var c := Collect(placemarks, FixRow(parseTime, parseFloat));
      var idx := KeptIndices(placemarks, |placemarks|, FixRow(parseTime, parseFloat));
      c.Ok? ==>
        (forall i :: 0 <= i < |placemarks| ==> (i in idx <==> Usable(placemarks[i], parseTime))) &&
        |c.value| == |idx| &&
        (forall k :: 0 <= k < |idx| ==> FixVerdict(placemarks[idx[k]], parseTime, parseFloat) == Keep(c.value[k])) &&
        SortedBy(SortBy(c.value, Time), Time) &&
        multiset(SortBy(c.value, Time)) == multiset(c.value) &&
        forall t :: WithKey(SortBy(c.value, Time), Time, t) == WithKey(c.value, Time, t)
  {
    var f := FixRow(parseTime, parseFloat);
    CollectOk(placemarks, |placemarks|, f);
    var c := Collect(placemarks, f);
    forall i | 0 <= i < |placemarks| {
      FixFields(placemarks[i], parseTime, parseFloat);
    }
    if c.Fail? {
      CollectFail(placemarks, |placemarks|, f);
    } else {
      SortBySortedPermutation(c.value, Time);
      forall t ensures WithKey(SortBy(c.value, Time), Time, t) == WithKey(c.value, Time, t) {
        SortByStable(c.value, Time, t);
      }
    }
  }
}
