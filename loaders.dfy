/** The row loops of the CSV loaders once the csv module and `float()`/`int()`
    are abstracted: `parse_places` (Tag_Tracking_Check/kml_viewer_gui.py),
    `parse_locations` (Tag_Tracking_Check/list_kml_positions.py) and
    `parse_path_txt` (route_compare_gui.py). */
module Loaders {
  import opened Wrappers
  import opened Text
  import opened Rows
  import opened Proximity

  /** `int(text)`; `None` is the ValueError it raises. */
  type IntParser = string -> Option<int>

  /** `next(reader, None)`: the rows after the header row, if there is one. */
  function AfterHeader<R>(rows: seq<R>): (r: seq<R>)
    ensures rows == [] ==> r == []
    ensures rows != [] ==> rows == rows[..1] + r
  {
    if rows == [] then [] else rows[1..]
  }

  /** `row[1].split("(")[0].strip()`: the name before any parenthesis. */
  function PlaceName(field: string): (r: string)
    ensures '(' !in r
    ensures r == [] || (!IsSpace(r[0]) && !IsSpace(r[|r| - 1]))
  {
    StripFacts(Split(field, '(')[0]);
    Strip(Split(field, '(')[0])
  }

  // ----- parse_places -----

  /** What one row of the places file contributes. */
  function PlaceVerdict(row: seq<string>, parseFloat: FloatParser): (v: Verdict<Place>)
    ensures v.Bad? <==> |row| >= 4 && (parseFloat(row[2]).None? || parseFloat(row[3]).None?)
    ensures v.Keep? ==>
      |row| >= 4 && v.item.name == PlaceName(row[1]) && '(' !in v.item.name &&
      parseFloat(row[2]) == Some(v.item.lon) && parseFloat(row[3]) == Some(v.item.lat)
  {
    if |row| < 4 then Skip
    else if parseFloat(row[2]).None? || parseFloat(row[3]).None? then Bad(ValueError)
    else Keep(Place(PlaceName(row[1]), parseFloat(row[2]).value, parseFloat(row[3]).value))
  }

  function PlaceRow(parseFloat: FloatParser): seq<string> -> Verdict<Place> {
    row => PlaceVerdict(row, parseFloat)
  }

  method ParsePlaces(rows: seq<seq<string>>, parseFloat: FloatParser) returns (r: Result<seq<Place>>)
    ensures r == Collect(AfterHeader(rows), PlaceRow(parseFloat))
  {
    var data := AfterHeader(rows);
    var places: seq<Place> := [];
    var i := 0;
    while i < |data|
      invariant 0 <= i <= |data|
      invariant CollectUpTo(data, i, PlaceRow(parseFloat)) == Ok(places)
    {
      var row := data[i];
      if |row| >= 4 {
        var name := Strip(Split(row[1], '(')[0]);
        var lon := parseFloat(row[2]);
        if lon.None? {
          FailStays(data, i + 1, |data|, PlaceRow(parseFloat));
          return Fail(ValueError);
        }
        var lat := parseFloat(row[3]);
        if lat.None? {
          FailStays(data, i + 1, |data|, PlaceRow(parseFloat));
          return Fail(ValueError);
        }
        places := places + [Place(name, lon.value, lat.value)];
      }
      i := i + 1;
    }
    r := Ok(places);
  }

  /** `parse_places` raises exactly when a row of at least four fields has a
      non-numeric coordinate; otherwise it keeps, in file order after the
      header, exactly the rows of at least four fields, each named by the
      text before its first `(`, stripped. */
  lemma PlacesFacts(rows: seq<seq<string>>, parseFloat: FloatParser)
    ensures var data := AfterHeader(rows);
      var r := Collect(data, PlaceRow(parseFloat));
      (r.Ok? <==> forall i :: 0 <= i < |data| && |data[i]| >= 4 ==> parseFloat(data[i][2]).Some? && parseFloat(data[i][3]).Some?) &&
      (r.Fail? ==> r.error == ValueError)
    ensures var data := AfterHeader(rows);
      var r := Collect(data, PlaceRow(parseFloat));
      var idx := KeptIndices(data, |data|, PlaceRow(parseFloat));
      r.Ok? ==>
        |r.value| == |idx| &&
        (forall i :: 0 <= i < |data| ==> (i in idx <==> |data[i]| >= 4)) &&
        forall k :: 0 <= k < |idx| ==>
          r.value[k].name == PlaceName(data[idx[k]][1]) &&
          parseFloat(data[idx[k]][2]) == Some(r.value[k].lon) && parseFloat(data[idx[k]][3]) == Some(r.value[k].lat)
  {
    var data := AfterHeader(rows);
    CollectOk(data, |data|, PlaceRow(parseFloat));
    var r := Collect(data, PlaceRow(parseFloat));
    if r.Fail? {
      CollectFail(data, |data|, PlaceRow(parseFloat));
    }
  }

  // ----- parse_locations -----

  const NameKey: string := "장소 이름"
  const LonKey: string := "longitude"
  const LatKey: string := "latitude"

  /** A `csv.DictReader` row maps each header column to its field; a row
      shorter than the header maps the missing columns to `None`. */
  type DictRow = map<string, Option<string>>

  /** The row makes `float(None)` raise TypeError, which the `except` clause
      does not catch: the longitude is `None`, or it is numeric and the
      latitude is `None`. */
  predicate ShortCoordinate(row: DictRow, parseFloat: FloatParser) {
    NameKey in row && LonKey in row &&
    (row[LonKey].None? || (parseFloat(row[LonKey].value).Some? && LatKey in row && row[LatKey].None?))
  }

  /** All three columns are present and both coordinates are numeric. */
  predicate UsableLocation(row: DictRow, parseFloat: FloatParser) {
    NameKey in row && LonKey in row && LatKey in row && row[LonKey].Some? && row[LatKey].Some? &&
    parseFloat(row[LonKey].value).Some? && parseFloat(row[LatKey].value).Some?
  }

  /** One row, in the order the `try` block looks things up: a missing
      column (KeyError) or a non-numeric coordinate (ValueError) skips the
      row; a `None` coordinate raises TypeError. */
  function LocationVerdict(row: DictRow, parseFloat: FloatParser): (v: Verdict<Place>)
    ensures v.Bad? <==> ShortCoordinate(row, parseFloat)
    ensures v.Bad? ==> v.error == TypeError
    ensures v.Keep? <==> UsableLocation(row, parseFloat)
    ensures v.Keep? ==>
      v.item.name == OrEmpty(row[NameKey]) &&
      parseFloat(row[LonKey].value) == Some(v.item.lon) && parseFloat(row[LatKey].value) == Some(v.item.lat)
  {
    if NameKey !in row || LonKey !in row then Skip
    else if row[LonKey].None? then Bad(TypeError)
    else if parseFloat(row[LonKey].value).None? || LatKey !in row then Skip
    else if row[LatKey].None? then Bad(TypeError)
    else if parseFloat(row[LatKey].value).None? then Skip
    else Keep(Place(OrEmpty(row[NameKey]), parseFloat(row[LonKey].value).value, parseFloat(row[LatKey].value).value))
  }

  function LocationRow(parseFloat: FloatParser): DictRow -> Verdict<Place> {
    row => LocationVerdict(row, parseFloat)
  }

  method ParseLocations(rows: seq<DictRow>, parseFloat: FloatParser) returns (r: Result<seq<Place>>)
    ensures r == Collect(rows, LocationRow(parseFloat))
  {
    var locations: seq<Place> := [];
    var i := 0;
    while i < |rows|
      invariant 0 <= i <= |rows|
      invariant CollectUpTo(rows, i, LocationRow(parseFloat)) == Ok(locations)
    {
      var row := rows[i];
      if NameKey in row && LonKey in row {
        var name := row[NameKey];
        if row[LonKey].None? {
          CollectBad(rows, i, LocationRow(parseFloat), locations, TypeError);
          return Fail(TypeError);
        }
        var lon := parseFloat(row[LonKey].value);
        if lon.Some? && LatKey in row {
          if row[LatKey].None? {
            CollectBad(rows, i, LocationRow(parseFloat), locations, TypeError);
            return Fail(TypeError);
          }
          var lat := parseFloat(row[LatKey].value);
          if lat.Some? {
            locations := locations + [Place(OrEmpty(name), lon.value, lat.value)];
          }
        }
      }
      i := i + 1;
    }
    r := Ok(locations);
  }

  /** `parse_locations` raises TypeError exactly when some row has a `None`
      coordinate that the lookups reach; otherwise it keeps, in file order,
      exactly the rows that have all three columns with numeric
      coordinates. */
  lemma LocationsFacts(rows: seq<DictRow>, parseFloat: FloatParser)
    ensures var r := Collect(rows, LocationRow(parseFloat));
      (r.Ok? <==> forall i :: 0 <= i < |rows| ==> !ShortCoordinate(rows[i], parseFloat)) &&
      (r.Fail? ==> r.error == TypeError)
    ensures var r := Collect(rows, LocationRow(parseFloat));
      var idx := KeptIndices(rows, |rows|, LocationRow(parseFloat));
      r.Ok? ==>
        |r.value| == |idx| &&
        (forall i :: 0 <= i < |rows| ==> (i in idx <==> UsableLocation(rows[i], parseFloat))) &&
        forall k :: 0 <= k < |idx| ==>
          r.value[k].name == OrEmpty(rows[idx[k]][NameKey]) &&
          parseFloat(rows[idx[k]][LonKey].value) == Some(r.value[k].lon) &&
          parseFloat(rows[idx[k]][LatKey].value) == Some(r.value[k].lat)
  {
    CollectOk(rows, |rows|, LocationRow(parseFloat));
    if Collect(rows, LocationRow(parseFloat)).Fail? {
      CollectFail(rows, |rows|, LocationRow(parseFloat));
    }
  }

  // ----- parse_path_txt -----

  /** One planned stop of the path file. */
  datatype Entry = Entry(order: int, place: string, lon: real, lat: real, arrive: string, depart: string)

  /** `text.replace('.', ':').strip()`: a clock written `09.30` becomes `09:30`. */
  function Clock(text: string): (r: string)
    ensures '.' !in r
    ensures r == [] || (!IsSpace(r[0]) && !IsSpace(r[|r| - 1]))
  {
    StripFacts(ReplaceChar(text, '.', ':'));
    Strip(ReplaceChar(text, '.', ':'))
  }

  /** One row of the path file. The order and coordinates are converted
      before the arrival is looked at, so a bad number raises even on a row
      that would be dropped. */
  function EntryVerdict(row: seq<string>, parseInt: IntParser, parseFloat: FloatParser): Verdict<Entry>
  {
    if |row| < 6 then Skip
    else if parseInt(row[0]).None? || parseFloat(row[2]).None? || parseFloat(row[3]).None? then Bad(ValueError)
    else if Clock(row[4]) == "-" || Clock(row[4]) == [] then Skip
    else Keep(Entry(parseInt(row[0]).value, row[1], parseFloat(row[2]).value, parseFloat(row[3]).value, Clock(row[4]), Clock(row[5])))
  }

  function EntryRow(parseInt: IntParser, parseFloat: FloatParser): seq<string> -> Verdict<Entry> {
    row => EntryVerdict(row, parseInt, parseFloat)
  }

  method ParsePathTxt(rows: seq<seq<string>>, parseInt: IntParser, parseFloat: FloatParser) returns (r: Result<seq<Entry>>)
    ensures r == Collect(AfterHeader(rows), EntryRow(parseInt, parseFloat))
  {
    var data := AfterHeader(rows);
    var entries: seq<Entry> := [];
    var i := 0;
    while i < |data|
      invariant 0 <= i <= |data|
      invariant CollectUpTo(data, i, EntryRow(parseInt, parseFloat)) == Ok(entries)
    {
      var row := data[i];
      if |row| >= 6 {
        var order := parseInt(row[0]);
        if order.None? {
          FailStays(data, i + 1, |data|, EntryRow(parseInt, parseFloat));
          return Fail(ValueError);
        }
        var place := row[1];
        var lon := parseFloat(row[2]);
        if lon.None? {
          FailStays(data, i + 1, |data|, EntryRow(parseInt, parseFloat));
          return Fail(ValueError);
        }
        var lat := parseFloat(row[3]);
        if lat.None? {
          FailStays(data, i + 1, |data|, EntryRow(parseInt, parseFloat));
          return Fail(ValueError);
        }
        var arrive := Strip(ReplaceChar(row[4], '.', ':'));
        if arrive != "-" && arrive != [] {
          var depart := Strip(ReplaceChar(row[5], '.', ':'));
          entries := entries + [Entry(order.value, place, lon.value, lat.value, arrive, depart)];
        }
      }
      i := i + 1;
    }
    r := Ok(entries);
  }

  /** `parse_path_txt` raises exactly when a row of at least six fields has a
      non-numeric order or coordinate. */
  lemma PathOutcome(rows: seq<seq<string>>, parseInt: IntParser, parseFloat: FloatParser)
    ensures var data := AfterHeader(rows);
      var r := Collect(data, EntryRow(parseInt, parseFloat));
      (r.Ok? <==> forall i :: 0 <= i < |data| && |data[i]| >= 6 ==>
        parseInt(data[i][0]).Some? && parseFloat(data[i][2]).Some? && parseFloat(data[i][3]).Some?) &&
      (r.Fail? ==> r.error == ValueError)
  {
    var data := AfterHeader(rows);
    CollectOk(data, |data|, EntryRow(parseInt, parseFloat));
    if Collect(data, EntryRow(parseInt, parseFloat)).Fail? {
      CollectFail(data, |data|, EntryRow(parseInt, parseFloat));
    }
  }

  /** Otherwise it keeps, in file order after the header, exactly the rows of
      at least six fields whose normalised arrival is neither `-` nor empty. */
  lemma PathKept(rows: seq<seq<string>>, parseInt: IntParser, parseFloat: FloatParser)
    ensures var data := AfterHeader(rows);
      var r := Collect(data, EntryRow(parseInt, parseFloat));
      var idx := KeptIndices(data, |data|, EntryRow(parseInt, parseFloat));
      r.Ok? ==>
        |r.value| == |idx| &&
        (forall i :: 0 <= i < |data| ==>
          (i in idx <==> |data[i]| >= 6 && Clock(data[i][4]) != "-" && Clock(data[i][4]) != [])) &&
        forall k :: 0 <= k < |idx| ==> EntryVerdict(data[idx[k]], parseInt, parseFloat) == Keep(r.value[k])
  {
    var data := AfterHeader(rows);
    CollectOk(data, |data|, EntryRow(parseInt, parseFloat));
  }

  /** A kept row becomes an entry with the converted order and coordinates
      and with normalised times: the arrival is neither `-` nor empty, and no
      `.` is left in either time. */
  lemma EntryFields(row: seq<string>, parseInt: IntParser, parseFloat: FloatParser, e: Entry)
    requires EntryVerdict(row, parseInt, parseFloat) == Keep(e)
    ensures |row| >= 6
    ensures parseInt(row[0]) == Some(e.order) && e.place == row[1]
    ensures parseFloat(row[2]) == Some(e.lon) && parseFloat(row[3]) == Some(e.lat)
    ensures e.arrive == Clock(row[4]) && e.depart == Clock(row[5])
    ensures e.arrive != "-" && e.arrive != [] && '.' !in e.arrive && '.' !in e.depart
  {
  }
}
