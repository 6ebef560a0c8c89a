/** Coordinate extraction from KML LineString text: the token loop shared by
    `parse_kml_text` (kmz_compare_gui.py) and `parse_kml` (show_kml_path.py),
    the `course` folder choice of show_kml_path.py, and the KMZ/KML choice of
    `load_path` (kmz_compare_gui.py). */
module LineCoords {
  import opened Wrappers
  import opened Text
  import opened Rows

  /** `(lat, lon)`, as both scripts store a point. */
  datatype LatLon = LatLon(lat: real, lon: real)

  // ----- the token loop -----

  /** One whitespace-separated token `lon,lat[,alt...]`: fewer than two comma
      fields skip it; a non-numeric first or second field raises ValueError. */
  function TokenVerdict(token: string, parseFloat: FloatParser): Verdict<LatLon> {
    var pieces := Split(token, ',');
    if |pieces| < 2 then Skip
    else if parseFloat(pieces[0]).None? || parseFloat(pieces[1]).None? then Bad(ValueError)
    else Keep(LatLon(parseFloat(pieces[1]).value, parseFloat(pieces[0]).value))
  }

  function TokenRow(parseFloat: FloatParser): string -> Verdict<LatLon> {
    token => TokenVerdict(token, parseFloat)
  }

  /** The points of one coordinates text: `text.strip().split()` then the
      token verdicts. */
  function Coordinates(text: string, parseFloat: FloatParser): Result<seq<LatLon>> {
    Collect(Words(Strip(text)), TokenRow(parseFloat))
  }

  /** `for part in text.strip().split(): ...` */
  method ReadCoordinates(text: string, parseFloat: FloatParser) returns (r: Result<seq<LatLon>>)
    ensures r == Coordinates(text, parseFloat)
  {
    var parts := Words(Strip(text));
    var coords: seq<LatLon> := [];
    var i := 0;
    while i < |parts|
      invariant 0 <= i <= |parts|
      invariant CollectUpTo(parts, i, TokenRow(parseFloat)) == Ok(coords)
    {
      var pieces := Split(parts[i], ',');
      if |pieces| >= 2 {
        var lon := parseFloat(pieces[0]);
        var lat := parseFloat(pieces[1]);
        if lon.None? || lat.None? {
          CollectBad(parts, i, TokenRow(parseFloat), coords, ValueError);
          return Fail(ValueError);
        }
        coords := coords + [LatLon(lat.value, lon.value)];
      }
      i := i + 1;
    }
    r := Ok(coords);
  }

  /** A token is bad exactly when it has two comma fields and one of the
      first two is not a number. */
  predicate BadToken(token: string, parseFloat: FloatParser) {
    |Split(token, ',')| >= 2 &&
    (parseFloat(Split(token, ',')[0]).None? || parseFloat(Split(token, ',')[1]).None?)
  }

  /** The token loop over `parts` raises exactly when some token is bad, and
      then with ValueError. */
  lemma TokensOutcome(parts: seq<string>, parseFloat: FloatParser)
    ensures Collect(parts, TokenRow(parseFloat)).Ok? <==> forall i :: 0 <= i < |parts| ==> !BadToken(parts[i], parseFloat)
    ensures Collect(parts, TokenRow(parseFloat)).Fail? ==> Collect(parts, TokenRow(parseFloat)).error == ValueError
  {
    CollectOk(parts, |parts|, TokenRow(parseFloat));
    assert forall i :: 0 <= i < |parts| ==> (TokenRow(parseFloat)(parts[i]).Bad? <==> BadToken(parts[i], parseFloat));
    if Collect(parts, TokenRow(parseFloat)).Fail? {
      CollectFail(parts, |parts|, TokenRow(parseFloat));
    }
  }

  /** Otherwise it yields, in token order, one point per token of two or
      more comma fields, with the first two fields swapped into `(lat, lon)`. */
  lemma TokensKept(parts: seq<string>, parseFloat: FloatParser)
    requires Collect(parts, TokenRow(parseFloat)).Ok?
    ensures var r := Collect(parts, TokenRow(parseFloat)).value;
      var idx := KeptIndices(parts, |parts|, TokenRow(parseFloat));
      |r| == |idx| &&
      (forall i :: 0 <= i < |parts| ==> (i in idx <==> |Split(parts[i], ',')| >= 2)) &&
      forall k :: 0 <= k < |idx| ==>
        parseFloat(Split(parts[idx[k]], ',')[0]) == Some(r[k].lon) &&
        parseFloat(Split(parts[idx[k]], ',')[1]) == Some(r[k].lat)
  {
    CollectOk(parts, |parts|, TokenRow(parseFloat));
  }

  // ----- parse_kml_text -----

  /** What one element's text yields: its points, or the exception its token
      loop raises. */
  type PointsOf = string -> Result<seq<LatLon>>

  /** The token loop of `parse_kml_text` with a given float conversion. */
  function Tokenizer(parseFloat: FloatParser): PointsOf {
    text => Coordinates(text, parseFloat)
  }

  /** The points of the first `n` LineString coordinate elements (`None` for
      an element without text); an element whose text is empty is skipped. */
  function LineCoordsUpTo(texts: seq<Option<string>>, n: nat, points: PointsOf): Result<seq<LatLon>>
    requires n <= |texts|
  {
    if n == 0 then Ok([])
    else
      match LineCoordsUpTo(texts, n - 1, points)
      case Fail(e) => Fail(e)
      case Ok(acc) =>
        if texts[n - 1].None? || texts[n - 1].value == [] then Ok(acc)
        else
          match points(texts[n - 1].value)
          case Fail(e) => Fail(e)
          case Ok(c) => Ok(acc + c)
  }

  method ParseKmlText(texts: seq<Option<string>>, parseFloat: FloatParser) returns (r: Result<seq<LatLon>>)
    ensures r == LineCoordsUpTo(texts, |texts|, Tokenizer(parseFloat))
  {
    var coords: seq<LatLon> := [];
    var i := 0;
    while i < |texts|
      invariant 0 <= i <= |texts|
      invariant LineCoordsUpTo(texts, i, Tokenizer(parseFloat)) == Ok(coords)
    {
      var next := ReadLine(texts, i, parseFloat, coords);
      if next.Fail? {
        LineFailStays(texts, i + 1, |texts|, Tokenizer(parseFloat));
        return next;
      }
      coords := next.value;
      i := i + 1;
    }
    r := Ok(coords);
  }

  /** One element of the loop: its points appended to `coords`, or the
      exception its token loop raises. */
  method ReadLine(texts: seq<Option<string>>, i: nat, parseFloat: FloatParser, coords: seq<LatLon>)
    returns (r: Result<seq<LatLon>>)
    requires i < |texts| && LineCoordsUpTo(texts, i, Tokenizer(parseFloat)) == Ok(coords)
    ensures r == LineCoordsUpTo(texts, i + 1, Tokenizer(parseFloat))
  {
    var text := texts[i];
    if text.None? || text.value == [] {
      return Ok(coords);
    }
    var part := ReadCoordinates(text.value, parseFloat);
    assert part == Tokenizer(parseFloat)(text.value);
    if part.Fail? {
      return part;
    }
    r := Ok(coords + part.value);
  }

  lemma {:induction false} LineFailStays(texts: seq<Option<string>>, n: nat, m: nat, points: PointsOf)
    requires n <= m <= |texts|
    requires LineCoordsUpTo(texts, n, points).Fail?
    ensures LineCoordsUpTo(texts, m, points) == LineCoordsUpTo(texts, n, points)
    decreases m - n
  {
    if n < m {
      LineFailStays(texts, n, m - 1, points);
    }
  }

  /** `parse_kml_text` returns the points of every element, in element order,
      when no element's tokens raise: element texts that are missing or empty
      add nothing. */
  lemma {:induction false} ParseKmlTextConcat(texts: seq<Option<string>>, n: nat, points: PointsOf)
    requires n <= |texts|
    requires forall i :: 0 <= i < n && texts[i].Some? && texts[i].value != [] ==> points(texts[i].value).Ok?
    ensures LineCoordsUpTo(texts, n, points).Ok?
    ensures LineCoordsUpTo(texts, n, points).value == AllPoints(texts[..n], points)
  {
    if n > 0 {
      ParseKmlTextConcat(texts, n - 1, points);
      assert texts[..n] == texts[..n - 1] + [texts[n - 1]];
      AllPointsAppend(texts[..n - 1], texts[n - 1], points);
    }
  }

  /** The points of every element that has text and whose text converts,
      concatenated from the front (the reference reading of the nested
      loops). */
  function AllPoints(texts: seq<Option<string>>, points: PointsOf): seq<LatLon>
    decreases |texts|
  {
    if texts == [] then []
    else
      (if texts[0].Some? && texts[0].value != [] && points(texts[0].value).Ok? then points(texts[0].value).value else [])
      + AllPoints(texts[1..], points)
  }

  lemma {:induction false} AllPointsAppend(texts: seq<Option<string>>, t: Option<string>, points: PointsOf)
    ensures AllPoints(texts + [t], points) == AllPoints(texts, points) + AllPoints([t], points)
    decreases |texts|
  {
    if texts != [] {
      assert (texts + [t])[1..] == texts[1..] + [t];
      AllPointsAppend(texts[1..], t, points);
    }
  }

  // ----- show_kml_path.parse_kml -----

  /** A `Folder` as `parse_kml` sees it: the text of its `name` element and of
      its first `LineString/coordinates` element, `None` where absent. */
  datatype Folder = Folder(name: Option<string>, line: Option<string>)

  predicate IsCourse(f: Folder) {
    f.name.Some? && Strip(f.name.value) == "course"
  }

  /** The first folder named `course` that has a coordinates element. */
  function FirstCourse(folders: seq<Folder>): (r: Option<nat>)
    ensures r.Some? ==> r.value < |folders| && IsCourse(folders[r.value]) && folders[r.value].line.Some?
    ensures r.Some? ==> forall j :: 0 <= j < r.value ==> !(IsCourse(folders[j]) && folders[j].line.Some?)
    ensures r.None? ==> forall j :: 0 <= j < |folders| ==> !(IsCourse(folders[j]) && folders[j].line.Some?)
    decreases |folders|
  {
    if folders == [] then None
    else if IsCourse(folders[0]) && folders[0].line.Some? then Some(0)
    else
      match FirstCourse(folders[1..])
      case None => None
      case Some(k) => Some(k + 1)
  }

  /** `parse_kml` of show_kml_path.py: a `course` folder without coordinates
      is passed over; the first one with coordinates gives the result; no
      such folder gives the empty list. */
  method ParseCourse(folders: seq<Folder>, parseFloat: FloatParser) returns (r: Result<seq<LatLon>>)
    ensures FirstCourse(folders).None? ==> r == Ok([])
    ensures FirstCourse(folders).Some? ==> r == Coordinates(folders[FirstCourse(folders).value].line.value, parseFloat)
  {
    var i := 0;
    while i < |folders|
      invariant 0 <= i <= |folders|
      invariant forall j :: 0 <= j < i ==> !(IsCourse(folders[j]) && folders[j].line.Some?)
    {
      var folder := folders[i];
      if folder.name.Some? && Strip(folder.name.value) == "course" {
        if folder.line.None? {
          i := i + 1;
          continue;
        }
        r := ReadCoordinates(folder.line.value, parseFloat);
        return;
      }
      i := i + 1;
    }
    return Ok([]);
  }

  // ----- load_path -----

  /** `os.path.splitext(path)[1]` (POSIX): from the last `.` of the last path
      component, unless that component is only dots before it. */
  function Ext(path: string): (e: string)
    ensures EndsWith(path, e)
    ensures e != [] ==> e[0] == '.' && '/' !in e && '.' !in e[1..]
  {
    var sep := RFind(path, '/');
    var dot := RFind(path, '.');
    if dot > sep && exists k :: sep + 1 <= k < dot && path[k] != '.' then
      assert forall j :: dot < j < |path| ==> path[j] != '/' && path[j] != '.';
      path[dot..]
    else []
  }

  predicate IsKmz(path: string) {
    Lower(Ext(path)) == ".kmz"
  }

  /** `next((n for n in names if n.lower().endswith('.kml')), None)` */
  function FirstKml(names: seq<string>): (r: Option<string>)
    ensures r.Some? ==> r.value in names && EndsWith(Lower(r.value), ".kml")
    ensures r.Some? ==> exists k :: (0 <= k < |names| && names[k] == r.value &&
      forall j :: 0 <= j < k ==> !EndsWith(Lower(names[j]), ".kml"))
    ensures r.None? ==> forall n :: n in names ==> !EndsWith(Lower(n), ".kml")
    decreases |names|
  {
    if names == [] then None
    else if EndsWith(Lower(names[0]), ".kml") then Some(names[0])
    else
      var r := FirstKml(names[1..]);
      assert forall n :: n in names ==> n == names[0] || n in names[1..];
      if r.Some? then
        var k :| 0 <= k < |names[1..]| && names[1..][k] == r.value &&
          forall j :: 0 <= j < k ==> !EndsWith(Lower(names[1..][j]), ".kml");
        assert names[k + 1] == r.value;
        r
      else r
  }

  /** `load_path`: a path whose extension is `.kmz` in any letter case is
      read from the first archive member named `*.kml` in any case (none
      raises ValueError); any other path is read as KML text. The archive's
      member list, member reads, file reads and the XML search for
      LineString coordinate texts are parameters. */
  method LoadPath(path: string, members: seq<string>, readMember: string -> string, readFile: string -> string,
                  lineTexts: string -> seq<Option<string>>, parseFloat: FloatParser)
    returns (r: Result<seq<LatLon>>)
    ensures IsKmz(path) && FirstKml(members).None? ==> r == Fail(ValueError)
    ensures IsKmz(path) && FirstKml(members).Some? ==>
      r == LineCoordsUpTo(lineTexts(readMember(FirstKml(members).value)), |lineTexts(readMember(FirstKml(members).value))|, Tokenizer(parseFloat))
    ensures !IsKmz(path) ==> r == LineCoordsUpTo(lineTexts(readFile(path)), |lineTexts(readFile(path))|, Tokenizer(parseFloat))
  {
    var ext := Lower(Ext(path));
    var text;
    if ext == ".kmz" {
      var kmlName := FirstKml(members);
      if kmlName.None? {
        return Fail(ValueError);
      }
      text := readMember(kmlName.value);
    } else {
      text := readFile(path);
    }
    r := ParseKmlText(lineTexts(text), parseFloat);
  }
}
