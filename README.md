# MDE_POC engines in Dafny

MDE_POC is a set of Python desktop scripts for checking GPS tag tracks and
Android crash logs. Once the file formats, the GUI and the floating-point
geodesy are stripped away, a few small deterministic engines remain. This
project models them and proves what they promise:

- **Proximity grouping** (`group_positions`, `group_by_location`). Every
  timestamped fix goes into the bucket of every named place within the
  radius. The test is inclusive (`<= radius`).
- **Visit summary** (`summarize`). Each bucket is sorted by time and
  reduced to its first and last time. The visits are then stably sorted by
  arrival.
- **Loaders** (`parse_places`, `parse_locations`, `parse_path_txt`, the two
  `parse_kml` placemark loops, `parse_kml_text`, the `course` folder search
  of show_kml_path.py, `load_path`). These are row and token filters over
  already-parsed records. The float, int and time conversions are
  parameters that may fail.
- **Nearest point** (`find_nearest`). A linear arg-min scan with a strict
  `<`, so the first point at the least distance wins.
- **Track divergence** (the mask loop of `CompareGUI.compare`, the segment
  loop of `generate_html`). An index-wise "further than 150 m" mask, and
  the cut of a track into maximal runs of one colour.
- **Crash and ANR scanners** (`parse_fc_events`, `parse_anr_events`,
  `analyze_file` of dumpstate_analyzer.py and dumpstate_gui.py). The crash
  scanners are line-driven state machines. Each is proved equal to one
  declarative description of the blocks of a log (`CrashLog.Blocks`),
  whose two instances differ in what closes a block: a `--------- `
  separator or a blank line.
- **Pyramid** (`draw_pyramid`). Row `i` is `2i - 1` stars centred in the
  width of the base.

Distances are a function parameter `(lon1, lat1, lon2, lat2) -> real`.
Times are integers. Python's `None` and exceptions are `Option` and
`Result` values. A Python dict is its ordered key list with one list per
key.

Modules: `Wrappers`, `Text` (the `str` methods used), `Sorting` (stable
`list.sort`), `Rows` (the append-or-skip-or-raise loop every loader
shares), `Proximity`, `Summary`, `Loaders`, `KmlTrack`, `LineCoords`,
`Nearest`, `Divergence`, `CrashLog`, `DumpstateAnalyzer`, `DumpstateGui`,
`Pyramid`.

## Model

| member | source | states |
|---|---|---|
| Proximity.Names | Tag_Tracking_Check/list_kml_positions.py:71 | the dict's keys: every place name occurs, none twice |
| Proximity.NamesSound | Tag_Tracking_Check/kml_viewer_gui.py:35 | every key is the name of some place |
| Proximity.Slot | Tag_Tracking_Check/list_kml_positions.py:76 | `groups[name]` finds the entry whose key is `name` |
| Proximity.AppendHit | Tag_Tracking_Check/list_kml_positions.py:75-76 | a place the fix is near appends the fix to the entry of that place's name and leaves the other entries alone |
| Proximity.AppendMiss | Tag_Tracking_Check/list_kml_positions.py:75 | a place the fix is not near changes no entry |
| Proximity.FillStep | Tag_Tracking_Check/list_kml_positions.py:72-76 | after the inner loop for fix `i`, every entry holds its bucket over the first `i + 1` fixes |
| Proximity.AddFix | Tag_Tracking_Check/list_kml_positions.py:73-76 | the inner loop appends the fix to the entry of each near place, once per near place, in place order |
| Proximity.GroupByLocation | Tag_Tracking_Check/list_kml_positions.py:69-77 | the keys are exactly the place names, empty buckets included, and each entry is the whole bucket of its name |
| Proximity.GroupPositions | Tag_Tracking_Check/kml_viewer_gui.py:34-41 | the same loops, then only the names with a non-empty bucket remain, each with its whole bucket |
| Proximity.NonEmpty | Tag_Tracking_Check/kml_viewer_gui.py:41 | the comprehension that drops empty entries keeps keys and lists paired |
| Proximity.NonEmptyKeys | Tag_Tracking_Check/kml_viewer_gui.py:41 | dropping empty entries of the full grouping leaves exactly the occupied names, in order |
| Proximity.NonEmptyLists | Tag_Tracking_Check/kml_viewer_gui.py:41 | the remaining entries are whole buckets and none is empty |
| Proximity.OccupiedMembers | Tag_Tracking_Check/kml_viewer_gui.py:41 | a name is kept exactly when it is a key with a non-empty bucket, and kept names stay distinct |
| Proximity.HitsMembership | Tag_Tracking_Check/kml_viewer_gui.py:37-40 | the inner loop appends only the current fix, and only for a near place of that name |
| Proximity.BucketUpToMembership | Tag_Tracking_Check/kml_viewer_gui.py:36-40 | after `i` fixes, a fix is in a bucket exactly when it is among them and is within the radius of a place of that name |
| Proximity.BucketMembership | Tag_Tracking_Check/list_kml_positions.py:72-76 | soundness and completeness with the inclusive boundary: in the bucket if and only if within the radius of a place of that name |
| Proximity.NearImpliesInBucket | Tag_Tracking_Check/kml_viewer_gui.py:37-40 | a fix near several places is in the bucket of each |
| Proximity.HitsAllEqual | Tag_Tracking_Check/kml_viewer_gui.py:40 | everything one inner loop appends is the current fix |
| Proximity.BucketOrigins | Tag_Tracking_Check/kml_viewer_gui.py:36-40 | each bucket entry is copied from an input fix, with source indices non-decreasing, so input order is kept |
| Proximity.BucketSorted | Tag_Tracking_Check/list_kml_positions.py:69-77 | fed a time-ordered track, every bucket is time-ordered |
| Sorting.InsertPermutation | Tag_Tracking_Check/kml_viewer_gui.py:47 | one insertion step of the stable sort adds exactly the inserted element |
| Sorting.InsertSorted | Tag_Tracking_Check/kml_viewer_gui.py:47 | inserting into an ordered list keeps it ordered |
| Sorting.InsertWithKey | Tag_Tracking_Check/kml_viewer_gui.py:51 | the inserted element goes before the earlier elements with its key |
| Sorting.SortBySortedPermutation | Tag_Tracking_Check/kml_viewer_gui.py:47 | `list.sort(key=...)` yields a key-ordered permutation of the list |
| Sorting.SortByStable | Tag_Tracking_Check/kml_viewer_gui.py:51 | elements with equal keys keep their relative order |
| Sorting.SortedEnds | Tag_Tracking_Check/kml_viewer_gui.py:48-49 | the first and last elements of a sorted permutation carry the least and greatest key |
| Summary.Earliest | Tag_Tracking_Check/kml_viewer_gui.py:48 | the least time of a non-empty list, attained by one of its fixes |
| Summary.Latest | Tag_Tracking_Check/kml_viewer_gui.py:49 | the greatest time of a non-empty list, attained by one of its fixes |
| Summary.SpanOf | Tag_Tracking_Check/kml_viewer_gui.py:48-50 | a visit keeps its name and arrives no later than it departs |
| Summary.Spans | Tag_Tracking_Check/kml_viewer_gui.py:46-50 | one visit per entry, in key order |
| Summary.SortedBucketEnds | Tag_Tracking_Check/kml_viewer_gui.py:47-49 | after the time sort, `pos_list[0]` has the earliest time and `pos_list[-1]` the latest |
| Summary.SummarizeStep | Tag_Tracking_Check/kml_viewer_gui.py:46-50 | one loop iteration sorts entry `k`, fails exactly on an empty list, and otherwise appends that entry's visit |
| Summary.Summarize | Tag_Tracking_Check/kml_viewer_gui.py:44-52 | raises IndexError exactly when some list is empty; otherwise every list comes back time-sorted and the result is the visits stably sorted by arrival |
| Summary.SummaryFacts | Tag_Tracking_Check/kml_viewer_gui.py:51 | exactly one visit per group, as a permutation, ordered by arrival, ties in group order, each with `arrive <= depart` |
| Summary.VisitBounds | Tag_Tracking_Check/kml_viewer_gui.py:48-50 | a visit's arrival and departure are the least and greatest times of its group, both attained |
| Summary.GroupedNeverFails | Tag_Tracking_Check/kml_viewer_gui.py:41-48 | given only what `group_positions` promises (its keys are the occupied names, each with its whole bucket), no list is empty, so `summarize` never raises |
| Rows.KeptIndices | Tag_Tracking_Check/kml_viewer_gui.py:24-30 | the indices of the kept records, strictly increasing and complete |
| Rows.FailStays | Tag_Tracking_Check/kml_viewer_gui.py:28-29 | once a record has raised, later records change nothing |
| Rows.CollectKeep | Tag_Tracking_Check/kml_viewer_gui.py:30 | a kept record appends its item |
| Rows.CollectSkip | Tag_Tracking_Check/kml_viewer_gui.py:25-26 | a skipped record (`continue`) changes nothing |
| Rows.CollectBad | Tag_Tracking_Check/kml_viewer_gui.py:28-29 | a bad record ends the loop with its exception |
| Rows.CollectOk | Tag_Tracking_Check/kml_viewer_gui.py:24-30 | the loop completes exactly when no record is bad, and it then returns the kept items in record order |
| Rows.CollectFail | Tag_Tracking_Check/kml_viewer_gui.py:24-30 | a raised exception is the one of the first bad record |
| Loaders.AfterHeader | Tag_Tracking_Check/kml_viewer_gui.py:23 | `next(reader, None)` drops the first row, if any |
| Loaders.PlaceName | Tag_Tracking_Check/kml_viewer_gui.py:27 | the name holds no `(` and neither starts nor ends with whitespace |
| Loaders.PlaceVerdict | Tag_Tracking_Check/kml_viewer_gui.py:25-30 | a row of four or more fields raises exactly when a coordinate is not a number; a kept row gives its cut name and converted coordinates |
| Loaders.ParsePlaces | Tag_Tracking_Check/kml_viewer_gui.py:19-31 | the row loop after the header equals the collected per-row verdicts |
| Loaders.PlacesFacts | Tag_Tracking_Check/kml_viewer_gui.py:23-30 | raises ValueError exactly on a bad coordinate; otherwise keeps, in file order, exactly the rows of four or more fields, with names cut at `(` and stripped |
| Loaders.ParseLocations | Tag_Tracking_Check/list_kml_positions.py:53-66 | the DictReader loop equals the collected per-row verdicts, stopping with TypeError at the first row whose `None` coordinate is reached |
| Loaders.LocationVerdict | Tag_Tracking_Check/list_kml_positions.py:59-65 | a missing column or a non-numeric coordinate skips the row; a `None` coordinate reached by the lookups raises TypeError; otherwise the row is kept with its name and converted coordinates |
| Loaders.LocationsFacts | Tag_Tracking_Check/list_kml_positions.py:58-65 | raises exactly when some row has a `None` coordinate that the lookups reach, and then TypeError; otherwise keeps, in file order, exactly the rows with all three keys and numeric coordinates |
| Loaders.Clock | route_compare_gui.py:25-28 | `replace('.', ':').strip()` leaves no `.` and no outer whitespace |
| Loaders.ParsePathTxt | route_compare_gui.py:13-37 | the row loop after the header equals the collected per-row verdicts |
| Loaders.PathOutcome | route_compare_gui.py:19-24 | raises ValueError exactly when a row of six or more fields has a non-numeric order or coordinate |
| Loaders.PathKept | route_compare_gui.py:19-36 | otherwise keeps, in file order, exactly the rows of six or more fields whose normalised arrival is neither `-` nor empty |
| Loaders.EntryFields | route_compare_gui.py:21-36 | a kept entry carries the converted order and coordinates and the normalised times, and its arrival is neither `-` nor empty |
| KmlTrack.ReadPlacemark | Tag_Tracking_Check/list_kml_positions.py:32-47 | one placemark: a missing element or a bad timestamp skips it, and a coordinate text with fewer than two numeric fields raises |
| KmlTrack.CollectFixes | Tag_Tracking_Check/list_kml_positions.py:30-47 | the placemark loop equals the collected per-placemark verdicts |
| KmlTrack.ParseKml | Tag_Tracking_Check_2/list_kml_positions.py:12-35 | the collected fixes sorted by time; the same code as Tag_Tracking_Check/list_kml_positions.py:26-50 |
| KmlTrack.FixFields | Tag_Tracking_Check_2/list_kml_positions.py:21-32 | a placemark is skipped exactly when it is unusable; a kept fix has the placemark's time and the swapped `lon,lat` coordinates |
| KmlTrack.TrackFacts | Tag_Tracking_Check/list_kml_positions.py:35-49 | raises ValueError exactly on a usable placemark with bad coordinates; otherwise one fix per usable placemark, sorted by time as a permutation, equal times in file order |
| LineCoords.ReadCoordinates | kmz_compare_gui.py:28-32 | the token loop over `text.strip().split()` equals the collected per-token verdicts |
| LineCoords.TokensOutcome | kmz_compare_gui.py:28-31 | the token loop raises (ValueError) exactly when a token of two or more comma fields has a non-numeric first or second field |
| LineCoords.TokensKept | show_kml_path.py:49-53 | otherwise one `(lat, lon)` per token of two or more comma fields, in token order, swapped from `lon,lat` |
| LineCoords.ParseKmlText | kmz_compare_gui.py:21-33 | the element loop equals element-by-element accumulation, skipping elements without text |
| LineCoords.ReadLine | kmz_compare_gui.py:27-32 | one element: its points are appended, or its exception ends the loop |
| LineCoords.LineFailStays | kmz_compare_gui.py:26-32 | once an element has raised, later elements change nothing |
| LineCoords.ParseKmlTextConcat | kmz_compare_gui.py:26-33 | when no element raises, the result is the points of every element with text, concatenated in element order |
| LineCoords.AllPointsAppend | kmz_compare_gui.py:26 | the element-order concatenation splits over appending one element |
| LineCoords.FirstCourse | show_kml_path.py:42-47 | the first folder whose stripped name is `course` and that has coordinates, or none |
| LineCoords.ParseCourse | show_kml_path.py:35-55 | the points of that folder; a `course` folder without coordinates is passed over; no such folder gives `[]` |
| LineCoords.Ext | kmz_compare_gui.py:38 | the extension is a suffix of the path, starting at its last `.` and holding no `/` |
| LineCoords.FirstKml | kmz_compare_gui.py:41 | the first member whose lowercased name ends with `.kml`, or none when no member does |
| LineCoords.LoadPath | kmz_compare_gui.py:36-48 | a `.kmz` path (any case) reads its first `.kml` member or raises ValueError; any other path is read as KML text |
| Nearest.ArgMinUpTo | route_compare_gui.py:70-75 | the first index whose distance is least among the first `n` points |
| Nearest.FindNearest | route_compare_gui.py:66-76 | `None` exactly for no points; otherwise the distance, time and position of the first point at least distance |
| Nearest.ArgMinByDistance | route_compare_gui.py:71-72 | the choice depends only on the distances |
| Divergence.Min | kmz_compare_gui.py:156 | `min(len(base), len(test))` |
| Divergence.FarMask | kmz_compare_gui.py:156-162 | one entry per common index, true exactly when the distance is strictly above 150 |
| Divergence.MaskShades | kmz_compare_gui.py:94 | each point's colour is red exactly when its mask entry is set |
| Divergence.BuildSegments | kmz_compare_gui.py:91-97 | the segments hold the zipped points in order, each coloured by its mask entry, as maximal runs: none empty and neighbours in different colours |
| Divergence.AddPoint | kmz_compare_gui.py:94-97 | one step appends the point with its colour and keeps the runs maximal |
| Divergence.OpenRun | kmz_compare_gui.py:95-96 | opening a segment on a colour change adds no point and keeps neighbours distinct |
| Divergence.AppendToLast | kmz_compare_gui.py:97 | appending to the last segment adds one point of that segment's colour and changes nothing else |
| Pyramid.Repeat | hello.py:6 | `c * n` is `n` copies of `c` |
| Pyramid.CenterFacts | hello.py:7 | `str.center` leaves a string at least as wide alone and pads a shorter one to the width, evenly when the margin is even |
| Pyramid.DrawPyramid | hello.py:4-7 | `h` rows for `h >= 1`, none for `h <= 0`; row `i` is `2i - 1` stars centred in `2h - 1` |
| Pyramid.RowShape | hello.py:6-7 | every row is `2h - 1` wide, with `h - i` spaces on each side of its stars |
| Pyramid.RowStars | hello.py:6-7 | row `i` holds stars exactly at positions `h - i` to `h + i - 2`, so `2i - 1` of them, and spaces elsewhere |
| Pyramid.LastRow | hello.py:6-7 | the last row is all stars |
| Text.TrailingSpaces | dumpstate_analyzer.py:21 | the run of whitespace that ends a string |
| Text.RStrip | dumpstate_analyzer.py:21-39 | `rstrip()` removes exactly the trailing whitespace |
| Text.StripFacts | dumpstate_gui.py:22-34 | `strip()` gives a string without outer whitespace, empty exactly when the input is all whitespace |
| Text.Lower | dumpstate_analyzer.py:15 | `lower()` keeps the length |
| Text.ReplaceChar | route_compare_gui.py:25 | a one-character `replace` keeps the length and leaves none of the old character |
| Text.FindFrom | dumpstate_analyzer.py:16 | a found occurrence is at or after the start |
| Text.FindFirst | dumpstate_analyzer.py:16 | the occurrence found is the first one; none found means none exists |
| Text.After | dumpstate_analyzer.py:50 | `split(sep, 1)[1]` is a suffix of the line |
| Text.SecondField | dumpstate_gui.py:31-33 | `split(sep)[1]` is a prefix of what follows the first `sep` |
| Text.Split | kmz_compare_gui.py:30 | `split(',')` has at least one piece and no piece holds a comma |
| Text.SplitJoin | kmz_compare_gui.py:30 | joining the pieces with the separator gives the string back |
| Text.SplitPieces | kmz_compare_gui.py:31 | there are two or more pieces exactly when the string holds the separator |
| Text.Span | dumpstate_analyzer.py:42 | the longest run of matching characters from a position |
| Text.WordsFacts | kmz_compare_gui.py:28 | every word of `split()` is non-empty and holds no whitespace |
| Text.RFind | kmz_compare_gui.py:38 | the last occurrence of a character, or -1 |
| Text.NatToString | dumpstate_gui.py:80 | `str(i)` of a counter is a non-empty run of digits |
| CrashLog.CleanAll | dumpstate_analyzer.py:39 | each captured line is stored as that script trims it |
| CrashLog.MatchStamp | dumpstate_analyzer.py:42 | the `\d{2}-\d{2} \d{2}:\d{2}:\d{2}\.\d+` match at the start of a line: present exactly when the line starts in that shape with a digit after the dot, and maximal in its digits |
| CrashLog.FirstStamp | dumpstate_analyzer.py:41-44 | the stamp of the first matching line of a block, and none when no line matches |
| CrashLog.LastWith | dumpstate_analyzer.py:46-50 | the last line of a block that holds the key |
| CrashLog.First | dumpstate_analyzer.py:16-26 | the first line satisfying a test, or the end |
| CrashLog.BlocksSkip | dumpstate_analyzer.py:24 | outside a block a non-marker line is ignored |
| CrashLog.BlocksMarker | dumpstate_analyzer.py:16-22 | a marker opens a block with no captured lines |
| CrashLog.OpenMarker | dumpstate_gui.py:17-23 | a marker inside a block discards the open block without reporting it |
| CrashLog.OpenClose | dumpstate_analyzer.py:26-37 | a closing line reports the block and ends it |
| CrashLog.OpenCapture | dumpstate_analyzer.py:39 | any other line inside a block is captured |
| CrashLog.OpenEnd | dumpstate_analyzer.py:52-60 | a block still open at the end of the log is reported |
| CrashLog.StartIdle | dumpstate_analyzer.py:9-13 | no line read, no event, nothing open |
| CrashLog.StepSkip | dumpstate_analyzer.py:24 | the scan so far is unchanged by a line outside a block |
| CrashLog.StepMarker | dumpstate_analyzer.py:16-22 | a marker line restarts capture whether or not a block is open |
| CrashLog.StepCapture | dumpstate_gui.py:24-33 | a captured line extends the open block |
| CrashLog.StepClose | dumpstate_gui.py:34-41 | a closing line emits the block's event |
| CrashLog.FinishIdle | dumpstate_analyzer.py:61 | with nothing open the events are the whole scan |
| CrashLog.FinishOpen | dumpstate_gui.py:42-48 | an open block is emitted at the end and completes the scan |
| CrashLog.CountSuffix | dumpstate_analyzer.py:14 | a suffix of the log has no more marker lines |
| CrashLog.BlocksCount | dumpstate_analyzer.py:16-37 | there are never more events than marker lines |
| CrashLog.BlocksOpenCount | dumpstate_analyzer.py:26-60 | an open block reports at most one event more than the markers still to come |
| CrashLog.NoMarkerNoReport | dumpstate_analyzer.py:16-24 | a log without markers reports nothing |
| CrashLog.TrackStart | dumpstate_analyzer.py:17-21 | a marker resets the fields, and the details start with the marker line |
| CrashLog.TrackEmit | dumpstate_analyzer.py:27-34 | the event built from the variables is the block's report, missing fields as `""` |
| CrashLog.TrackLine | dumpstate_analyzer.py:39-50 | a captured line keeps a latched timestamp, a later `Cmdline:`/`Cause:` line replaces the field, and the line is appended trimmed |
| CrashLog.LastWithStep | dumpstate_gui.py:30-33 | the last line with a key after one more line |
| CrashLog.CleanStep | dumpstate_gui.py:25 | appending a line appends its trimmed form to the details |
| CrashLog.StampNotEmpty | dumpstate_gui.py:26 | a latched timestamp is never empty, so `not timestamp` and `timestamp is None` agree |
| CrashLog.Captured | dumpstate_analyzer.py:71-72 | `m.group(1)` is a non-empty run of the group's character class |
| CrashLog.SearchFrom | dumpstate_gui.py:59-61 | a found group is a non-empty run of its class, found only in a line holding the prefix |
| CrashLog.SearchNone | dumpstate_analyzer.py:73-74 | `re.search` finds nothing exactly when the pattern matches at no position |
| CrashLog.SearchSome | dumpstate_analyzer.py:71-72 | a found group is the group of the leftmost matching position |
| CrashLog.SearchGroup | dumpstate_analyzer.py:71-74 | `m.group(1) if m else default` is the leftmost match's group, or the default when nothing matches |
| CrashLog.GroupOrUnique | dumpstate_gui.py:59-62 | the leftmost-match definition fixes a single value |
| CrashLog.AnrOf | dumpstate_analyzer.py:68-79 | a line reports an ANR exactly when it holds `ServiceANR` or `exitType: ANR`, with the line's stamp and the stripped line; an `exitType` line has no package |
| CrashLog.ReportsUnique | dumpstate_analyzer.py:68-79 | the field-by-field definition of an ANR event fixes a single event |
| CrashLog.ReasonSpace | dumpstate_gui.py:61 | a line without `reason:` holds no `reason: ` either |
| CrashLog.AnrReports | dumpstate_analyzer.py:68-79 | the event has the line's stamp and the stripped line; `ServiceANR` takes precedence over `exitType: ANR`; a `ServiceANR` line's package is the leftmost `UFZ : ` group and its reason the leftmost `reason:` group, defaulting to `ServiceANR` (analyzer) or `""` (GUI); an `exitType` line has no package and the reason `ANR` or `exitType: ANR` |
| CrashLog.AnrsFacts | dumpstate_gui.py:52-68 | the ANR loop never raises and reports one event per ANR line, in line order |
| DumpstateAnalyzer.ParseFcEvents | dumpstate_analyzer.py:6-61 | the state machine's events are the separator-closed blocks of the log, never more than the marker lines |
| DumpstateAnalyzer.Capture | dumpstate_analyzer.py:39-50 | one captured line keeps the variables in step with the block |
| DumpstateAnalyzer.ParseAnrEvents | dumpstate_analyzer.py:64-80 | the loop reports each ANR line's event, in line order |
| DumpstateAnalyzer.NextAnr | dumpstate_analyzer.py:67-79 | one line: its event, if any, is appended |
| DumpstateAnalyzer.ReadAnr | dumpstate_analyzer.py:68-79 | reports exactly on a `ServiceANR` or `exitType: ANR` line; `ServiceANR` wins, with the leftmost `UFZ : ` package and `reason:\s*` group, or the reason `ServiceANR` when there is none; an `exitType` line has no package and the reason `ANR` |
| DumpstateGui.ParseFcEvents | dumpstate_gui.py:8-49 | the state machine's events are the blank-line-closed blocks of the log, never more than the marker lines |
| DumpstateGui.OpenLine | dumpstate_gui.py:24-41 | a non-marker line inside a block: a blank line reports the block and ends it, any other line is captured, keeping the variables tracking the block |
| DumpstateGui.Capture | dumpstate_gui.py:25-33 | one captured line keeps the variables in step with the block |
| DumpstateGui.ParseAnrEvents | dumpstate_gui.py:52-68 | the loop reports each ANR line's event, in line order |
| DumpstateGui.NextAnr | dumpstate_gui.py:55-67 | one line: its event, if any, is appended |
| DumpstateGui.ReadAnr | dumpstate_gui.py:56-67 | reports exactly on a `ServiceANR` or `exitType: ANR` line; `ServiceANR` wins, with the leftmost `UFZ : ` package and `reason: ` group, or `""` when there is none; an `exitType` line has no package and the reason `exitType: ANR` |
| DumpstateGui.FcLines | dumpstate_gui.py:78-80 | one line per crash, numbered from 1 in order |
| DumpstateGui.AnrLines | dumpstate_gui.py:84-87 | one line per ANR, numbered from 1 in order |
| DumpstateGui.FcReport | dumpstate_gui.py:75-80 | the crash half of the report is its header, the no-events line only when there are none, then the numbered lines |
| DumpstateGui.AnrReport | dumpstate_gui.py:81-87 | the same for the ANR half |
| DumpstateGui.AnalyzeFile | dumpstate_gui.py:71-88 | the report is both halves joined with line breaks, built from the scanned crashes and ANRs |
| DumpstateGui.FcSectionFacts | dumpstate_gui.py:76-80 | the no-crash line appears exactly when there is no crash; the crash lines are numbered from 1 |
| DumpstateGui.AnrSectionFacts | dumpstate_gui.py:82-87 | the no-ANR line appears exactly when there is no ANR; the ANR lines are numbered from 1 |

## Left out

- Haversine is not modelled. Distance is a function parameter, so every grouping, arg-min and mask result holds for any distance function. NaN distances are not considered.
- Date and time parsing, the ISO `Z` rewrite and the KST (+9 h) conversion are not modelled. Times are integers, and parsing is a parameter returning `None` on failure.
- ElementTree, `csv`, `zipfile` and `open()` are not modelled. Inputs are the records they would yield:
  - placemarks, folders and LineString texts as `Option` values;
  - CSV rows as sequences of fields, DictReader rows as maps to `Option` fields, `None` for the columns a short row lacks;
  - log lines with their line breaks.
- `float()` and `int()` are not modelled: they are parameters returning `None` where Python raises ValueError.
- `.text` being `None` on an empty element (AttributeError) is not modelled.
- Loaders.LocationVerdict: a short row whose name column is filled with `None` while both coordinates are present is kept with the name `""` rather than `None`, because a place name is a string throughout the grouping. With the name column before the coordinate columns in the header, such a row cannot occur.
- Tkinter GUI classes, `webbrowser`, HTML templates and file writes, and every `main()` and top-level print are not modelled.
- `parse_kml` of route_compare_gui.py is not modelled: it is only used by the GUI.
- `draw_pyramid` prints its rows; the model returns them instead.
- `lower()` is ASCII-only, `\d` and `\w` are the ASCII classes, and `IsSpace` covers the Unicode whitespace `str.isspace()` accepts. `re.search` for `UFZ : ([\w\.]+)` and `reason:` is modelled by `SearchFrom`, a scan over start positions, proved to return the group of the leftmost match (`GroupOr`); other regular expressions are not modelled.
- `os.path.splitext` is the POSIX version; Windows `\` separators and drive letters are not modelled.
- Summary.Summarize: the in-place sort of each group's list is modelled as a returned list of lists. When `summarize` raises IndexError on an empty list, the model does not say which lists were already sorted.
- Divergence.BuildSegments: the in-place growth of `segments[-1]['coords']` is modelled on values, so aliasing of the segment dicts is not captured.
- KmlTrack.ParseKml: `positions.sort` in place is modelled as a returned sorted sequence.
- The `parse_fc_events` files are opened with `errors="ignore"`; byte decoding is not modelled.
