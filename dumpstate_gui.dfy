/** dumpstate_gui.py: the crash-block scanner, whose blocks end at a blank
    line, the ANR line classifier, and the text report `analyze_file`
    assembles from both. The log is given as its list of lines, each with
    its line break. */
module DumpstateGui {
  import opened Wrappers
  import opened Text
  import opened Rows
  import opened CrashLog

  /** `parse_fc_events`: the reports of `Scan` for this script, never more
      than there are marker lines. */
  method ParseFcEvents(lines: seq<string>) returns (events: seq<Crash>)
    ensures events == Scan(Gui, lines)
    ensures |events| <= Count(lines, IsMarker)
  {
    var capturing := false;
    var package: Option<string> := None;
    var timestamp: Option<string> := None;
    var cause: Option<string> := None;
    var eventLines: seq<string> := [];
    ghost var head: string := "";
    ghost var body: seq<string> := [];
    events := [];
    StartIdle(Gui, lines);
    for i := 0 to |lines|
      invariant capturing ==> Open(Gui, lines, i, events, head, body)
      invariant !capturing ==> Idle(Gui, lines, i, events)
      invariant capturing ==> Tracks(Gui, head, body, timestamp, package, cause, eventLines)
    {
      var line := lines[i];
      if Contains(Lower(line), "beginning of crash") {
        StepMarker(Gui, lines, i, events, capturing, head, body);
        capturing := true;
        package := None;
        timestamp := None;
        cause := None;
        eventLines := [Strip(line)];
        head, body := line, [];
        TrackStart(Gui, head);
      } else if capturing {
        capturing, events, body, timestamp, package, cause, eventLines :=
          OpenLine(lines, i, events, head, body, timestamp, package, cause, eventLines);
      } else {
        StepSkip(Gui, lines, i, events);
      }
    }
    if capturing {
      FinishOpen(Gui, lines, events, head, body);
      TrackEmit(Gui, head, body, timestamp, package, cause, eventLines);
      events := events + [Crash(OrEmpty(timestamp), OrEmpty(package), OrEmpty(cause), Join(eventLines, "\n"))];
    } else {
      FinishIdle(Gui, lines, events);
    }
    BlocksCount(RulesOf(Gui), lines);
  }

  /** The loop body for a line other than a marker while a block is open:
      a blank line reports the block and ends it, any other line is
      captured. */
  method OpenLine(lines: seq<string>, i: nat, events: seq<Crash>, ghost head: string, ghost body: seq<string>,
                  timestamp: Option<string>, package: Option<string>, cause: Option<string>, eventLines: seq<string>)
    returns (open: bool, events': seq<Crash>, ghost body': seq<string>,
             timestamp': Option<string>, package': Option<string>, cause': Option<string>, eventLines': seq<string>)
    requires i < |lines| && !IsMarker(lines[i])
    requires Open(Gui, lines, i, events, head, body)
    requires Tracks(Gui, head, body, timestamp, package, cause, eventLines)
    ensures open ==> Open(Gui, lines, i + 1, events', head, body')
    ensures open ==> Tracks(Gui, head, body', timestamp', package', cause', eventLines')
    ensures !open ==> Idle(Gui, lines, i + 1, events')
  {
    var line := lines[i];
    timestamp', package', cause', eventLines' := Capture(head, body, line, timestamp, package, cause, eventLines);
    StripFacts(line);
    if Strip(line) == "" {
      StepClose(Gui, lines, i, events, head, body);
      TrackEmit(Gui, head, body + [line], timestamp', package', cause', eventLines');
      events' := events + [Crash(OrEmpty(timestamp'), OrEmpty(package'), OrEmpty(cause'), Join(eventLines', "\n"))];
      open, body' := false, body + [line];
    } else {
      StepCapture(Gui, lines, i, events, head, body);
      events' := events;
      open, body' := true, body + [line];
    }
  }

  /** The body of the loop for a captured line, blank or not. */
  method Capture(ghost head: string, ghost body: seq<string>, line: string, timestamp: Option<string>,
                 package: Option<string>, cause: Option<string>, eventLines: seq<string>)
    returns (timestamp': Option<string>, package': Option<string>, cause': Option<string>, eventLines': seq<string>)
    requires Tracks(Gui, head, body, timestamp, package, cause, eventLines)
    ensures Tracks(Gui, head, body + [line], timestamp', package', cause', eventLines')
  {
    TrackLine(Gui, head, body, line);
    StampNotEmpty(body);
    var cleaned := Strip(line);
    assert cleaned == Clean(Gui, line);
    eventLines' := eventLines + [cleaned];
    timestamp' := timestamp;
    if timestamp.None? || timestamp.value == "" {
      var m := MatchStamp(line);
      if m.Some? {
        timestamp' := m;
      }
    }
    package' := package;
    if Contains(line, "Cmdline:") {
      package' := Some(Strip(SecondField(line, "Cmdline:")));
    }
    cause' := cause;
    if Contains(line, "Cause:") {
      cause' := Some(Strip(SecondField(line, "Cause:")));
    }
  }

  /** `parse_anr_events`: one event per `ServiceANR` or `exitType: ANR` line,
      in line order. */
  method ParseAnrEvents(lines: seq<string>) returns (events: seq<Anr>)
    ensures Collect(lines, AnrRow(Gui)) == Ok(events)
  {
    events := [];
    for i := 0 to |lines|
      invariant CollectUpTo(lines, i, AnrRow(Gui)) == Ok(events)
    {
      events := NextAnr(lines, i, events);
    }
  }

  /** One line of the loop: its ANR, if any, appended to `events`. */
  method NextAnr(lines: seq<string>, i: nat, events: seq<Anr>) returns (events': seq<Anr>)
    requires i < |lines| && CollectUpTo(lines, i, AnrRow(Gui)) == Ok(events)
    ensures CollectUpTo(lines, i + 1, AnrRow(Gui)) == Ok(events')
  {
    var event := ReadAnr(lines[i]);
    if event.Some? {
      CollectKeep(lines, i, AnrRow(Gui), events, event.value);
      events' := events + [event.value];
    } else {
      CollectSkip(lines, i, AnrRow(Gui), events);
      events' := events;
    }
  }

  /** The body of the loop: a `ServiceANR` line without `reason: ` reports
      an empty reason, an `exitType: ANR` line the reason `exitType: ANR`. */
  method ReadAnr(line: string) returns (event: Option<Anr>)
    ensures event.Some? <==> Contains(line, "ServiceANR") || Contains(line, "exitType: ANR")
    ensures event.Some? ==> Reports(Gui, line, event.value)
    ensures event == AnrOf(Gui, line)
  {
    AnrReports(Gui, line);
    if Contains(line, "ServiceANR") {
      var ts := OrEmpty(MatchStamp(line));
      var pkg := OrEmpty(SearchFrom(line, "UFZ : ", false, WordOrDot, 0));
      var reason := OrEmpty(SearchFrom(line, "reason: ", false, NotSpace, 0));
      event := Some(Anr(ts, pkg, reason, Strip(line)));
    } else if Contains(line, "exitType: ANR") {
      var ts := OrEmpty(MatchStamp(line));
      event := Some(Anr(ts, "", "exitType: ANR", Strip(line)));
    } else {
      event := None;
    }
  }

  // ----- analyze_file -----

  const FcHeader: string := "=== App F/C Events ==="
  const NoFc: string := "F/C 이벤트 없음"
  const AnrHeader: string := "\n=== ANR Events ==="
  const NoAnr: string := "ANR 이벤트 없음"

  /** The line of the `n`-th crash: the cause only when there is one. */
  function FcLine(n: nat, e: Crash): string {
    "[" + NatToString(n) + "] 시각: " + e.timestamp + " 패키지: " + e.package
      + (if e.cause != "" then ", 원인: " + e.cause else "")
  }

  /** The line of the `n`-th ANR: the package and the reason only when
      there is one. */
  function AnrLine(n: nat, a: Anr): string {
    "[" + NatToString(n) + "] 시각: " + a.timestamp
      + (if a.package != "" then " 패키지: " + a.package else "")
      + (if a.reason != "" then ", 원인: " + a.reason else "")
  }

  /** The numbered lines of the first `n` crashes, counted from 1. */
  function FcLines(fc: seq<Crash>, n: nat): (r: seq<string>)
    requires n <= |fc|
    ensures |r| == n && forall k :: 0 <= k < n ==> r[k] == FcLine(k + 1, fc[k])
  {
    seq(n, k requires 0 <= k < n => FcLine(k + 1, fc[k]))
  }

  function AnrLines(anr: seq<Anr>, n: nat): (r: seq<string>)
    requires n <= |anr|
    ensures |r| == n && forall k :: 0 <= k < n ==> r[k] == AnrLine(k + 1, anr[k])
  {
    seq(n, k requires 0 <= k < n => AnrLine(k + 1, anr[k]))
  }

  /** The crash section of the report. */
  function FcSection(fc: seq<Crash>): seq<string> {
    [FcHeader] + (if fc == [] then [NoFc] else []) + FcLines(fc, |fc|)
  }

  /** The ANR section of the report. */
  function AnrSection(anr: seq<Anr>): seq<string> {
    [AnrHeader] + (if anr == [] then [NoAnr] else []) + AnrLines(anr, |anr|)
  }

  /** `analyze_file`: the crash section and then the ANR section, joined
      with line breaks. */
  method AnalyzeFile(lines: seq<string>) returns (report: string)
    ensures Collect(lines, AnrRow(Gui)).Ok?
    ensures report == Join(FcSection(Scan(Gui, lines)) + AnrSection(Collect(lines, AnrRow(Gui)).value), "\n")
  {
    var fc := ParseFcEvents(lines);
    var anr := ParseAnrEvents(lines);
    var out := FcReport(fc);
    var rest := AnrReport(anr);
    report := Join(out + rest, "\n");
  }

  /** The crash half of `analyze_file`'s loop. */
  method FcReport(fc: seq<Crash>) returns (out: seq<string>)
    ensures out == FcSection(fc)
  {
    out := [FcHeader];
    if fc == [] {
      out := out + [NoFc];
    }
    ghost var start := out;
    for i := 0 to |fc|
      invariant out == start + FcLines(fc, i)
    {
      var e := fc[i];
      var cause := if e.cause != "" then ", 원인: " + e.cause else "";
      out := out + ["[" + NatToString(i + 1) + "] 시각: " + e.timestamp + " 패키지: " + e.package + cause];
      assert FcLines(fc, i + 1) == FcLines(fc, i) + [FcLine(i + 1, e)];
    }
  }

  /** The ANR half of `analyze_file`'s loop. */
  method AnrReport(anr: seq<Anr>) returns (out: seq<string>)
    ensures out == AnrSection(anr)
  {
    out := [AnrHeader];
    if anr == [] {
      out := out + [NoAnr];
    }
    ghost var start := out;
    for i := 0 to |anr|
      invariant out == start + AnrLines(anr, i)
    {
      var e := anr[i];
      var pkg := if e.package != "" then " 패키지: " + e.package else "";
      var reason := if e.reason != "" then ", 원인: " + e.reason else "";
      out := out + ["[" + NatToString(i + 1) + "] 시각: " + e.timestamp + pkg + reason];
      assert AnrLines(anr, i + 1) == AnrLines(anr, i) + [AnrLine(i + 1, e)];
    }
  }

  /** The no-crash line appears exactly when there is no crash, and the
      crash lines are numbered from 1 in order. */
  lemma FcSectionFacts(fc: seq<Crash>)
    ensures NoFc in FcSection(fc) <==> fc == []
    ensures |FcSection(fc)| == 1 + (if fc == [] then 1 else |fc|)
    ensures forall k :: 0 <= k < |fc| ==> FcSection(fc)[1 + k] == FcLine(k + 1, fc[k])
  {
    var s := FcSection(fc);
    if fc != [] {
      assert s == [FcHeader] + FcLines(fc, |fc|);
      forall x | x in s
        ensures x != NoFc
      {
        if x != FcHeader {
          var k :| 0 <= k < |fc| && x == FcLine(k + 1, fc[k]);
          assert x[0] == '[';
        }
      }
    }
  }

  /** The same for the ANR section. */
  lemma AnrSectionFacts(anr: seq<Anr>)
    ensures NoAnr in AnrSection(anr) <==> anr == []
    ensures |AnrSection(anr)| == 1 + (if anr == [] then 1 else |anr|)
    ensures forall k :: 0 <= k < |anr| ==> AnrSection(anr)[1 + k] == AnrLine(k + 1, anr[k])
  {
    var s := AnrSection(anr);
    if anr != [] {
      assert s == [AnrHeader] + AnrLines(anr, |anr|);
      forall x | x in s
        ensures x != NoAnr
      {
        if x != AnrHeader {
          var k :| 0 <= k < |anr| && x == AnrLine(k + 1, anr[k]);
          assert x[0] == '[';
        }
      }
    }
  }
}
