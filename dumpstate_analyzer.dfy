/** dumpstate_analyzer.py: the crash-block scanner, whose blocks end at the
    start of another log section, and the ANR line classifier. The log is
    given as its list of lines, each with its line break. */
module DumpstateAnalyzer {
  import opened Wrappers
  import opened Text
  import opened Rows
  import opened CrashLog

  /** `parse_fc_events`: the reports of `Scan` for this script, never more
      than there are marker lines. */
  method ParseFcEvents(lines: seq<string>) returns (events: seq<Crash>)
    ensures events == Scan(Analyzer, lines)
    ensures |events| <= Count(lines, IsMarker)
  {
    var capturing := false;
    var package: Option<string> := None;
    var timestamp: Option<string> := None;
    var reason: Option<string> := None;
    var eventLines: seq<string> := [];
    ghost var head: string := "";
    ghost var body: seq<string> := [];
    events := [];
    StartIdle(Analyzer, lines);
    for i := 0 to |lines|
      invariant capturing ==> Open(Analyzer, lines, i, events, head, body)
      invariant !capturing ==> Idle(Analyzer, lines, i, events)
      invariant capturing ==> Tracks(Analyzer, head, body, timestamp, package, reason, eventLines)
    {
      var line := lines[i];
      var lower := Lower(line);
      if Contains(lower, "beginning of crash") {
        StepMarker(Analyzer, lines, i, events, capturing, head, body);
        capturing := true;
        package := None;
        timestamp := None;
        reason := None;
        eventLines := [RStrip(line)];
        head, body := line, [];
        TrackStart(Analyzer, head);
      } else if capturing {
        if StartsWith(line, "--------- ") && !Contains(lower, "beginning of crash") {
          StepClose(Analyzer, lines, i, events, head, body);
          assert body + Closing(Analyzer, line) == body;
          TrackEmit(Analyzer, head, body, timestamp, package, reason, eventLines);
          events := events + [Crash(OrEmpty(timestamp), OrEmpty(package), OrEmpty(reason), Join(eventLines, "\n"))];
          capturing := false;
        } else {
          StepCapture(Analyzer, lines, i, events, head, body);
          timestamp, package, reason, eventLines := Capture(head, body, line, timestamp, package, reason, eventLines);
          body := body + [line];
        }
      } else {
        StepSkip(Analyzer, lines, i, events);
      }
    }
    if capturing {
      FinishOpen(Analyzer, lines, events, head, body);
      TrackEmit(Analyzer, head, body, timestamp, package, reason, eventLines);
      events := events + [Crash(OrEmpty(timestamp), OrEmpty(package), OrEmpty(reason), Join(eventLines, "\n"))];
    } else {
      FinishIdle(Analyzer, lines, events);
    }
    BlocksCount(RulesOf(Analyzer), lines);
  }

  /** The body of the loop for a captured line. */
  method Capture(ghost head: string, ghost body: seq<string>, line: string, timestamp: Option<string>,
                 package: Option<string>, reason: Option<string>, eventLines: seq<string>)
    returns (timestamp': Option<string>, package': Option<string>, reason': Option<string>, eventLines': seq<string>)
    requires Tracks(Analyzer, head, body, timestamp, package, reason, eventLines)
    ensures Tracks(Analyzer, head, body + [line], timestamp', package', reason', eventLines')
  {
    TrackLine(Analyzer, head, body, line);
    var cleaned := RStrip(line);
    assert cleaned == Clean(Analyzer, line);
    eventLines' := eventLines + [cleaned];
    timestamp' := timestamp;
    if timestamp.None? {
      var m := MatchStamp(line);
      if m.Some? {
        timestamp' := m;
      }
    }
    package' := package;
    if Contains(line, "Cmdline:") {
      package' := Some(Strip(SecondField(line, "Cmdline:")));
    }
    reason' := reason;
    if Contains(line, "Cause:") {
      reason' := Some(Strip(After(line, "Cause:")));
    }
  }

  /** `parse_anr_events`: one event per `ServiceANR` or `exitType: ANR` line,
      in line order. */
  method ParseAnrEvents(lines: seq<string>) returns (events: seq<Anr>)
    ensures Collect(lines, AnrRow(Analyzer)) == Ok(events)
  {
    events := [];
    for i := 0 to |lines|
      invariant CollectUpTo(lines, i, AnrRow(Analyzer)) == Ok(events)
    {
      events := NextAnr(lines, i, events);
    }
  }

  /** One line of the loop: its ANR, if any, appended to `events`. */
  method NextAnr(lines: seq<string>, i: nat, events: seq<Anr>) returns (events': seq<Anr>)
    requires i < |lines| && CollectUpTo(lines, i, AnrRow(Analyzer)) == Ok(events)
    ensures CollectUpTo(lines, i + 1, AnrRow(Analyzer)) == Ok(events')
  {
    var event := ReadAnr(lines[i]);
    if event.Some? {
      CollectKeep(lines, i, AnrRow(Analyzer), events, event.value);
      events' := events + [event.value];
    } else {
      CollectSkip(lines, i, AnrRow(Analyzer), events);
      events' := events;
    }
  }

  /** The body of the loop: a `ServiceANR` line without `reason:` reports
      the reason `ServiceANR`, an `exitType: ANR` line the reason `ANR`. */
  method ReadAnr(line: string) returns (event: Option<Anr>)
    ensures event.Some? <==> Contains(line, "ServiceANR") || Contains(line, "exitType: ANR")
    ensures event.Some? ==> Reports(Analyzer, line, event.value)
    ensures event == AnrOf(Analyzer, line)
  {
    AnrReports(Analyzer, line);
    if Contains(line, "ServiceANR") {
      var ts := OrEmpty(MatchStamp(line));
      var pkg := OrEmpty(SearchFrom(line, "UFZ : ", false, WordOrDot, 0));
      var reasonMatch := SearchFrom(line, "reason:", true, NotSpace, 0);
      var reason := if reasonMatch.Some? then reasonMatch.value else "ServiceANR";
      event := Some(Anr(ts, pkg, reason, Strip(line)));
    } else if Contains(line, "exitType: ANR") {
      var ts := OrEmpty(MatchStamp(line));
      event := Some(Anr(ts, "", "ANR", Strip(line)));
    } else {
      event := None;
    }
  }
}
