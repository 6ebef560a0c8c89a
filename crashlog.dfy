/** What the crash-log scanners of dumpstate_analyzer.py and dumpstate_gui.py
    extract from a dumpstate log, stated over the whole list of lines: the
    crash blocks (a marker line and the lines captured after it) and the
    per-line ANR classification. The two scripts differ in how a block is
    closed, how its lines are trimmed and how the cause is cut out; a
    `Dialect` names which one is meant. */
module CrashLog {
  import opened Wrappers
  import opened Text
  import opened Rows

  datatype Dialect = Analyzer | Gui

  /** A line that opens a crash block. */
  predicate IsMarker(line: string) {
    Contains(Lower(line), "beginning of crash")
  }

  /** A line made of whitespace only (`line.strip() == ''`). */
  predicate Blank(line: string) {
    forall k :: 0 <= k < |line| ==> IsSpace(line[k])
  }

  /** A line that closes an open block: the start of another log section
      for the analyzer, a blank line for the GUI. */
  predicate Closes(d: Dialect, line: string) {
    match d
    case Analyzer => StartsWith(line, "--------- ") && !IsMarker(line)
    case Gui => Blank(line)
  }

  /** A line at which an open block stops growing. */
  predicate Stops(d: Dialect, line: string) {
    IsMarker(line) || Closes(d, line)
  }

  /** The closing line, as far as it belongs to the block: the GUI has
      already captured it when it sees that it is blank. */
  function Closing(d: Dialect, line: string): seq<string> {
    if d == Gui then [line] else []
  }

  /** How a line is stored in the details. */
  function Clean(d: Dialect, line: string): string {
    if d == Analyzer then RStrip(line) else Strip(line)
  }

  function CleanAll(d: Dialect, lines: seq<string>): (r: seq<string>)
    ensures |r| == |lines| && forall k :: 0 <= k < |lines| ==> r[k] == Clean(d, lines[k])
  {
    seq(|lines|, k requires 0 <= k < |lines| => Clean(d, lines[k]))
  }

  // ----- the timestamp prefix -----

  /** The shape of `\d{2}-\d{2} \d{2}:\d{2}:\d{2}\.`, a `0` standing for a
      digit. */
  const StampShape: string := "00-00 00:00:00."

  predicate Fits(c: char, shape: char) {
    if shape == '0' then IsDigit(c) else c == shape
  }

  /** `re.match(r'(\d{2}-\d{2} \d{2}:\d{2}:\d{2}\.\d+)', line)`: the
      matched prefix, whose fractional digits run as far as they go. */
  function MatchStamp(line: string): (r: Option<string>)
    ensures r.Some? <==> |line| > 15 && IsDigit(line[15]) && forall k :: 0 <= k < 15 ==> Fits(line[k], StampShape[k])
    ensures r.Some? ==> |r.value| > 15 && StartsWith(line, r.value)
    ensures r.Some? ==> ((forall k :: 15 <= k < |r.value| ==> IsDigit(r.value[k])) &&
      (|r.value| == |line| || !IsDigit(line[|r.value|])))
  {
    if |line| > 15 && IsDigit(line[15]) && forall k :: 0 <= k < 15 ==> Fits(line[k], StampShape[k]) then
      Some(line[..15 + Span(line, 15, IsDigit)])
    else None
  }

  // ----- the fields of a block -----

  /** The timestamp latched by the first line of `body` that starts with
      one; later matches never replace it. */
  function FirstStamp(body: seq<string>): (r: Option<string>)
    ensures r.Some? ==> exists j :: (0 <= j < |body| && MatchStamp(body[j]) == r
      && forall k :: 0 <= k < j ==> MatchStamp(body[k]).None?)
    ensures r.None? ==> forall k :: 0 <= k < |body| ==> MatchStamp(body[k]).None?
  {
    if body == [] then None
    else
      var earlier := FirstStamp(body[..|body| - 1]);
      if earlier.Some? then
        assert forall k :: 0 <= k < |body| - 1 ==> body[..|body| - 1][k] == body[k];
        earlier
      else
        assert forall k :: 0 <= k < |body| - 1 ==> body[..|body| - 1][k] == body[k];
        MatchStamp(body[|body| - 1])
  }

  /** The index of the last line of `body` containing `key`. */
  function LastWith(body: seq<string>, key: string): (r: Option<nat>)
    ensures r.Some? ==> (r.value < |body| && Contains(body[r.value], key)
      && forall k :: r.value < k < |body| ==> !Contains(body[k], key))
    ensures r.None? ==> forall k :: 0 <= k < |body| ==> !Contains(body[k], key)
  {
    if body == [] then None
    else if Contains(body[|body| - 1], key) then Some(|body| - 1)
    else
      var r := LastWith(body[..|body| - 1], key);
      assert forall k :: 0 <= k < |body| - 1 ==> body[..|body| - 1][k] == body[k];
      r
  }

  /** `line.split('Cmdline:')[1].strip()` of the last `Cmdline:` line. */
  function Package(body: seq<string>): Option<string> {
    match LastWith(body, "Cmdline:")
    case None => None
    case Some(j) => Some(Strip(SecondField(body[j], "Cmdline:")))
  }

  /** The cause from one line: everything after the first `Cause:` for the
      analyzer (`split("Cause:", 1)[1]`), the text up to a second `Cause:`
      for the GUI (`split('Cause:')[1]`); stripped either way. */
  function CauseOf(d: Dialect, line: string): string
    requires Contains(line, "Cause:")
  {
    if d == Analyzer then Strip(After(line, "Cause:")) else Strip(SecondField(line, "Cause:"))
  }

  /** The cause of the last `Cause:` line. */
  function Cause(d: Dialect, body: seq<string>): Option<string> {
    match LastWith(body, "Cause:")
    case None => None
    case Some(j) => Some(CauseOf(d, body[j]))
  }

  /** One reported crash (`timestamp`, `package`, `reason`/`cause`,
      `details`); a missing field is `""`. */
  datatype Crash = Crash(timestamp: string, package: string, cause: string, details: string)

  /** The crash a block reports: the marker line `head` and the lines
      captured after it. */
  function Event(d: Dialect, head: string, body: seq<string>): Crash {
    Crash(OrEmpty(FirstStamp(body)), OrEmpty(Package(body)), OrEmpty(Cause(d, body)),
          Join([Clean(d, head)] + CleanAll(d, body), "\n"))
  }

  // ----- the blocks of a log -----

  /** How a log is cut into blocks: which lines open a block, which stop
      one, what of a closing line still belongs to its block, and what a
      finished block reports. */
  datatype Rules = Rules(marker: string -> bool, stops: string -> bool,
                         closing: string -> seq<string>, report: (string, seq<string>) -> Crash)

  function RulesOf(d: Dialect): Rules {
    Rules(IsMarker, line => Stops(d, line), line => Closing(d, line), (head, body) => Event(d, head, body))
  }

  /** The index of the first line satisfying `p`, or `|lines|`. */
  function First(lines: seq<string>, p: string -> bool): (k: nat)
    ensures k <= |lines| && (k < |lines| ==> p(lines[k]))
    ensures forall j :: 0 <= j < k ==> !p(lines[j])
  {
    if lines == [] || p(lines[0]) then 0 else 1 + First(lines[1..], p)
  }

  /** What a log reports, in order: every marker opens a block that runs to
      the next stopping line; a block cut short by another marker is
      dropped, one ended by a closing line or by the end of the log is
      reported. Lines outside blocks are ignored. */
  function Blocks(rules: Rules, lines: seq<string>): seq<Crash>
    decreases |lines|, 0
  {
    var m := First(lines, rules.marker);
    if m == |lines| then [] else BlocksOpen(rules, lines[m], [], lines[m + 1..])
  }

  /** What the `rest` of a log reports while the block opened by `head`
      has captured `body`. */
  function BlocksOpen(rules: Rules, head: string, body: seq<string>, rest: seq<string>): seq<Crash>
    decreases |rest|, 1
  {
    var e := First(rest, rules.stops);
    if e == |rest| then [rules.report(head, body + rest)]
    else if rules.marker(rest[e]) then Blocks(rules, rest[e..])
    else [rules.report(head, body + rest[..e] + rules.closing(rest[e]))] + Blocks(rules, rest[e + 1..])
  }

  /** The crashes of a log as one of the two scripts reports them. */
  function Scan(d: Dialect, lines: seq<string>): seq<Crash> {
    Blocks(RulesOf(d), lines)
  }

  // ----- one line at a time -----

  /** Outside a block, a line that is no marker is passed over. */
  lemma BlocksSkip(rules: Rules, rest: seq<string>)
    requires rest != [] && !rules.marker(rest[0])
    ensures Blocks(rules, rest) == Blocks(rules, rest[1..])
  {
    var m := First(rest, rules.marker);
    assert m == 1 + First(rest[1..], rules.marker);
    if m < |rest| {
      assert rest[1..][m - 1] == rest[m];
      assert rest[1..][m - 1 + 1..] == rest[m + 1..];
      assert Blocks(rules, rest[1..]) == BlocksOpen(rules, rest[m], [], rest[m + 1..]);
    } else {
      assert Blocks(rules, rest[1..]) == [];
    }
  }

  /** A marker opens a block, whether or not one is open. */
  lemma BlocksMarker(rules: Rules, rest: seq<string>)
    requires rest != [] && rules.marker(rest[0])
    ensures Blocks(rules, rest) == BlocksOpen(rules, rest[0], [], rest[1..])
  {
  }

  lemma OpenMarker(rules: Rules, head: string, body: seq<string>, rest: seq<string>)
    requires rest != [] && rules.marker(rest[0]) && rules.stops(rest[0])
    ensures BlocksOpen(rules, head, body, rest) == BlocksOpen(rules, rest[0], [], rest[1..])
  {
    assert rest[0..] == rest;
  }

  /** A closing line reports the block. */
  lemma OpenClose(rules: Rules, head: string, body: seq<string>, rest: seq<string>)
    requires rest != [] && !rules.marker(rest[0]) && rules.stops(rest[0])
    ensures BlocksOpen(rules, head, body, rest) ==
      [rules.report(head, body + rules.closing(rest[0]))] + Blocks(rules, rest[1..])
  {
    assert First(rest, rules.stops) == 0;
    assert body + rest[..0] == body;
  }

  /** Any other line is captured. */
  lemma OpenCapture(rules: Rules, head: string, body: seq<string>, rest: seq<string>)
    requires rest != [] && !rules.stops(rest[0])
    ensures BlocksOpen(rules, head, body, rest) == BlocksOpen(rules, head, body + [rest[0]], rest[1..])
  {
    var e := First(rest, rules.stops);
    var tail := rest[1..];
    if e == |rest| {
      assert body + rest == body + [rest[0]] + tail;
    } else {
      assert rest[e..] == tail[e - 1..];
      assert rest[e + 1..] == tail[e - 1 + 1..];
      assert body + rest[..e] == body + [rest[0]] + tail[..e - 1];
    }
  }

  /** At the end of the log an open block is reported. */
  lemma OpenEnd(rules: Rules, head: string, body: seq<string>)
    ensures BlocksOpen(rules, head, body, []) == [rules.report(head, body)]
  {
    assert body + [] == body;
  }

  // ----- the scan so far -----

  /** After `i` lines outside a block, `events` and what the remaining
      lines report make up the whole scan. */
  ghost predicate Idle(d: Dialect, lines: seq<string>, i: nat, events: seq<Crash>) {
    i <= |lines| && events + Blocks(RulesOf(d), lines[i..]) == Scan(d, lines)
  }

  /** The same inside the block opened by `head` that has captured `body`. */
  ghost predicate Open(d: Dialect, lines: seq<string>, i: nat, events: seq<Crash>, head: string, body: seq<string>) {
    i <= |lines| && events + BlocksOpen(RulesOf(d), head, body, lines[i..]) == Scan(d, lines)
  }

  lemma StartIdle(d: Dialect, lines: seq<string>)
    ensures Idle(d, lines, 0, [])
  {
    assert lines[0..] == lines;
  }

  lemma StepSkip(d: Dialect, lines: seq<string>, i: nat, events: seq<Crash>)
    requires Idle(d, lines, i, events) && i < |lines| && !IsMarker(lines[i])
    ensures Idle(d, lines, i + 1, events)
  {
    BlocksSkip(RulesOf(d), lines[i..]);
    assert lines[i..][1..] == lines[i + 1..];
  }

  lemma StepMarker(d: Dialect, lines: seq<string>, i: nat, events: seq<Crash>, open: bool, head: string, body: seq<string>)
    requires i < |lines| && IsMarker(lines[i])
    requires if open then Open(d, lines, i, events, head, body) else Idle(d, lines, i, events)
    ensures Open(d, lines, i + 1, events, lines[i], [])
  {
    assert lines[i..][1..] == lines[i + 1..];
    if open {
      OpenMarker(RulesOf(d), head, body, lines[i..]);
    } else {
      BlocksMarker(RulesOf(d), lines[i..]);
    }
  }

  lemma StepCapture(d: Dialect, lines: seq<string>, i: nat, events: seq<Crash>, head: string, body: seq<string>)
    requires Open(d, lines, i, events, head, body) && i < |lines| && !Stops(d, lines[i])
    ensures Open(d, lines, i + 1, events, head, body + [lines[i]])
  {
    OpenCapture(RulesOf(d), head, body, lines[i..]);
    assert lines[i..][1..] == lines[i + 1..];
  }

  lemma StepClose(d: Dialect, lines: seq<string>, i: nat, events: seq<Crash>, head: string, body: seq<string>)
    requires Open(d, lines, i, events, head, body) && i < |lines| && !IsMarker(lines[i]) && Closes(d, lines[i])
    ensures Idle(d, lines, i + 1, events + [Event(d, head, body + Closing(d, lines[i]))])
  {
    OpenClose(RulesOf(d), head, body, lines[i..]);
    assert lines[i..][1..] == lines[i + 1..];
  }

  lemma FinishIdle(d: Dialect, lines: seq<string>, events: seq<Crash>)
    requires Idle(d, lines, |lines|, events)
    ensures events == Scan(d, lines)
  {
    assert Blocks(RulesOf(d), []) == [];
  }

  lemma FinishOpen(d: Dialect, lines: seq<string>, events: seq<Crash>, head: string, body: seq<string>)
    requires Open(d, lines, |lines|, events, head, body)
    ensures events + [Event(d, head, body)] == Scan(d, lines)
  {
    OpenEnd(RulesOf(d), head, body);
  }

  // ----- what the scan promises -----

  /** The number of lines satisfying `p`. */
  function Count(lines: seq<string>, p: string -> bool): nat {
    if lines == [] then 0 else (if p(lines[0]) then 1 else 0) + Count(lines[1..], p)
  }

  /** Dropping a prefix never adds matching lines, and dropping one without
      any removes none. */
  lemma {:induction false} CountSuffix(lines: seq<string>, p: string -> bool, k: nat)
    requires k <= |lines|
    ensures Count(lines[k..], p) <= Count(lines, p)
    ensures (forall j :: 0 <= j < k ==> !p(lines[j])) ==> Count(lines[k..], p) == Count(lines, p)
  {
    if k > 0 {
      CountSuffix(lines[1..], p, k - 1);
      assert lines[1..][k - 1..] == lines[k..];
    }
  }

  /** There are never more reports than marker lines. */
  lemma {:induction false} BlocksCount(rules: Rules, lines: seq<string>)
    ensures |Blocks(rules, lines)| <= Count(lines, rules.marker)
    decreases |lines|, 0
  {
    var m := First(lines, rules.marker);
    if m < |lines| {
      CountSuffix(lines, rules.marker, m);
      BlocksOpenCount(rules, lines[m], [], lines[m + 1..]);
      assert lines[m..][1..] == lines[m + 1..];
    }
  }

  lemma {:induction false} BlocksOpenCount(rules: Rules, head: string, body: seq<string>, rest: seq<string>)
    ensures |BlocksOpen(rules, head, body, rest)| <= 1 + Count(rest, rules.marker)
    decreases |rest|, 1
  {
    var e := First(rest, rules.stops);
    if e < |rest| {
      if rules.marker(rest[e]) {
        assert BlocksOpen(rules, head, body, rest) == Blocks(rules, rest[e..]);
        BlocksCount(rules, rest[e..]);
        CountSuffix(rest, rules.marker, e);
      } else {
        var report := rules.report(head, body + rest[..e] + rules.closing(rest[e]));
        assert BlocksOpen(rules, head, body, rest) == [report] + Blocks(rules, rest[e + 1..]);
        BlocksCount(rules, rest[e + 1..]);
        CountSuffix(rest, rules.marker, e + 1);
      }
    }
  }

  /** A log without markers reports nothing. */
  lemma NoMarkerNoReport(rules: Rules, lines: seq<string>)
    requires forall j :: 0 <= j < |lines| ==> !rules.marker(lines[j])
    ensures Blocks(rules, lines) == []
  {
    assert First(lines, rules.marker) == |lines|;
  }

  // ----- the scanners' variables -----

  /** The variables of an open block agree with the lines it has captured:
      `timestamp`, `package` and the cause as the block's fields, and the
      stored detail lines as its trimmed lines. */
  ghost predicate Tracks(d: Dialect, head: string, body: seq<string>, timestamp: Option<string>,
                         package: Option<string>, cause: Option<string>, eventLines: seq<string>) {
    timestamp == FirstStamp(body) && package == Package(body) && cause == Cause(d, body) &&
    eventLines == [Clean(d, head)] + CleanAll(d, body)
  }

  /** A marker line resets every variable. */
  lemma TrackStart(d: Dialect, head: string)
    ensures Tracks(d, head, [], None, None, None, [Clean(d, head)])
  {
    assert CleanAll(d, []) == [];
  }

  /** The event built from the variables is the block's report. */
  lemma TrackEmit(d: Dialect, head: string, body: seq<string>, timestamp: Option<string>,
                  package: Option<string>, cause: Option<string>, eventLines: seq<string>)
    requires Tracks(d, head, body, timestamp, package, cause, eventLines)
    ensures Crash(OrEmpty(timestamp), OrEmpty(package), OrEmpty(cause), Join(eventLines, "\n")) == Event(d, head, body)
  {
  }

  /** Capturing one more line: the timestamp stays once latched, the last
      `Cmdline:` and `Cause:` lines win. */
  lemma TrackLine(d: Dialect, head: string, body: seq<string>, line: string)
    ensures FirstStamp(body + [line]) == if FirstStamp(body).Some? then FirstStamp(body) else MatchStamp(line)
    ensures Package(body + [line]) ==
      if Contains(line, "Cmdline:") then Some(Strip(SecondField(line, "Cmdline:"))) else Package(body)
    ensures Cause(d, body + [line]) ==
      if Contains(line, "Cause:") then Some(CauseOf(d, line)) else Cause(d, body)
    ensures [Clean(d, head)] + CleanAll(d, body + [line]) == [Clean(d, head)] + CleanAll(d, body) + [Clean(d, line)]
  {
    assert (body + [line])[..|body|] == body;
    LastWithStep(body, line, "Cmdline:");
    LastWithStep(body, line, "Cause:");
    CleanStep(d, body, line);
    Regroup([Clean(d, head)], CleanAll(d, body), [Clean(d, line)]);
  }

  lemma Regroup(a: seq<string>, b: seq<string>, c: seq<string>)
    ensures a + (b + c) == a + b + c
  {
  }

  /** The last line with `key` after one more line. */
  lemma LastWithStep(body: seq<string>, line: string, key: string)
    ensures LastWith(body + [line], key) == if Contains(line, key) then Some(|body|) else LastWith(body, key)
  {
    assert (body + [line])[..|body|] == body;
  }

  lemma CleanStep(d: Dialect, body: seq<string>, line: string)
    ensures CleanAll(d, body + [line]) == CleanAll(d, body) + [Clean(d, line)]
  {
    assert CleanAll(d, body + [line]) == CleanAll(d, body) + [Clean(d, line)];
  }

  /** A latched timestamp is never empty, so `not timestamp` and
      `timestamp is None` agree. */
  lemma StampNotEmpty(body: seq<string>)
    ensures FirstStamp(body).Some? ==> FirstStamp(body).value != []
  {
    if FirstStamp(body).Some? {
      var j :| 0 <= j < |body| && MatchStamp(body[j]) == FirstStamp(body);
    }
  }

  // ----- ANR lines -----

  /** `[\w.]`, with `\w` taken as the ASCII letters, digits and `_`. */
  predicate WordOrDot(c: char) {
    'a' <= c <= 'z' || 'A' <= c <= 'Z' || IsDigit(c) || c == '_' || c == '.'
  }

  /** Where the group starts for a match of `prefix` at `p`: after the
      prefix and, when `skipSpaces`, after the greedy `\s*`. */
  function GroupStart(s: string, prefix: string, skipSpaces: bool, p: nat): nat
    requires p + |prefix| <= |s|
  {
    p + |prefix| + (if skipSpaces then Span(s, p + |prefix|, IsSpace) else 0)
  }

  /** The pattern `prefix` (then `\s*` when `skipSpaces`) followed by one or
      more `keep` characters matches at `p`. With `skipSpaces` the group is
      `\S+`, so the greedy `\s*` never has to give characters back. */
  predicate MatchesAt(s: string, prefix: string, skipSpaces: bool, keep: char -> bool, p: nat) {
    OccursAt(s, prefix, p) && GroupStart(s, prefix, skipSpaces, p) < |s| && keep(s[GroupStart(s, prefix, skipSpaces, p)])
  }

  /** `m.group(1)` for a match at `p`: the longest run of `keep` characters
      from the group start. */
  function Captured(s: string, prefix: string, skipSpaces: bool, keep: char -> bool, p: nat): (r: string)
    requires MatchesAt(s, prefix, skipSpaces, keep, p)
    ensures r != [] && forall c :: c in r ==> keep(c)
  {
    var start := GroupStart(s, prefix, skipSpaces, p);
    var n := Span(s, start, keep);
    assert forall c :: c in s[start..start + n] ==> keep(c);
    s[start..start + n]
  }

  /** `m.group(1) if m else dflt` for `m = re.search(pattern, s)`: the group
      of the leftmost match, or `dflt` when the pattern matches nowhere. */
  ghost predicate GroupOr(s: string, prefix: string, skipSpaces: bool, keep: char -> bool, dflt: string, v: string) {
    ((forall p: nat :: !MatchesAt(s, prefix, skipSpaces, keep, p)) && v == dflt) ||
    exists p: nat :: MatchesAt(s, prefix, skipSpaces, keep, p) &&
      (forall q: nat :: q < p ==> !MatchesAt(s, prefix, skipSpaces, keep, q)) &&
      v == Captured(s, prefix, skipSpaces, keep, p)
  }

  /** The search itself: try start positions from `i` on. */
  function SearchFrom(s: string, prefix: string, skipSpaces: bool, keep: char -> bool, i: nat): (r: Option<string>)
    ensures r.Some? ==> r.value != [] && forall c :: c in r.value ==> keep(c)
    ensures r.Some? ==> Contains(s, prefix)
    decreases |s| - i
  {
    if i + |prefix| > |s| then None
    else if MatchesAt(s, prefix, skipSpaces, keep, i) then
      FindFirst(s, prefix, 0);
      Some(Captured(s, prefix, skipSpaces, keep, i))
    else SearchFrom(s, prefix, skipSpaces, keep, i + 1)
  }

  /** The search finds nothing exactly when no position from `i` on
      matches. */
  lemma {:induction false} SearchNone(s: string, prefix: string, skipSpaces: bool, keep: char -> bool, i: nat)
    ensures SearchFrom(s, prefix, skipSpaces, keep, i).None? <==>
      forall p: nat :: i <= p ==> !MatchesAt(s, prefix, skipSpaces, keep, p)
    decreases |s| - i
  {
    if i + |prefix| <= |s| && !MatchesAt(s, prefix, skipSpaces, keep, i) {
      SearchNone(s, prefix, skipSpaces, keep, i + 1);
    }
  }

  /** A found group is the one of the leftmost match from `i` on. */
  lemma {:induction false} SearchSome(s: string, prefix: string, skipSpaces: bool, keep: char -> bool, i: nat)
    requires SearchFrom(s, prefix, skipSpaces, keep, i).Some?
    ensures exists p: nat ::
      (i <= p && MatchesAt(s, prefix, skipSpaces, keep, p) &&
       (forall q: nat :: i <= q < p ==> !MatchesAt(s, prefix, skipSpaces, keep, q)) &&
       SearchFrom(s, prefix, skipSpaces, keep, i).value == Captured(s, prefix, skipSpaces, keep, p))
    decreases |s| - i
  {
    if MatchesAt(s, prefix, skipSpaces, keep, i) {
      assert i + |prefix| <= |s|;
      assert SearchFrom(s, prefix, skipSpaces, keep, i).value == Captured(s, prefix, skipSpaces, keep, i);
    } else {
      SearchSome(s, prefix, skipSpaces, keep, i + 1);
      var p: nat :| i + 1 <= p && MatchesAt(s, prefix, skipSpaces, keep, p) &&
        (forall q: nat :: i + 1 <= q < p ==> !MatchesAt(s, prefix, skipSpaces, keep, q)) &&
        SearchFrom(s, prefix, skipSpaces, keep, i + 1).value == Captured(s, prefix, skipSpaces, keep, p);
      assert SearchFrom(s, prefix, skipSpaces, keep, i) == SearchFrom(s, prefix, skipSpaces, keep, i + 1);
      assert forall q: nat :: i <= q < p ==> !MatchesAt(s, prefix, skipSpaces, keep, q);
    }
  }

  /** `re.search(...)` with the `if m else dflt` default. */
  lemma SearchGroup(s: string, prefix: string, skipSpaces: bool, keep: char -> bool, dflt: string)
    ensures GroupOr(s, prefix, skipSpaces, keep, dflt,
                    match SearchFrom(s, prefix, skipSpaces, keep, 0) case None => dflt case Some(v) => v)
  {
    SearchNone(s, prefix, skipSpaces, keep, 0);
    if SearchFrom(s, prefix, skipSpaces, keep, 0).Some? {
      SearchSome(s, prefix, skipSpaces, keep, 0);
    }
  }

  /** The leftmost match is unique, so `GroupOr` pins the value down. */
  lemma GroupOrUnique(s: string, prefix: string, skipSpaces: bool, keep: char -> bool, dflt: string, v: string, w: string)
    requires GroupOr(s, prefix, skipSpaces, keep, dflt, v) && GroupOr(s, prefix, skipSpaces, keep, dflt, w)
    ensures v == w
  {
    if exists p: nat :: MatchesAt(s, prefix, skipSpaces, keep, p) {
      var p: nat :| MatchesAt(s, prefix, skipSpaces, keep, p) &&
        (forall q: nat :: q < p ==> !MatchesAt(s, prefix, skipSpaces, keep, q)) &&
        v == Captured(s, prefix, skipSpaces, keep, p);
      var p': nat :| MatchesAt(s, prefix, skipSpaces, keep, p') &&
        (forall q: nat :: q < p' ==> !MatchesAt(s, prefix, skipSpaces, keep, q)) &&
        w == Captured(s, prefix, skipSpaces, keep, p');
      assert p == p';
    }
  }

  /** One reported ANR. */
  datatype Anr = Anr(timestamp: string, package: string, reason: string, line: string)

  /** The ANR a line reports, if any: a `ServiceANR` line takes precedence
      over an `exitType: ANR` line. */
  function AnrOf(d: Dialect, line: string): (r: Option<Anr>)
    ensures r.Some? <==> Contains(line, "ServiceANR") || Contains(line, "exitType: ANR")
    ensures r.Some? ==> r.value.timestamp == OrEmpty(MatchStamp(line)) && r.value.line == Strip(line)
    ensures r.Some? && !Contains(line, "ServiceANR") ==> r.value.package == ""
  {
    var ts := OrEmpty(MatchStamp(line));
    if Contains(line, "ServiceANR") then
      var pkg := OrEmpty(SearchFrom(line, "UFZ : ", false, WordOrDot, 0));
      var reason :=
        if d == Analyzer then
          match SearchFrom(line, "reason:", true, NotSpace, 0)
          case None => "ServiceANR"
          case Some(v) => v
        else OrEmpty(SearchFrom(line, "reason: ", false, NotSpace, 0));
      Some(Anr(ts, pkg, reason, Strip(line)))
    else if Contains(line, "exitType: ANR") then
      Some(Anr(ts, "", if d == Analyzer then "ANR" else "exitType: ANR", Strip(line)))
    else None
  }

  /** The event a line reports, field by field, as the regular expressions
      of the two scripts define it. A `ServiceANR` line takes precedence over
      an `exitType: ANR` line: its package is the `UFZ : ([\w\.]+)` group
      and its reason the `reason:` group, defaulting to `ServiceANR` in the
      analyzer and to `""` in the GUI; an `exitType: ANR` line has no
      package and the reason `ANR` or `exitType: ANR`. */
  ghost predicate Reports(d: Dialect, line: string, a: Anr) {
    a.timestamp == OrEmpty(MatchStamp(line)) && a.line == Strip(line) &&
    if Contains(line, "ServiceANR") then
      GroupOr(line, "UFZ : ", false, WordOrDot, "", a.package) &&
      if d == Analyzer then GroupOr(line, "reason:", true, NotSpace, "ServiceANR", a.reason)
      else GroupOr(line, "reason: ", false, NotSpace, "", a.reason)
    else
      a.package == "" && a.reason == (if d == Analyzer then "ANR" else "exitType: ANR")
  }

  /** At most one event satisfies `Reports`. */
  lemma ReportsUnique(d: Dialect, line: string, a: Anr, b: Anr)
    requires Reports(d, line, a) && Reports(d, line, b)
    ensures a == b
  {
    if Contains(line, "ServiceANR") {
      GroupOrUnique(line, "UFZ : ", false, WordOrDot, "", a.package, b.package);
      if d == Analyzer {
        GroupOrUnique(line, "reason:", true, NotSpace, "ServiceANR", a.reason, b.reason);
      } else {
        GroupOrUnique(line, "reason: ", false, NotSpace, "", a.reason, b.reason);
      }
    }
  }

  /** An occurrence of `reason: ` is an occurrence of `reason:`. */
  lemma ReasonSpace(line: string)
    ensures Contains(line, "reason: ") ==> Contains(line, "reason:")
  {
    if Contains(line, "reason: ") {
      var j := Find(line, "reason: ").value;
      assert line[j..j + 7] == line[j..j + 8][..7];
      FindFirst(line, "reason:", 0);
      assert OccursAt(line, "reason:", j);
    }
  }

  /** The event `AnrOf` builds is the one the regular expressions define;
      with no `reason:` in a `ServiceANR` line the reason is the dialect's
      default. */
  lemma AnrReports(d: Dialect, line: string)
    ensures AnrOf(d, line).Some? ==> Reports(d, line, AnrOf(d, line).value)
    ensures Contains(line, "ServiceANR") && !Contains(line, "reason:") ==>
      AnrOf(d, line).value.reason == (if d == Analyzer then "ServiceANR" else "")
  {
    if Contains(line, "ServiceANR") {
      SearchGroup(line, "UFZ : ", false, WordOrDot, "");
      if d == Analyzer {
        SearchGroup(line, "reason:", true, NotSpace, "ServiceANR");
      } else {
        SearchGroup(line, "reason: ", false, NotSpace, "");
        ReasonSpace(line);
      }
    }
  }

  function AnrVerdict(d: Dialect, line: string): Verdict<Anr> {
    match AnrOf(d, line)
    case None => Skip
    case Some(a) => Keep(a)
  }

  function AnrRow(d: Dialect): string -> Verdict<Anr> {
    line => AnrVerdict(d, line)
  }

  /** The per-line loop never raises, and reports exactly one ANR per line
      that has one, in line order. */
  lemma AnrsFacts(d: Dialect, lines: seq<string>)
    ensures Collect(lines, AnrRow(d)).Ok?
    ensures var idx := KeptIndices(lines, |lines|, AnrRow(d));
      var r := Collect(lines, AnrRow(d)).value;
      |r| == |idx| &&
      (forall i :: 0 <= i < |lines| ==> (i in idx <==> AnrOf(d, lines[i]).Some?)) &&
      forall k :: 0 <= k < |idx| ==> r[k] == AnrOf(d, lines[idx[k]]).value
  {
    CollectOk(lines, |lines|, AnrRow(d));
  }
}
