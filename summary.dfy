/** `summarize` in Tag_Tracking_Check/kml_viewer_gui.py: each group's fixes
    are sorted by time, the first and last times become the arrival and
    departure at that place, and the visits are ordered by arrival. */
module Summary {
  import opened Wrappers
  import opened Sorting
  import opened Proximity

  /** A summary row `(name, arrive, depart)`. */
  datatype Visit = Visit(name: string, arrive: int, depart: int)

  function Arrival(v: Visit): int { v.arrive }

  /** The least time in a non-empty list of fixes. */
  function Earliest(s: seq<Fix>): (t: int)
    requires s != []
    ensures exists i :: 0 <= i < |s| && s[i].time == t
    ensures forall i :: 0 <= i < |s| ==> t <= s[i].time
    decreases |s|
  {
    if |s| == 1 then s[0].time
    else
      var rest := Earliest(s[1..]);
      if s[0].time <= rest then s[0].time else rest
  }

  /** The greatest time in a non-empty list of fixes. */
  function Latest(s: seq<Fix>): (t: int)
    requires s != []
    ensures exists i :: 0 <= i < |s| && s[i].time == t
    ensures forall i :: 0 <= i < |s| ==> s[i].time <= t
    decreases |s|
  {
    if |s| == 1 then s[0].time
    else
      var rest := Latest(s[1..]);
      if s[0].time >= rest then s[0].time else rest
  }

  /** The visit a non-empty bucket stands for: its earliest and latest fix. */
  function SpanOf(name: string, s: seq<Fix>): (v: Visit)
    requires s != []
    ensures v.name == name && v.arrive <= v.depart
  {
    Visit(name, Earliest(s), Latest(s))
  }

  ghost predicate NoEmptyList(g: Groups) {
    forall k :: 0 <= k < |g.lists| ==> g.lists[k] != []
  }

  /** One visit per entry, in key order, before the final sort. */
  function Spans(g: Groups): (r: seq<Visit>)
    requires |g.keys| == |g.lists| && NoEmptyList(g)
    ensures |r| == |g.keys|
  {
    seq(|g.keys|, k requires 0 <= k < |g.keys| => SpanOf(g.keys[k], g.lists[k]))
  }

  /** After the time sort, the first fix carries the earliest time and the
      last fix the latest. */
  lemma SortedBucketEnds(s: seq<Fix>)
    requires s != []
    ensures |SortBy(s, Time)| == |s|
    ensures SortBy(s, Time)[0].time == Earliest(s)
    ensures SortBy(s, Time)[|s| - 1].time == Latest(s)
  {
    var t := SortBy(s, Time);
    SortBySortedPermutation(s, Time);
    SortedEnds(t, s, Time);
    var e := Earliest(s);
    var i :| 0 <= i < |s| && s[i].time == e;
    assert Time(t[0]) <= Time(s[i]);
    var l := Latest(s);
    var j :| 0 <= j < |s| && s[j].time == l;
    assert Time(s[j]) <= Time(t[|t| - 1]);
  }

  /** Loop invariant of `summarize`: the first `k` entries are sorted and
      summarised, the others untouched. */
  ghost predicate SummarizedUpTo(g: Groups, lists: seq<seq<Fix>>, summary: seq<Visit>, k: nat)
    requires |g.keys| == |g.lists| && k <= |g.keys|
  {
    |lists| == |g.lists| && |summary| == k &&
    (forall q :: 0 <= q < k ==> g.lists[q] != [] && lists[q] == SortBy(g.lists[q], Time)) &&
    (forall q :: k <= q < |lists| ==> lists[q] == g.lists[q]) &&
    (forall q :: 0 <= q < k ==> summary[q] == SpanOf(g.keys[q], g.lists[q]))
  }

  lemma SummarizeStep(g: Groups, lists: seq<seq<Fix>>, summary: seq<Visit>, k: nat)
    requires |g.keys| == |g.lists| && k < |g.keys|
    requires SummarizedUpTo(g, lists, summary, k)
    ensures var l := lists[k := SortBy(lists[k], Time)];
      (|l[k]| == 0 <==> g.lists[k] == []) &&
      (|l[k]| != 0 ==>
        SummarizedUpTo(g, l, summary + [Visit(g.keys[k], l[k][0].time, l[k][|l[k]| - 1].time)], k + 1))
  {
    SortBySortedPermutation(g.lists[k], Time);
    if g.lists[k] != [] {
      SortedBucketEnds(g.lists[k]);
    }
  }

  /** `summarize`: sorts every list by time (the new lists are returned, as the
      in-place sort leaves them in the dict), then reports one visit per entry
      ordered by arrival. An empty list makes `pos_list[0]` raise IndexError. */
  method Summarize(g: Groups) returns (r: Result<seq<Visit>>, lists: seq<seq<Fix>>)
    requires |g.keys| == |g.lists|
    ensures r.Ok? <==> NoEmptyList(g)
    ensures r.Fail? ==> r.error == IndexError
    ensures r.Ok? ==>
      |lists| == |g.lists| &&
      (forall k :: 0 <= k < |lists| ==> lists[k] == SortBy(g.lists[k], Time)) &&
      r.value == SortBy(Spans(g), Arrival)
  {
    var summary: seq<Visit> := [];
    lists := g.lists;
    var k := 0;
    while k < |g.keys|
      invariant 0 <= k <= |g.keys|
      invariant SummarizedUpTo(g, lists, summary, k)
    {
      SummarizeStep(g, lists, summary, k);
      lists := lists[k := SortBy(lists[k], Time)];
      if |lists[k]| == 0 {
        return Fail(IndexError), lists;
      }
      var arrive := lists[k][0].time;
      var depart := lists[k][|lists[k]| - 1].time;
      summary := summary + [Visit(g.keys[k], arrive, depart)];
      k := k + 1;
    }
    assert summary == Spans(g);
    r := Ok(SortBy(summary, Arrival));
  }

  /** The summary has exactly one visit per entry (a permutation of the
      entries' visits), is ordered by arrival, keeps entry order among equal
      arrivals, and every visit arrives no later than it departs. */
  lemma SummaryFacts(g: Groups)
    requires |g.keys| == |g.lists| && NoEmptyList(g)
    ensures |SortBy(Spans(g), Arrival)| == |g.keys|
    ensures multiset(SortBy(Spans(g), Arrival)) == multiset(Spans(g))
    ensures SortedBy(SortBy(Spans(g), Arrival), Arrival)
    ensures forall t :: WithKey(SortBy(Spans(g), Arrival), Arrival, t) == WithKey(Spans(g), Arrival, t)
    ensures forall v :: v in SortBy(Spans(g), Arrival) ==> v.arrive <= v.depart
  {
    var s := Spans(g);
    SortBySortedPermutation(s, Arrival);
    forall t ensures WithKey(SortBy(s, Arrival), Arrival, t) == WithKey(s, Arrival, t) {
      SortByStable(s, Arrival, t);
    }
    forall v | v in SortBy(s, Arrival) ensures v.arrive <= v.depart {
      assert v in multiset(SortBy(s, Arrival));
      var k :| 0 <= k < |s| && s[k] == v;
    }
  }

  /** A visit in the summary of a name's bucket spans exactly the times of the
      fixes in it: every fix lies between arrival and departure, and both
      ends are times of actual fixes. */
  lemma VisitBounds(g: Groups, k: nat)
    requires |g.keys| == |g.lists| && NoEmptyList(g) && k < |g.keys|
    ensures Spans(g)[k].name == g.keys[k]
    ensures forall f :: f in g.lists[k] ==> Spans(g)[k].arrive <= f.time <= Spans(g)[k].depart
    ensures exists f :: f in g.lists[k] && f.time == Spans(g)[k].arrive
    ensures exists f :: f in g.lists[k] && f.time == Spans(g)[k].depart
  {
    var s := g.lists[k];
    var i :| 0 <= i < |s| && s[i].time == Earliest(s);
    var j :| 0 <= j < |s| && s[j].time == Latest(s);
    assert s[i] in s && s[j] in s;
  }

  /** Fed the output of `group_positions` (its keys are the occupied names,
      each with its whole bucket), `summarize` never raises. */
  lemma GroupedNeverFails(g: Groups, fixes: seq<Fix>, places: seq<Place>, radius: real, dist: Distance)
    requires |g.keys| == |g.lists|
    requires g.keys == Occupied(Names(places), fixes, places, radius, dist)
    requires forall k :: 0 <= k < |g.keys| ==> g.lists[k] == Bucket(fixes, places, g.keys[k], radius, dist)
    ensures NoEmptyList(g)
  {
    OccupiedMembers(Names(places), fixes, places, radius, dist);
    forall k | 0 <= k < |g.lists|
      ensures g.lists[k] != []
    {
      assert g.keys[k] in Occupied(Names(places), fixes, places, radius, dist);
    }
  }
}
