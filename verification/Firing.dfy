/** R6: one alert's firing episodes, from all of its rows at once (`src/rules/firing.py`). */
module Firing {
  import opened Text
  import opened Sorting
  import opened Normalize
  import opened Window

  const R6_FLAP_WINDOW: int := 24 * HOUR
  const R6_FLAP_CYCLES: nat := 3
  const R6_API_SPAM_PER_24H: nat := 24
  const R6_API_RATE_WINDOW: int := 24 * HOUR
  const R6_API_MIN_SPAN: int := 6 * HOUR
  const R6_STUCK_OPEN: int := 72 * HOUR

  datatype Pattern = Flapping | Spamming | Stuck

  /** `rows` events over `span`: the exact quotient behind the displayed events per 24 hours. */
  datatype Rate = Rate(rows: nat, span: int)

  datatype FiringFacts = FiringFacts(
    clearCount: nat,
    maxClearCycles24h: nat,
    maxEpisodeFiringRows: nat,
    openSince: Option<int>,
    openSpan: Option<int>,
    span: int,
    eventsPer24h: Option<Rate>,
    pattern: Option<Pattern>)

  predicate IsClear(row: Row) {
    if row.schema == V1 then row.severity == Some("clear") else row.status == Some("resolved")
  }

  /** All that R6 reads of a row. */
  datatype Event = Event(at: int, clear: bool)

  function EventOf(row: Row): Event {
    Event(row.at, IsClear(row))
  }

  function Events(rows: seq<Row>): (es: seq<Event>)
    ensures |es| == |rows| && forall i :: 0 <= i < |rows| ==> es[i] == EventOf(rows[i])
  {
    seq(|rows|, i requires 0 <= i < |rows| => EventOf(rows[i]))
  }

  lemma {:induction false} EventsAppend(rows: seq<Row>, row: Row)
    ensures Events(rows + [row]) == Events(rows) + [EventOf(row)]
  {
  }

  /** At one instant, firing comes before clear. */
  predicate EventOrder(e: Event, f: Event) {
    e.at < f.at || (e.at == f.at && (e.clear ==> f.clear))
  }

  predicate RowOrder(r: Row, s: Row) {
    if EventOf(r) == EventOf(s) then !Less(s.docHash, r.docHash) else EventOrder(EventOf(r), EventOf(s))
  }

  /** The events in the order R6 judges them: determined by the multiset of rows alone. */
  function Ordered(rows: seq<Row>): (o: seq<Event>)
    ensures |o| == |rows|
  {
    Sort(Events(rows), EventOrder)
  }

  // ----- what the facts mean, on ordered events

  /** Firing events since the last clear: the size of the open episode. */
  function OpenRun(o: seq<Event>): (n: nat)
    ensures n <= |o|
  {
    if o == [] || o[|o| - 1].clear then 0 else OpenRun(o[..|o| - 1]) + 1
  }

  function OpenSince(o: seq<Event>): Option<int> {
    if OpenRun(o) == 0 then None else Some(o[|o| - OpenRun(o)].at)
  }

  function LongestRun(o: seq<Event>): nat {
    if o == [] then 0
    else if LongestRun(o[..|o| - 1]) < OpenRun(o) then OpenRun(o) else LongestRun(o[..|o| - 1])
  }

  /** The events from `i` to before `j` are firing ones. */
  predicate AllFiring(o: seq<Event>, i: nat, j: nat)
    requires i <= j <= |o|
  {
    forall k :: i <= k < j ==> !o[k].clear
  }

  /** The open episode is what follows the last clear. */
  lemma {:induction false} OpenRunIsSuffix(o: seq<Event>)
    ensures AllFiring(o, |o| - OpenRun(o), |o|)
    ensures OpenRun(o) < |o| ==> o[|o| - OpenRun(o) - 1].clear
  {
    if o != [] && !o[|o| - 1].clear {
      OpenRunIsSuffix(o[..|o| - 1]);
    }
  }

  lemma {:induction false} LongestRunBounds(o: seq<Event>, i: nat, j: nat)
    requires i <= j <= |o| && AllFiring(o, i, j)
    ensures j - i <= LongestRun(o)
  {
    if j == |o| {
      OpenRunIsSuffix(o);
      assert OpenRun(o) >= j - i;
    } else {
      LongestRunBounds(o[..|o| - 1], i, j);
    }
  }

  lemma {:induction false} LongestRunIsAttained(o: seq<Event>) returns (i: nat, j: nat)
    ensures i <= j <= |o| && AllFiring(o, i, j) && j - i == LongestRun(o)
  {
    if o == [] {
      i, j := 0, 0;
    } else if LongestRun(o[..|o| - 1]) < OpenRun(o) {
      OpenRunIsSuffix(o);
      i, j := |o| - OpenRun(o), |o|;
    } else {
      i, j := LongestRunIsAttained(o[..|o| - 1]);
    }
  }

  /** `max_episode_firing_rows` is the largest number of consecutive firing events without a clear between them. */
  lemma {:induction false} LongestRunIsMaximum(o: seq<Event>)
    ensures forall i, j :: 0 <= i <= j <= |o| && AllFiring(o, i, j) ==> j - i <= LongestRun(o)
    ensures exists i, j :: 0 <= i <= j <= |o| && AllFiring(o, i, j) && j - i == LongestRun(o)
  {
    forall i, j | 0 <= i <= j <= |o| && AllFiring(o, i, j) ensures j - i <= LongestRun(o) {
      LongestRunBounds(o, i, j);
    }
    var i, j := LongestRunIsAttained(o);
  }

  function Clears(o: seq<Event>): nat {
    if o == [] then 0 else Clears(o[..|o| - 1]) + (if o[|o| - 1].clear then 1 else 0)
  }

  /** The instants at which a clear directly follows a firing event. */
  function CycleTimes(o: seq<Event>): seq<int> {
    if o == [] then []
    else
      var n := |o| - 1;
      if n > 0 && o[n].clear && !o[n - 1].clear then CycleTimes(o[..n]) + [o[n].at] else CycleTimes(o[..n])
  }

  /** How many of `ts` lie less than 24 hours before `t`. */
  function Recent(ts: seq<int>, t: int): nat {
    if ts == [] then 0
    else Recent(ts[..|ts| - 1], t) + (if t - ts[|ts| - 1] < R6_FLAP_WINDOW then 1 else 0)
  }

  /** The most cycles ending at any one of them; `BusiestIsMaximum` says what that is. */
  function Busiest(ts: seq<int>): nat {
    if ts == [] then 0
    else
      var r := Recent(ts, ts[|ts| - 1]);
      if Busiest(ts[..|ts| - 1]) < r then r else Busiest(ts[..|ts| - 1])
  }

  function EventsPer24h(n: nat, span: int): Option<Rate> {
    if span >= R6_API_MIN_SPAN then Some(Rate(n, span)) else None
  }

  function PatternOf(n: nat, cycles: nat, openSpan: Option<int>, span: int, grafana: bool): Option<Pattern> {
    if cycles >= R6_FLAP_CYCLES then Some(Flapping)
    else if !grafana && span >= R6_API_MIN_SPAN && n * R6_API_RATE_WINDOW >= R6_API_SPAM_PER_24H * span then
      Some(Spamming)
    else if grafana && openSpan.Some? && openSpan.value >= R6_STUCK_OPEN then Some(Stuck)
    else None
  }

  function FactsOf(o: seq<Event>, provider: Option<string>): FiringFacts
    requires o != []
  {
    var last := o[|o| - 1].at;
    var span := last - o[0].at;
    var cycles := Busiest(CycleTimes(o));
    var openSpan := if OpenSince(o).None? then None else Some(last - OpenSince(o).value);
    FiringFacts(Clears(o), cycles, LongestRun(o), OpenSince(o), openSpan, span, EventsPer24h(|o|, span),
                PatternOf(|o|, cycles, openSpan, span, provider == Some("grafana")))
  }

  // ----- the order of rows at one instant does not matter

  lemma {:induction false} EventOrderTotal()
    ensures TotalPreorder(EventOrder)
    ensures forall s: seq<Event> :: Antisymmetric(s, EventOrder)
  {
  }

  lemma {:induction false} RowOrderTotal()
    ensures TotalPreorder(RowOrder)
  {
    forall r: Row, s: Row ensures RowOrder(r, s) || RowOrder(s, r) {
      LessTrichotomy(r.docHash, s.docHash);
    }
    forall r: Row, s: Row, t: Row | RowOrder(r, s) && RowOrder(s, t) ensures RowOrder(r, t) {
      LessTrichotomy(r.docHash, s.docHash);
      LessTrichotomy(s.docHash, t.docHash);
      LessTrichotomy(r.docHash, t.docHash);
      if Less(r.docHash, s.docHash) && Less(s.docHash, t.docHash) {
        LessTransitive(r.docHash, s.docHash, t.docHash);
      }
    }
  }

  lemma {:induction false} EventsPermute(s: seq<Row>, t: seq<Row>)
    requires multiset(s) == multiset(t)
    ensures multiset(Events(s)) == multiset(Events(t))
  {
    SameElements(s, t);
    if s != [] {
      assert s[0] in t;
      var k :| 0 <= k < |t| && t[k] == s[0];
      Extract(t, k);
      HeadTail(s);
      EventsPermute(s[1..], Without(t, k));
      EventsSplit(s, 0);
      EventsSplit(t, k);
      assert Without(s, 0) == s[1..];
    }
  }

  lemma {:induction false} EventsSplit(s: seq<Row>, k: nat)
    requires k < |s|
    ensures multiset(Events(s)) == multiset(Events(Without(s, k))) + multiset{EventOf(s[k])}
  {
    Extract(Events(s), k);
    assert Without(Events(s), k) == Events(Without(s, k));
  }

  lemma {:induction false} OrderedIsSorted(rows: seq<Row>)
    ensures Sorted(Ordered(rows), EventOrder)
    ensures multiset(Ordered(rows)) == multiset(Events(rows))
  {
    EventOrderTotal();
    SortSorts(Events(rows), EventOrder);
    SortPermutes(Events(rows), EventOrder);
  }

  lemma {:induction false} OrderedIsUnique(o: seq<Event>, rows: seq<Row>)
    requires Sorted(o, EventOrder) && multiset(o) == multiset(Events(rows))
    ensures o == Ordered(rows)
  {
    OrderedIsSorted(rows);
    EventOrderTotal();
    SortedUnique(o, Ordered(rows), EventOrder);
  }

  /** Facts depend on the rows as a multiset: neither page boundaries nor ties can change them. */
  lemma {:induction false} OrderedOfPermutation(s: seq<Row>, t: seq<Row>)
    requires multiset(s) == multiset(t)
    ensures Ordered(s) == Ordered(t)
  {
    EventsPermute(s, t);
    OrderedIsSorted(s);
    OrderedIsUnique(Ordered(s), t);
  }

  /** Sorting whole rows, document hashes included, puts their events in the one order. */
  lemma {:induction false} SortedRowsAreOrdered(rows: seq<Row>)
    ensures Events(Sort(rows, RowOrder)) == Ordered(rows)
  {
    var s := Sort(rows, RowOrder);
    RowOrderTotal();
    SortSorts(rows, RowOrder);
    SortPermutes(rows, RowOrder);
    EventsPermute(s, rows);
    forall i, j | 0 <= i < j < |s| ensures EventOrder(Events(s)[i], Events(s)[j]) {
      assert RowOrder(s[i], s[j]);
    }
    OrderedIsUnique(Events(s), rows);
  }

  /** The facts of a non-empty set of rows, whatever order they come in. */
  function FactsOfRows(rows: seq<Row>, provider: Option<string>): FiringFacts
    requires rows != []
  {
    FactsOf(Ordered(rows), provider)
  }

  // ----- the busiest 24 hours

  ghost predicate Ascending(ts: seq<int>) {
    forall i, j :: 0 <= i < j < |ts| ==> ts[i] <= ts[j]
  }

  /** How many of `ts` fall in the half-open 24 hours from `from`. */
  function InSpan(ts: seq<int>, from: int): nat {
    if ts == [] then 0
    else InSpan(ts[..|ts| - 1], from) + (if from <= ts[|ts| - 1] < from + R6_FLAP_WINDOW then 1 else 0)
  }

  lemma {:induction false} SpanWithinRecent(ts: seq<int>, from: int, t: int)
    requires forall i :: 0 <= i < |ts| ==> ts[i] <= t
    ensures from <= t < from + R6_FLAP_WINDOW ==> InSpan(ts, from) <= Recent(ts, t)
    ensures InSpan(ts, t - R6_FLAP_WINDOW + 1) == Recent(ts, t)
  {
    if ts != [] {
      SpanWithinRecent(ts[..|ts| - 1], from, t);
    }
  }

  lemma {:induction false} BusiestBounds(ts: seq<int>, from: int)
    requires Ascending(ts)
    ensures InSpan(ts, from) <= Busiest(ts)
  {
    if ts != [] {
      var n := |ts| - 1;
      BusiestBounds(ts[..n], from);
      SpanWithinRecent(ts, from, ts[n]);
    }
  }

  lemma {:induction false} BusiestIsAttained(ts: seq<int>) returns (from: int)
    requires Ascending(ts)
    ensures InSpan(ts, from) == Busiest(ts)
  {
    from := 0;
    if ts != [] {
      var n := |ts| - 1;
      SpanWithinRecent(ts, 0, ts[n]);
      from := ts[n] - R6_FLAP_WINDOW + 1;
      if Busiest(ts[..n]) >= Recent(ts, ts[n]) {
        from := BusiestIsAttained(ts[..n]);
        BusiestBounds(ts, from);
      }
    }
  }

  /** `max_clear_cycles_24h` is the largest number of cycles in any half-open 24-hour span. */
  lemma {:induction false} BusiestIsMaximum(ts: seq<int>)
    requires Ascending(ts)
    ensures forall from :: InSpan(ts, from) <= Busiest(ts)
    ensures exists from :: InSpan(ts, from) == Busiest(ts)
  {
    forall from ensures InSpan(ts, from) <= Busiest(ts) {
      BusiestBounds(ts, from);
    }
    var from := BusiestIsAttained(ts);
    assert InSpan(ts, from) == Busiest(ts);
  }

  lemma {:induction false} CycleTimesAscend(o: seq<Event>)
    requires Sorted(o, EventOrder)
    ensures Ascending(CycleTimes(o))
    ensures forall i :: 0 <= i < |CycleTimes(o)| ==> o != [] && CycleTimes(o)[i] <= o[|o| - 1].at
  {
    if o != [] {
      CycleTimesAscend(o[..|o| - 1]);
    }
  }

  /** When the old cycles are a prefix, the recent ones are the rest. */
  lemma {:induction false} RecentIsSuffix(ts: seq<int>, k: nat, t: int)
    requires k <= |ts|
    requires forall i :: 0 <= i < k ==> t - ts[i] >= R6_FLAP_WINDOW
    requires forall i :: k <= i < |ts| ==> t - ts[i] < R6_FLAP_WINDOW
    ensures Recent(ts, t) == |ts| - k
  {
    if ts != [] {
      var n := |ts| - 1;
      RecentIsSuffix(ts[..n], if k <= n then k else n, t);
    }
  }

  lemma {:induction false} FactsIgnoreOrder(s: seq<Row>, t: seq<Row>, provider: Option<string>)
    requires s != [] && multiset(s) == multiset(t)
    ensures t != [] && FactsOfRows(s, provider) == FactsOfRows(t, provider)
  {
    SameElements(s, t);
    OrderedOfPermutation(s, t);
  }

  lemma {:induction false} FlapCountIsMaximum(rows: seq<Row>, provider: Option<string>)
    requires rows != []
    ensures var m := FactsOfRows(rows, provider).maxClearCycles24h;
      && (forall from :: InSpan(CycleTimes(Ordered(rows)), from) <= m)
      && (exists from :: InSpan(CycleTimes(Ordered(rows)), from) == m)
  {
    OrderedIsSorted(rows);
    CycleTimesAscend(Ordered(rows));
    BusiestIsMaximum(CycleTimes(Ordered(rows)));
  }

  // ----- the batch computation

  method MaxCycles(ts: seq<int>) returns (maxCycles: nat)
    requires Ascending(ts)
    ensures maxCycles == Busiest(ts)
  {
    maxCycles := 0;
    var start := 0;
    for end := 0 to |ts|
      invariant start <= end
      invariant forall i :: 0 <= i < start ==> end > 0 && ts[end - 1] - ts[i] >= R6_FLAP_WINDOW
      invariant maxCycles == Busiest(ts[..end])
    {
      var t := ts[end];
      while t - ts[start] >= R6_FLAP_WINDOW
        invariant start <= end
        invariant forall i :: 0 <= i < start ==> t - ts[i] >= R6_FLAP_WINDOW
        decreases end - start
      {
        start := start + 1;
      }
      var seen := ts[..end + 1];
      assert seen[..end] == ts[..end];
      RecentIsSuffix(seen, start, t);
      maxCycles := if maxCycles < end - start + 1 then end - start + 1 else maxCycles;
    }
    assert ts[..|ts|] == ts;
  }

  /** One pass over the ordered events. */
  method Episodes(o: seq<Event>) returns (maxEpisode: nat, openSince: Option<int>)
    ensures maxEpisode == LongestRun(o) && openSince == OpenSince(o)
  {
    maxEpisode := 0;
    var current := 0;
    var episodeStart: Option<int> := None;
    for i := 0 to |o|
      invariant current == OpenRun(o[..i]) && maxEpisode == LongestRun(o[..i])
      invariant current > 0 ==> episodeStart == OpenSince(o[..i])
    {
      assert o[..i + 1][..i] == o[..i];
      if o[i].clear {
        current := 0;
        episodeStart := None;
      } else {
        if current == 0 {
          episodeStart := Some(o[i].at);
        }
        current := current + 1;
        maxEpisode := if maxEpisode < current then current else maxEpisode;
      }
    }
    assert o[..|o|] == o;
    openSince := if current > 0 then episodeStart else None;
  }

  method JudgeOrdered(o: seq<Event>, provider: Option<string>) returns (facts: FiringFacts)
    requires o != [] && Sorted(o, EventOrder)
    ensures facts == FactsOf(o, provider)
  {
    CycleTimesAscend(o);
    var maxCycles := MaxCycles(CycleTimes(o));
    var maxEpisode, openSince := Episodes(o);
    var last := o[|o| - 1].at;
    var openSpan := if openSince.None? then None else Some(last - openSince.value);
    var n := |o|;
    var span := last - o[0].at;
    var grafana := provider == Some("grafana");
    var pattern := None;
    if maxCycles >= R6_FLAP_CYCLES {
      pattern := Some(Flapping);
    } else if !grafana && span >= R6_API_MIN_SPAN && n * R6_API_RATE_WINDOW >= R6_API_SPAM_PER_24H * span {
      pattern := Some(Spamming);
    } else if grafana && openSpan.Some? && openSpan.value >= R6_STUCK_OPEN {
      pattern := Some(Stuck);
    }
    return FiringFacts(Clears(o), maxCycles, maxEpisode, openSince, openSpan, span, EventsPer24h(n, span), pattern);
  }

  /** `firing_facts`: None where the empty row list raises. */
  method ComputeFiringFacts(rows: seq<Row>, provider: Option<string>) returns (facts: Option<FiringFacts>)
    ensures facts == if rows == [] then None else Some(FactsOfRows(rows, provider))
  {
    if rows == [] {
      return None;
    }
    var ordered := Sort(rows, RowOrder);
    SortedRowsAreOrdered(rows);
    OrderedIsSorted(rows);
    assert Sorted(Events(ordered), EventOrder);
    var f := JudgeOrdered(Events(ordered), provider);
    return Some(f);
  }
}
