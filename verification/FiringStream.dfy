/** R6 facts from chronological rows, one at a time, without keeping them (`src/rules/firing_stream.py`). */
module FiringStream {
  import opened Text
  import opened Sorting
  import opened Normalize
  import opened Firing

  function Repeat<T>(x: T, n: nat): (s: seq<T>)
    ensures |s| == n && forall i :: 0 <= i < n ==> s[i] == x
  {
    seq(n, _ => x)
  }

  ghost predicate Chronological(rows: seq<Row>) {
    forall i, j :: 0 <= i < j < |rows| ==> rows[i].at <= rows[j].at
  }

  // ----- what a run of equal events adds to the facts

  /** What the accumulator must know of the events behind it. */
  datatype Summary = Summary(run: nat, since: Option<int>, longest: nat, cycles: seq<int>, clears: nat)

  function SummaryOf(o: seq<Event>): Summary {
    Summary(OpenRun(o), OpenSince(o), LongestRun(o), CycleTimes(o), Clears(o))
  }

  function AfterFires(s: Summary, at: int, n: nat): Summary {
    if n == 0 then s
    else s.(run := s.run + n,
            since := if s.run == 0 then Some(at) else s.since,
            longest := if s.longest < s.run + n then s.run + n else s.longest)
  }

  function AfterClears(s: Summary, at: int, n: nat): Summary {
    if n == 0 then s
    else s.(run := 0, since := None, cycles := if s.run > 0 then s.cycles + [at] else s.cycles, clears := s.clears + n)
  }

  lemma {:induction false} AppendFire(o: seq<Event>, at: int)
    ensures SummaryOf(o + [Event(at, false)]) == AfterFires(SummaryOf(o), at, 1)
  {
    assert (o + [Event(at, false)])[..|o|] == o;
  }

  lemma {:induction false} AppendClear(o: seq<Event>, at: int)
    ensures SummaryOf(o + [Event(at, true)]) == AfterClears(SummaryOf(o), at, 1)
  {
    assert (o + [Event(at, true)])[..|o|] == o;
  }

  lemma {:induction false} RepeatStep<T>(o: seq<T>, x: T, n: nat)
    ensures n == 0 ==> o + Repeat(x, n) == o
    ensures n > 0 ==> o + Repeat(x, n) == o + Repeat(x, n - 1) + [x]
  {
    if n > 0 {
      assert Repeat(x, n) == Repeat(x, n - 1) + [x];
    }
  }

  lemma {:induction false} AppendFires(o: seq<Event>, at: int, n: nat)
    ensures SummaryOf(o + Repeat(Event(at, false), n)) == AfterFires(SummaryOf(o), at, n)
  {
    var e := Event(at, false);
    RepeatStep(o, e, n);
    if n > 0 {
      AppendFires(o, at, n - 1);
      AppendFire(o + Repeat(e, n - 1), at);
      FiresAdd(SummaryOf(o), at, n - 1);
    }
  }

  lemma {:induction false} FiresAdd(s: Summary, at: int, n: nat)
    ensures AfterFires(AfterFires(s, at, n), at, 1) == AfterFires(s, at, n + 1)
  {
  }

  lemma {:induction false} ClearsAdd(s: Summary, at: int, n: nat)
    ensures AfterClears(AfterClears(s, at, n), at, 1) == AfterClears(s, at, n + 1)
  {
  }

  lemma {:induction false} AppendClears(o: seq<Event>, at: int, n: nat)
    ensures SummaryOf(o + Repeat(Event(at, true), n)) == AfterClears(SummaryOf(o), at, n)
  {
    var e := Event(at, true);
    RepeatStep(o, e, n);
    if n > 0 {
      AppendClears(o, at, n - 1);
      AppendClear(o + Repeat(e, n - 1), at);
      ClearsAdd(SummaryOf(o), at, n - 1);
    }
  }

  // ----- events waiting at one instant

  function Waiting(at: int, fires: nat, clears: nat): seq<Event> {
    Repeat(Event(at, false), fires) + Repeat(Event(at, true), clears)
  }

  lemma {:induction false} WaitingSorted(flushed: seq<Event>, at: int, fires: nat, clears: nat)
    requires Sorted(flushed, EventOrder)
    requires forall i :: 0 <= i < |flushed| ==> flushed[i].at < at
    ensures Sorted(flushed + Waiting(at, fires, clears), EventOrder)
  {
    var w := Waiting(at, fires, clears);
    assert forall i :: 0 <= i < |w| ==> w[i] == Event(at, i >= fires);
  }

  lemma {:induction false} WaitingPlusOne(at: int, fires: nat, clears: nat)
    ensures multiset(Waiting(at, fires + 1, clears))
         == multiset(Waiting(at, fires, clears)) + multiset{Event(at, false)}
    ensures multiset(Waiting(at, fires, clears + 1))
         == multiset(Waiting(at, fires, clears)) + multiset{Event(at, true)}
  {
    var f, c := Event(at, false), Event(at, true);
    assert Repeat(f, fires + 1) == Repeat(f, fires) + [f];
    assert Repeat(c, clears + 1) == Repeat(c, clears) + [c];
  }

  /** A row at the waiting instant joins its class; the whole is still the one ordered sequence. */
  lemma {:induction false} OneMoreWaiting(flushed: seq<Event>, at: int, fires: nat, clears: nat, rows: seq<Row>, row: Row)
    requires flushed + Waiting(at, fires, clears) == Ordered(rows)
    requires forall i :: 0 <= i < |flushed| ==> flushed[i].at < at
    requires row.at == at
    ensures flushed + (if IsClear(row) then Waiting(at, fires, clears + 1) else Waiting(at, fires + 1, clears))
         == Ordered(rows + [row])
  {
    var f, c := if IsClear(row) then fires else fires + 1, if IsClear(row) then clears + 1 else clears;
    OrderedIsSorted(rows);
    FlushedSorted(flushed, Waiting(at, fires, clears));
    WaitingSorted(flushed, at, f, c);
    WaitingPlusOne(at, fires, clears);
    JoinMultisets(flushed, Waiting(at, fires, clears), Waiting(at, f, c), EventOf(row));
    EventsAppend(rows, row);
    OrderedIsUnique(flushed + Waiting(at, f, c), rows + [row]);
  }

  lemma {:induction false} JoinMultisets<T>(a: seq<T>, b: seq<T>, c: seq<T>, x: T)
    requires multiset(c) == multiset(b) + multiset{x}
    ensures multiset(a + c) == multiset(a + b) + multiset{x}
  {
  }

  lemma {:induction false} FlushedSorted(flushed: seq<Event>, rest: seq<Event>)
    requires Sorted(flushed + rest, EventOrder)
    ensures Sorted(flushed, EventOrder)
  {
    assert forall i :: 0 <= i < |flushed| ==> flushed[i] == (flushed + rest)[i];
  }

  // ----- the deque of recent cycles

  /** The cycles less than 24 hours before `t`, oldest first. */
  function RecentCycles(ts: seq<int>, t: int): seq<int> {
    if ts == [] then []
    else if t - ts[|ts| - 1] < R6_FLAP_WINDOW then RecentCycles(ts[..|ts| - 1], t) + [ts[|ts| - 1]]
    else RecentCycles(ts[..|ts| - 1], t)
  }

  /** Old cycles dropped from the left. */
  function Evict(cycles: seq<int>, at: int): seq<int> {
    if cycles != [] && at - cycles[0] >= R6_FLAP_WINDOW then Evict(cycles[1..], at) else cycles
  }

  lemma {:induction false} EvictAppend(cycles: seq<int>, x: int, at: int)
    requires at - x < R6_FLAP_WINDOW
    ensures Evict(cycles + [x], at) == Evict(cycles, at) + [x]
  {
    if cycles != [] && at - cycles[0] >= R6_FLAP_WINDOW {
      EvictAppend(cycles[1..], x, at);
      assert (cycles + [x])[1..] == cycles[1..] + [x];
    }
  }

  lemma {:induction false} AllOld(ts: seq<int>, p: int, at: int)
    requires p <= at && forall i :: 0 <= i < |ts| ==> at - ts[i] >= R6_FLAP_WINDOW
    ensures RecentCycles(ts, at) == []
    ensures forall x :: x in RecentCycles(ts, p) ==> at - x >= R6_FLAP_WINDOW
  {
    if ts != [] {
      AllOld(ts[..|ts| - 1], p, at);
    }
  }

  lemma {:induction false} EvictOld(cycles: seq<int>, at: int)
    requires forall x :: x in cycles ==> at - x >= R6_FLAP_WINDOW
    ensures Evict(cycles, at) == []
  {
    if cycles != [] {
      assert cycles[0] in cycles;
      assert forall x :: x in cycles[1..] ==> x in cycles;
      EvictOld(cycles[1..], at);
    }
  }

  /** Evicting what was recent at `p` leaves what is recent at the later `at`. */
  lemma {:induction false} EvictKeepsRecent(ts: seq<int>, p: int, at: int)
    requires Ascending(ts) && p <= at
    ensures Evict(RecentCycles(ts, p), at) == RecentCycles(ts, at)
  {
    if ts != [] {
      var init, x := ts[..|ts| - 1], ts[|ts| - 1];
      if at - x < R6_FLAP_WINDOW {
        EvictKeepsRecent(init, p, at);
        EvictAppend(RecentCycles(init, p), x, at);
      } else {
        assert forall i :: 0 <= i < |ts| ==> ts[i] <= x;
        AllOld(ts, p, at);
        EvictOld(RecentCycles(ts, p), at);
      }
    }
  }

  lemma {:induction false} RecentCount(ts: seq<int>, t: int)
    ensures |RecentCycles(ts, t)| == Recent(ts, t)
  {
    if ts != [] {
      RecentCount(ts[..|ts| - 1], t);
    }
  }

  /** A new cycle at `at`, with the recent ones in hand: the maximum grows to their number, if at all. */
  lemma {:induction false} OneMoreCycle(ts: seq<int>, at: int)
    ensures RecentCycles(ts + [at], at) == RecentCycles(ts, at) + [at]
    ensures var n := |RecentCycles(ts, at)| + 1;
      Busiest(ts + [at]) == if Busiest(ts) < n then n else Busiest(ts)
  {
    assert (ts + [at])[..|ts|] == ts;
    RecentCount(ts, at);
  }

  /** In chronological rows, the first and last row bound the ordered events. */
  lemma {:induction false} EndsOfOrdered(rows: seq<Row>)
    requires rows != [] && Chronological(rows)
    ensures Ordered(rows)[0].at == rows[0].at && Ordered(rows)[|rows| - 1].at == rows[|rows| - 1].at
  {
    var o, n := Ordered(rows), |rows|;
    OrderedIsSorted(rows);
    SameElements(o, Events(rows));
    assert Events(rows)[0] in o && Events(rows)[n - 1] in o;
    var i :| 0 <= i < n && o[i] == Events(rows)[0];
    var j :| 0 <= j < n && o[j] == Events(rows)[n - 1];
    assert o[0] in Events(rows) && o[n - 1] in Events(rows);
    if i > 0 { assert EventOrder(o[0], o[i]); }
    if j < n - 1 { assert EventOrder(o[j], o[n - 1]); }
  }

  // ----- one step on values

  /** The accumulator's fields. */
  datatype Fields = Fields(
    first: Option<int>,
    pendingAt: Option<int>,
    pendingFires: nat,
    pendingClears: nat,
    count: nat,
    clearCount: nat,
    current: nat,
    maxEpisode: nat,
    openSince: Option<int>,
    cycles: seq<int>,
    maxCycles: nat)

  /** The pending firing rows taken into the open episode. */
  function WithFires(s: Fields, at: int): Fields {
    if s.pendingFires == 0 then s
    else
      var current := s.current + s.pendingFires;
      s.(openSince := if s.current == 0 then Some(at) else s.openSince,
         current := current,
         maxEpisode := if s.maxEpisode < current then current else s.maxEpisode)
  }

  /** The pending clears closing the open episode, if there is one. */
  function WithClears(s: Fields, at: int): Fields {
    if s.pendingClears == 0 then s
    else
      var cycles := if s.current != 0 then s.cycles + [at] else s.cycles;
      s.(cycles := cycles,
         maxCycles := if s.current != 0 && s.maxCycles < |cycles| then |cycles| else s.maxCycles,
         current := 0,
         openSince := None)
  }

  /** The pending instant taken into the facts. */
  function Flushed(s: Fields): Fields {
    if s.pendingAt.None? then s
    else
      var at := s.pendingAt.value;
      var t := WithFires(s, at);
      WithClears(t.(cycles := Evict(t.cycles, at)), at).(pendingFires := 0, pendingClears := 0)
  }

  /** A row counted at its instant, nothing else pending. */
  function Counted(s: Fields, row: Row): Fields {
    var clear := IsClear(row);
    s.(first := if s.first.None? then Some(row.at) else s.first,
       pendingAt := Some(row.at),
       count := s.count + 1,
       pendingClears := if clear then s.pendingClears + 1 else s.pendingClears,
       clearCount := if clear then s.clearCount + 1 else s.clearCount,
       pendingFires := if clear then s.pendingFires else s.pendingFires + 1)
  }

  /** No row seen yet. */
  const START := Fields(None, None, 0, 0, 0, 0, 0, 0, None, [], 0)

  ghost function Pending(s: Fields): seq<Event>
    requires s.pendingAt.Some?
  {
    Waiting(s.pendingAt.value, s.pendingFires, s.pendingClears)
  }

  /** The fields summarize the flushed events. */
  ghost predicate FieldsMatch(s: Fields, u: Summary) {
    && s.current == u.run
    && s.openSince == u.since
    && s.maxEpisode == u.longest
    && s.clearCount == u.clears + s.pendingClears
    && s.maxCycles == Busiest(u.cycles)
  }

  /** The deque holds the cycles that were recent at some instant not after `now`. */
  ghost predicate DequeMatches(cycles: seq<int>, ts: seq<int>, now: int) {
    exists p :: p <= now && cycles == RecentCycles(ts, p)
  }

  /** Flushed and pending events together are the rows' events, in order. */
  ghost predicate EventsMatch(s: Fields, rows: seq<Row>, flushed: seq<Event>) {
    && rows != []
    && s.count == |rows|
    && s.first == Some(rows[0].at)
    && s.pendingAt == Some(rows[|rows| - 1].at)
    && Chronological(rows)
    && flushed + Pending(s) == Ordered(rows)
  }

  ghost predicate Before(flushed: seq<Event>, at: int) {
    forall i :: 0 <= i < |flushed| ==> flushed[i].at < at
  }

  ghost predicate Tracks(s: Fields, rows: seq<Row>, flushed: seq<Event>) {
    && EventsMatch(s, rows, flushed)
    && FieldsMatch(s, SummaryOf(flushed))
    && DequeMatches(s.cycles, SummaryOf(flushed).cycles, s.pendingAt.value)
  }

  function AfterInstant(u: Summary, at: int, fires: nat, clears: nat): Summary {
    AfterClears(AfterFires(u, at, fires), at, clears)
  }

  lemma {:induction false} SummaryAfterInstant(flushed: seq<Event>, at: int, fires: nat, clears: nat)
    ensures SummaryOf(flushed + Waiting(at, fires, clears)) == AfterInstant(SummaryOf(flushed), at, fires, clears)
  {
    var f, c := Repeat(Event(at, false), fires), Repeat(Event(at, true), clears);
    AppendFires(flushed, at, fires);
    AppendClears(flushed + f, at, clears);
    assert flushed + Waiting(at, fires, clears) == flushed + f + c;
  }

  lemma {:induction false} FlushKeepsFields(s: Fields, u: Summary)
    requires s.pendingAt.Some? && FieldsMatch(s, u) && DequeMatches(s.cycles, u.cycles, s.pendingAt.value)
    requires Ascending(u.cycles)
    ensures FieldsMatch(Flushed(s), AfterInstant(u, s.pendingAt.value, s.pendingFires, s.pendingClears))
    ensures DequeMatches(Flushed(s).cycles,
                         AfterInstant(u, s.pendingAt.value, s.pendingFires, s.pendingClears).cycles,
                         s.pendingAt.value)
  {
    var at := s.pendingAt.value;
    var p :| p <= at && s.cycles == RecentCycles(u.cycles, p);
    EvictKeepsRecent(u.cycles, p, at);
    OneMoreCycle(u.cycles, at);
  }

  lemma {:induction false} FlushKeepsEvents(s: Fields, rows: seq<Row>, flushed: seq<Event>)
    requires EventsMatch(s, rows, flushed)
    ensures EventsMatch(Flushed(s), rows, Ordered(rows))
  {
    assert Ordered(rows) + Waiting(s.pendingAt.value, 0, 0) == Ordered(rows);
  }

  lemma {:induction false} FlushKeeps(s: Fields, rows: seq<Row>, flushed: seq<Event>)
    requires Tracks(s, rows, flushed)
    ensures Tracks(Flushed(s), rows, Ordered(rows))
    ensures forall i :: 0 <= i < |rows| ==> Ordered(rows)[i].at <= s.pendingAt.value
  {
    FlushKeepsEvents(s, rows, flushed);
    OrderedIsSorted(rows);
    EndsOfOrdered(rows);
    OrderedBounded(rows);
    FlushedSorted(flushed, Pending(s));
    CycleTimesAscend(flushed);
    FlushKeepsFields(s, SummaryOf(flushed));
    SummaryAfterInstant(flushed, s.pendingAt.value, s.pendingFires, s.pendingClears);
  }

  lemma {:induction false} OrderedBounded(rows: seq<Row>)
    requires rows != []
    ensures forall i :: 0 <= i < |rows| ==> Ordered(rows)[i].at <= Ordered(rows)[|rows| - 1].at
  {
    OrderedIsSorted(rows);
    forall i | 0 <= i < |rows| - 1 ensures Ordered(rows)[i].at <= Ordered(rows)[|rows| - 1].at {
      assert EventOrder(Ordered(rows)[i], Ordered(rows)[|rows| - 1]);
    }
  }

  lemma {:induction false} CountKeeps(s: Fields, rows: seq<Row>, flushed: seq<Event>, row: Row)
    requires Tracks(s, rows, flushed) && Before(flushed, row.at)
    requires s.pendingAt.value <= row.at
    requires s.pendingAt.value < row.at ==> s.pendingFires == s.pendingClears == 0
    ensures Tracks(Counted(s, row), rows + [row], flushed)
    ensures Before(flushed, Counted(s, row).pendingAt.value)
  {
    assert Pending(s) == Waiting(row.at, s.pendingFires, s.pendingClears);
    OneMoreWaiting(flushed, row.at, s.pendingFires, s.pendingClears, rows, row);
    ChronologicalAppend(rows, row);
  }

  lemma {:induction false} FirstRow(row: Row)
    ensures Tracks(Counted(START, row), [row], [])
  {
    var e := EventOf(row);
    assert Events([row]) == [e];
    assert Sort([e], EventOrder) == [e];
    assert Pending(Counted(START, row)) == [e];
    assert RecentCycles([], row.at) == [];
  }

  lemma {:induction false} ChronologicalAppend(rows: seq<Row>, row: Row)
    requires Chronological(rows) && (rows != [] ==> rows[|rows| - 1].at <= row.at)
    ensures Chronological(rows + [row])
  {
  }

  /** A row added: an instant that is over is flushed first. */
  function Added(s: Fields, row: Row): Fields {
    Counted(if s.pendingAt.Some? && row.at != s.pendingAt.value then Flushed(s) else s, row)
  }

  function FactsIn(s: Fields, provider: Option<string>): Option<FiringFacts> {
    if s.first.None? || s.pendingAt.None? then None
    else
      var span := s.pendingAt.value - s.first.value;
      var openSpan := if s.openSince.None? then None else Some(s.pendingAt.value - s.openSince.value);
      Some(FiringFacts(s.clearCount, s.maxCycles, s.maxEpisode, s.openSince, openSpan, span,
                       EventsPer24h(s.count, span),
                       PatternOf(s.count, s.maxCycles, openSpan, span, provider == Some("grafana"))))
  }

  /** The fields are those of an accumulator that has seen `rows` and flushed their first events. */
  ghost predicate Holds(s: Fields, rows: seq<Row>, flushed: seq<Event>) {
    if rows == [] then s == START && flushed == []
    else Tracks(s, rows, flushed) && Before(flushed, s.pendingAt.value)
  }

  /** `Holds`, folded away from callers that only carry it along. */
  ghost predicate Kept(s: Fields, rows: seq<Row>, flushed: seq<Event>) {
    forall t: Fields :: Look(t) && t == s ==> Holds(t, rows, flushed)
  }

  ghost function FlushedAfter(s: Fields, rows: seq<Row>, flushed: seq<Event>, row: Row): seq<Event> {
    if s.pendingAt.Some? && row.at != s.pendingAt.value then Ordered(rows) else flushed
  }

  lemma {:induction false} AddHolds(s: Fields, rows: seq<Row>, flushed: seq<Event>, row: Row)
    requires Holds(s, rows, flushed) && (rows != [] ==> rows[|rows| - 1].at <= row.at)
    ensures Holds(Added(s, row), rows + [row], FlushedAfter(s, rows, flushed, row))
  {
    if rows == [] {
      FirstRow(row);
      assert rows + [row] == [row];
    } else if row.at != s.pendingAt.value {
      FlushKeeps(s, rows, flushed);
      CountKeeps(Flushed(s), rows, Ordered(rows), row);
    } else {
      CountKeeps(s, rows, flushed, row);
    }
  }

  /** After the last flush the fields hold the facts of all the rows. */
  lemma {:induction false} FinishHolds(s: Fields, rows: seq<Row>, flushed: seq<Event>, provider: Option<string>)
    requires Holds(s, rows, flushed)
    ensures FactsIn(Flushed(s), provider) == if rows == [] then None else Some(FactsOfRows(rows, provider))
  {
    if rows != [] {
      FlushKeeps(s, rows, flushed);
      EndsOfOrdered(rows);
      FactsFromFields(Flushed(s), Ordered(rows), provider);
    }
  }

  lemma {:induction false} FactsFromFields(s: Fields, o: seq<Event>, provider: Option<string>)
    requires o != [] && FieldsMatch(s, SummaryOf(o)) && s.pendingClears == 0 && s.count == |o|
    requires s.first == Some(o[0].at) && s.pendingAt == Some(o[|o| - 1].at)
    ensures FactsIn(s, provider) == Some(FactsOf(o, provider))
  {
  }

  // ----- the accumulator

  class FiringAccumulator {
    var first: Option<int>
    var pendingAt: Option<int>
    var pendingFires: nat
    var pendingClears: nat
    var count: nat
    var clearCount: nat
    var current: nat
    var maxEpisode: nat
    var openSince: Option<int>
    var cycles: seq<int>
    var maxCycles: nat

    /** Every row added so far. */
    ghost var rows: seq<Row>
    /** Their events up to the last flush, in order. */
    ghost var flushed: seq<Event>

    ghost function State(): Fields
      reads this
    {
      Fields(first, pendingAt, pendingFires, pendingClears, count, clearCount, current, maxEpisode, openSince,
             cycles, maxCycles)
    }

    ghost predicate Valid()
      reads this
    {
      Kept(State(), rows, flushed) && pendingAt == if rows == [] then None else Some(rows[|rows| - 1].at)
    }

    constructor ()
      ensures Valid() && rows == []
    {
      first, pendingAt, openSince := None, None, None;
      pendingFires, pendingClears, count, clearCount, current, maxEpisode, maxCycles := 0, 0, 0, 0, 0, 0, 0;
      cycles, rows, flushed := [], [], [];
      new;
    }

    /** False where the row is refused as out of order; the state is then untouched. */
    method Add(row: Row) returns (ok: bool)
      requires Valid()
      modifies this
      ensures Valid()
      ensures ok <==> old(rows) == [] || row.at >= old(rows)[|old(rows)| - 1].at
      ensures rows == if ok then old(rows) + [row] else old(rows)
    {
      var at := row.at;
      if pendingAt.Some? && at < pendingAt.value {
        return false;
      }
      assert Look(State());
      AddHolds(State(), rows, flushed, row);
      flushed := FlushedAfter(State(), rows, flushed, row);
      if pendingAt.Some? && at != pendingAt.value {
        Flush();
      }
      Count(row);
      rows := rows + [row];
      return true;
    }

    method Count(row: Row)
      modifies this
      ensures State() == Counted(old(State()), row) && rows == old(rows) && flushed == old(flushed)
    {
      if first.None? {
        first := Some(row.at);
      }
      pendingAt := Some(row.at);
      count := count + 1;
      if IsClear(row) {
        pendingClears := pendingClears + 1;
        clearCount := clearCount + 1;
      } else {
        pendingFires := pendingFires + 1;
      }
    }

    method EvictBefore(at: int)
      modifies this`cycles
      ensures cycles == Evict(old(cycles), at)
    {
      while cycles != [] && at - cycles[0] >= R6_FLAP_WINDOW
        invariant Evict(cycles, at) == Evict(old(cycles), at)
        decreases |cycles|
      {
        cycles := cycles[1..];
      }
    }

    method Flush()
      modifies this
      ensures State() == Flushed(old(State())) && rows == old(rows) && flushed == old(flushed)
    {
      if pendingAt.None? {
        return;
      }
      var at := pendingAt.value;
      TakeFires(at);
      EvictBefore(at);
      TakeClears(at);
      pendingFires, pendingClears := 0, 0;
    }

    method TakeFires(at: int)
      modifies this`openSince, this`current, this`maxEpisode
      ensures State() == WithFires(old(State()), at)
    {
      if pendingFires != 0 {
        if current == 0 {
          openSince := Some(at);
        }
        current := current + pendingFires;
        maxEpisode := if maxEpisode < current then current else maxEpisode;
      }
    }

    method TakeClears(at: int)
      modifies this`openSince, this`current, this`cycles, this`maxCycles
      ensures State() == WithClears(old(State()), at)
    {
      if pendingClears != 0 {
        if current != 0 {
          cycles := cycles + [at];
          maxCycles := if maxCycles < |cycles| then |cycles| else maxCycles;
        }
        current := 0;
        openSince := None;
      }
    }

    /** The facts of the rows seen; None where there are none. The history is over afterwards. */
    method Finish(provider: Option<string>) returns (facts: Option<FiringFacts>)
      requires Valid()
      modifies this
      ensures facts == if old(rows) == [] then None else Some(FactsOfRows(old(rows), provider))
    {
      assert Look(State());
      FinishHolds(State(), rows, flushed, provider);
      Flush();
      facts := Judge(provider);
      cycles := [];
    }

    method Judge(provider: Option<string>) returns (facts: Option<FiringFacts>)
      ensures facts == FactsIn(State(), provider)
    {
      if first.None? || pendingAt.None? {
        return None;
      }
      var span := pendingAt.value - first.value;
      var openSpan := if openSince.None? then None else Some(pendingAt.value - openSince.value);
      var rate := EventsPer24h(count, span);
      var pattern := None;
      if maxCycles >= R6_FLAP_CYCLES {
        pattern := Some(Flapping);
      } else if provider != Some("grafana") && span >= R6_API_MIN_SPAN
                && count * R6_API_RATE_WINDOW >= R6_API_SPAM_PER_24H * span {
        pattern := Some(Spamming);
      } else if provider == Some("grafana") && openSpan.Some? && openSpan.value >= R6_STUCK_OPEN {
        pattern := Some(Stuck);
      }
      return Some(FiringFacts(clearCount, maxCycles, maxEpisode, openSince, openSpan, span, rate, pattern));
    }
  }
}
