/** What the facts of R6 say about the rows themselves (`src/rules/firing.py:59-124`). */
module FiringLaws {
  import opened Text
  import opened Sorting
  import opened Normalize
  import opened Firing

  predicate Cleared(row: Row) {
    match row.schema
    case V1 => row.severity == Some("clear")
    case V2 => row.status == Some("resolved")
  }

  /** In time order, and at one instant firing rows before clears. */
  predicate InFiringOrder(s: seq<Row>) {
    forall i, j :: 0 <= i < j < |s| ==> s[i].at < s[j].at || (s[i].at == s[j].at && (Cleared(s[i]) ==> Cleared(s[j])))
  }

  predicate NoClearIn(s: seq<Row>, i: int, j: int) {
    0 <= i <= j <= |s| && forall k :: i <= k < j ==> !Cleared(s[k])
  }

  /** A clear right after a firing row, in the half-open 24 hours from `from`. */
  predicate CycleAt(s: seq<Row>, i: int, from: int) {
    0 < i < |s| && Cleared(s[i]) && !Cleared(s[i - 1]) && from <= s[i].at < from + 86_400_000_000
  }

  ghost function CyclesIn(s: seq<Row>, from: int): set<nat> {
    set i | 0 < i < |s| && CycleAt(s, i, from)
  }

  ghost function ClearsIn(s: seq<Row>): set<nat> {
    set i | 0 <= i < |s| && Cleared(s[i])
  }

  /** The open episode starts at position `k`: all rows from there on fire, and the one before, if any, is a clear. */
  predicate OpensAt(s: seq<Row>, k: int) {
    NoClearIn(s, k, |s|) && (k > 0 ==> Cleared(s[k - 1]))
  }

  /** Three cycles in 24 hours flap; else at least 24 events per 24 hours spam, over six hours or more, unless from
   Grafana; else an episode of Grafana open for 72 hours or more is stuck. */
  predicate HasPattern(f: FiringFacts, n: nat, provider: Option<string>) {
    && (f.pattern == Some(Flapping) <==> f.maxClearCycles24h >= 3)
    && (f.pattern == Some(Spamming) <==>
          f.maxClearCycles24h < 3 && provider != Some("grafana") && f.span >= 21_600_000_000 && n * 86_400_000_000 >= 24 * f.span)
    && (f.pattern == Some(Stuck) <==>
          f.maxClearCycles24h < 3 && provider == Some("grafana") && f.openSpan.Some? && f.openSpan.value >= 259_200_000_000)
  }

  /** The most cycles in any 24 hours. */
  ghost predicate IsMostCycles(s: seq<Row>, most: nat) {
    && (forall from :: |CyclesIn(s, from)| <= most)
    && (exists from :: |CyclesIn(s, from)| == most)
  }

  /** The most firing rows without a clear between them. */
  ghost predicate IsLongestEpisode(s: seq<Row>, most: nat) {
    && (forall i, j :: NoClearIn(s, i, j) ==> j - i <= most)
    && (exists i, j :: NoClearIn(s, i, j) && j - i == most)
  }

  /** The first row of the open episode, if there is one. */
  ghost predicate IsOpenSince(s: seq<Row>, since: Option<int>) {
    exists k :: OpensAt(s, k) && since == if k == |s| then None else Some(s[k].at)
  }

  // ----- they hold

  lemma {:induction false} EventsTake(s: seq<Row>, n: nat)
    requires n <= |s|
    ensures Events(s[..n]) == Events(s)[..n]
  {
  }

  lemma {:induction false} ClearsCounted(s: seq<Row>)
    ensures Clears(Events(s)) == |ClearsIn(s)|
  {
    if s != [] {
      var n := |s| - 1;
      ClearsCounted(s[..n]);
      EventsTake(s, n);
      assert ClearsIn(s) == if Cleared(s[n]) then ClearsIn(s[..n]) + {n} else ClearsIn(s[..n]);
    }
  }

  /** A cycle ends at the last row. */
  predicate EndsCycle(s: seq<Row>) {
    |s| > 1 && Cleared(s[|s| - 1]) && !Cleared(s[|s| - 2])
  }

  lemma {:induction false} LastCycle(s: seq<Row>, from: int)
    requires s != []
    ensures var n := |s| - 1;
      |CyclesIn(s, from)| == |CyclesIn(s[..n], from)| + if EndsCycle(s) && from <= s[n].at < from + 86_400_000_000 then 1 else 0
  {
    var n := |s| - 1;
    assert CyclesIn(s, from)
      == if EndsCycle(s) && from <= s[n].at < from + 86_400_000_000 then CyclesIn(s[..n], from) + {n} else CyclesIn(s[..n], from);
  }

  lemma {:induction false} LastCycleTime(s: seq<Row>)
    requires s != []
    ensures var n := |s| - 1; var before := CycleTimes(Events(s[..n]));
      CycleTimes(Events(s)) == if EndsCycle(s) then before + [s[n].at] else before
  {
    EventsTake(s, |s| - 1);
  }

  lemma {:induction false} InSpanAppend(ts: seq<int>, t: int, from: int)
    ensures InSpan(ts + [t], from) == InSpan(ts, from) + if from <= t < from + 86_400_000_000 then 1 else 0
  {
    assert (ts + [t])[..|ts|] == ts;
  }

  lemma {:induction false} CyclesCounted(s: seq<Row>, from: int)
    ensures InSpan(CycleTimes(Events(s)), from) == |CyclesIn(s, from)|
  {
    if s != [] {
      var n := |s| - 1;
      CyclesCounted(s[..n], from);
      LastCycle(s, from);
      LastCycleTime(s);
      if EndsCycle(s) {
        InSpanAppend(CycleTimes(Events(s[..n])), s[n].at, from);
      }
    }
  }

  lemma {:induction false} CyclesMaximum(s: seq<Row>)
    requires InFiringOrder(s)
    ensures IsMostCycles(s, Busiest(CycleTimes(Events(s))))
  {
    assert Sorted(Events(s), EventOrder);
    CycleTimesAscend(Events(s));
    var ts := CycleTimes(Events(s));
    BusiestIsMaximum(ts);
    forall from ensures |CyclesIn(s, from)| == InSpan(ts, from) {
      CyclesCounted(s, from);
    }
    var from :| InSpan(ts, from) == Busiest(ts);
    assert |CyclesIn(s, from)| == Busiest(ts);
  }

  lemma {:induction false} EpisodesMaximum(s: seq<Row>)
    ensures IsLongestEpisode(s, LongestRun(Events(s)))
  {
    var o := Events(s);
    LongestRunIsMaximum(o);
    forall i, j | NoClearIn(s, i, j) ensures j - i <= LongestRun(o) {
      assert AllFiring(o, i, j);
    }
    var i, j :| 0 <= i <= j <= |o| && AllFiring(o, i, j) && j - i == LongestRun(o);
    forall k | i <= k < j ensures !Cleared(s[k]) {
      assert !o[k].clear;
    }
    assert NoClearIn(s, i, j);
  }

  lemma {:induction false} OpensWhere(s: seq<Row>)
    ensures IsOpenSince(s, OpenSince(Events(s)))
  {
    var o := Events(s);
    OpenRunIsSuffix(o);
    var k := |s| - OpenRun(o);
    forall l | k <= l < |s| ensures !Cleared(s[l]) {
      assert !o[l].clear;
    }
    assert OpensAt(s, k);
  }

  lemma {:induction false} InTheOrder(rows: seq<Row>, s: seq<Row>)
    requires multiset(s) == multiset(rows) && InFiringOrder(s)
    ensures Ordered(rows) == Events(s) && |s| == |rows|
  {
    SameElements(s, rows);
    assert Sorted(Events(s), EventOrder);
    EventsPermute(s, rows);
    OrderedIsUnique(Events(s), rows);
  }

  // ----- however the rows are put in firing order, the facts are those of that order

  lemma {:induction false} CyclesMean(rows: seq<Row>, s: seq<Row>, provider: Option<string>)
    requires rows != [] && multiset(s) == multiset(rows) && InFiringOrder(s)
    ensures IsMostCycles(s, FactsOfRows(rows, provider).maxClearCycles24h)
  {
    InTheOrder(rows, s);
    CyclesMaximum(s);
  }

  lemma {:induction false} EpisodesMean(rows: seq<Row>, s: seq<Row>, provider: Option<string>)
    requires rows != [] && multiset(s) == multiset(rows) && InFiringOrder(s)
    ensures IsLongestEpisode(s, FactsOfRows(rows, provider).maxEpisodeFiringRows)
  {
    InTheOrder(rows, s);
    EpisodesMaximum(s);
  }

  lemma {:induction false} OpenMeans(rows: seq<Row>, s: seq<Row>, provider: Option<string>)
    requires rows != [] && multiset(s) == multiset(rows) && InFiringOrder(s)
    ensures IsOpenSince(s, FactsOfRows(rows, provider).openSince)
  {
    InTheOrder(rows, s);
    OpensWhere(s);
  }

  lemma {:induction false} PatternMeans(rows: seq<Row>, s: seq<Row>, provider: Option<string>)
    requires rows != [] && multiset(s) == multiset(rows) && InFiringOrder(s)
    ensures var f := FactsOfRows(rows, provider);
      && |s| == |rows| && f.clearCount == |ClearsIn(s)|
      && f.openSpan == (if f.openSince.Some? then Some(s[|s| - 1].at - f.openSince.value) else None)
      && f.span == s[|s| - 1].at - s[0].at
      && f.eventsPer24h == (if f.span >= 21_600_000_000 then Some(Rate(|s|, f.span)) else None)
      && HasPattern(f, |s|, provider)
  {
    InTheOrder(rows, s);
    ClearsCounted(s);
  }
}
