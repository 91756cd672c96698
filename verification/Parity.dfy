/**
 The streaming analysis and the batch analysis it replaces, run on the same rows, report the same
 (`src/run/streaming.py`, `src/rules/engine.py`, `src/domain/metrics.py`, `src/run/orchestrator.py`).
 */
module Parity {
  import opened Text
  import opened Hashing
  import opened Normalize
  import opened RowSets
  import opened Window
  import opened Metrics
  import opened FiringStream
  import opened Rules
  import opened Suppression
  import opened Analysis
  import StreamState
  import Finishing
  import RuleTables
  import opened Streaming
  import opened Engine
  import opened EngineDaily
  import opened Batch
  import opened FindingRow
  import Tallies

  /** Everything both forms report about one schema. */
  datatype Outputs = Outputs(
    reports: map<string, Report>,
    flagged: map<int, (nat, nat)>,
    rules: seq<RuleBucketCount>,
    suppressed: map<int, nat>,
    unseen: map<int, nat>,
    volume: seq<DailyVolume>)

  ghost predicate IsAnalysis(env: Env, rows: seq<Row>, window: RunWindow, out: Outputs) {
    && ReportsAll(env, rows, out.reports)
    && FlaggedAll(env, rows, window, out.flagged)
    && RulesAll(env, rows, window, out.rules)
    && CountsAll(rows, window, SuppressedRow(env, rows), out.suppressed)
    && CountsAll(rows, window, UnseenRow(env, rows), out.unseen)
    && IsDailyVolume(out.volume, rows, window.buckets)
  }

  ghost predicate RulesAll(env: Env, rows: seq<Row>, window: RunWindow, table: seq<RuleBucketCount>) {
    && table == Tabulate(window.Dates(), ALL_RULE_IDS, RuleTotals(env, rows))
    && RuleTables.IsRuleTable(env, rows, window.Dates(), table)
  }

  /** The rows of each date of the window that satisfy `q`. */
  ghost predicate CountsAll(rows: seq<Row>, window: RunWindow, q: Row -> bool, t: map<int, nat>) {
    && (forall d :: d in t <==> d in window.Dates())
    && forall d :: d in t ==> t[d] == RowsWith(rows, d, q)
  }

  ghost predicate ReportsAll(env: Env, rows: seq<Row>, reports: map<string, Report>) {
    && (forall id :: id in reports <==> Mine(rows, id) != [])
    && forall id :: id in reports ==> IsReport(env, rows, id, reports[id])
  }

  ghost predicate FlaggedAll(env: Env, rows: seq<Row>, window: RunWindow, t: map<int, (nat, nat)>) {
    && (forall d :: d in t <==> d in window.Dates())
    && forall d :: d in t ==> t[d] == (RowsWith(rows, d, FlaggedRow(env, rows)), IdentitiesWith(rows, d, FlaggedRow(env, rows)))
  }

  lemma {:induction false} MapsAgree<K, V>(a: map<K, V>, b: map<K, V>)
    requires forall k :: k in a <==> k in b
    requires forall k :: k in a ==> a[k] == b[k]
    ensures a == b
  {
  }

  lemma {:induction false} ReportsUnique(env: Env, rows: seq<Row>, a: map<string, Report>, b: map<string, Report>)
    requires ReportsAll(env, rows, a) && ReportsAll(env, rows, b)
    ensures a == b
  {
    forall id | id in a ensures a[id] == b[id] {
      OneReport(env, rows, a, b, id);
    }
    MapsAgree(a, b);
  }

  lemma {:induction false} OneReport(env: Env, rows: seq<Row>, a: map<string, Report>, b: map<string, Report>, id: string)
    requires ReportsAll(env, rows, a) && ReportsAll(env, rows, b) && id in a
    ensures id in b && a[id] == b[id]
  {
    ReportUnique(env, rows, id, a[id], b[id]);
  }

  lemma {:induction false} VolumeUnique(a: seq<DailyVolume>, b: seq<DailyVolume>, rows: seq<Row>, buckets: seq<DailyBucket>)
    requires IsDailyVolume(a, rows, buckets) && IsDailyVolume(b, rows, buckets)
    ensures a == b
  {
  }

  /** The analysis of given rows is fixed: whatever meets the specification is the same output. */
  lemma {:induction false} AnalysisUnique(env: Env, rows: seq<Row>, window: RunWindow, a: Outputs, b: Outputs)
    requires IsAnalysis(env, rows, window, a) && IsAnalysis(env, rows, window, b)
    ensures a == b
  {
    ReportsUnique(env, rows, a.reports, b.reports);
    VolumeUnique(a.volume, b.volume, rows, window.buckets);
    FlaggedUnique(env, rows, window, a.flagged, b.flagged);
    CountsUnique(rows, window, SuppressedRow(env, rows), a.suppressed, b.suppressed);
    CountsUnique(rows, window, UnseenRow(env, rows), a.unseen, b.unseen);
  }

  lemma {:induction false} CountsUnique(rows: seq<Row>, window: RunWindow, q: Row -> bool, a: map<int, nat>, b: map<int, nat>)
    requires CountsAll(rows, window, q, a) && CountsAll(rows, window, q, b)
    ensures a == b
  {
    forall d ensures d in a <==> d in b {
      assert d in a <==> d in window.Dates();
      assert d in b <==> d in window.Dates();
    }
    forall d | d in a ensures a[d] == b[d] {
      assert d in a && d in b;
    }
    MapsAgree(a, b);
  }

  lemma {:induction false} FlaggedUnique(env: Env, rows: seq<Row>, window: RunWindow,
                                         a: map<int, (nat, nat)>, b: map<int, (nat, nat)>)
    requires FlaggedAll(env, rows, window, a) && FlaggedAll(env, rows, window, b)
    ensures a == b
  {
    forall d ensures d in a <==> d in b {
      assert d in a <==> d in window.Dates();
      assert d in b <==> d in window.Dates();
    }
    forall d | d in a ensures a[d] == b[d] {
      assert d in a && d in b;
    }
    MapsAgree(a, b);
  }

  function HashedAll(sha: Json -> string, raw: seq<Row>): (rows: seq<Row>)
    ensures |rows| == |raw| && forall i :: 0 <= i < |raw| ==> rows[i] == StreamState.Hashed(sha, raw[i])
  {
    seq(|raw|, i requires 0 <= i < |raw| => StreamState.Hashed(sha, raw[i]))
  }

  /** Rows of one schema, inside the window, in time order, each dated by its instant. */
  ghost predicate Feed(schema: Schema, window: RunWindow, raw: seq<Row>) {
    && IsRunWindow(window, window.runAt)
    && Chronological(raw)
    && forall i :: 0 <= i < |raw| ==>
         raw[i].schema == schema && window.Contains(raw[i].at) && raw[i].date == UtcDate(raw[i].at)
  }

  // ----- streaming

  method AnalyzeStream(schema: Schema, window: RunWindow, env: Env, raw: seq<Row>) returns (out: Outputs)
    requires Feed(schema, window, raw)
    ensures IsAnalysis(env, HashedAll(env.sha, raw), window, out)
  {
    var analysis := Consume(schema, window, env, raw);
    var ok := analysis.Finish();
    out := Collect(analysis);
  }

  /** `scan_schema`'s consumer: every row added, one at a time. */
  method Consume(schema: Schema, window: RunWindow, env: Env, raw: seq<Row>) returns (analysis: SchemaAccumulator)
    requires Feed(schema, window, raw)
    ensures fresh(analysis) && fresh(analysis.visibility) && fresh(analysis.parts)
    ensures analysis.Valid() && !analysis.finished && analysis.window == window && analysis.env == env
    ensures analysis.rows == HashedAll(env.sha, raw)
  {
    analysis := new SchemaAccumulator(schema, window, env);
    for i := 0 to |raw|
      invariant fresh(analysis) && fresh(analysis.visibility) && fresh(analysis.parts)
      invariant analysis.Valid() && !analysis.finished
      invariant analysis.schema == schema && analysis.window == window && analysis.env == env
      invariant analysis.rows == HashedAll(env.sha, raw[..i])
    {
      AddNext(analysis, raw, i);
    }
    assert raw[..|raw|] == raw;
  }

  method AddNext(analysis: SchemaAccumulator, raw: seq<Row>, i: nat)
    requires analysis.Valid() && !analysis.finished && i < |raw|
    requires Feed(analysis.schema, analysis.window, raw) && analysis.rows == HashedAll(analysis.env.sha, raw[..i])
    modifies analysis, analysis.visibility, analysis.parts
    ensures analysis.Valid() && !analysis.finished && fresh(analysis.parts - old(analysis.parts))
    ensures analysis.rows == HashedAll(analysis.env.sha, raw[..i + 1])
  {
    HashedNext(analysis.env.sha, raw, i);
    var refused := analysis.Add(raw[i]);
    assert refused.None?;
  }

  lemma {:induction false} HashedNext(sha: Json -> string, raw: seq<Row>, i: nat)
    requires i < |raw|
    ensures HashedAll(sha, raw[..i + 1]) == HashedAll(sha, raw[..i]) + [StreamState.Hashed(sha, raw[i])]
    ensures i > 0 ==> HashedAll(sha, raw[..i])[i - 1].at == raw[i - 1].at
  {
  }

  method Collect(analysis: SchemaAccumulator) returns (out: Outputs)
    requires analysis.Valid() && analysis.finished
    ensures IsAnalysis(analysis.env, analysis.rows, analysis.window, out)
  {
    var flagged, rules := RuleFiguresOf(analysis);
    var suppressed, unseen := VisibilityFiguresOf(analysis);
    var reports, volume := IdentityFiguresOf(analysis);
    out := Outputs(reports, flagged, rules, suppressed, unseen, volume);
  }

  method RuleFiguresOf(analysis: SchemaAccumulator) returns (flagged: map<int, (nat, nat)>, rules: seq<RuleBucketCount>)
    requires analysis.Valid() && analysis.finished
    ensures FlaggedAll(analysis.env, analysis.rows, analysis.window, flagged)
    ensures RulesAll(analysis.env, analysis.rows, analysis.window, rules)
  {
    flagged := FlaggedOf(analysis);
    rules := RulesOf(analysis);
  }

  method VisibilityFiguresOf(analysis: SchemaAccumulator) returns (suppressed: map<int, nat>, unseen: map<int, nat>)
    requires analysis.Valid() && analysis.finished
    ensures CountsAll(analysis.rows, analysis.window, SuppressedRow(analysis.env, analysis.rows), suppressed)
    ensures CountsAll(analysis.rows, analysis.window, UnseenRow(analysis.env, analysis.rows), unseen)
  {
    suppressed := VisibilityOf(analysis, Tallies.SuppressedRows);
    unseen := VisibilityOf(analysis, Tallies.UnseenRows);
  }

  method IdentityFiguresOf(analysis: SchemaAccumulator) returns (reports: map<string, Report>, volume: seq<DailyVolume>)
    requires analysis.Valid() && analysis.finished
    ensures ReportsAll(analysis.env, analysis.rows, reports)
    ensures IsDailyVolume(volume, analysis.rows, analysis.window.buckets)
  {
    reports := ReportEach(analysis);
    volume := analysis.DailyVolumes();
  }

  /** `daily_flagged`. */
  method FlaggedOf(analysis: SchemaAccumulator) returns (t: map<int, (nat, nat)>)
    requires analysis.Valid() && analysis.finished
    ensures FlaggedAll(analysis.env, analysis.rows, analysis.window, t)
  {
    t := analysis.DailyTotals(Tallies.FlaggedRows);
  }

  method RulesOf(analysis: SchemaAccumulator) returns (table: seq<RuleBucketCount>)
    requires analysis.Valid() && analysis.finished
    ensures RulesAll(analysis.env, analysis.rows, analysis.window, table)
  {
    table := analysis.DailyRules();
  }

  method VisibilityOf(analysis: SchemaAccumulator, k: Tallies.Counter) returns (t: map<int, nat>)
    requires analysis.Valid() && analysis.finished
    ensures CountsAll(analysis.rows, analysis.window, Tallies.CountedRow(k, analysis.env, analysis.rows), t)
  {
    t := analysis.DailyVisibility(k);
  }

  /** The identities not in `todo` are reported on. */
  ghost predicate Reported(env: Env, rows: seq<Row>, all: set<string>, todo: set<string>, reports: map<string, Report>) {
    && (forall id :: id in reports <==> id in all && id !in todo)
    && forall id :: id in reports ==> IsReport(env, rows, id, reports[id])
  }

  method ReportEach(analysis: SchemaAccumulator) returns (reports: map<string, Report>)
    requires analysis.IdentitiesExact() && analysis.DoneAll() && Chronological(analysis.rows)
    ensures ReportsAll(analysis.env, analysis.rows, reports)
  {
    reports := map[];
    ghost var env, rows := analysis.env, analysis.rows;
    ghost var all := analysis.identities.Keys;
    var todo := analysis.identities.Keys;
    while todo != {}
      invariant todo <= all && Reported(env, rows, all, todo, reports)
      decreases todo
    {
      ghost var some := Tallies.MemberOf(todo);
      var id :| id in todo;
      var report := analysis.ReportOn(id);
      reports := reports[id := report];
      todo := todo - {id};
    }
  }

  // ----- batch

  method AnalyzeBatch(window: RunWindow, env: Env, rows: seq<Row>) returns (out: Outputs)
    requires forall i :: 0 <= i < |rows| ==> rows[i].date in window.Dates()
    ensures IsAnalysis(env, rows, window, out)
  {
    var evaluation := new Evaluation(env.rules, rows, env);
    var suppressed, unseen := EvaluateSuppression(rows, env.panels);
    ghost var before := evaluation.identities;
    AttachedRows(env, rows, evaluation.rows, evaluation.identities.Keys, suppressed);
    evaluation.AttachRowFindings(R5Findings(suppressed, env.panels));
    NoneToAttach(suppressed, env.panels);
    Completed(env, rows, before, evaluation.identities, evaluation.rows, suppressed);
    var reports := BuildEach(evaluation.identities, evaluation.rows,
                             if env.panels == [] then None else Some(unseen), env, rows);
    EveryRowPresent(rows);
    var flagged := ComputeDailyFlagged(evaluation.rows, window.Dates(), env, rows);
    var rules := ComputeDailyRuleCounts(evaluation.rows, window.Dates(), env, rows);
    var suppressedByDate := SuppressedByDate(rows, suppressed, window, env);
    var unseenByDate := UnseenByDate(rows, unseen, window, env);
    var volume := ComputeDailyVolume(rows, window);
    out := Outputs(reports, flagged, rules, suppressedByDate, unseenByDate, volume.value);
  }

  lemma {:induction false} EveryRowPresent(rows: seq<Row>)
    ensures forall i :: 0 <= i < |rows| ==> Mine(rows, rows[i].identity) != []
  {
    forall i | 0 <= i < |rows| ensures Mine(rows, rows[i].identity) != [] {
      MineIsPresent(rows, rows[i].identity);
    }
  }

  lemma {:induction false} NoneToAttach(suppressed: set<nat>, panels: seq<Panel>)
    ensures R5Findings(suppressed, panels) == map[] <==> suppressed == {}
  {
    if suppressed != {} {
      var i :| i in suppressed;
      assert i in R5Findings(suppressed, panels);
    }
  }

  ghost predicate AllComplete(env: Env, rows: seq<Row>, xs: map<string, EvaluatedIdentity>) {
    && PresentIn(rows, xs.Keys)
    && forall id :: id in xs ==> IdentityEvaluated(env, rows, id, xs[id], CoreRulesOf(env, rows, id))
  }

  /** After R5 is attached an identity's core rule ids include it, recomputed or not. */
  lemma {:induction false} CompletedOne(env: Env, rows: seq<Row>, before: EvaluatedIdentity, after: EvaluatedIdentity,
                                        id: string, items: seq<EvaluatedRow>, suppressed: set<nat>)
    requires IdentityEvaluated(env, rows, id, before, EarlyRulesOf(env, rows, id)) && Evaluated(env, rows, items)
    requires suppressed == set i | 0 <= i < |rows| && Suppressed(rows, env.panels, rows[i])
    requires after == if suppressed == {} then before else Recomputed(before, items)
    ensures IdentityEvaluated(env, rows, id, after, CoreRulesOf(env, rows, id))
  {
    if suppressed == {} {
      forall i | 0 <= i < |rows| ensures !Suppressed(rows, env.panels, rows[i]) {
        assert i !in suppressed;
      }
      NothingLate(env, rows, id);
    } else {
      CoreIds(env, rows, items, id);
    }
  }

  lemma {:induction false} Completed(env: Env, rows: seq<Row>, before: map<string, EvaluatedIdentity>,
                                     after: map<string, EvaluatedIdentity>, items: seq<EvaluatedRow>, suppressed: set<nat>)
    requires PresentIn(rows, before.Keys) && Grouped(env, rows, before, before.Keys) && Evaluated(env, rows, items)
    requires suppressed == set i | 0 <= i < |rows| && Suppressed(rows, env.panels, rows[i])
    requires after.Keys == before.Keys
    requires forall id :: id in after ==> after[id] == if suppressed == {} then before[id] else Recomputed(before[id], items)
    ensures AllComplete(env, rows, after)
  {
    forall id | id in after ensures IdentityEvaluated(env, rows, id, after[id], CoreRulesOf(env, rows, id)) {
      CompletedOne(env, rows, before[id], after[id], id, items, suppressed);
    }
  }

  method BuildEach(xs: map<string, EvaluatedIdentity>, items: seq<EvaluatedRow>, unseenRows: Option<set<nat>>,
                   ghost env: Env, ghost rows: seq<Row>)
      returns (reports: map<string, Report>)
    requires Evaluated(env, rows, items) && AllComplete(env, rows, xs)
    requires unseenRows == if env.panels == [] then None else Some(set i | 0 <= i < |rows| && Unseen(rows, env.panels, rows[i]))
    ensures ReportsAll(env, rows, reports)
  {
    reports := map[];
    var todo := xs.Keys;
    while todo != {}
      invariant todo <= xs.Keys && Reported(env, rows, xs.Keys, todo, reports)
      decreases todo
    {
      ghost var some := Tallies.MemberOf(todo);
      var id :| id in todo;
      var report := BuildFindingRow(xs[id], items, unseenRows, env, rows, id);
      reports := reports[id := report];
      todo := todo - {id};
    }
  }

  /** Row numbers counted by the date of their row. */
  method CountByDate(rows: seq<Row>, members: set<nat>, dates: seq<int>, ghost q: Row -> bool) returns (t: map<int, nat>)
    requires members == set i | 0 <= i < |rows| && q(rows[i])
    ensures (forall d :: d in t <==> d in dates) && forall d :: d in t ==> t[d] == RowsWith(rows, d, q)
  {
    t := map d | d in dates :: 0;
    forall d | d in t ensures RowsWith([], d, q) == 0 {
      assert Where([], DatedWith(d, q)) == {};
    }
    assert rows[..0] == [];
    for i := 0 to |rows|
      invariant forall d :: d in t <==> d in dates
      invariant forall d :: d in t ==> t[d] == RowsWith(rows[..i], d, q)
    {
      assert i in members <==> q(rows[i]);
      forall d ensures RowsWith(rows[..i + 1], d, q) == RowsWith(rows[..i], d, q) + if rows[i].date == d && q(rows[i]) then 1 else 0 {
        CountNext(rows, i, d, q);
      }
      if i in members && rows[i].date in t {
        t := t[rows[i].date := t[rows[i].date] + 1];
      }
    }
    assert rows[..|rows|] == rows;
  }

  method SuppressedByDate(rows: seq<Row>, suppressed: set<nat>, window: RunWindow, ghost env: Env) returns (t: map<int, nat>)
    requires suppressed == set i | 0 <= i < |rows| && Suppressed(rows, env.panels, rows[i])
    ensures CountsAll(rows, window, SuppressedRow(env, rows), t)
  {
    t := CountByDate(rows, suppressed, window.Dates(), SuppressedRow(env, rows));
  }

  method UnseenByDate(rows: seq<Row>, unseen: set<nat>, window: RunWindow, ghost env: Env) returns (t: map<int, nat>)
    requires unseen == set i | 0 <= i < |rows| && Unseen(rows, env.panels, rows[i])
    ensures CountsAll(rows, window, UnseenRow(env, rows), t)
  {
    t := CountByDate(rows, unseen, window.Dates(), UnseenRow(env, rows));
  }

  lemma {:induction false} CountNext(rows: seq<Row>, i: nat, d: int, q: Row -> bool)
    requires i < |rows|
    ensures RowsWith(rows[..i + 1], d, q) == RowsWith(rows[..i], d, q) + if rows[i].date == d && q(rows[i]) then 1 else 0
  {
    assert rows[..i + 1] == rows[..i] + [rows[i]];
    WhereAppend(rows[..i], rows[i], DatedWith(d, q));
  }

  /** The rows both forms judge: each with the hash of its document, where it did not have one. */
  lemma {:induction false} HashesMean(sha: Json -> string, raw: seq<Row>, i: nat)
    requires i < |raw|
    ensures HashedAll(sha, raw)[i] == raw[i].(docHash := if raw[i].docHash != "" then raw[i].docHash else sha(raw[i].source))
  {
  }

  // ----- the two together

  /** One pass without keeping rows gives what evaluating all rows gives, hashes eager or lazy. */
  method BothForms(schema: Schema, window: RunWindow, env: Env, raw: seq<Row>) returns (streamed: Outputs, batch: Outputs)
    requires Feed(schema, window, raw)
    ensures streamed == batch
    ensures IsAnalysis(env, HashedAll(env.sha, raw), window, streamed)
  {
    streamed := AnalyzeStream(schema, window, env, raw);
    forall i | 0 <= i < |raw| ensures raw[i].date in window.Dates() {
      DateHasBucket(window, raw[i].at);
    }
    batch := AnalyzeBatch(window, env, HashedAll(env.sha, raw));
    AnalysisUnique(env, HashedAll(env.sha, raw), window, streamed, batch);
  }
}
