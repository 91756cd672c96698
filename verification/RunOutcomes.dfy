/** The states a run gives its alerts, and why every date adds up (`src/run/orchestrator.py:153-210`, `src/llm/assess.py:403-420`). */
module RunOutcomes {
  import opened Text
  import opened Sorting
  import opened Normalize
  import opened RowSets
  import opened Metrics
  import opened Suppression
  import opened Analysis
  import opened StreamIdentities
  import opened Streaming
  import Tallies
  import opened Quality
  import opened Attempts
  import opened Assess
  import opened Coverage
  import opened Rules
  import opened RuleTables
  import opened ReportLaws

  // ----- who is given to the model

  /** The representative of an identity without core findings. */
  ghost predicate IsEligible(env: Env, rows: seq<Row>, a: Row) {
    && Mine(rows, a.identity) != []
    && CoreRulesOf(env, rows, a.identity) == {}
    && a == Representative(Mine(rows, a.identity))
  }

  lemma {:induction false} RepresentativeHasIdentity(rows: seq<Row>, id: string)
    requires Mine(rows, id) != []
    ensures Representative(Mine(rows, id)).identity == id
  {
    MineIsPresent(rows, id);
    RepresentativeIsLatest(Mine(rows, id));
  }

  /** The list holds exactly the eligible alerts of one schema. */
  ghost predicate EligibleExact(env: Env, rows: seq<Row>, alerts: seq<Row>) {
    forall a :: a in alerts <==> IsEligible(env, rows, a)
  }

  /** Of the identities seen so far. */
  ghost predicate EligibleAmong(env: Env, rows: seq<Row>, ids: set<string>, alerts: seq<Row>) {
    && (forall i :: 0 <= i < |alerts| ==> alerts[i].identity in ids)
    && (forall a :: a in alerts <==> a.identity in ids && IsEligible(env, rows, a))
    && DistinctIdentities(alerts)
  }

  lemma {:induction false} OneMoreEligible(env: Env, rows: seq<Row>, ids: set<string>, alerts: seq<Row>, id: string, a: Row)
    requires EligibleAmong(env, rows, ids, alerts) && id !in ids
    requires Mine(rows, id) != [] && a == Representative(Mine(rows, id))
    ensures EligibleAmong(env, rows, ids + {id}, if CoreRulesOf(env, rows, id) == {} then alerts + [a] else alerts)
  {
    RepresentativeHasIdentity(rows, id);
    var more := alerts + [a];
    forall b ensures b in more <==> b in alerts || b == a {}
  }

  /** The representatives of a schema's identities without core findings. */
  method EligibleAlerts(analysis: SchemaAccumulator) returns (alerts: seq<Row>)
    requires analysis.IdentitiesExact() && analysis.DoneAll()
    ensures EligibleExact(analysis.env, analysis.rows, alerts) && DistinctIdentities(alerts)
  {
    ghost var env, rows := analysis.env, analysis.rows;
    alerts := [];
    var todo := analysis.identities.Keys;
    ghost var all := todo;
    assert all - todo == {};
    while todo != {}
      invariant todo <= all && EligibleAmong(env, rows, all - todo, alerts)
      decreases todo
    {
      ghost var some := Tallies.MemberOf(todo);
      var id :| id in todo;
      alerts := AddEligible(analysis, id, alerts, all - todo);
      Tallies.Remaining(all, todo, id);
      todo := todo - {id};
    }
    assert all - {} == all;
  }

  method AddEligible(analysis: SchemaAccumulator, id: string, alerts: seq<Row>, ghost ids: set<string>) returns (more: seq<Row>)
    requires analysis.IdentitiesExact() && analysis.DoneAll() && id in analysis.identities && id !in ids
    requires EligibleAmong(analysis.env, analysis.rows, ids, alerts)
    ensures EligibleAmong(analysis.env, analysis.rows, ids + {id}, more)
  {
    assert Look(id);
    var x := analysis.identities[id];
    CoreIdsEmpty(analysis.env, analysis.rows, id);
    OneMoreEligible(analysis.env, analysis.rows, ids, alerts, id, x.representative);
    more := if x.coreRuleIds == [] then alerts + [x.representative] else alerts;
  }

  // ----- without the model

  function Unjudged(reason: string, alert: Row): AlertOutcome {
    AlertOutcome(Unassessed, None, None, None, Some(reason), false, alert)
  }

  /** `mark_all_unassessed`. */
  function MarkAllUnassessed(alerts: seq<Row>, reason: string): map<string, AlertOutcome> {
    Record(seq(|alerts|, i requires 0 <= i < |alerts| => Unjudged(reason, alerts[i])))
  }

  /** Every alert is marked, with the reason, and nothing else is. */
  lemma {:induction false} EveryAlertIsMarked(alerts: seq<Row>, reason: string)
    ensures Covered(alerts, MarkAllUnassessed(alerts, reason))
    ensures forall id :: id in MarkAllUnassessed(alerts, reason) ==>
      var o := MarkAllUnassessed(alerts, reason)[id];
      o.alert in alerts && o.alert.identity == id && HasNone(o, reason)
  {
    var outs := seq(|alerts|, i requires 0 <= i < |alerts| => Unjudged(reason, alerts[i]));
    RecordExact(outs);
    forall a | a in alerts ensures a.identity in Record(outs) {
      var i :| 0 <= i < |alerts| && alerts[i] == a;
      assert outs[i] in outs;
    }
    forall id | id in Record(outs)
      ensures Record(outs)[id].alert in alerts && Record(outs)[id].alert.identity == id && HasNone(Record(outs)[id], reason)
    {
      var i :| 0 <= i < |outs| && outs[i] == Record(outs)[id];
      assert alerts[i] in alerts;
    }
  }

  // ----- what the outcomes mean for the dates

  function StatesOf(m: map<string, AlertOutcome>): Outcomes {
    map id | id in m :: m[id].state
  }

  /** The row's identity has no core finding, and its outcome is in the state. */
  ghost predicate GivenState(env: Env, rows: seq<Row>, m: map<string, AlertOutcome>, s: State, row: Row) {
    CoreRulesOf(env, rows, row.identity) == {} && row.identity in m && m[row.identity].state == s
  }

  ghost function RowsGiven(env: Env, rows: seq<Row>, m: map<string, AlertOutcome>, d: int, s: State): set<nat> {
    set i | 0 <= i < |rows| && rows[i].date == d && GivenState(env, rows, m, s, rows[i])
  }

  ghost function IdentitiesGiven(env: Env, rows: seq<Row>, m: map<string, AlertOutcome>, d: int, s: State): set<string> {
    set i | 0 <= i < |rows| && rows[i].date == d && GivenState(env, rows, m, s, rows[i]) :: rows[i].identity
  }

  lemma {:induction false} GivenAre(env: Env, rows: seq<Row>, m: map<string, AlertOutcome>, d: int, s: State)
    ensures RowsWith(rows, d, StateRow(env, rows, StatesOf(m), s)) == |RowsGiven(env, rows, m, d, s)|
    ensures IdentitiesWith(rows, d, StateRow(env, rows, StatesOf(m), s)) == |IdentitiesGiven(env, rows, m, d, s)|
  {
    var q := DatedWith(d, StateRow(env, rows, StatesOf(m), s));
    forall row: Row ensures q(row) <==> row.date == d && GivenState(env, rows, m, s, row) {}
    assert Where(rows, q) == RowsGiven(env, rows, m, d, s);
    assert Values(rows, q, IdentityOfRow) == IdentitiesGiven(env, rows, m, d, s);
  }

  /** The figures of a date count the rows and identities by the state of their outcome. */
  lemma {:induction false} FiguresAreOutcomes(env: Env, rows: seq<Row>, m: map<string, AlertOutcome>, d: int)
    ensures var q := QualityOn(env, rows, StatesOf(m), d);
      && q.flaggedByLlm == |RowsGiven(env, rows, m, d, LlmFlagged)|
      && q.flaggedByLlmDistinct == |IdentitiesGiven(env, rows, m, d, LlmFlagged)|
      && q.needsReview == |IdentitiesGiven(env, rows, m, d, NeedsReview)|
      && q.assessedGood == |IdentitiesGiven(env, rows, m, d, AssessedGood)|
      && q.unassessed == |IdentitiesGiven(env, rows, m, d, Unassessed)|
  {
    GivenAre(env, rows, m, d, LlmFlagged);
    GivenAre(env, rows, m, d, NeedsReview);
    GivenAre(env, rows, m, d, AssessedGood);
    GivenAre(env, rows, m, d, Unassessed);
  }

  /** The identity is of v2, and a rule from 8 to 10 fires on its representative. */
  ghost predicate LacksReadiness(env: Env, rows: seq<Row>, id: string) {
    exists k :: 0 <= k < |rows| && StandsForAll(rows, id, k) && rows[k].schema == V2 && FailsReadiness(env, rows[k])
  }

  ghost predicate FailsReadiness(env: Env, row: Row) {
    exists r :: RuleNumber(r) >= 8 && env.rules(r, row.(docHash := "")).Some?
  }

  lemma {:induction false} GapMeans(env: Env, rows: seq<Row>, id: string)
    ensures HasGap(env, rows, id) <==> LacksReadiness(env, rows, id)
  {
    MineIsPresent(rows, id);
    if Mine(rows, id) != [] {
      RepresentativeStands(rows, id);
      var k :| 0 <= k < |rows| && StandsForAll(rows, id, k) && Representative(Mine(rows, id)) == rows[k];
      ReadinessFails(env, rows[k]);
      forall l | 0 <= l < |rows| && StandsForAll(rows, id, l) ensures l == k {
        OneStands(rows, id, k, l);
      }
    }
  }

  lemma {:induction false} ReadinessFails(env: Env, row: Row)
    ensures EvaluateReadinessRules(env.rules, row) != [] <==> FailsReadiness(env, row)
  {
    var ids := RuleIdsOf(EvaluateReadinessRules(env.rules, row));
    ReadinessMeans(env.rules, READINESS_RULE_IDS, row);
    forall r ensures r in READINESS_RULE_IDS <==> RuleNumber(r) >= 8 {
      CoreIsSeven(r);
    }
    if ids != [] {
      assert ids[0] in ids;
    }
  }

  /** The gap figure counts the identities of the date that lack readiness. */
  lemma {:induction false} GapsMean(env: Env, rows: seq<Row>, outcomes: Outcomes, d: int)
    ensures QualityOn(env, rows, outcomes, d).phase2Gaps
         == |set i | 0 <= i < |rows| && rows[i].date == d && LacksReadiness(env, rows, rows[i].identity) :: rows[i].identity|
  {
    var q := DatedWith(d, GapRow(env, rows));
    forall id ensures HasGap(env, rows, id) <==> LacksReadiness(env, rows, id) {
      GapMeans(env, rows, id);
    }
    assert Values(rows, q, IdentityOfRow)
      == set i | 0 <= i < |rows| && rows[i].date == d && LacksReadiness(env, rows, rows[i].identity) :: rows[i].identity;
  }

  ghost predicate EveryDateDecided(env: Env, rows: seq<Row>, outcomes: Outcomes) {
    forall d: int :: AllDecided(env, rows, outcomes, d)
  }

  /** On every date the rule-flagged identities and the four states add up to the distinct alerts. */
  ghost predicate EveryDateAddsUp(env: Env, rows: seq<Row>, outcomes: Outcomes) {
    forall d: int :: Quality.Decided(env, rows, outcomes, d) == |Values(rows, Dated(d), IdentityOfRow)|
  }

  lemma {:induction false} DecidedAddsUp(env: Env, rows: seq<Row>, outcomes: Outcomes)
    ensures EveryDateAddsUp(env, rows, outcomes) <==> EveryDateDecided(env, rows, outcomes)
  {
    forall d: int
      ensures Quality.Decided(env, rows, outcomes, d) == |Values(rows, Dated(d), IdentityOfRow)| <==> AllDecided(env, rows, outcomes, d)
    {
      StatesAddUp(env, rows, outcomes, d);
    }
  }

  /** The alerts of one schema among those given outcomes. */
  ghost predicate CoversEligible(env: Env, rows: seq<Row>, outcomes: Outcomes) {
    forall a :: IsEligible(env, rows, a) ==> a.identity in outcomes
  }

  lemma {:induction false} CoveredIsDecided(env: Env, rows: seq<Row>, outcomes: Outcomes)
    ensures CoversEligible(env, rows, outcomes) <==> EveryDateDecided(env, rows, outcomes)
  {
    if CoversEligible(env, rows, outcomes) {
      forall i | 0 <= i < |rows| && CoreRulesOf(env, rows, rows[i].identity) == {} ensures rows[i].identity in outcomes {
        RowIsCovered(env, rows, outcomes, i);
      }
    }
    if EveryDateDecided(env, rows, outcomes) {
      forall a | IsEligible(env, rows, a) ensures a.identity in outcomes {
        MineIsPresent(rows, a.identity);
        var i :| 0 <= i < |rows| && rows[i].identity == a.identity;
        assert AllDecided(env, rows, outcomes, rows[i].date);
      }
    }
  }

  lemma {:induction false} RowIsCovered(env: Env, rows: seq<Row>, outcomes: Outcomes, i: nat)
    requires CoversEligible(env, rows, outcomes) && i < |rows| && CoreRulesOf(env, rows, rows[i].identity) == {}
    ensures rows[i].identity in outcomes
  {
    MineIsPresent(rows, rows[i].identity);
    RepresentativeHasIdentity(rows, rows[i].identity);
    assert IsEligible(env, rows, Representative(Mine(rows, rows[i].identity)));
  }

  /** One schema's analysis: its parameters and rows. */
  datatype Side = Side(env: Env, rows: seq<Row>)

  /** The alerts given to the model are exactly the eligible ones of both schemas. */
  ghost predicate IsCandidateList(v1: Side, v2: Side, alerts: seq<Row>) {
    forall a :: a in alerts <==> IsEligible(v1.env, v1.rows, a) || IsEligible(v2.env, v2.rows, a)
  }

  lemma {:induction false} CoveredBothSides(v1: Side, v2: Side, alerts: seq<Row>, m: map<string, AlertOutcome>)
    requires IsCandidateList(v1, v2, alerts)
    ensures Covered(alerts, m) <==> EveryDateAddsUp(v1.env, v1.rows, StatesOf(m)) && EveryDateAddsUp(v2.env, v2.rows, StatesOf(m))
  {
    CoveredIsDecided(v1.env, v1.rows, StatesOf(m));
    CoveredIsDecided(v2.env, v2.rows, StatesOf(m));
    DecidedAddsUp(v1.env, v1.rows, StatesOf(m));
    DecidedAddsUp(v2.env, v2.rows, StatesOf(m));
    assert Covered(alerts, m) <==> CoversEligible(v1.env, v1.rows, StatesOf(m)) && CoversEligible(v2.env, v2.rows, StatesOf(m));
  }

  /** A run without the model adds up on every date of both schemas. */
  lemma {:induction false} UnassessedRunAddsUp(v1: Side, v2: Side, alerts: seq<Row>, reason: string)
    requires IsCandidateList(v1, v2, alerts)
    ensures var states := StatesOf(MarkAllUnassessed(alerts, reason));
      EveryDateAddsUp(v1.env, v1.rows, states) && EveryDateAddsUp(v2.env, v2.rows, states)
  {
    EveryAlertIsMarked(alerts, reason);
    CoveredBothSides(v1, v2, alerts, MarkAllUnassessed(alerts, reason));
  }

  /**
   A completed assessment adds up on every date of both schemas exactly when the configured batch
   size is not negative or everything was reused.
   */
  lemma {:induction false} AssessedRunAddsUp(v1: Side, v2: Side, alerts: seq<Row>, s: Setup, results: seq<Result>)
    requires IsCandidateList(v1, v2, alerts) && Identified(alerts) && Completed(s, alerts, results)
    ensures var states := StatesOf(ResultOf(s, alerts, BatchesFor(s, alerts), results).outcomes);
      EveryDateAddsUp(v1.env, v1.rows, states) && EveryDateAddsUp(v2.env, v2.rows, states)
      <==> (s.maxBatchSize.None? || s.maxBatchSize.value >= 0 || ToRequest(s.existing, alerts) == [])
  {
    AssessmentIsExhaustive(s, alerts, results);
    CoveredBothSides(v1, v2, alerts, ResultOf(s, alerts, BatchesFor(s, alerts), results).outcomes);
  }

  /** The list of the orchestrator: one schema after the other. */
  method CandidateAlerts(v1: SchemaAccumulator, v2: SchemaAccumulator) returns (alerts: seq<Row>)
    requires v1.IdentitiesExact() && v1.DoneAll() && v2.IdentitiesExact() && v2.DoneAll()
    ensures IsCandidateList(Side(v1.env, v1.rows), Side(v2.env, v2.rows), alerts)
  {
    var first := EligibleAlerts(v1);
    var second := EligibleAlerts(v2);
    alerts := first + second;
  }
}
