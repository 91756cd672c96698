/** Rule identifiers, findings, and the row rules as functions of a row (`src/rules/core.py`, `src/rules/readiness.py`). */
module Rules {
  import opened Text
  import opened Hashing
  import opened Normalize
  import opened Firing

  datatype RuleId = R1 | R2 | R3 | R4 | R5 | R6 | R7 | R8 | R9 | R10

  const CORE_RULE_IDS: seq<RuleId> := [R1, R2, R3, R4, R5, R6, R7]
  const READINESS_RULE_IDS: seq<RuleId> := [R8, R9, R10]
  const ROW_CORE_RULES: seq<RuleId> := [R1, R2, R3, R4, R7]

  predicate IsCore(r: RuleId) {
    r in CORE_RULE_IDS
  }

  /** The place of a rule in a row's evidence: core, R6, R5, readiness. */
  function EvidenceOrder(r: RuleId): nat {
    match r
    case R1 => 0 case R2 => 1 case R3 => 2 case R4 => 3 case R7 => 4
    case R6 => 5 case R5 => 6 case R8 => 7 case R9 => 8 case R10 => 9
  }

  datatype Evidence = FromRow(detail: Json) | FromFiring(facts: FiringFacts, rows: nat) | FromPanels(panels: seq<string>)

  datatype Finding = Finding(rule: RuleId, evidence: Evidence)

  /** The row rules R1-R4 and R7-R10: each gives at most one finding for a row. */
  type RowRules = (RuleId, Row) -> Option<Json>

  /** No rule and no panel predicate reads the document hash. */
  function Bare(row: Row): Row {
    row.(docHash := "")
  }

  /** The rules of `ids` that fire on `row`, in that order. */
  function Evaluate(rules: RowRules, ids: seq<RuleId>, row: Row): seq<Finding> {
    if ids == [] then []
    else
      var n := |ids| - 1;
      match rules(ids[n], Bare(row))
      case None => Evaluate(rules, ids[..n], row)
      case Some(e) => Evaluate(rules, ids[..n], row) + [Finding(ids[n], FromRow(e))]
  }

  function EvaluateCoreRules(rules: RowRules, row: Row): seq<Finding> {
    Evaluate(rules, ROW_CORE_RULES, row)
  }

  function EvaluateReadinessRules(rules: RowRules, row: Row): seq<Finding> {
    Evaluate(rules, READINESS_RULE_IDS, row)
  }

  predicate Ascending(ids: seq<RuleId>) {
    forall i, j :: 0 <= i < j < |ids| ==> EvidenceOrder(ids[i]) < EvidenceOrder(ids[j])
  }

  /** Findings in evidence order, hence at most one per rule. */
  predicate InEvidenceOrder(fs: seq<Finding>) {
    forall i, j :: 0 <= i < j < |fs| ==> EvidenceOrder(fs[i].rule) < EvidenceOrder(fs[j].rule)
  }

  ghost predicate Reports(fs: seq<Finding>, r: RuleId, e: Option<Evidence>) {
    match e
    case None => forall i :: 0 <= i < |fs| ==> fs[i].rule != r
    case Some(x) => exists i :: 0 <= i < |fs| && fs[i] == Finding(r, x)
  }

  function Lift(e: Option<Json>): Option<Evidence> {
    match e case None => None case Some(x) => Some(FromRow(x))
  }

  lemma {:induction false} EvaluateReports(rules: RowRules, ids: seq<RuleId>, row: Row)
    requires Ascending(ids)
    ensures var fs := Evaluate(rules, ids, row);
      && InEvidenceOrder(fs)
      && (forall i :: 0 <= i < |fs| ==> fs[i].rule in ids)
      && (forall r :: r in ids ==> Reports(fs, r, Lift(rules(r, Bare(row)))))
  {
    if ids != [] {
      var n := |ids| - 1;
      var fs, init := Evaluate(rules, ids, row), Evaluate(rules, ids[..n], row);
      EvaluateReports(rules, ids[..n], row);
      forall i | 0 <= i < |init| ensures EvidenceOrder(init[i].rule) < EvidenceOrder(ids[n]) {
        assert init[i].rule in ids[..n];
      }
      forall r | r in ids ensures Reports(fs, r, Lift(rules(r, Bare(row)))) {
        if r == ids[n] {
          assert rules(r, Bare(row)).Some? ==> fs[|init|].rule == r;
        } else {
          assert r in ids[..n];
          assert Reports(init, r, Lift(rules(r, Bare(row))));
          assert forall i :: 0 <= i < |init| ==> init[i] == fs[i];
        }
      }
    }
  }
}
