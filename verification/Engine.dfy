/** The batch analysis: every row evaluated, then aggregated to identities (`src/rules/engine.py`). */
module Engine {
  import opened Text
  import opened Normalize
  import opened RowSets
  import opened Firing
  import opened Rules
  import opened Suppression
  import opened Analysis
  import opened StreamState
  import opened Finishing

  datatype EvaluatedRow = EvaluatedRow(row: Row, coreFindings: seq<Finding>, readinessFindings: seq<Finding>)

  /** `members` are the identity's rows by position, so that findings attached to a row are seen here too. */
  datatype EvaluatedIdentity = EvaluatedIdentity(
    members: seq<nat>,
    representative: Row,
    coreRuleIds: seq<RuleId>,
    readinessRuleIds: seq<RuleId>,
    facts: FiringFacts)

  // ----- what each row must carry in the end

  ghost function Late(fs: seq<Finding>, env: Env, rows: seq<Row>, row: Row, r: RuleId): seq<Finding> {
    if Fires(env, rows, row, r).Some? then fs + [Finding(r, Fires(env, rows, row, r).value)] else fs
  }

  /** The row's own core findings, then R6. */
  ghost function WithFiring(env: Env, rows: seq<Row>, row: Row): seq<Finding> {
    Late(EvaluateCoreRules(env.rules, row), env, rows, row, R6)
  }

  /** ... then R5. */
  ghost function CoreFindings(env: Env, rows: seq<Row>, row: Row): seq<Finding> {
    Late(WithFiring(env, rows, row), env, rows, row, R5)
  }

  function FindingsOf(item: EvaluatedRow): seq<Finding> {
    item.coreFindings + item.readinessFindings
  }

  ghost predicate Evaluated(env: Env, rows: seq<Row>, items: seq<EvaluatedRow>) {
    |items| == |rows| && forall i :: 0 <= i < |rows| ==> EvaluatedAt(env, rows, items[i], rows[i])
  }

  ghost predicate EvaluatedAt(env: Env, rows: seq<Row>, item: EvaluatedRow, row: Row) {
    item.row == row && forall it: EvaluatedRow :: Look(it) && it == item ==> HasFindings(env, rows, it)
  }

  /** The item carries its row's findings, R6 and R5 among them. */
  ghost predicate HasFindings(env: Env, rows: seq<Row>, item: EvaluatedRow) {
    && item.coreFindings == CoreFindings(env, rows, item.row)
    && item.readinessFindings == EvaluateReadinessRules(env.rules, item.row)
  }

  /** The findings of a list of rules, and nothing else. */
  ghost predicate Covers(fs: seq<Finding>, rules: set<RuleId>, find: RuleId -> Option<Evidence>) {
    && InEvidenceOrder(fs)
    && (forall i :: 0 <= i < |fs| ==> fs[i].rule in rules)
    && forall r :: r in rules ==> Reports(fs, r, find(r))
  }

  lemma {:induction false} CoversJoin(a: seq<Finding>, s: set<RuleId>, b: seq<Finding>, t: set<RuleId>, find: RuleId -> Option<Evidence>)
    requires Covers(a, s, find) && Covers(b, t, find)
    requires forall q, r :: q in s && r in t ==> EvidenceOrder(q) < EvidenceOrder(r)
    ensures Covers(a + b, s + t, find)
  {
    JoinOrder(a, b);
    forall r | r in s + t ensures Reports(a + b, r, find(r)) {
      JoinReports(a, b, r, find(r));
    }
  }

  lemma {:induction false} CoversOne(r: RuleId, find: RuleId -> Option<Evidence>)
    ensures find(r).Some? ==> Covers([Finding(r, find(r).value)], {r}, find)
    ensures find(r).None? ==> Covers([], {r}, find)
  {
    if find(r).Some? {
      assert [Finding(r, find(r).value)][0] == Finding(r, find(r).value);
    }
  }

  function RuleSet(ids: seq<RuleId>): set<RuleId> {
    set r | r in ids
  }

  /** What every rule finds in one row, late-bound rules included. */
  ghost function FindsIn(env: Env, rows: seq<Row>, row: Row): RuleId -> Option<Evidence> {
    (r: RuleId) => Fires(env, rows, row, r)
  }

  lemma {:induction false} CoversList(rules: RowRules, ids: seq<RuleId>, row: Row, find: RuleId -> Option<Evidence>)
    requires Rules.Ascending(ids) && forall r :: r in ids ==> find(r) == Lift(rules(r, Bare(row)))
    ensures Covers(Evaluate(rules, ids, row), RuleSet(ids), find)
  {
    EvaluateReports(rules, ids, row);
  }

  lemma {:induction false} CoversLate(fs: seq<Finding>, s: set<RuleId>, env: Env, rows: seq<Row>, row: Row, r: RuleId)
    requires Covers(fs, s, FindsIn(env, rows, row))
    requires forall q :: q in s ==> EvidenceOrder(q) < EvidenceOrder(r)
    ensures Covers(Late(fs, env, rows, row, r), s + {r}, FindsIn(env, rows, row))
  {
    var find := FindsIn(env, rows, row);
    CoversOne(r, find);
    if find(r).Some? {
      CoversJoin(fs, s, [Finding(r, find(r).value)], {r}, find);
    } else {
      CoversJoin(fs, s, [], {r}, find);
      assert fs + [] == fs;
    }
  }

  lemma {:induction false} BatchCovers(env: Env, rows: seq<Row>, row: Row, core: seq<RuleId>, ready: seq<RuleId>)
    requires Rules.Ascending(core) && Rules.Ascending(ready)
    requires forall r :: r in core ==> EvidenceOrder(r) < EvidenceOrder(R6)
    requires forall r :: r in ready ==> EvidenceOrder(R5) < EvidenceOrder(r)
    ensures var own := Late(Late(Evaluate(env.rules, core, row), env, rows, row, R6), env, rows, row, R5);
      Covers(own + Evaluate(env.rules, ready, row), RuleSet(core) + {R6} + {R5} + RuleSet(ready), FindsIn(env, rows, row))
  {
    var find := FindsIn(env, rows, row);
    var own := Evaluate(env.rules, core, row);
    CoversList(env.rules, core, row, find);
    CoversList(env.rules, ready, row, find);
    CoversLate(own, RuleSet(core), env, rows, row, R6);
    var fired := Late(own, env, rows, row, R6);
    CoversLate(fired, RuleSet(core) + {R6}, env, rows, row, R5);
    CoversJoin(Late(fired, env, rows, row, R5), RuleSet(core) + {R6} + {R5},
               Evaluate(env.rules, ready, row), RuleSet(ready), find);
  }

  lemma {:induction false} StageCovers(env: Env, rows: seq<Row>, row: Row, core: seq<RuleId>)
    requires Rules.Ascending(core) && forall r :: r in core ==> EvidenceOrder(r) < EvidenceOrder(R6)
    ensures var fired := Late(Evaluate(env.rules, core, row), env, rows, row, R6);
      && Covers(fired, RuleSet(core) + {R6}, FindsIn(env, rows, row))
      && Covers(Late(fired, env, rows, row, R5), RuleSet(core) + {R6} + {R5}, FindsIn(env, rows, row))
  {
    var own := Evaluate(env.rules, core, row);
    CoversList(env.rules, core, row, FindsIn(env, rows, row));
    CoversLate(own, RuleSet(core), env, rows, row, R6);
    CoversLate(Late(own, env, rows, row, R6), RuleSet(core) + {R6}, env, rows, row, R5);
  }

  lemma {:induction false} EveryRuleEvaluated(core: seq<RuleId>, ready: seq<RuleId>)
    requires core == ROW_CORE_RULES && ready == READINESS_RULE_IDS
    ensures Rules.Ascending(core) && Rules.Ascending(ready)
    ensures forall r :: r in core ==> EvidenceOrder(r) < EvidenceOrder(R6)
    ensures forall r :: r in ready ==> EvidenceOrder(R5) < EvidenceOrder(r)
    ensures forall r: RuleId :: r in RuleSet(core) + {R6} + {R5} + RuleSet(ready)
  {
    RuleLists();
  }

  lemma {:induction false} FindingsFire(env: Env, rows: seq<Row>, row: Row, core: seq<RuleId>, ready: seq<RuleId>)
    requires core == ROW_CORE_RULES && ready == READINESS_RULE_IDS
    ensures var own := Late(Late(Evaluate(env.rules, core, row), env, rows, row, R6), env, rows, row, R5);
      var fs := own + Evaluate(env.rules, ready, row);
      InEvidenceOrder(fs) && forall r :: Reports(fs, r, Fires(env, rows, row, r))
  {
    EveryRuleEvaluated(core, ready);
    BatchCovers(env, rows, row, core, ready);
    forall r ensures FindsIn(env, rows, row)(r) == Fires(env, rows, row, r) {}
  }

  /** A fully evaluated row carries exactly what the analysis says fires on it, in evidence order. */
  lemma {:induction false} BatchFindings(env: Env, rows: seq<Row>, row: Row)
    ensures var fs := CoreFindings(env, rows, row) + EvaluateReadinessRules(env.rules, row);
      InEvidenceOrder(fs) && forall r :: Reports(fs, r, Fires(env, rows, row, r))
  {
    FindingsFire(env, rows, row, ROW_CORE_RULES, READINESS_RULE_IDS);
  }

  lemma {:induction false} ItemFindings(env: Env, rows: seq<Row>, items: seq<EvaluatedRow>, i: nat)
    requires Evaluated(env, rows, items) && i < |rows|
    ensures items[i].row == rows[i] && InEvidenceOrder(FindingsOf(items[i]))
    ensures forall r :: Reports(FindingsOf(items[i]), r, Fires(env, rows, rows[i], r))
  {
    assert EvaluatedAt(env, rows, items[i], rows[i]) && Look(items[i]);
    BatchFindings(env, rows, rows[i]);
  }

  lemma {:induction false} ItemFlagged(env: Env, rows: seq<Row>, items: seq<EvaluatedRow>, i: nat)
    requires Evaluated(env, rows, items) && i < |rows| && Mine(rows, rows[i].identity) != []
    ensures items[i].row == rows[i] && (items[i].coreFindings != [] <==> Flagged(env, rows, rows[i]))
  {
    assert EvaluatedAt(env, rows, items[i], rows[i]) && Look(items[i]);
    FlaggedBySignature(env, rows, rows[i]);
  }
}
