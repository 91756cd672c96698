/** What the stored finding row of an identity says, in terms of the schema's rows (`src/run/orchestrator.py:445-533`). */
module ReportLaws {
  import opened Text
  import opened Normalize
  import opened Rules
  import opened RowSets
  import opened Analysis
  import opened RuleTables
  import opened Suppression
  import opened Firing
  import FiringLaws

  /** Some row of the identity fires the rule. */
  ghost predicate FiresOn(env: Env, rows: seq<Row>, id: string, r: RuleId) {
    exists i :: 0 <= i < |rows| && rows[i].identity == id && Fires(env, rows, rows[i], r).Some?
  }

  /** Each rule once, by rule number. */
  predicate ByRuleNumber(ids: seq<RuleId>) {
    forall i, j :: 0 <= i < j < |ids| ==> RuleNumber(ids[i]) < RuleNumber(ids[j])
  }

  /** The identity's row at position `k` is the first of its latest rows with the least document hash. */
  ghost predicate StandsForAll(rows: seq<Row>, id: string, k: nat)
    requires k < |rows|
  {
    && rows[k].identity == id
    && (forall j :: 0 <= j < |rows| && rows[j].identity == id ==>
          rows[j].at < rows[k].at || (rows[j].at == rows[k].at && !Less(rows[j].docHash, rows[k].docHash)))
    && (forall j :: 0 <= j < k && rows[j].identity == id ==>
          rows[j].at < rows[k].at || (rows[j].at == rows[k].at && Less(rows[k].docHash, rows[j].docHash)))
  }

  lemma {:induction false} FlaggedMeans(env: Env, rows: seq<Row>, row: Row)
    ensures Flagged(env, rows, row) <==> exists r :: RuleNumber(r) <= 7 && Fires(env, rows, row, r).Some?
  {
    forall r ensures IsCore(r) <==> RuleNumber(r) <= 7 {
      CoreIsSeven(r);
    }
  }

  lemma {:induction false} CoreIsSeven(r: RuleId)
    ensures IsCore(r) <==> RuleNumber(r) <= 7
    ensures r in CORE_RULE_IDS <==> RuleNumber(r) <= 7
    ensures r in READINESS_RULE_IDS <==> RuleNumber(r) >= 8
  {
    assert RuleNumber(r) <= 7 ==> CORE_RULE_IDS[RuleNumber(r) - 1] == r;
    assert RuleNumber(r) >= 8 ==> READINESS_RULE_IDS[RuleNumber(r) - 8] == r;
  }

  /** Within a row, evidence is listed R1 to R4, R7, R6, R5, R8 to R10. */
  lemma {:induction false} EvidencePlaces(r: RuleId)
    ensures EvidenceOrder(r) < 10 && [R1, R2, R3, R4, R7, R6, R5, R8, R9, R10][EvidenceOrder(r)] == r
  {
  }

  lemma {:induction false} KeepMeans(all: seq<RuleId>, s: set<RuleId>)
    requires ByRuleNumber(all)
    ensures ByRuleNumber(Keep(all, s)) && forall r :: r in Keep(all, s) <==> r in all && r in s
  {
    if all != [] {
      var n := |all| - 1;
      KeepMeans(all[..n], s);
      assert all == all[..n] + [all[n]];
      forall r | r in Keep(all[..n], s) ensures RuleNumber(r) < RuleNumber(all[n]) {
        assert r in all[..n];
      }
    }
  }

  lemma {:induction false} ReadinessMeans(rules: RowRules, ids: seq<RuleId>, row: Row)
    requires ByRuleNumber(ids)
    ensures ByRuleNumber(RuleIdsOf(Evaluate(rules, ids, row)))
    ensures forall r :: r in RuleIdsOf(Evaluate(rules, ids, row)) <==> r in ids && rules(r, row.(docHash := "")).Some?
  {
    if ids != [] {
      var n := |ids| - 1;
      ReadinessMeans(rules, ids[..n], row);
      assert ids == ids[..n] + [ids[n]];
      var before := RuleIdsOf(Evaluate(rules, ids[..n], row));
      assert RuleIdsOf(Evaluate(rules, ids, row)) == if rules(ids[n], row.(docHash := "")).Some? then before + [ids[n]] else before;
      forall r | r in before ensures RuleNumber(r) < RuleNumber(ids[n]) {
        assert r in ids[..n];
      }
    }
  }

  lemma {:induction false} CoreRulesMean(env: Env, rows: seq<Row>, id: string, r: RuleId)
    ensures r in CoreRulesOf(env, rows, id) <==> RuleNumber(r) <= 7 && FiresOn(env, rows, id, r)
  {
    CoreIsSeven(r);
    if FiresOn(env, rows, id, r) {
      var i :| 0 <= i < |rows| && rows[i].identity == id && Fires(env, rows, rows[i], r).Some?;
      assert i in FiredBy(env, rows, id, r);
    }
  }

  /** The positions of the identity's rows, in order. */
  lemma {:induction false} MineAre(rows: seq<Row>, id: string) returns (at: seq<nat>)
    ensures |at| == |Mine(rows, id)|
    ensures forall i :: 0 <= i < |at| ==> at[i] < |rows| && rows[at[i]] == Mine(rows, id)[i] && rows[at[i]].identity == id
    ensures forall i, j :: 0 <= i < j < |at| ==> at[i] < at[j]
    ensures forall k :: 0 <= k < |rows| && rows[k].identity == id ==> k in at
  {
    at := [];
    if rows != [] {
      var n := |rows| - 1;
      at := MineAre(rows[..n], id);
      if rows[n].identity == id {
        at := at + [n];
      }
    }
  }

  lemma {:induction false} RepresentativeStands(rows: seq<Row>, id: string)
    requires Mine(rows, id) != []
    ensures exists k :: 0 <= k < |rows| && StandsForAll(rows, id, k) && Representative(Mine(rows, id)) == rows[k]
  {
    var mine := Mine(rows, id);
    var at := MineAre(rows, id);
    RepresentativeIsLatest(mine);
    var i :| 0 <= i < |mine| && IsRepresentativeAt(mine, i) && Representative(mine) == mine[i];
    forall j | 0 <= j < |rows| && rows[j].identity == id
      ensures rows[j].at < mine[i].at || (rows[j].at == mine[i].at && !Less(rows[j].docHash, mine[i].docHash))
      ensures j < at[i] ==> rows[j].at < mine[i].at || (rows[j].at == mine[i].at && Less(mine[i].docHash, rows[j].docHash))
    {
      var l :| 0 <= l < |at| && at[l] == j;
      assert rows[j] == mine[l];
    }
    assert StandsForAll(rows, id, at[i]);
  }

  /** The core rules are those of rules 1 to 7 that fire on some row of the identity, by rule number. */
  lemma {:induction false} CoreRuleIdsMean(env: Env, rows: seq<Row>, id: string, r: Report)
    requires IsReport(env, rows, id, r)
    ensures ByRuleNumber(r.coreRuleIds) && forall q :: q in r.coreRuleIds <==> RuleNumber(q) <= 7 && FiresOn(env, rows, id, q)
  {
    var ids := CoreRulesOf(env, rows, id);
    assert r.coreRuleIds == Keep(CORE_RULE_IDS, ids);
    KeepMeans(CORE_RULE_IDS, ids);
    forall q ensures q in r.coreRuleIds <==> RuleNumber(q) <= 7 && FiresOn(env, rows, id, q) {
      CoreIsSeven(q);
      CoreRulesMean(env, rows, id, q);
    }
  }

  /** The readiness rules are those of rules 8 to 10 that fire on the representative, by rule number. */
  lemma {:induction false} ReadinessRuleIdsMean(env: Env, rows: seq<Row>, id: string, r: Report)
    requires IsReport(env, rows, id, r)
    ensures ByRuleNumber(r.readinessRuleIds)
    ensures forall q :: q in r.readinessRuleIds <==> RuleNumber(q) >= 8 && env.rules(q, r.representative.(docHash := "")).Some?
  {
    ReadinessMeans(env.rules, READINESS_RULE_IDS, r.representative);
    forall q ensures q in READINESS_RULE_IDS <==> RuleNumber(q) >= 8 {
      CoreIsSeven(q);
    }
  }

  /** The representative stands for all rows of the identity, and the rows are counted. */
  lemma {:induction false} RepresentativeMeans(env: Env, rows: seq<Row>, id: string, r: Report)
    requires IsReport(env, rows, id, r)
    ensures r.rowCount == |set i | 0 <= i < |rows| && rows[i].identity == id|
    ensures exists k :: 0 <= k < |rows| && StandsForAll(rows, id, k) && r.representative == rows[k]
  {
    MineIsPresent(rows, id);
    assert Where(rows, Owned(id)) == set i | 0 <= i < |rows| && rows[i].identity == id;
    RepresentativeStands(rows, id);
  }

  /** R5 fires on suppressed rows, with the ids of all panels; a row rule as the rule says. */
  lemma {:induction false} FiringMeans(env: Env, rows: seq<Row>, row: Row, r: RuleId)
    ensures Fires(env, rows, row, R5).Some? <==> Suppressed(rows, env.panels, row)
    ensures Fires(env, rows, row, R5).Some? ==>
      var e := Fires(env, rows, row, R5).value;
      && e.FromPanels? && |e.panels| == |env.panels|
      && forall p :: 0 <= p < |env.panels| ==> e.panels[p] == env.panels[p].id
    ensures r != R5 && r != R6 ==>
      match env.rules(r, row.(docHash := ""))
      case None => Fires(env, rows, row, r) == None
      case Some(detail) => Fires(env, rows, row, r) == Some(FromRow(detail))
  {
  }

  /** R6 fires on all rows of an identity whose rows, with their representative's provider, show a pattern. */
  lemma {:induction false} PatternMeans(env: Env, rows: seq<Row>, k: nat, s: seq<Row>)
    requires k < |rows| && StandsForAll(rows, rows[k].identity, k)
    requires multiset(s) == multiset(Mine(rows, rows[k].identity)) && FiringLaws.InFiringOrder(s)
    ensures var id := rows[k].identity;
      && Mine(rows, id) != []
      && FiringLaws.HasPattern(Facts(rows, id), |s|, rows[k].provider)
      && FiringLaws.IsMostCycles(s, Facts(rows, id).maxClearCycles24h)
      && (Fires(env, rows, rows[k], R6).Some? <==> Facts(rows, id).pattern.Some?)
  {
    var id := rows[k].identity;
    MineIsPresent(rows, id);
    RepresentativeStands(rows, id);
    var l :| 0 <= l < |rows| && StandsForAll(rows, id, l) && Representative(Mine(rows, id)) == rows[l];
    OneStands(rows, id, k, l);
    FiringLaws.PatternMeans(Mine(rows, id), s, rows[k].provider);
    FiringLaws.CyclesMean(Mine(rows, id), s, rows[k].provider);
  }

  lemma {:induction false} OneStands(rows: seq<Row>, id: string, k: nat, l: nat)
    requires k < |rows| && l < |rows| && StandsForAll(rows, id, k) && StandsForAll(rows, id, l)
    ensures k == l
  {
    LessTrichotomy(rows[k].docHash, rows[l].docHash);
  }
}
