/** `evaluate_rows` and `attach_row_findings`: the batch evaluation of one schema (`src/rules/engine.py:108-219`). */
module Batch {
  import opened Text
  import opened Hashing
  import opened Normalize
  import opened RowSets
  import opened Firing
  import opened Rules
  import opened Suppression
  import opened Analysis
  import opened StreamState
  import opened Finishing
  import opened Engine
  import opened EngineDaily
  import Tallies

  // ----- an identity's rows, by position

  function MineAt(rows: seq<Row>, id: string): seq<nat> {
    if rows == [] then []
    else
      var n := |rows| - 1;
      if rows[n].identity == id then MineAt(rows[..n], id) + [n] else MineAt(rows[..n], id)
  }

  predicate InRange(at: seq<nat>, n: nat) {
    forall m :: 0 <= m < |at| ==> at[m] < n
  }

  function Select(rows: seq<Row>, at: seq<nat>): seq<Row>
    requires InRange(at, |rows|)
  {
    seq(|at|, m requires 0 <= m < |at| => rows[at[m]])
  }

  lemma {:induction false} MineByPosition(rows: seq<Row>, id: string)
    ensures var at := MineAt(rows, id);
      && InRange(at, |rows|)
      && |at| == |Mine(rows, id)|
      && (forall m :: 0 <= m < |at| ==> rows[at[m]] == Mine(rows, id)[m])
      && (forall a, b :: 0 <= a < b < |at| ==> at[a] < at[b])
      && (forall i :: i in at <==> 0 <= i < |rows| && rows[i].identity == id)
  {
    if rows != [] {
      var n := |rows| - 1;
      MineByPosition(rows[..n], id);
    }
  }

  lemma {:induction false} SelectIsMine(rows: seq<Row>, id: string)
    ensures InRange(MineAt(rows, id), |rows|) && Select(rows, MineAt(rows, id)) == Mine(rows, id)
  {
    MineByPosition(rows, id);
  }

  method GroupByIdentity(rows: seq<Row>) returns (grouped: map<string, seq<nat>>)
    ensures forall id :: id in grouped <==> Mine(rows, id) != []
    ensures forall id :: id in grouped ==> grouped[id] == MineAt(rows, id)
  {
    grouped := map[];
    for i := 0 to |rows|
      invariant forall id :: id in grouped <==> Mine(rows[..i], id) != []
      invariant forall id :: id in grouped ==> grouped[id] == MineAt(rows[..i], id)
    {
      assert rows[..i + 1][..i] == rows[..i];
      var id := rows[i].identity;
      FirstOfGroup(rows[..i], id);
      grouped := grouped[id := (if id in grouped then grouped[id] else []) + [i]];
    }
    assert rows[..|rows|] == rows;
  }

  lemma {:induction false} FirstOfGroup(rows: seq<Row>, id: string)
    ensures Mine(rows, id) == [] <==> MineAt(rows, id) == []
  {
    MineByPosition(rows, id);
  }

  // ----- rule ids over an identity's rows

  function FindingsAt(items: seq<EvaluatedRow>, i: nat): seq<Finding> {
    if i < |items| then items[i].coreFindings else []
  }

  /** The distinct rule ids among some rows' core findings. */
  function RulesIn(items: seq<EvaluatedRow>, at: seq<nat>): set<RuleId> {
    set m, j | 0 <= m < |at| && 0 <= j < |FindingsAt(items, at[m])| :: FindingsAt(items, at[m])[j].rule
  }

  /** When a row's core findings mention exactly the rules of which `q` is true, so do those of all rows together. */
  lemma {:induction false} RulesInAre(items: seq<EvaluatedRow>, rows: seq<Row>, id: string, r: RuleId, q: Row -> bool)
    requires |items| == |rows|
    requires forall i :: 0 <= i < |rows| && rows[i].identity == id ==> (Mentions(items[i].coreFindings, r) <==> q(rows[i]))
    ensures r in RulesIn(items, MineAt(rows, id)) <==> Where(rows, OwnedWith(id, q)) != {}
  {
    var at := MineAt(rows, id);
    MineByPosition(rows, id);
    if r in RulesIn(items, at) {
      var m, j :| 0 <= m < |at| && 0 <= j < |FindingsAt(items, at[m])| && FindingsAt(items, at[m])[j].rule == r;
      assert at[m] in at;
      assert Mentions(items[at[m]].coreFindings, r);
      assert at[m] in Where(rows, OwnedWith(id, q));
    }
    if i :| i in Where(rows, OwnedWith(id, q)) {
      assert i in at;
      var m :| 0 <= m < |at| && at[m] == i;
      var j :| 0 <= j < |items[i].coreFindings| && items[i].coreFindings[j].rule == r;
      assert FindingsAt(items, at[m])[j].rule == r;
    }
  }

  lemma {:induction false} CoversMentions(fs: seq<Finding>, rules: set<RuleId>, find: RuleId -> Option<Evidence>, r: RuleId)
    requires Covers(fs, rules, find)
    ensures Mentions(fs, r) <==> r in rules && find(r).Some?
  {
    if r in rules {
      ReportsMentions(fs, r, find(r));
    }
  }

  /** The core rules other than R5, which arrives later. */
  ghost function EarlyRow(env: Env, rows: seq<Row>, r: RuleId): Row -> bool {
    (row: Row) => IsCore(r) && r != R5 && Fires(env, rows, row, r).Some?
  }

  ghost function CoreRow(env: Env, rows: seq<Row>, r: RuleId): Row -> bool {
    (row: Row) => IsCore(r) && Fires(env, rows, row, r).Some?
  }

  lemma {:induction false} StageMentions(env: Env, rows: seq<Row>, row: Row, core: seq<RuleId>, r: RuleId)
    requires core == ROW_CORE_RULES
    ensures var fired := Late(Evaluate(env.rules, core, row), env, rows, row, R6);
      && (Mentions(fired, r) <==> EarlyRow(env, rows, r)(row))
      && (Mentions(Late(fired, env, rows, row, R5), r) <==> CoreRow(env, rows, r)(row))
  {
    EveryRuleEvaluated(core, READINESS_RULE_IDS);
    StageCovers(env, rows, row, core);
    var fired := Late(Evaluate(env.rules, core, row), env, rows, row, R6);
    CoversMentions(fired, RuleSet(core) + {R6}, FindsIn(env, rows, row), r);
    CoversMentions(Late(fired, env, rows, row, R5), RuleSet(core) + {R6} + {R5}, FindsIn(env, rows, row), r);
    CoreListed(core, r);
  }

  lemma {:induction false} CoreListed(core: seq<RuleId>, r: RuleId)
    requires core == ROW_CORE_RULES
    ensures IsCore(r) <==> r in core || r == R6 || r == R5
    ensures r in core ==> r != R5 && r != R6
  {
  }

  lemma {:induction false} EarlyMentions(env: Env, rows: seq<Row>, row: Row, r: RuleId)
    ensures Mentions(WithFiring(env, rows, row), r) <==> EarlyRow(env, rows, r)(row)
    ensures Mentions(CoreFindings(env, rows, row), r) <==> CoreRow(env, rows, r)(row)
  {
    StageMentions(env, rows, row, ROW_CORE_RULES, r);
  }

  ghost function EarlyRulesOf(env: Env, rows: seq<Row>, id: string): set<RuleId> {
    set r | IsCore(r) && Where(rows, OwnedWith(id, EarlyRow(env, rows, r))) != {}
  }

  // ----- evaluate_rows

  /** The rows evaluated, with R6 entered for the identities in `met`. */
  ghost predicate Staged(env: Env, rows: seq<Row>, items: seq<EvaluatedRow>, met: set<string>) {
    |items| == |rows| && forall i :: 0 <= i < |rows| ==> StagedAt(env, rows, items[i], rows[i], rows[i].identity in met)
  }

  ghost predicate StagedAt(env: Env, rows: seq<Row>, item: EvaluatedRow, row: Row, fired: bool) {
    item.row == row && forall it: EvaluatedRow :: Look(it) && it == item ==> HasStage(env, rows, it, fired)
  }

  ghost predicate HasStage(env: Env, rows: seq<Row>, item: EvaluatedRow, fired: bool) {
    && item.coreFindings == (if fired then WithFiring(env, rows, item.row) else EvaluateCoreRules(env.rules, item.row))
    && item.readinessFindings == EvaluateReadinessRules(env.rules, item.row)
  }

  ghost predicate IdentityEvaluated(env: Env, rows: seq<Row>, id: string, x: EvaluatedIdentity, core: set<RuleId>) {
    && Mine(rows, id) != []
    && x.members == MineAt(rows, id)
    && x.representative == Representative(Mine(rows, id))
    && x.coreRuleIds == Keep(CORE_RULE_IDS, core)
    && x.readinessRuleIds == RuleIdsOf(EvaluateReadinessRules(env.rules, x.representative))
    && x.facts == Facts(rows, id)
  }

  function EvaluateRow(rules: RowRules, row: Row): EvaluatedRow {
    EvaluatedRow(row, EvaluateCoreRules(rules, row), EvaluateReadinessRules(rules, row))
  }

  lemma {:induction false} FirstStage(env: Env, rows: seq<Row>, items: seq<EvaluatedRow>)
    requires |items| == |rows| && forall i :: 0 <= i < |rows| ==> items[i] == EvaluateRow(env.rules, rows[i])
    ensures Staged(env, rows, items, {})
  {
    forall i | 0 <= i < |rows| ensures StagedAt(env, rows, items[i], rows[i], rows[i].identity in {}) {
      OneRowStaged(env, rows, rows[i]);
    }
  }

  lemma {:induction false} OneRowStaged(env: Env, rows: seq<Row>, row: Row)
    ensures StagedAt(env, rows, EvaluateRow(env.rules, row), row, false)
  {
  }

  /** The finding appended to some rows. */
  function WithFinding(items: seq<EvaluatedRow>, at: seq<nat>, f: Finding): seq<EvaluatedRow> {
    seq(|items|, i requires 0 <= i < |items| =>
      if i in at then items[i].(coreFindings := items[i].coreFindings + [f]) else items[i])
  }

  method AppendTo(items: seq<EvaluatedRow>, group: seq<nat>, f: Finding) returns (more: seq<EvaluatedRow>)
    requires InRange(group, |items|) && forall a, b :: 0 <= a < b < |group| ==> group[a] < group[b]
    ensures more == WithFinding(items, group, f)
  {
    more := items;
    for m := 0 to |group|
      invariant more == WithFinding(items, group[..m], f)
    {
      assert group[..m + 1] == group[..m] + [group[m]];
      var item := more[group[m]];
      more := more[group[m] := item.(coreFindings := item.coreFindings + [f])];
    }
    assert group[..|group|] == group;
  }

  lemma {:induction false} FiringStaged(env: Env, rows: seq<Row>, items: seq<EvaluatedRow>, met: set<string>, id: string)
    requires Staged(env, rows, items, met) && id !in met && Mine(rows, id) != []
    ensures var pattern := Facts(rows, id).pattern;
      Staged(env, rows,
             if pattern.Some? then
               WithFinding(items, MineAt(rows, id), Finding(R6, FromFiring(Facts(rows, id), |Mine(rows, id)|)))
             else items,
             met + {id})
  {
    var facts := Facts(rows, id);
    var f := Finding(R6, FromFiring(facts, |Mine(rows, id)|));
    var next := if facts.pattern.Some? then WithFinding(items, MineAt(rows, id), f) else items;
    MineByPosition(rows, id);
    forall i | 0 <= i < |rows| ensures StagedAt(env, rows, next[i], rows[i], rows[i].identity in met + {id}) {
      assert StagedAt(env, rows, items[i], rows[i], rows[i].identity in met);
      if rows[i].identity == id {
        RowFired(env, rows, items[i], rows[i], f);
      }
    }
  }

  lemma {:induction false} RowFired(env: Env, rows: seq<Row>, item: EvaluatedRow, row: Row, f: Finding)
    requires Mine(rows, row.identity) != [] && StagedAt(env, rows, item, row, false)
    requires f == Finding(R6, FromFiring(Facts(rows, row.identity), |Mine(rows, row.identity)|))
    ensures var next := if Facts(rows, row.identity).pattern.Some? then item.(coreFindings := item.coreFindings + [f]) else item;
      StagedAt(env, rows, next, row, true)
  {
    assert Look(item);
  }

  lemma {:induction false} EarlyIds(env: Env, rows: seq<Row>, items: seq<EvaluatedRow>, met: set<string>, id: string)
    requires Staged(env, rows, items, met) && id in met
    ensures Keep(CORE_RULE_IDS, RulesIn(items, MineAt(rows, id))) == Keep(CORE_RULE_IDS, EarlyRulesOf(env, rows, id))
  {
    forall r | r in CORE_RULE_IDS
      ensures r in RulesIn(items, MineAt(rows, id)) <==> r in EarlyRulesOf(env, rows, id)
    {
      forall i | 0 <= i < |rows| && rows[i].identity == id
        ensures Mentions(items[i].coreFindings, r) <==> EarlyRow(env, rows, r)(rows[i])
      {
        assert StagedAt(env, rows, items[i], rows[i], rows[i].identity in met) && Look(items[i]);
        EarlyMentions(env, rows, rows[i], r);
      }
      RulesInAre(items, rows, id, r, EarlyRow(env, rows, r));
    }
    KeepSame(CORE_RULE_IDS, RulesIn(items, MineAt(rows, id)), EarlyRulesOf(env, rows, id));
  }

  /** The readiness findings of the row that was chosen to represent the group. */
  method ReadinessOf(items: seq<EvaluatedRow>, group: seq<nat>, best: Row, ghost env: Env, ghost rows: seq<Row>, ghost met: set<string>)
      returns (ids: seq<RuleId>)
    requires Staged(env, rows, items, met) && InRange(group, |items|)
    requires exists m :: 0 <= m < |group| && rows[group[m]] == best
    ensures ids == RuleIdsOf(EvaluateReadinessRules(env.rules, best))
  {
    var m := 0;
    while m < |group| && items[group[m]].row != best
      invariant 0 <= m <= |group|
      invariant forall l :: 0 <= l < m ==> items[group[l]].row != best
    {
      m := m + 1;
    }
    assert forall l :: 0 <= l < |group| ==> StagedAt(env, rows, items[group[l]], rows[group[l]], rows[group[l]].identity in met);
    assert Look(items[group[m]]);
    ids := RuleIdsOf(items[group[m]].readinessFindings);
  }

  method EvaluateIdentity(items: seq<EvaluatedRow>, group: seq<nat>, ghost env: Env, ghost rows: seq<Row>, ghost id: string,
                          ghost met: set<string>)
      returns (next: seq<EvaluatedRow>, x: EvaluatedIdentity)
    requires Staged(env, rows, items, met) && id !in met && Mine(rows, id) != [] && group == MineAt(rows, id)
    ensures Staged(env, rows, next, met + {id})
    ensures IdentityEvaluated(env, rows, id, x, EarlyRulesOf(env, rows, id))
  {
    MineByPosition(rows, id);
    SelectIsMine(rows, id);
    assert forall i :: 0 <= i < |rows| ==> StagedAt(env, rows, items[i], rows[i], rows[i].identity in met);
    var own := seq(|group|, m requires 0 <= m < |group| => items[group[m]].row);
    assert own == Mine(rows, id);
    var best := SelectRepresentative(own);
    var facts := ComputeFiringFacts(own, best.value.provider);
    next := items;
    FiringStaged(env, rows, items, met, id);
    if facts.value.pattern.Some? {
      next := AppendTo(items, group, Finding(R6, FromFiring(facts.value, |group|)));
    }
    EarlyIds(env, rows, next, met + {id}, id);
    RepresentativeAmong(rows, id);
    var ready := ReadinessOf(next, group, best.value, env, rows, met + {id});
    x := EvaluatedIdentity(group, best.value, Keep(CORE_RULE_IDS, RulesIn(next, group)), ready, facts.value);
  }

  lemma {:induction false} RepresentativeAmong(rows: seq<Row>, id: string)
    requires Mine(rows, id) != []
    ensures var at := MineAt(rows, id);
      InRange(at, |rows|) && exists m :: 0 <= m < |at| && rows[at[m]] == Representative(Mine(rows, id))
  {
    MineByPosition(rows, id);
    RepresentativeIsLatest(Mine(rows, id));
    var k :| 0 <= k < |Mine(rows, id)| && Representative(Mine(rows, id)) == Mine(rows, id)[k];
    assert rows[MineAt(rows, id)[k]] == Mine(rows, id)[k];
  }

  /** The identities grouped so far, each evaluated up to R5. */
  ghost predicate Grouped(env: Env, rows: seq<Row>, xs: map<string, EvaluatedIdentity>, met: set<string>) {
    && xs.Keys == met
    && forall id :: id in met ==> IdentityEvaluated(env, rows, id, xs[id], EarlyRulesOf(env, rows, id))
  }

  ghost predicate PresentIn(rows: seq<Row>, ids: set<string>) {
    forall id :: id in ids <==> Mine(rows, id) != []
  }

  method EvaluateGroups(items: seq<EvaluatedRow>, grouped: map<string, seq<nat>>, ghost env: Env, ghost rows: seq<Row>)
      returns (next: seq<EvaluatedRow>, xs: map<string, EvaluatedIdentity>)
    requires Staged(env, rows, items, {}) && PresentIn(rows, grouped.Keys)
    requires forall id :: id in grouped ==> grouped[id] == MineAt(rows, id)
    ensures Staged(env, rows, next, grouped.Keys) && Grouped(env, rows, xs, grouped.Keys)
  {
    next, xs := items, map[];
    var todo := grouped.Keys;
    ghost var met: set<string> := {};
    while todo != {}
      invariant todo !! met && todo + met == grouped.Keys
      invariant Staged(env, rows, next, met) && Grouped(env, rows, xs, met)
      decreases todo
    {
      ghost var some := Tallies.MemberOf(todo);
      var id :| id in todo;
      var more, x := EvaluateIdentity(next, grouped[id], env, rows, id, met);
      next, xs := more, xs[id := x];
      todo, met := todo - {id}, met + {id};
    }
  }

  // ----- attach_row_findings

  function WithAttached(item: EvaluatedRow, f: Finding): EvaluatedRow {
    if IsCore(f.rule) then item.(coreFindings := item.coreFindings + [f])
    else item.(readinessFindings := item.readinessFindings + [f])
  }

  function Attached(items: seq<EvaluatedRow>, findings: map<nat, Finding>): seq<EvaluatedRow> {
    seq(|items|, i requires 0 <= i < |items| => if i in findings then WithAttached(items[i], findings[i]) else items[i])
  }

  /** An identity with its core rule ids read off the rows again. */
  function Recomputed(x: EvaluatedIdentity, items: seq<EvaluatedRow>): EvaluatedIdentity {
    x.(coreRuleIds := Keep(CORE_RULE_IDS, RulesIn(items, x.members)))
  }

  class Evaluation {
    var rows: seq<EvaluatedRow>
    var identities: map<string, EvaluatedIdentity>

    /** `evaluate_rows`: every row rule, then R6, but not yet R5. */
    constructor (rules: RowRules, all: seq<Row>, ghost env: Env)
      requires env.rules == rules
      ensures PresentIn(all, identities.Keys)
      ensures Staged(env, all, rows, identities.Keys) && Grouped(env, all, identities, identities.Keys)
    {
      var evaluated := seq(|all|, i requires 0 <= i < |all| => EvaluateRow(rules, all[i]));
      FirstStage(env, all, evaluated);
      var grouped := GroupByIdentity(all);
      var next, xs := EvaluateGroups(evaluated, grouped, env, all);
      rows, identities := next, xs;
    }

    /** `attach_row_findings`: findings arrive by row; where any do, every identity's core rule ids are recomputed. */
    method AttachRowFindings(findings: map<nat, Finding>)
      modifies this
      ensures findings == map[] ==> rows == old(rows) && identities == old(identities)
      ensures findings != map[] ==> rows == Attached(old(rows), findings)
      ensures identities.Keys == old(identities).Keys
      ensures findings != map[] ==> forall id :: id in identities ==> identities[id] == Recomputed(old(identities)[id], rows)
    {
      if findings == map[] {
        return;
      }
      for i := 0 to |rows|
        invariant |rows| == |old(rows)| && identities == old(identities)
        invariant forall j :: 0 <= j < |rows| ==> rows[j] == if j < i then Attached(old(rows), findings)[j] else old(rows)[j]
      {
        if i in findings {
          var f := findings[i];
          if IsCore(f.rule) {
            rows := rows[i := rows[i].(coreFindings := rows[i].coreFindings + [f])];
          } else {
            rows := rows[i := rows[i].(readinessFindings := rows[i].readinessFindings + [f])];
          }
        }
      }
      RecomputeIdentities();
    }

    method RecomputeIdentities()
      modifies this`identities
      ensures identities.Keys == old(identities).Keys
      ensures forall id :: id in identities ==> identities[id] == Recomputed(old(identities)[id], rows)
    {
      var todo := identities.Keys;
      while todo != {}
        invariant todo <= identities.Keys == old(identities).Keys
        invariant forall id :: id in identities ==>
          identities[id] == if id in todo then old(identities)[id] else Recomputed(old(identities)[id], rows)
        decreases todo
      {
        ghost var some := Tallies.MemberOf(todo);
        var id :| id in todo;
        identities := identities[id := identities[id].(coreRuleIds := Keep(CORE_RULE_IDS, RulesIn(rows, identities[id].members)))];
        todo := todo - {id};
      }
    }
  }

  // ----- with R5 attached, the evaluation is complete

  /** `build_r5_findings`: one finding for each suppressed row. */
  function R5Findings(suppressed: set<nat>, panels: seq<Panel>): map<nat, Finding> {
    map i | i in suppressed :: Finding(R5, FromPanels(PanelIds(panels)))
  }

  lemma {:induction false} RowAttached(env: Env, rows: seq<Row>, item: EvaluatedRow, row: Row)
    requires StagedAt(env, rows, item, row, true)
    ensures EvaluatedAt(env, rows,
              if Suppressed(rows, env.panels, row) then WithAttached(item, Finding(R5, FromPanels(PanelIds(env.panels)))) else item,
              row)
  {
    assert Look(item);
  }

  lemma {:induction false} AttachedRows(env: Env, rows: seq<Row>, items: seq<EvaluatedRow>, ids: set<string>, suppressed: set<nat>)
    requires Staged(env, rows, items, ids) && PresentIn(rows, ids)
    requires suppressed == set i | 0 <= i < |rows| && Suppressed(rows, env.panels, rows[i])
    ensures Evaluated(env, rows, if suppressed == {} then items else Attached(items, R5Findings(suppressed, env.panels)))
  {
    var next := if suppressed == {} then items else Attached(items, R5Findings(suppressed, env.panels));
    forall i | 0 <= i < |rows| ensures EvaluatedAt(env, rows, next[i], rows[i]) {
      MineIsPresent(rows, rows[i].identity);
      assert StagedAt(env, rows, items[i], rows[i], rows[i].identity in ids);
      RowAttached(env, rows, items[i], rows[i]);
      assert i in suppressed <==> Suppressed(rows, env.panels, rows[i]);
    }
  }

  lemma {:induction false} CoreIds(env: Env, rows: seq<Row>, items: seq<EvaluatedRow>, id: string)
    requires Evaluated(env, rows, items)
    ensures Keep(CORE_RULE_IDS, RulesIn(items, MineAt(rows, id))) == Keep(CORE_RULE_IDS, CoreRulesOf(env, rows, id))
  {
    forall r | r in CORE_RULE_IDS
      ensures r in RulesIn(items, MineAt(rows, id)) <==> r in CoreRulesOf(env, rows, id)
    {
      forall i | 0 <= i < |rows| && rows[i].identity == id
        ensures Mentions(items[i].coreFindings, r) <==> FiredRow(env, rows, r)(rows[i])
      {
        assert EvaluatedAt(env, rows, items[i], rows[i]) && Look(items[i]);
        EarlyMentions(env, rows, rows[i], r);
      }
      RulesInAre(items, rows, id, r, FiredRow(env, rows, r));
    }
    KeepSame(CORE_RULE_IDS, RulesIn(items, MineAt(rows, id)), CoreRulesOf(env, rows, id));
  }

  /** Without a suppressed row, R5 adds nothing to what was already there. */
  lemma {:induction false} NothingLate(env: Env, rows: seq<Row>, id: string)
    requires forall i :: 0 <= i < |rows| ==> !Suppressed(rows, env.panels, rows[i])
    ensures Keep(CORE_RULE_IDS, EarlyRulesOf(env, rows, id)) == Keep(CORE_RULE_IDS, CoreRulesOf(env, rows, id))
  {
    forall r | r in CORE_RULE_IDS ensures r in EarlyRulesOf(env, rows, id) <==> r in CoreRulesOf(env, rows, id) {
      if r == R5 {
        assert Where(rows, OwnedWith(id, EarlyRow(env, rows, r))) == {} == FiredBy(env, rows, id, r);
      } else {
        assert Where(rows, OwnedWith(id, EarlyRow(env, rows, r))) == FiredBy(env, rows, id, r);
      }
    }
    KeepSame(CORE_RULE_IDS, EarlyRulesOf(env, rows, id), CoreRulesOf(env, rows, id));
  }
}
