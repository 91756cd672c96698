/**
 What the weekly analysis of one schema must report, stated over all of its rows at once and
 independently of how either implementation gets there. Rows are named by their index.
 */
module Analysis {
  import opened Text
  import opened Hashing
  import opened Normalize
  import opened Firing
  import opened Rules
  import opened Suppression
  import opened RowSets

  /** What an analysis is parameterized by: the row rules, the team's panels, SHA-256 of a document. */
  datatype Env = Env(rules: RowRules, panels: seq<Panel>, sha: Json -> string)

  function PanelIds(panels: seq<Panel>): seq<string> {
    seq(|panels|, p requires 0 <= p < |panels| => panels[p].id)
  }

  // ----- an identity's rows

  function Mine(rows: seq<Row>, id: string): seq<Row> {
    if rows == [] then []
    else
      var n := |rows| - 1;
      if rows[n].identity == id then Mine(rows[..n], id) + [rows[n]] else Mine(rows[..n], id)
  }

  function Owned(id: string): Row -> bool {
    (row: Row) => row.identity == id
  }

  ghost predicate Present(rows: seq<Row>, id: string) {
    exists i :: 0 <= i < |rows| && rows[i].identity == id
  }

  lemma {:induction false} MineIsPresent(rows: seq<Row>, id: string)
    ensures |Mine(rows, id)| == |Where(rows, Owned(id))|
    ensures Mine(rows, id) != [] <==> Present(rows, id)
    ensures forall i :: 0 <= i < |Mine(rows, id)| ==> Mine(rows, id)[i] in rows && Mine(rows, id)[i].identity == id
  {
    if rows != [] {
      var n := |rows| - 1;
      MineIsPresent(rows[..n], id);
      assert rows == rows[..n] + [rows[n]];
      WhereAppend(rows[..n], rows[n], Owned(id));
    }
  }

  function Facts(rows: seq<Row>, id: string): FiringFacts
    requires Mine(rows, id) != []
  {
    FactsOfRows(Mine(rows, id), Representative(Mine(rows, id)).provider)
  }

  // ----- findings

  /** The evidence with which rule `r` fires on a row, if it does: late-bound R5 and R6 included. */
  ghost function Fires(env: Env, rows: seq<Row>, row: Row, r: RuleId): Option<Evidence> {
    match r
    case R5 => if Suppressed(rows, env.panels, row) then Some(FromPanels(PanelIds(env.panels))) else None
    case R6 =>
      var id := row.identity;
      if Mine(rows, id) != [] && Facts(rows, id).pattern.Some? then
        Some(FromFiring(Facts(rows, id), |Mine(rows, id)|))
      else None
    case _ => Lift(env.rules(r, Bare(row)))
  }

  ghost predicate Flagged(env: Env, rows: seq<Row>, row: Row) {
    exists r :: IsCore(r) && Fires(env, rows, row, r).Some?
  }

  ghost function FiredRow(env: Env, rows: seq<Row>, r: RuleId): Row -> bool {
    (row: Row) => Fires(env, rows, row, r).Some?
  }

  /** A row carrying a core finding. */
  ghost function FlaggedRow(env: Env, rows: seq<Row>): Row -> bool {
    (row: Row) => Flagged(env, rows, row)
  }

  ghost function SuppressedRow(env: Env, rows: seq<Row>): Row -> bool {
    (row: Row) => Suppressed(rows, env.panels, row)
  }

  ghost function UnseenRow(env: Env, rows: seq<Row>): Row -> bool {
    (row: Row) => Unseen(rows, env.panels, row)
  }

  // ----- daily figures

  function DatedWith(d: int, q: Row -> bool): Row -> bool {
    (row: Row) => row.date == d && q(row)
  }

  function OwnedWith(id: string, q: Row -> bool): Row -> bool {
    (row: Row) => row.identity == id && q(row)
  }

  /** Rows of a date that satisfy `q`. */
  ghost function RowsWith(rows: seq<Row>, d: int, q: Row -> bool): nat {
    |Where(rows, DatedWith(d, q))|
  }

  /** Identities with a row of that date that satisfies `q`. */
  ghost function IdentitiesWith(rows: seq<Row>, d: int, q: Row -> bool): nat {
    |Values(rows, DatedWith(d, q), IdentityOfRow)|
  }

  type RuleDay = (int, RuleId)

  datatype RuleBucketCount = RuleBucketCount(date: int, rule: RuleId, matchCount: nat, distinctCount: nat)

  ghost function RuleDays(env: Env, rows: seq<Row>): set<RuleDay> {
    set i, r | 0 <= i < |rows| && Fires(env, rows, rows[i], r).Some? :: (rows[i].date, r)
  }

  /** Matching rows, and identities with a matching row, for each rule and date with any. */
  ghost function RuleTotals(env: Env, rows: seq<Row>): map<RuleDay, (nat, nat)> {
    map k | k in RuleDays(env, rows) ::
      (RowsWith(rows, k.0, FiredRow(env, rows, k.1)), IdentitiesWith(rows, k.0, FiredRow(env, rows, k.1)))
  }

  lemma {:induction false} RuleDayHasRow(env: Env, rows: seq<Row>, k: RuleDay)
    ensures k in RuleDays(env, rows) <==> RowsWith(rows, k.0, FiredRow(env, rows, k.1)) != 0
  {
    var q := FiredRow(env, rows, k.1);
    if i :| i in Where(rows, DatedWith(k.0, q)) {
      assert (rows[i].date, k.1) in RuleDays(env, rows);
    }
    if k in RuleDays(env, rows) {
      var i :| 0 <= i < |rows| && Fires(env, rows, rows[i], k.1).Some? && rows[i].date == k.0;
      assert i in Where(rows, DatedWith(k.0, q));
    }
  }

  lemma {:induction false} RuleTotalsAre(t: map<RuleDay, (nat, nat)>, env: Env, rows: seq<Row>)
    requires forall k: RuleDay :: k in t <==> k in RuleDays(env, rows)
    requires forall k: RuleDay :: k in t ==>
               t[k] == (RowsWith(rows, k.0, FiredRow(env, rows, k.1)), IdentitiesWith(rows, k.0, FiredRow(env, rows, k.1)))
    ensures t == RuleTotals(env, rows)
  {
  }

  /** The published listing: dates outermost, core rules before readiness rules, absent counts left out. */
  function Tabulate(dates: seq<int>, rules: seq<RuleId>, totals: map<RuleDay, (nat, nat)>): seq<RuleBucketCount> {
    if dates == [] then []
    else
      var n := |dates| - 1;
      Tabulate(dates[..n], rules, totals) + TabulateDay(dates[n], rules, totals)
  }

  function TabulateDay(date: int, rules: seq<RuleId>, totals: map<RuleDay, (nat, nat)>): seq<RuleBucketCount> {
    if rules == [] then []
    else
      var n := |rules| - 1;
      var k := (date, rules[n]);
      if k in totals then
        TabulateDay(date, rules[..n], totals) + [RuleBucketCount(date, rules[n], totals[k].0, totals[k].1)]
      else TabulateDay(date, rules[..n], totals)
  }

  const ALL_RULE_IDS: seq<RuleId> := CORE_RULE_IDS + READINESS_RULE_IDS

  // ----- evidence

  datatype Summary = Summary(rule: RuleId, matchedRows: nat, sample: Evidence)

  ghost function FiredBy(env: Env, rows: seq<Row>, id: string, r: RuleId): set<nat> {
    Where(rows, OwnedWith(id, FiredRow(env, rows, r)))
  }

  ghost predicate IsLeast(k: nat, s: set<nat>) {
    k in s && forall x :: x in s ==> k <= x
  }

  /** One entry per rule that fired, with its number of rows and the evidence of the first of them. */
  ghost predicate IsSummary(env: Env, rows: seq<Row>, id: string, e: Summary, first: nat) {
    && IsLeast(first, FiredBy(env, rows, id, e.rule))
    && e.matchedRows == |FiredBy(env, rows, id, e.rule)|
    && first < |rows| && Some(e.sample) == Fires(env, rows, rows[first], e.rule)
  }

  predicate EvidenceKeyLess(p: (nat, nat), q: (nat, nat)) {
    p.0 < q.0 || (p.0 == q.0 && p.1 < q.1)
  }

  /** The evidence list: each fired rule once, by first matching row and then by place within that row. */
  ghost predicate IsEvidence(env: Env, rows: seq<Row>, id: string, es: seq<Summary>, firsts: seq<nat>) {
    && |firsts| == |es|
    && (forall k :: 0 <= k < |es| ==> IsSummary(env, rows, id, es[k], firsts[k]))
    && (forall r :: FiredBy(env, rows, id, r) != {} ==> Lists(es, r))
    && (forall a, b :: 0 <= a < b < |es| ==>
          EvidenceKeyLess((firsts[a], EvidenceOrder(es[a].rule)), (firsts[b], EvidenceOrder(es[b].rule))))
  }

  ghost predicate Lists(es: seq<Summary>, r: RuleId) {
    exists k :: 0 <= k < |es| && es[k].rule == r
  }

  // ----- the report on one identity

  /** Everything the stored finding row takes from an identity's rows. */
  datatype Report = Report(
    representative: Row,
    rowCount: nat,
    firstSeen: int,
    lastSeen: int,
    coreRuleIds: seq<RuleId>,
    readinessRuleIds: seq<RuleId>,
    evidence: seq<Summary>,
    clearCount: nat,
    maxClearCycles24h: nat,
    maxEpisodeFiringRows: nat,
    openSince: Option<int>,
    firePattern: Option<Pattern>,
    unseen: Option<bool>)

  /** The members of `all` in `s`, in the order of `all`: sorting by rule number. */
  function Keep(all: seq<RuleId>, s: set<RuleId>): seq<RuleId> {
    if all == [] then []
    else if all[|all| - 1] in s then Keep(all[..|all| - 1], s) + [all[|all| - 1]]
    else Keep(all[..|all| - 1], s)
  }

  lemma {:induction false} KeepSame(all: seq<RuleId>, s: set<RuleId>, t: set<RuleId>)
    requires forall r :: r in all ==> (r in s <==> r in t)
    ensures Keep(all, s) == Keep(all, t)
  {
    if all != [] {
      KeepSame(all[..|all| - 1], s, t);
    }
  }

  ghost function CoreRulesOf(env: Env, rows: seq<Row>, id: string): set<RuleId> {
    set r | IsCore(r) && FiredBy(env, rows, id, r) != {}
  }

  function RuleIdsOf(fs: seq<Finding>): seq<RuleId> {
    seq(|fs|, i requires 0 <= i < |fs| => fs[i].rule)
  }

  ghost predicate UnseenAnywhere(env: Env, rows: seq<Row>, id: string) {
    Where(rows, OwnedWith(id, UnseenRow(env, rows))) != {}
  }

  ghost predicate IsReport(env: Env, rows: seq<Row>, id: string, r: Report) {
    var mine := Mine(rows, id);
    && mine != []
    && r.representative == Representative(mine)
    && r.rowCount == |mine|
    && (forall i :: 0 <= i < |mine| ==> r.firstSeen <= mine[i].at <= r.lastSeen)
    && (exists i :: 0 <= i < |mine| && mine[i].at == r.firstSeen)
    && (exists i :: 0 <= i < |mine| && mine[i].at == r.lastSeen)
    && r.coreRuleIds == Keep(CORE_RULE_IDS, CoreRulesOf(env, rows, id))
    && r.readinessRuleIds == RuleIdsOf(EvaluateReadinessRules(env.rules, r.representative))
    && (exists firsts :: IsEvidence(env, rows, id, r.evidence, firsts))
    && r.clearCount == Facts(rows, id).clearCount
    && r.maxClearCycles24h == Facts(rows, id).maxClearCycles24h
    && r.maxEpisodeFiringRows == Facts(rows, id).maxEpisodeFiringRows
    && r.openSince == Facts(rows, id).openSince
    && r.firePattern == Facts(rows, id).pattern
    && r.unseen == (if env.panels == [] then None else Some(UnseenAnywhere(env, rows, id)))
  }

  // ----- the specification leaves no freedom

  lemma {:induction false} SummaryUnique(env: Env, rows: seq<Row>, id: string, e: Summary, f: Summary, a: nat, b: nat)
    requires IsSummary(env, rows, id, e, a) && IsSummary(env, rows, id, f, b) && e.rule == f.rule
    ensures e == f && a == b
  {
  }

  /** Position by position, two evidence lists agree. */
  lemma {:induction false} EvidencePrefixUnique(env: Env, rows: seq<Row>, id: string, es: seq<Summary>, a: seq<nat>,
                                                fs: seq<Summary>, b: seq<nat>, n: nat)
    requires IsEvidence(env, rows, id, es, a) && IsEvidence(env, rows, id, fs, b)
    requires n <= |es| && n <= |fs|
    ensures es[..n] == fs[..n]
  {
    if n > 0 {
      EvidencePrefixUnique(env, rows, id, es, a, fs, b, n - 1);
      NextAgrees(env, rows, id, es, a, fs, b, n - 1);
      assert es[..n] == es[..n - 1] + [es[n - 1]] && fs[..n] == fs[..n - 1] + [fs[n - 1]];
    }
  }

  /** After equal beginnings, the next entry of `es` has a place in `fs` no earlier than the next one there. */
  lemma {:induction false} NextPlace(env: Env, rows: seq<Row>, id: string, es: seq<Summary>, a: seq<nat>,
                  fs: seq<Summary>, b: seq<nat>, n: nat) returns (j: nat)
    requires IsEvidence(env, rows, id, es, a) && IsEvidence(env, rows, id, fs, b)
    requires n < |es| && n <= |fs| && es[..n] == fs[..n]
    ensures n <= j < |fs| && fs[j] == es[n] && b[j] == a[n]
  {
    assert FiredBy(env, rows, id, es[n].rule) != {};
    assert Lists(fs, es[n].rule);
    j :| 0 <= j < |fs| && fs[j].rule == es[n].rule;
    SummaryUnique(env, rows, id, es[n], fs[j], a[n], b[j]);
    // An earlier place would repeat the rule inside `es`, whose keys strictly increase.
    assert forall k :: 0 <= k < n ==> es[k] == es[..n][k] == fs[k];
  }

  lemma {:induction false} NextAgrees(env: Env, rows: seq<Row>, id: string, es: seq<Summary>, a: seq<nat>,
                   fs: seq<Summary>, b: seq<nat>, n: nat)
    requires IsEvidence(env, rows, id, es, a) && IsEvidence(env, rows, id, fs, b)
    requires n < |es| && n < |fs| && es[..n] == fs[..n]
    ensures es[n] == fs[n]
  {
    var j := NextPlace(env, rows, id, es, a, fs, b, n);
    var k := NextPlace(env, rows, id, fs, b, es, a, n);
    // Were both later than n, each list's keys would put its own entry n strictly first.
  }

  lemma {:induction false} EvidenceUnique(env: Env, rows: seq<Row>, id: string, es: seq<Summary>, a: seq<nat>,
                       fs: seq<Summary>, b: seq<nat>)
    requires IsEvidence(env, rows, id, es, a) && IsEvidence(env, rows, id, fs, b)
    ensures es == fs
  {
    var n := if |es| < |fs| then |es| else |fs|;
    EvidencePrefixUnique(env, rows, id, es, a, fs, b, n);
    assert es[..n] == fs[..n];
    if |es| < |fs| {
      var j := NextPlace(env, rows, id, fs, b, es, a, n);
    } else if |fs| < |es| {
      var j := NextPlace(env, rows, id, es, a, fs, b, n);
    }
    assert es == es[..n] && fs == fs[..n];
  }

  /** Two reports that meet the specification are the same report. */
  lemma {:induction false} ReportUnique(env: Env, rows: seq<Row>, id: string, r: Report, s: Report)
    requires IsReport(env, rows, id, r) && IsReport(env, rows, id, s)
    ensures r == s
  {
    var a :| IsEvidence(env, rows, id, r.evidence, a);
    var b :| IsEvidence(env, rows, id, s.evidence, b);
    EvidenceUnique(env, rows, id, r.evidence, a, s.evidence, b);
  }
}
