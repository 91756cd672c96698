/**
 The per-identity state of the streaming analysis as values: one step of it, and what it holds of
 the rows seen so far (`src/run/streaming.py`).
 */
module StreamState {
  import opened Text
  import opened Hashing
  import opened Normalize
  import opened RowSets
  import opened Rules
  import opened Suppression
  import opened Analysis

  /** Leaf mask, any row core finding, hidden by every panel: all that late-bound findings need of a row. */
  datatype Signature = Signature(mask: set<nat>, core: bool, hidden: bool)

  datatype IdentityDay = IdentityDay(
    count: nat,
    rules: map<RuleId, nat>,
    signatures: map<Signature, (nat, nat)>,
    flagged: nat,
    suppressed: nat,
    unseen: nat)

  const NO_ROWS := IdentityDay(0, map[], map[], 0, 0, 0)

  datatype Sample = Sample(matchedRows: nat, evidence: Evidence)

  /** One sample per rule, and the key that orders it. */
  datatype Samples = Samples(of: map<RuleId, Sample>, order: map<RuleId, (nat, nat)>)

  // ----- one step

  /** The document hash filled in, when normalization left it out. */
  function Hashed(sha: Json -> string, row: Row): Row {
    if row.docHash == "" then row.(docHash := sha(row.source)) else row
  }

  /** The later of two rows; on a tie, and only then, their hashes decide. */
  function NextRepresentative(sha: Json -> string, best: Row, row: Row): Row {
    if row.at > best.at then row
    else if row.at == best.at then
      if Less(Hashed(sha, row).docHash, Hashed(sha, best).docHash) then Hashed(sha, row) else Hashed(sha, best)
    else best
  }

  function Counted(rules: map<RuleId, nat>, fs: seq<Finding>): map<RuleId, nat> {
    if fs == [] then rules
    else
      var n := |fs| - 1;
      var m := Counted(rules, fs[..n]);
      var r := fs[n].rule;
      m[r := (if r in m then m[r] else 0) + 1]
  }

  function Record(s: Samples, f: Finding, ordinal: nat, count: nat): Samples {
    if f.rule in s.of then
      s.(of := s.of[f.rule := s.of[f.rule].(matchedRows := s.of[f.rule].matchedRows + count)])
    else
      Samples(s.of[f.rule := Sample(count, f.evidence)], s.order[f.rule := (ordinal, EvidenceOrder(f.rule))])
  }

  function RecordAll(s: Samples, fs: seq<Finding>, ordinal: nat): Samples {
    if fs == [] then s else Record(RecordAll(s, fs[..|fs| - 1], ordinal), fs[|fs| - 1], ordinal, 1)
  }

  function Signed(signatures: map<Signature, (nat, nat)>, g: Signature, ordinal: nat): map<Signature, (nat, nat)> {
    if g in signatures then signatures[g := (signatures[g].0 + 1, signatures[g].1)]
    else signatures[g := (1, ordinal)]
  }

  function DayAfter(day: IdentityDay, fs: seq<Finding>, g: Signature, ordinal: nat): IdentityDay {
    day.(count := day.count + 1,
         rules := Counted(day.rules, fs),
         signatures := Signed(day.signatures, g, ordinal))
  }

  // ----- the rows a state stands for

  lemma {:induction false} WhereLeast(rows: seq<Row>, row: Row, p: Row -> bool, k: nat)
    requires p(row)
    ensures Where(rows, p) == {} ==> IsLeast(|rows|, Where(rows + [row], p))
    ensures IsLeast(k, Where(rows, p)) ==> IsLeast(k, Where(rows + [row], p))
  {
    WhereAppend(rows, row, p);
  }

  function RowFinding(env: Env, r: RuleId, row: Row): Option<Evidence> {
    if r == R5 || r == R6 then None else Lift(env.rules(r, Bare(row)))
  }

  function RowFindings(env: Env, row: Row): seq<Finding> {
    EvaluateCoreRules(env.rules, row) + EvaluateReadinessRules(env.rules, row)
  }

  ghost function SignatureOf(env: Env, row: Row): Signature {
    Signature(Mask(env.panels, row), EvaluateCoreRules(env.rules, row) != [], Hidden(env.panels, row))
  }

  function OnDay(id: string, d: int): Row -> bool {
    (row: Row) => row.identity == id && row.date == d
  }

  /** What each rule finds in a row, if anything. */
  type Finder = (RuleId, Row) -> Option<Evidence>

  /** The row rules alone, R5 and R6 left for later. */
  function RowFinder(env: Env): Finder {
    (r: RuleId, row: Row) => RowFinding(env, r, row)
  }

  function FoundBy(find: Finder, id: string, r: RuleId): Row -> bool {
    (row: Row) => row.identity == id && find(r, row).Some?
  }

  function WithRule(env: Env, id: string, r: RuleId): Row -> bool {
    FoundBy(RowFinder(env), id, r)
  }

  function RuleOnDay(env: Env, id: string, d: int, r: RuleId): Row -> bool {
    (row: Row) => row.identity == id && row.date == d && RowFinding(env, r, row).Some?
  }

  ghost function SignedOnDay(env: Env, id: string, d: int, g: Signature): Row -> bool {
    (row: Row) => row.identity == id && row.date == d && SignatureOf(env, row) == g
  }

  // ----- what the state holds

  ghost predicate RulesMatch(env: Env, rules: map<RuleId, nat>, rows: seq<Row>, id: string, d: int) {
    forall r :: RuleMatches(rules, r, Where(rows, RuleOnDay(env, id, d, r)))
  }

  ghost predicate RuleMatches(rules: map<RuleId, nat>, r: RuleId, s: set<nat>) {
    if r in rules then rules[r] == |s| && s != {} else s == {}
  }

  ghost predicate SignaturesMatch(env: Env, signatures: map<Signature, (nat, nat)>, rows: seq<Row>, id: string, d: int) {
    forall g :: SignatureMatches(signatures, g, Where(rows, SignedOnDay(env, id, d, g)))
  }

  ghost predicate SignatureMatches(signatures: map<Signature, (nat, nat)>, g: Signature, s: set<nat>) {
    if g in signatures then signatures[g].0 == |s| && IsLeast(signatures[g].1, s) else s == {}
  }

  ghost predicate DayMatches(env: Env, day: IdentityDay, rows: seq<Row>, id: string, d: int) {
    && day.count == |Where(rows, OnDay(id, d))|
    && RulesMatch(env, day.rules, rows, id, d)
    && SignaturesMatch(env, day.signatures, rows, id, d)
    && day.flagged == day.suppressed == day.unseen == 0
  }

  /** A date is kept exactly when the identity has rows on it. */
  ghost predicate DaysMatch(env: Env, days: map<int, IdentityDay>, rows: seq<Row>, id: string) {
    && (forall d :: d in days ==> DayMatches(env, days[d], rows, id, d) && Where(rows, OnDay(id, d)) != {})
    && (forall d :: Where(rows, OnDay(id, d)) != {} ==> d in days)
  }

  ghost predicate SamplesMatch(env: Env, s: Samples, rows: seq<Row>, id: string) {
    SamplesFor(RowFinder(env), s, rows, id)
  }

  /** One sample per rule that found something in the identity's rows, from the first of them. */
  ghost predicate SamplesFor(find: Finder, s: Samples, rows: seq<Row>, id: string) {
    s.of.Keys == s.order.Keys && forall r :: SampleMatches(find, s, r, rows, Where(rows, FoundBy(find, id, r)))
  }

  ghost predicate SampleMatches(find: Finder, s: Samples, r: RuleId, rows: seq<Row>, own: set<nat>) {
    if r in s.of && r in s.order then
      && s.of[r].matchedRows == |own|
      && IsLeast(s.order[r].0, own)
      && s.order[r].1 == EvidenceOrder(r)
      && s.order[r].0 < |rows|
      && Some(s.of[r].evidence) == find(r, rows[s.order[r].0])
    else r !in s.of && own == {}
  }

  // ----- the findings of one row

  lemma {:induction false} JoinReports(a: seq<Finding>, b: seq<Finding>, r: RuleId, e: Option<Evidence>)
    requires (Reports(a, r, e) && Reports(b, r, None)) || (Reports(a, r, None) && Reports(b, r, e))
    ensures Reports(a + b, r, e)
  {
    if e.Some? {
      if Reports(a, r, e) {
        var i :| 0 <= i < |a| && a[i] == Finding(r, e.value);
        assert (a + b)[i] == a[i];
      } else {
        var i :| 0 <= i < |b| && b[i] == Finding(r, e.value);
        assert (a + b)[|a| + i] == b[i];
      }
    }
  }

  lemma {:induction false} JoinOrder(a: seq<Finding>, b: seq<Finding>)
    requires InEvidenceOrder(a) && InEvidenceOrder(b)
    requires forall i, j :: 0 <= i < |a| && 0 <= j < |b| ==> EvidenceOrder(a[i].rule) < EvidenceOrder(b[j].rule)
    ensures InEvidenceOrder(a + b)
  {
  }

  /** Evaluating one rule list after another reports what each rule finds, still in evidence order. */
  lemma {:induction false} EvaluateBoth(rules: RowRules, first: seq<RuleId>, second: seq<RuleId>, row: Row)
    requires Ascending(first) && Ascending(second)
    requires forall a, b :: a in first && b in second ==> EvidenceOrder(a) < EvidenceOrder(b)
    ensures var fs := Evaluate(rules, first, row) + Evaluate(rules, second, row);
      && InEvidenceOrder(fs)
      && forall r :: Reports(fs, r, if r in first || r in second then Lift(rules(r, Bare(row))) else None)
  {
    var core, ready := Evaluate(rules, first, row), Evaluate(rules, second, row);
    EvaluateReports(rules, first, row);
    EvaluateReports(rules, second, row);
    JoinOrder(core, ready);
    forall r ensures Reports(core + ready, r, if r in first || r in second then Lift(rules(r, Bare(row))) else None) {
      JoinReports(core, ready, r, if r in first || r in second then Lift(rules(r, Bare(row))) else None);
    }
  }

  lemma {:induction false} RuleLists()
    ensures Ascending(ROW_CORE_RULES) && Ascending(READINESS_RULE_IDS)
    ensures forall a, b :: a in ROW_CORE_RULES && b in READINESS_RULE_IDS ==> EvidenceOrder(a) < EvidenceOrder(b)
    ensures forall r :: r in ROW_CORE_RULES || r in READINESS_RULE_IDS <==> r != R5 && r != R6
  {
  }

  lemma {:induction false} RowFindingsReport(env: Env, row: Row)
    ensures InEvidenceOrder(RowFindings(env, row))
    ensures forall r :: Reports(RowFindings(env, row), r, RowFinding(env, r, row))
  {
    RuleLists();
    var first, second := ROW_CORE_RULES, READINESS_RULE_IDS;
    EvaluateBoth(env.rules, first, second, row);
    forall r
      ensures RowFinding(env, r, row) == if r in first || r in second then Lift(env.rules(r, Bare(row))) else None
    {
    }
  }

  lemma {:induction false} CountedAt(rules: map<RuleId, nat>, fs: seq<Finding>, r: RuleId, e: Option<Evidence>)
    requires InEvidenceOrder(fs) && Reports(fs, r, e)
    ensures var m := Counted(rules, fs);
      && (r in m <==> r in rules || e.Some?)
      && (r in m ==> m[r] == (if r in rules then rules[r] else 0) + (if e.Some? then 1 else 0))
  {
    if fs != [] {
      var n := |fs| - 1;
      InitReports(fs, r, e);
      CountedAt(rules, fs[..n], r, if fs[n].rule == r then None else e);
    }
  }

  lemma {:induction false} InitReports(fs: seq<Finding>, r: RuleId, e: Option<Evidence>)
    requires fs != [] && InEvidenceOrder(fs) && Reports(fs, r, e)
    ensures var n := |fs| - 1;
      && InEvidenceOrder(fs[..n])
      && Reports(fs[..n], r, if fs[n].rule == r then None else e)
      && (fs[n].rule == r ==> e == Some(fs[n].evidence))
  {
    var n := |fs| - 1;
    if e.Some? {
      var i :| 0 <= i < |fs| && fs[i] == Finding(r, e.value);
      if i < n {
        assert fs[..n][i] == fs[i];
      }
    }
  }

  lemma {:induction false} RecordedAt(s: Samples, fs: seq<Finding>, ordinal: nat, r: RuleId, e: Option<Evidence>)
    requires s.of.Keys == s.order.Keys && InEvidenceOrder(fs) && Reports(fs, r, e)
    ensures var t := RecordAll(s, fs, ordinal);
      && t.of.Keys == t.order.Keys
      && (r in t.of <==> r in s.of || e.Some?)
      && (r in s.of ==> t.of[r] == Sample(s.of[r].matchedRows + (if e.Some? then 1 else 0), s.of[r].evidence)
                        && t.order[r] == s.order[r])
      && (r !in s.of && e.Some? ==> t.of[r] == Sample(1, e.value) && t.order[r] == (ordinal, EvidenceOrder(r)))
  {
    if fs != [] {
      var n := |fs| - 1;
      InitReports(fs, r, e);
      RecordedAt(s, fs[..n], ordinal, r, if fs[n].rule == r then None else e);
    }
  }

  // ----- a row of the identity

  lemma {:induction false} RulesStep(env: Env, rules: map<RuleId, nat>, rows: seq<Row>, row: Row, id: string, d: int)
    requires RulesMatch(env, rules, rows, id, d) && row.identity == id && row.date == d
    ensures RulesMatch(env, Counted(rules, RowFindings(env, row)), rows + [row], id, d)
  {
    RowFindingsReport(env, row);
    forall r
      ensures RuleMatches(Counted(rules, RowFindings(env, row)), r, Where(rows + [row], RuleOnDay(env, id, d, r)))
    {
      assert RuleMatches(rules, r, Where(rows, RuleOnDay(env, id, d, r)));
      WhereAppend(rows, row, RuleOnDay(env, id, d, r));
      CountedAt(rules, RowFindings(env, row), r, RowFinding(env, r, row));
    }
  }

  lemma {:induction false} SignaturesStep(env: Env, signatures: map<Signature, (nat, nat)>, rows: seq<Row>, row: Row, id: string, d: int)
    requires SignaturesMatch(env, signatures, rows, id, d) && row.identity == id && row.date == d
    ensures SignaturesMatch(env, Signed(signatures, SignatureOf(env, row), |rows|), rows + [row], id, d)
  {
    var g0 := SignatureOf(env, row);
    forall g
      ensures SignatureMatches(Signed(signatures, g0, |rows|), g, Where(rows + [row], SignedOnDay(env, id, d, g)))
    {
      var p := SignedOnDay(env, id, d, g);
      assert SignatureMatches(signatures, g, Where(rows, p));
      WhereAppend(rows, row, p);
      if g == g0 {
        WhereLeast(rows, row, p, if g in signatures then signatures[g].1 else 0);
      }
    }
  }

  lemma {:induction false} DayStep(env: Env, day: IdentityDay, rows: seq<Row>, row: Row, id: string, d: int)
    requires DayMatches(env, day, rows, id, d) && row.identity == id && row.date == d
    ensures DayMatches(env, DayAfter(day, RowFindings(env, row), SignatureOf(env, row), |rows|), rows + [row], id, d)
    ensures Where(rows + [row], OnDay(id, d)) != {}
  {
    WhereAppend(rows, row, OnDay(id, d));
    RulesStep(env, day.rules, rows, row, id, d);
    SignaturesStep(env, day.signatures, rows, row, id, d);
    assert |rows| in Where(rows + [row], OnDay(id, d));
  }

  lemma {:induction false} NewDay(env: Env, rows: seq<Row>, id: string, d: int)
    requires Where(rows, OnDay(id, d)) == {}
    ensures DayMatches(env, NO_ROWS, rows, id, d)
  {
    forall r ensures Where(rows, RuleOnDay(env, id, d, r)) == {} {
      WhereNarrower(rows, RuleOnDay(env, id, d, r), OnDay(id, d));
    }
    forall g ensures Where(rows, SignedOnDay(env, id, d, g)) == {} {
      WhereNarrower(rows, SignedOnDay(env, id, d, g), OnDay(id, d));
    }
  }

  lemma {:induction false} SamplesStep(env: Env, s: Samples, rows: seq<Row>, row: Row, id: string)
    requires SamplesMatch(env, s, rows, id) && row.identity == id
    ensures SamplesMatch(env, RecordAll(s, RowFindings(env, row), |rows|), rows + [row], id)
  {
    RowFindingsReport(env, row);
    SamplesGrow(RowFinder(env), s, rows, row, id, RowFindings(env, row));
  }

  lemma {:induction false} SamplesGrow(find: Finder, s: Samples, rows: seq<Row>, row: Row, id: string, fs: seq<Finding>)
    requires SamplesFor(find, s, rows, id) && row.identity == id
    requires InEvidenceOrder(fs) && forall r :: Reports(fs, r, find(r, row))
    ensures SamplesFor(find, RecordAll(s, fs, |rows|), rows + [row], id)
  {
    var t := RecordAll(s, fs, |rows|);
    assert t.of.Keys == t.order.Keys by {
      RecordedAt(s, fs, |rows|, R1, find(R1, row));
    }
    forall r ensures SampleMatches(find, t, r, rows + [row], Where(rows + [row], FoundBy(find, id, r))) {
      var p := FoundBy(find, id, r);
      assert SampleMatches(find, s, r, rows, Where(rows, p));
      WhereAppend(rows, row, p);
      RecordedAt(s, fs, |rows|, r, find(r, row));
      if p(row) {
        WhereLeast(rows, row, p, if r in s.of then s.order[r].0 else 0);
      }
    }
  }

  // ----- a row of another identity or date

  lemma {:induction false} DayUntouched(env: Env, day: IdentityDay, rows: seq<Row>, row: Row, id: string, d: int)
    requires DayMatches(env, day, rows, id, d) && !(row.identity == id && row.date == d)
    ensures DayMatches(env, day, rows + [row], id, d)
    ensures Where(rows + [row], OnDay(id, d)) == Where(rows, OnDay(id, d))
  {
    WhereAppend(rows, row, OnDay(id, d));
    forall r ensures RuleMatches(day.rules, r, Where(rows + [row], RuleOnDay(env, id, d, r))) {
      assert RuleMatches(day.rules, r, Where(rows, RuleOnDay(env, id, d, r)));
      WhereAppend(rows, row, RuleOnDay(env, id, d, r));
    }
    forall g ensures SignatureMatches(day.signatures, g, Where(rows + [row], SignedOnDay(env, id, d, g))) {
      assert SignatureMatches(day.signatures, g, Where(rows, SignedOnDay(env, id, d, g)));
      WhereAppend(rows, row, SignedOnDay(env, id, d, g));
    }
  }

  lemma {:induction false} DaysStep(env: Env, days: map<int, IdentityDay>, rows: seq<Row>, row: Row, id: string)
    requires DaysMatch(env, days, rows, id) && row.identity == id
    ensures var day := if row.date in days then days[row.date] else NO_ROWS;
      DaysMatch(env, days[row.date := DayAfter(day, RowFindings(env, row), SignatureOf(env, row), |rows|)],
                rows + [row], id)
  {
    var d0 := row.date;
    if d0 !in days {
      NewDay(env, rows, id, d0);
    }
    DayStep(env, if d0 in days then days[d0] else NO_ROWS, rows, row, id, d0);
    forall d | d != d0
      ensures Where(rows + [row], OnDay(id, d)) == Where(rows, OnDay(id, d))
      ensures d in days ==> DayMatches(env, days[d], rows + [row], id, d)
    {
      WhereAppend(rows, row, OnDay(id, d));
      if d in days {
        DayUntouched(env, days[d], rows, row, id, d);
      }
    }
  }

  lemma {:induction false} DaysUntouched(env: Env, days: map<int, IdentityDay>, rows: seq<Row>, row: Row, id: string)
    requires DaysMatch(env, days, rows, id) && row.identity != id
    ensures DaysMatch(env, days, rows + [row], id)
  {
    forall d
      ensures Where(rows + [row], OnDay(id, d)) == Where(rows, OnDay(id, d))
      ensures d in days ==> DayMatches(env, days[d], rows + [row], id, d)
    {
      WhereAppend(rows, row, OnDay(id, d));
      if d in days {
        DayUntouched(env, days[d], rows, row, id, d);
      }
    }
  }

  lemma {:induction false} SamplesUntouched(find: Finder, s: Samples, rows: seq<Row>, row: Row, id: string)
    requires SamplesFor(find, s, rows, id) && row.identity != id
    ensures SamplesFor(find, s, rows + [row], id)
  {
    forall r ensures SampleMatches(find, s, r, rows + [row], Where(rows + [row], FoundBy(find, id, r))) {
      assert SampleMatches(find, s, r, rows, Where(rows, FoundBy(find, id, r)));
      WhereAppend(rows, row, FoundBy(find, id, r));
    }
  }

  // ----- the representative, with hashes computed only on ties

  lemma {:induction false} LazyHashing(sha: Json -> string, best: Row, row: Row)
    ensures Hashed(sha, NextRepresentative(sha, best, row))
         == if Displaces(Hashed(sha, row), Hashed(sha, best)) then Hashed(sha, row) else Hashed(sha, best)
  {
  }

  // ----- one identity

  /** What an identity's object holds while rows arrive, its firing history aside. */
  datatype Live = Live(
    representative: Row,
    firstSeen: int,
    firstOrdinal: nat,
    days: map<int, IdentityDay>,
    samples: Samples)

  ghost predicate LiveMatches(env: Env, live: Live, rows: seq<Row>, id: string) {
    && Mine(rows, id) != []
    && Hashed(env.sha, live.representative) == Representative(Mine(rows, id))
    && live.firstSeen == Mine(rows, id)[0].at
    && IsLeast(live.firstOrdinal, Where(rows, Owned(id)))
    && DaysMatch(env, live.days, rows, id)
    && SamplesMatch(env, live.samples, rows, id)
  }

  /** `LiveMatches`, folded away from callers that only carry it along. */
  ghost predicate LiveKept(env: Env, live: Live, rows: seq<Row>, id: string) {
    forall l: Live :: Look(l) && l == live ==> LiveMatches(env, l, rows, id)
  }

  /** The days and samples after one more row of the identity. */
  function LiveAfter(env: Env, live: Live, row: Row, g: Signature, ordinal: nat): Live {
    var day := if row.date in live.days then live.days[row.date] else NO_ROWS;
    live.(days := live.days[row.date := DayAfter(day, RowFindings(env, row), g, ordinal)],
          samples := RecordAll(live.samples, RowFindings(env, row), ordinal))
  }

  /** Counting the findings and then the signature makes one step of the day. */
  lemma {:induction false} TakenAndSigned(env: Env, live: Live, row: Row, g: Signature, ordinal: nat, taken: map<int, IdentityDay>)
    requires var day := if row.date in live.days then live.days[row.date] else NO_ROWS;
      taken == live.days[row.date := day.(count := day.count + 1, rules := Counted(day.rules, RowFindings(env, row)))]
    ensures live.(days := taken[row.date := taken[row.date].(signatures := Signed(taken[row.date].signatures, g, ordinal))],
                  samples := RecordAll(live.samples, RowFindings(env, row), ordinal))
         == LiveAfter(env, live, row, g, ordinal)
  {
  }

  /** The object made for an identity's first row. */
  function LiveFirst(row: Row, ordinal: nat): Live {
    Live(row, row.at, ordinal, map[], Samples(map[], map[]))
  }

  lemma {:induction false} EvaluateOfBare(rules: RowRules, ids: seq<RuleId>, row: Row, other: Row)
    requires Bare(row) == Bare(other)
    ensures Evaluate(rules, ids, row) == Evaluate(rules, ids, other)
  {
    if ids != [] {
      EvaluateOfBare(rules, ids[..|ids| - 1], row, other);
    }
  }

  /** Filling the hash in changes no finding and no signature. */
  lemma {:induction false} HashIsNotRead(env: Env, row: Row)
    ensures var h := Hashed(env.sha, row);
      Bare(h) == Bare(row) && RowFindings(env, h) == RowFindings(env, row) && SignatureOf(env, h) == SignatureOf(env, row)
  {
    var h := Hashed(env.sha, row);
    EvaluateOfBare(env.rules, ROW_CORE_RULES, row, h);
    EvaluateOfBare(env.rules, READINESS_RULE_IDS, row, h);
    assert forall leaf: Leaf :: HidesAt(leaf, h) == HidesAt(leaf, row);
    forall p | 0 <= p < |env.panels| ensures Hides(env.panels[p], h) <==> Hides(env.panels[p], row) {
      HidesOfBare(env.panels[p], row, h);
    }
  }

  lemma {:induction false} HidesOfBare(panel: Panel, row: Row, other: Row)
    requires Bare(row) == Bare(other)
    ensures Hides(panel, row) <==> Hides(panel, other)
  {
    assert forall leaf: Leaf :: HidesAt(leaf, row) == HidesAt(leaf, other);
  }

  lemma {:induction false} MineAppend(rows: seq<Row>, row: Row, id: string)
    ensures Mine(rows + [row], id) == if row.identity == id then Mine(rows, id) + [row] else Mine(rows, id)
  {
    assert (rows + [row])[..|rows|] == rows;
  }

  lemma {:induction false} RepresentativeAppend(mine: seq<Row>, row: Row)
    ensures Representative(mine + [row])
         == if mine != [] && !Displaces(row, Representative(mine)) then Representative(mine) else row
  {
    assert (mine + [row])[..|mine|] == mine;
  }

  lemma {:induction false} LiveStep(env: Env, live: Live, rows: seq<Row>, row: Row, id: string)
    requires LiveMatches(env, live, rows, id) && row.identity == id
    ensures var l := live.(representative := NextRepresentative(env.sha, live.representative, row));
      LiveMatches(env, LiveAfter(env, l, row, SignatureOf(env, row), |rows|), rows + [Hashed(env.sha, row)], id)
  {
    var h := Hashed(env.sha, row);
    HashIsNotRead(env, row);
    MineAppend(rows, h, id);
    RepresentativeAppend(Mine(rows, id), h);
    LazyHashing(env.sha, live.representative, row);
    WhereLeast(rows, h, Owned(id), live.firstOrdinal);
    DaysStep(env, live.days, rows, h, id);
    SamplesStep(env, live.samples, rows, h, id);
  }

  lemma {:induction false} LiveStart(env: Env, rows: seq<Row>, row: Row, id: string)
    requires Mine(rows, id) == [] && row.identity == id
    ensures var first := LiveFirst(row, |rows|);
      LiveMatches(env, LiveAfter(env, first, row, SignatureOf(env, row), |rows|), rows + [Hashed(env.sha, row)], id)
  {
    var h, first := Hashed(env.sha, row), LiveFirst(row, |rows|);
    HashIsNotRead(env, row);
    NothingYet(env, rows, id);
    MineAppend(rows, h, id);
    RepresentativeAppend([], h);
    assert [] + [h] == [h];
    WhereLeast(rows, h, Owned(id), 0);
    WhereAppend(rows, h, Owned(id));
    DaysStep(env, map[], rows, h, id);
    SamplesStep(env, first.samples, rows, h, id);
  }

  lemma {:induction false} NothingYet(env: Env, rows: seq<Row>, id: string)
    requires Mine(rows, id) == []
    ensures Where(rows, Owned(id)) == {}
    ensures DaysMatch(env, map[], rows, id)
    ensures SamplesMatch(env, Samples(map[], map[]), rows, id)
  {
    MineIsPresent(rows, id);
    forall d ensures Where(rows, OnDay(id, d)) == {} {
      WhereNarrower(rows, OnDay(id, d), Owned(id));
    }
    forall r ensures Where(rows, WithRule(env, id, r)) == {} {
      WhereNarrower(rows, WithRule(env, id, r), Owned(id));
    }
  }

  lemma {:induction false} LiveUntouched(env: Env, live: Live, rows: seq<Row>, row: Row, id: string)
    requires LiveMatches(env, live, rows, id) && row.identity != id
    ensures LiveMatches(env, live, rows + [row], id)
  {
    MineAppend(rows, row, id);
    WhereAppend(rows, row, Owned(id));
    DaysUntouched(env, live.days, rows, row, id);
    SamplesUntouched(RowFinder(env), live.samples, rows, row, id);
  }

  /** The state once an arriving row is in, given the state with its representative already brought up to date. */
  ghost predicate LivePoised(env: Env, live: Live, rows: seq<Row>, row: Row, id: string) {
    forall l: Live :: Look(l) && l == live ==>
      LiveKept(env, LiveAfter(env, l, row, SignatureOf(env, row), |rows|), rows + [Hashed(env.sha, row)], id)
  }

  lemma {:induction false} PoiseKnown(env: Env, live: Live, rows: seq<Row>, row: Row, id: string)
    requires LiveKept(env, live, rows, id) && row.identity == id
    ensures LivePoised(env, live.(representative := NextRepresentative(env.sha, live.representative, row)), rows, row, id)
  {
    assert Look(live);
    LiveStep(env, live, rows, row, id);
  }

  lemma {:induction false} PoiseNew(env: Env, rows: seq<Row>, row: Row, id: string)
    requires Mine(rows, id) == [] && row.identity == id
    ensures LivePoised(env, LiveFirst(row, |rows|), rows, row, id)
  {
    LiveStart(env, rows, row, id);
  }

  /** Observing the row, hashed or not, completes the step. */
  lemma {:induction false} PoisedLands(env: Env, live: Live, rows: seq<Row>, row: Row, seen: Row, id: string)
    requires LivePoised(env, live, rows, row, id)
    requires seen == row || seen == Hashed(env.sha, row)
    ensures LiveKept(env, LiveAfter(env, live, seen, SignatureOf(env, seen), |rows|), rows + [Hashed(env.sha, row)], id)
  {
    assert Look(live);
    HashIsNotRead(env, row);
  }

  lemma {:induction false} KeptUntouched(env: Env, live: Live, rows: seq<Row>, row: Row, id: string)
    requires LiveKept(env, live, rows, id) && row.identity != id
    ensures LiveKept(env, live, rows + [row], id)
  {
    assert Look(live);
    LiveUntouched(env, live, rows, row, id);
  }
}
