/**
 The late-bound part of the streaming analysis as values: what the signatures, days and samples
 become once suppression and R6 are known (`src/run/streaming.py:186-260`).
 */
module Finishing {
  import opened Text
  import opened Sorting
  import opened Normalize
  import opened RowSets
  import opened Rules
  import opened Suppression
  import opened Analysis
  import opened StreamState

  function DayOf(id: string, d: int, q: Row -> bool): Row -> bool {
    (row: Row) => row.identity == id && row.date == d && q(row)
  }

  /** Rows of an identity on some of its dates. */
  function OnDates(id: string, dates: set<int>, q: Row -> bool): Row -> bool {
    (row: Row) => row.identity == id && row.date in dates && q(row)
  }

  /** Rows of an identity and date whose signature is one of `s`. */
  ghost function SignedIn(env: Env, id: string, d: int, s: set<Signature>): Row -> bool {
    (row: Row) => row.identity == id && row.date == d && SignatureOf(env, row) in s
  }

  /** A running minimum: None while nothing has been met. */
  ghost predicate IsFirst(first: Option<nat>, s: set<nat>) {
    match first case None => s == {} case Some(k) => IsLeast(k, s)
  }

  function Earlier(first: Option<nat>, k: nat): Option<nat> {
    Some(if first.None? || k < first.value then k else first.value)
  }

  lemma {:induction false} EarlierIsFirst(first: Option<nat>, k: nat, s: set<nat>, t: set<nat>)
    requires IsFirst(first, s) && IsLeast(k, t)
    ensures IsFirst(Earlier(first, k), s + t)
  {
  }

  lemma {:induction false} DisjointSum(a: set<nat>, b: set<nat>, u: set<nat>)
    requires a !! b && u == a + b
    ensures |u| == |a| + |b|
  {
  }

  // ----- a day's signatures, one after another

  lemma {:induction false} NoneSigned(env: Env, rows: seq<Row>, id: string, d: int)
    ensures Where(rows, SignedIn(env, id, d, {})) == {}
  {
  }

  lemma {:induction false} SignedInSplits(env: Env, rows: seq<Row>, id: string, d: int, s: set<Signature>, g: Signature)
    requires g !in s
    ensures Where(rows, SignedIn(env, id, d, s + {g}))
         == Where(rows, SignedIn(env, id, d, s)) + Where(rows, SignedOnDay(env, id, d, g))
    ensures Where(rows, SignedIn(env, id, d, s)) !! Where(rows, SignedOnDay(env, id, d, g))
  {
  }

  lemma {:induction false} OneMoreSignature(env: Env, day: IdentityDay, rows: seq<Row>, id: string, d: int, s: set<Signature>, g: Signature)
    requires SignaturesMatch(env, day.signatures, rows, id, d) && g in day.signatures && g !in s
    ensures Where(rows, SignedIn(env, id, d, s + {g}))
         == Where(rows, SignedIn(env, id, d, s)) + Where(rows, SignedOnDay(env, id, d, g))
    ensures |Where(rows, SignedIn(env, id, d, s + {g}))|
         == |Where(rows, SignedIn(env, id, d, s))| + day.signatures[g].0
    ensures IsLeast(day.signatures[g].1, Where(rows, SignedOnDay(env, id, d, g)))
  {
    assert SignatureMatches(day.signatures, g, Where(rows, SignedOnDay(env, id, d, g)));
    SignedInSplits(env, rows, id, d, s, g);
    DisjointSum(Where(rows, SignedIn(env, id, d, s)), Where(rows, SignedOnDay(env, id, d, g)),
                Where(rows, SignedIn(env, id, d, s + {g})));
  }

  /** Signatures chosen by what they say of their rows pick out exactly the rows of which it is true. */
  lemma {:induction false} ChosenSignatures(env: Env, day: IdentityDay, rows: seq<Row>, id: string, d: int, s: set<Signature>, q: Row -> bool)
    requires SignaturesMatch(env, day.signatures, rows, id, d)
    requires forall row :: row in rows && row.identity == id && row.date == d && SignatureOf(env, row) in day.signatures ==>
               (SignatureOf(env, row) in s <==> q(row))
    ensures Where(rows, SignedIn(env, id, d, s)) == Where(rows, DayOf(id, d, q))
  {
    forall i | 0 <= i < |rows| && rows[i].identity == id && rows[i].date == d
      ensures SignatureOf(env, rows[i]) in s <==> q(rows[i])
    {
      var g := SignatureOf(env, rows[i]);
      assert i in Where(rows, SignedOnDay(env, id, d, g));
      assert SignatureMatches(day.signatures, g, Where(rows, SignedOnDay(env, id, d, g)));
      assert rows[i] in rows;
    }
  }

  // ----- what a signature says of its rows

  lemma {:induction false} HasCoreFinding(env: Env, row: Row, r: RuleId)
    requires r in ROW_CORE_RULES && env.rules(r, Bare(row)).Some?
    ensures EvaluateCoreRules(env.rules, row) != []
  {
    RuleLists();
    EvaluateReports(env.rules, ROW_CORE_RULES, row);
    assert Reports(EvaluateCoreRules(env.rules, row), r, Lift(env.rules(r, Bare(row))));
  }

  lemma {:induction false} CoreFindingFires(env: Env, row: Row) returns (r: RuleId)
    requires EvaluateCoreRules(env.rules, row) != []
    ensures r in ROW_CORE_RULES && env.rules(r, Bare(row)).Some?
  {
    RuleLists();
    EvaluateReports(env.rules, ROW_CORE_RULES, row);
    var fs := EvaluateCoreRules(env.rules, row);
    r := fs[0].rule;
    assert Reports(fs, r, Lift(env.rules(r, Bare(row))));
  }

  lemma {:induction false} CoreFires(env: Env, rows: seq<Row>, row: Row, r: RuleId)
    requires Mine(rows, row.identity) != [] && IsCore(r)
    ensures r == R5 ==> (Fires(env, rows, row, r).Some? <==> Suppressed(rows, env.panels, row))
    ensures r == R6 ==> (Fires(env, rows, row, r).Some? <==> Facts(rows, row.identity).pattern.Some?)
    ensures r != R5 && r != R6 ==>
              r in ROW_CORE_RULES && (Fires(env, rows, row, r).Some? <==> env.rules(r, Bare(row)).Some?)
  {
  }

  /** A row carries a core finding: one of its own, or R5, or its identity's R6. */
  lemma {:induction false} FlaggedBySignature(env: Env, rows: seq<Row>, row: Row)
    requires Mine(rows, row.identity) != []
    ensures Flagged(env, rows, row) <==>
              || EvaluateCoreRules(env.rules, row) != []
              || Suppressed(rows, env.panels, row)
              || Facts(rows, row.identity).pattern.Some?
  {
    if Flagged(env, rows, row) {
      var r :| IsCore(r) && Fires(env, rows, row, r).Some?;
      CoreFires(env, rows, row, r);
      if r != R5 && r != R6 {
        HasCoreFinding(env, row, r);
      }
    } else {
      CoreFires(env, rows, row, R5);
      CoreFires(env, rows, row, R6);
      if EvaluateCoreRules(env.rules, row) != [] {
        var r := CoreFindingFires(env, row);
        CoreFires(env, rows, row, r);
      }
    }
  }

  // ----- a finished day

  ghost predicate DayDone(env: Env, day: IdentityDay, rows: seq<Row>, id: string, d: int) {
    && day.count == |Where(rows, OnDay(id, d))|
    && day.flagged == |Where(rows, DayOf(id, d, FlaggedRow(env, rows)))|
    && day.suppressed == |Where(rows, DayOf(id, d, SuppressedRow(env, rows)))|
    && day.unseen == |Where(rows, DayOf(id, d, UnseenRow(env, rows)))|
    && day.signatures == map[]
    && forall r :: RuleMatches(day.rules, r, Where(rows, DayOf(id, d, FiredRow(env, rows, r))))
  }

  /** A date is kept exactly when the identity has rows on it. */
  ghost predicate DatesExact(days: map<int, IdentityDay>, rows: seq<Row>, id: string) {
    forall d :: d in days <==> Where(rows, OnDay(id, d)) != {}
  }

  ghost predicate DaysDone(env: Env, days: map<int, IdentityDay>, rows: seq<Row>, id: string) {
    DatesExact(days, rows, id) && forall d :: d in days ==> DayDone(env, days[d], rows, id, d)
  }

  /** A day's rule counts with the two late findings entered. */
  function RulesWithLate(rules: map<RuleId, nat>, count: nat, pattern: bool, suppressed: nat): map<RuleId, nat> {
    var m := if pattern then rules[R6 := count] else rules;
    if suppressed != 0 then m[R5 := suppressed] else m
  }

  lemma {:induction false} LateOnDay(env: Env, rows: seq<Row>, id: string, d: int, r: RuleId)
    requires Mine(rows, id) != [] && (r == R5 || r == R6)
    ensures Where(rows, DayOf(id, d, FiredRow(env, rows, r)))
         == if r == R5 then Where(rows, DayOf(id, d, SuppressedRow(env, rows)))
            else if Facts(rows, id).pattern.Some? then Where(rows, OnDay(id, d)) else {}
    ensures Where(rows, RuleOnDay(env, id, d, r)) == {}
  {
  }

  lemma {:induction false} EarlyOnDay(env: Env, rows: seq<Row>, id: string, d: int, r: RuleId)
    requires r != R5 && r != R6
    ensures Where(rows, DayOf(id, d, FiredRow(env, rows, r))) == Where(rows, RuleOnDay(env, id, d, r))
  {
  }

  lemma {:induction false} RulesDone(env: Env, day: IdentityDay, rows: seq<Row>, id: string, d: int, suppressed: nat)
    requires DayMatches(env, day, rows, id, d) && Mine(rows, id) != [] && Where(rows, OnDay(id, d)) != {}
    requires suppressed == |Where(rows, DayOf(id, d, SuppressedRow(env, rows)))|
    ensures var m := RulesWithLate(day.rules, day.count, Facts(rows, id).pattern.Some?, suppressed);
      forall r :: RuleMatches(m, r, Where(rows, DayOf(id, d, FiredRow(env, rows, r))))
  {
    var m := RulesWithLate(day.rules, day.count, Facts(rows, id).pattern.Some?, suppressed);
    forall r ensures RuleMatches(m, r, Where(rows, DayOf(id, d, FiredRow(env, rows, r)))) {
      assert RuleMatches(day.rules, r, Where(rows, RuleOnDay(env, id, d, r)));
      if r == R5 || r == R6 {
        LateOnDay(env, rows, id, d, r);
      } else {
        EarlyOnDay(env, rows, id, d, r);
      }
    }
  }

  // ----- an identity's dates, one after another

  lemma {:induction false} NoDates(rows: seq<Row>, id: string, q: Row -> bool)
    ensures Where(rows, OnDates(id, {}, q)) == {}
  {
  }

  lemma {:induction false} OneMoreDate(rows: seq<Row>, id: string, dates: set<int>, d: int, q: Row -> bool)
    requires d !in dates
    ensures Where(rows, OnDates(id, dates + {d}, q)) == Where(rows, OnDates(id, dates, q)) + Where(rows, DayOf(id, d, q))
    ensures |Where(rows, OnDates(id, dates + {d}, q))|
         == |Where(rows, OnDates(id, dates, q))| + |Where(rows, DayOf(id, d, q))|
  {
    DisjointSum(Where(rows, OnDates(id, dates, q)), Where(rows, DayOf(id, d, q)),
                Where(rows, OnDates(id, dates + {d}, q)));
  }

  lemma {:induction false} AllDates(days: map<int, IdentityDay>, rows: seq<Row>, id: string, q: Row -> bool)
    requires DatesExact(days, rows, id)
    ensures Where(rows, OnDates(id, days.Keys, q)) == Where(rows, OwnedWith(id, q))
  {
    forall i | 0 <= i < |rows| && rows[i].identity == id ensures rows[i].date in days {
      assert i in Where(rows, OnDay(id, rows[i].date));
    }
  }

  function Any(): Row -> bool {
    (row: Row) => true
  }

  lemma {:induction false} AnyOwned(rows: seq<Row>, id: string)
    ensures Where(rows, OwnedWith(id, Any())) == Where(rows, Owned(id))
    ensures forall d :: Where(rows, DayOf(id, d, Any())) == Where(rows, OnDay(id, d))
  {
  }

  // ----- the samples

  ghost predicate SampleDone(env: Env, s: Samples, r: RuleId, rows: seq<Row>, id: string) {
    if r in s.of && r in s.order then
      && IsSummary(env, rows, id, Summary(r, s.of[r].matchedRows, s.of[r].evidence), s.order[r].0)
      && s.order[r].1 == EvidenceOrder(r)
    else r !in s.of && FiredBy(env, rows, id, r) == {}
  }

  ghost predicate SamplesDone(env: Env, s: Samples, rows: seq<Row>, id: string) {
    s.of.Keys == s.order.Keys && forall r :: SampleDone(env, s, r, rows, id)
  }

  /** The samples with R6 recorded for every row, and R5 for the suppressed ones. */
  function WithLate(s: Samples, firing: Option<Finding>, firstOrdinal: nat, rowCount: nat,
                    panels: Finding, first: Option<nat>, suppressed: nat): Samples {
    var t := if firing.Some? then Record(s, firing.value, firstOrdinal, rowCount) else s;
    if first.Some? then Record(t, panels, first.value, suppressed) else t
  }

  lemma {:induction false} FiredByRow(env: Env, rows: seq<Row>, id: string, r: RuleId)
    requires r != R5 && r != R6
    ensures FiredBy(env, rows, id, r) == Where(rows, WithRule(env, id, r))
  {
  }

  lemma {:induction false} FiredLate(env: Env, rows: seq<Row>, id: string, r: RuleId)
    requires Mine(rows, id) != [] && (r == R5 || r == R6)
    ensures FiredBy(env, rows, id, r)
         == if r == R5 then Where(rows, OwnedWith(id, SuppressedRow(env, rows)))
            else if Facts(rows, id).pattern.Some? then Where(rows, Owned(id)) else {}
    ensures Where(rows, WithRule(env, id, r)) == {}
  {
  }

  ghost function FiringFinding(rows: seq<Row>, id: string): Option<Finding>
    requires Mine(rows, id) != []
  {
    var facts := Facts(rows, id);
    if facts.pattern.Some? then Some(Finding(R6, FromFiring(facts, |Mine(rows, id)|))) else None
  }

  /** Recording the late findings leaves the other rules' samples as they are. */
  lemma {:induction false} LateKeeps(s: Samples, firing: Option<Finding>, ordinal: nat, count: nat,
                  panels: Finding, first: Option<nat>, suppressed: nat)
    requires s.of.Keys == s.order.Keys && R5 !in s.of && R6 !in s.of
    requires (firing.Some? ==> firing.value.rule == R6) && panels.rule == R5
    ensures var t := WithLate(s, firing, ordinal, count, panels, first, suppressed);
      && t.of.Keys == t.order.Keys
      && (R6 in t.of <==> firing.Some?)
      && (R5 in t.of <==> first.Some?)
      && (R6 in t.of ==> t.of[R6] == Sample(count, firing.value.evidence) && t.order[R6] == (ordinal, EvidenceOrder(R6)))
      && (R5 in t.of ==> t.of[R5] == Sample(suppressed, panels.evidence) && t.order[R5] == (first.value, EvidenceOrder(R5)))
      && forall r :: r != R5 && r != R6 ==>
           (r in t.of <==> r in s.of) && (r in s.of ==> t.of[r] == s.of[r] && t.order[r] == s.order[r])
  {
  }

  lemma {:induction false} LateSamples(env: Env, live: Live, rows: seq<Row>, id: string, first: Option<nat>, suppressed: nat)
    requires LiveMatches(env, live, rows, id)
    requires IsFirst(first, Where(rows, OwnedWith(id, SuppressedRow(env, rows))))
    requires suppressed == |Where(rows, OwnedWith(id, SuppressedRow(env, rows)))|
    ensures SamplesDone(env, WithLate(live.samples, FiringFinding(rows, id), live.firstOrdinal, |Mine(rows, id)|,
                                      Finding(R5, FromPanels(PanelIds(env.panels))), first, suppressed), rows, id)
  {
    var panels := Finding(R5, FromPanels(PanelIds(env.panels)));
    var t := WithLate(live.samples, FiringFinding(rows, id), live.firstOrdinal, |Mine(rows, id)|, panels, first, suppressed);
    NoLateSamples(env, live.samples, rows, id);
    LateKeeps(live.samples, FiringFinding(rows, id), live.firstOrdinal, |Mine(rows, id)|, panels, first, suppressed);
    forall r ensures SampleDone(env, t, r, rows, id) {
      if r == R5 {
        PanelSample(env, t, rows, id, first, suppressed);
      } else if r == R6 {
        FiringSample(env, t, rows, id, live.firstOrdinal);
      } else {
        assert SampleMatches(RowFinder(env), live.samples, r, rows, Where(rows, WithRule(env, id, r)));
        FiredByRow(env, rows, id, r);
      }
    }
  }

  lemma {:induction false} NoLateSamples(env: Env, s: Samples, rows: seq<Row>, id: string)
    requires SamplesMatch(env, s, rows, id) && Mine(rows, id) != []
    ensures R5 !in s.of && R6 !in s.of
  {
    assert SampleMatches(RowFinder(env), s, R5, rows, Where(rows, WithRule(env, id, R5)));
    assert SampleMatches(RowFinder(env), s, R6, rows, Where(rows, WithRule(env, id, R6)));
    FiredLate(env, rows, id, R5);
    FiredLate(env, rows, id, R6);
  }

  lemma {:induction false} PanelSample(env: Env, t: Samples, rows: seq<Row>, id: string, first: Option<nat>, suppressed: nat)
    requires Mine(rows, id) != [] && t.of.Keys == t.order.Keys
    requires IsFirst(first, Where(rows, OwnedWith(id, SuppressedRow(env, rows))))
    requires suppressed == |Where(rows, OwnedWith(id, SuppressedRow(env, rows)))|
    requires R5 in t.of <==> first.Some?
    requires R5 in t.of ==> t.of[R5] == Sample(suppressed, FromPanels(PanelIds(env.panels)))
                            && t.order[R5] == (first.value, EvidenceOrder(R5))
    ensures SampleDone(env, t, R5, rows, id)
  {
    FiredLate(env, rows, id, R5);
  }

  lemma {:induction false} FiringSample(env: Env, t: Samples, rows: seq<Row>, id: string, ordinal: nat)
    requires Mine(rows, id) != [] && t.of.Keys == t.order.Keys
    requires IsLeast(ordinal, Where(rows, Owned(id)))
    requires R6 in t.of <==> FiringFinding(rows, id).Some?
    requires R6 in t.of ==> t.of[R6] == Sample(|Mine(rows, id)|, FiringFinding(rows, id).value.evidence)
                            && t.order[R6] == (ordinal, EvidenceOrder(R6))
    ensures SampleDone(env, t, R6, rows, id)
  {
    FiredLate(env, rows, id, R6);
    MineIsPresent(rows, id);
  }

  // ----- the evidence list

  /** Sample keys in order: first ordinal, then the rule's place in a row's evidence. */
  function SampleOrder(order: map<RuleId, (nat, nat)>): (RuleId, RuleId) -> bool {
    (r: RuleId, s: RuleId) => !EvidenceKeyLess(KeyIn(order, s), KeyIn(order, r))
  }

  function KeyIn(order: map<RuleId, (nat, nat)>, r: RuleId): (nat, nat) {
    if r in order then order[r] else (0, EvidenceOrder(r))
  }

  function SampledRules(s: Samples): seq<RuleId> {
    Sort(Keep(ALL_RULE_IDS, s.of.Keys), SampleOrder(s.order))
  }

  function EvidenceFor(s: Samples, r: RuleId): Summary {
    if r in s.of then Summary(r, s.of[r].matchedRows, s.of[r].evidence) else Summary(r, 0, FromPanels([]))
  }

  /** The samples listed in some order of their rules. */
  function EvidenceIn(s: Samples, rs: seq<RuleId>): seq<Summary> {
    seq(|rs|, i requires 0 <= i < |rs| => EvidenceFor(s, rs[i]))
  }

  /** `evidence`: the samples by their recorded order. */
  function EvidenceOf(s: Samples): seq<Summary> {
    EvidenceIn(s, SampledRules(s))
  }

  function FirstsIn(s: Samples, rs: seq<RuleId>): seq<nat> {
    seq(|rs|, i requires 0 <= i < |rs| => KeyIn(s.order, rs[i]).0)
  }

  /** `rs` lists the sampled rules by strictly increasing recorded keys. */
  ghost predicate InOrder(s: Samples, rs: seq<RuleId>) {
    && (forall r :: r in rs <==> r in s.of)
    && forall a, b :: 0 <= a < b < |rs| ==> EvidenceKeyLess(KeyIn(s.order, rs[a]), KeyIn(s.order, rs[b]))
  }

  lemma {:induction false} KeepExact(all: seq<RuleId>, s: set<RuleId>)
    requires NoDuplicates(all)
    ensures NoDuplicates(Keep(all, s))
    ensures forall r :: r in Keep(all, s) <==> r in all && r in s
  {
    if all != [] {
      var n := |all| - 1;
      KeepExact(all[..n], s);
      assert all == all[..n] + [all[n]];
    }
  }

  lemma {:induction false} EveryRuleListed()
    ensures NoDuplicates(ALL_RULE_IDS)
    ensures forall r: RuleId :: r in ALL_RULE_IDS
  {
    assert ALL_RULE_IDS == [R1, R2, R3, R4, R5, R6, R7, R8, R9, R10];
    forall r: RuleId ensures r in ALL_RULE_IDS {
      match r
      case R1 => assert ALL_RULE_IDS[0] == r;
      case R2 => assert ALL_RULE_IDS[1] == r;
      case R3 => assert ALL_RULE_IDS[2] == r;
      case R4 => assert ALL_RULE_IDS[3] == r;
      case R5 => assert ALL_RULE_IDS[4] == r;
      case R6 => assert ALL_RULE_IDS[5] == r;
      case R7 => assert ALL_RULE_IDS[6] == r;
      case R8 => assert ALL_RULE_IDS[7] == r;
      case R9 => assert ALL_RULE_IDS[8] == r;
      case R10 => assert ALL_RULE_IDS[9] == r;
    }
  }

  lemma {:induction false} SampledRulesExact(s: Samples)
    ensures NoDuplicates(SampledRules(s)) && Sorted(SampledRules(s), SampleOrder(s.order))
    ensures forall r :: r in SampledRules(s) <==> r in s.of
  {
    EveryRuleListed();
    KeepExact(ALL_RULE_IDS, s.of.Keys);
    var kept := Keep(ALL_RULE_IDS, s.of.Keys);
    SortSorts(kept, SampleOrder(s.order));
    SortPermutes(kept, SampleOrder(s.order));
    DistinctPermutation(kept, SampledRules(s));
    SameElements(kept, SampledRules(s));
  }

  lemma {:induction false} EvidenceAt(env: Env, s: Samples, rs: seq<RuleId>, rows: seq<Row>, id: string, k: nat)
    requires SamplesDone(env, s, rows, id) && InOrder(s, rs) && k < |rs|
    ensures IsSummary(env, rows, id, EvidenceIn(s, rs)[k], FirstsIn(s, rs)[k])
    ensures KeyIn(s.order, rs[k]) == (FirstsIn(s, rs)[k], EvidenceOrder(EvidenceIn(s, rs)[k].rule))
  {
    assert rs[k] in rs;
    assert SampleDone(env, s, rs[k], rows, id);
  }

  lemma {:induction false} EvidenceLists(env: Env, s: Samples, rs: seq<RuleId>, rows: seq<Row>, id: string, r: RuleId)
    requires SamplesDone(env, s, rows, id) && InOrder(s, rs) && FiredBy(env, rows, id, r) != {}
    ensures Lists(EvidenceIn(s, rs), r)
  {
    assert SampleDone(env, s, r, rows, id);
    var k :| 0 <= k < |rs| && rs[k] == r;
    assert EvidenceIn(s, rs)[k].rule == r;
  }

  /** Samples listed by their recorded keys are the evidence list. */
  lemma {:induction false} EvidenceInOrder(env: Env, s: Samples, rs: seq<RuleId>, rows: seq<Row>, id: string)
    requires SamplesDone(env, s, rows, id) && InOrder(s, rs)
    ensures IsEvidence(env, rows, id, EvidenceIn(s, rs), FirstsIn(s, rs))
  {
    var es, firsts := EvidenceIn(s, rs), FirstsIn(s, rs);
    forall k | 0 <= k < |es|
      ensures IsSummary(env, rows, id, es[k], firsts[k])
      ensures KeyIn(s.order, rs[k]) == (firsts[k], EvidenceOrder(es[k].rule))
    {
      EvidenceAt(env, s, rs, rows, id, k);
    }
    forall r | FiredBy(env, rows, id, r) != {} ensures Lists(es, r) {
      EvidenceLists(env, s, rs, rows, id, r);
    }
  }

  lemma {:induction false} SampledInOrder(env: Env, s: Samples, rows: seq<Row>, id: string)
    requires SamplesDone(env, s, rows, id)
    ensures InOrder(s, SampledRules(s))
  {
    var rs := SampledRules(s);
    SampledRulesExact(s);
    forall a, b | 0 <= a < b < |rs| ensures EvidenceKeyLess(KeyIn(s.order, rs[a]), KeyIn(s.order, rs[b])) {
      assert rs[a] in rs && rs[b] in rs;
      assert SampleDone(env, s, rs[a], rows, id) && SampleDone(env, s, rs[b], rows, id);
      assert SampleOrder(s.order)(rs[a], rs[b]);
      OrderTells(rs[a], rs[b]);
    }
  }

  /** The recorded samples, put in their order, are the evidence list. */
  lemma {:induction false} EvidenceIsExact(env: Env, s: Samples, rows: seq<Row>, id: string)
    requires SamplesDone(env, s, rows, id)
    ensures exists firsts :: IsEvidence(env, rows, id, EvidenceOf(s), firsts)
  {
    SampledInOrder(env, s, rows, id);
    EvidenceInOrder(env, s, SampledRules(s), rows, id);
    assert IsEvidence(env, rows, id, EvidenceOf(s), FirstsIn(s, SampledRules(s)));
  }

  lemma {:induction false} OrderTells(r: RuleId, s: RuleId)
    ensures EvidenceOrder(r) == EvidenceOrder(s) <==> r == s
  {
  }
}
