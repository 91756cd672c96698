/** Identity-level LLM states allocated to dates, and what the published daily figures add up to (`src/run/orchestrator.py:388-442`). */
module Quality {
  import opened Text
  import Sorting
  import opened Normalize
  import opened RowSets
  import opened Metrics
  import opened Rules
  import opened Suppression
  import opened Analysis
  import StreamState
  import opened Finishing
  import opened StreamIdentities
  import opened Streaming
  import opened Tallies

  /** The four states an assessed identity can be in. */
  datatype State = LlmFlagged | NeedsReview | AssessedGood | Unassessed

  type Outcomes = map<string, State>

  datatype QualityDay = QualityDay(
    flaggedByLlm: nat,
    flaggedByLlmDistinct: nat,
    needsReview: nat,
    assessedGood: nat,
    unassessed: nat,
    phase2Gaps: nat)

  // ----- what the figures are

  /** The identity carries a core finding somewhere in the window, so it is never given to the model. */
  ghost function CoreIdentityRow(env: Env, rows: seq<Row>): Row -> bool {
    (row: Row) => CoreRulesOf(env, rows, row.identity) != {}
  }

  /** The state an identity without core findings was given. */
  ghost function StateOf(env: Env, rows: seq<Row>, outcomes: Outcomes, id: string): Option<State> {
    if CoreRulesOf(env, rows, id) == {} && id in outcomes then Some(outcomes[id]) else None
  }

  ghost function StateRow(env: Env, rows: seq<Row>, outcomes: Outcomes, s: State): Row -> bool {
    (row: Row) => StateOf(env, rows, outcomes, row.identity) == Some(s)
  }

  /** A v2 identity whose representative has a readiness gap. */
  ghost predicate HasGap(env: Env, rows: seq<Row>, id: string) {
    && Mine(rows, id) != []
    && Representative(Mine(rows, id)).schema == V2
    && EvaluateReadinessRules(env.rules, Representative(Mine(rows, id))) != []
  }

  ghost function GapRow(env: Env, rows: seq<Row>): Row -> bool {
    (row: Row) => HasGap(env, rows, row.identity)
  }

  ghost function QualityAmong(env: Env, rows: seq<Row>, outcomes: Outcomes, ids: set<string>, d: int): QualityDay {
    QualityDay(
      RowsAmong(rows, ids, d, StateRow(env, rows, outcomes, LlmFlagged)),
      IdentitiesAmong(rows, ids, d, StateRow(env, rows, outcomes, LlmFlagged)),
      IdentitiesAmong(rows, ids, d, StateRow(env, rows, outcomes, NeedsReview)),
      IdentitiesAmong(rows, ids, d, StateRow(env, rows, outcomes, AssessedGood)),
      IdentitiesAmong(rows, ids, d, StateRow(env, rows, outcomes, Unassessed)),
      IdentitiesAmong(rows, ids, d, GapRow(env, rows)))
  }

  ghost function QualityOn(env: Env, rows: seq<Row>, outcomes: Outcomes, d: int): QualityDay {
    QualityDay(
      RowsWith(rows, d, StateRow(env, rows, outcomes, LlmFlagged)),
      IdentitiesWith(rows, d, StateRow(env, rows, outcomes, LlmFlagged)),
      IdentitiesWith(rows, d, StateRow(env, rows, outcomes, NeedsReview)),
      IdentitiesWith(rows, d, StateRow(env, rows, outcomes, AssessedGood)),
      IdentitiesWith(rows, d, StateRow(env, rows, outcomes, Unassessed)),
      IdentitiesWith(rows, d, GapRow(env, rows)))
  }

  // ----- one identity's contribution

  function WithGap(q: QualityDay): QualityDay {
    q.(phase2Gaps := q.phase2Gaps + 1)
  }

  function WithState(q: QualityDay, s: State, count: nat): QualityDay {
    match s
    case LlmFlagged => q.(flaggedByLlm := q.flaggedByLlm + count, flaggedByLlmDistinct := q.flaggedByLlmDistinct + 1)
    case NeedsReview => q.(needsReview := q.needsReview + 1)
    case AssessedGood => q.(assessedGood := q.assessedGood + 1)
    case Unassessed => q.(unassessed := q.unassessed + 1)
  }

  function Contribution(q: QualityDay, gap: bool, s: Option<State>, count: nat): QualityDay {
    var g := if gap then WithGap(q) else q;
    if s.Some? then WithState(g, s.value, count) else g
  }

  /** A property of the identity counts all of its rows of a date, or none. */
  lemma {:induction false} WholeIdentity(rows: seq<Row>, days: map<int, IdentityDay>, id: string, d: int, q: Row -> bool, yes: bool)
    requires CountedDays(days, rows, id) && forall row: Row :: row.identity == id ==> q(row) == yes
    ensures RowsOfDay(rows, id, d, q) == if yes && d in days then days[d].count else 0
    ensures d in days ==> days[d].count != 0
  {
    var own := Where(rows, StreamState.OnDay(id, d));
    if yes {
      assert Where(rows, DayOf(id, d, q)) == own;
    } else {
      assert Where(rows, DayOf(id, d, q)) == {};
    }
    assert |own| == 0 <==> own == {};
  }

  lemma {:induction false} OneIdentityMore(rows: seq<Row>, days: map<int, IdentityDay>, ids: set<string>, id: string, d: int,
                                           q: Row -> bool, yes: bool)
    requires CountedDays(days, rows, id) && forall row: Row :: row.identity == id ==> q(row) == yes
    requires id !in ids
    ensures RowsAmong(rows, ids + {id}, d, q) == RowsAmong(rows, ids, d, q) + if yes && d in days then days[d].count else 0
    ensures IdentitiesAmong(rows, ids + {id}, d, q) == IdentitiesAmong(rows, ids, d, q) + if yes && d in days then 1 else 0
  {
    WholeIdentity(rows, days, id, d, q, yes);
    RowsOfOneMore(rows, ids, id, d, q);
    IdentitiesOfOneMore(rows, ids, id, d, q);
  }

  ghost predicate CountedDays(days: map<int, IdentityDay>, rows: seq<Row>, id: string) {
    DatesExact(days, rows, id) && forall e :: e in days ==> days[e].count == |Where(rows, StreamState.OnDay(id, e))|
  }

  lemma {:induction false} StateMore(env: Env, rows: seq<Row>, outcomes: Outcomes, days: map<int, IdentityDay>,
                                     ids: set<string>, id: string, d: int, s: State)
    requires CountedDays(days, rows, id) && id !in ids
    ensures var q, yes := StateRow(env, rows, outcomes, s), d in days && StateOf(env, rows, outcomes, id) == Some(s);
      && Grown(RowsAmong(rows, ids, d, q), RowsAmong(rows, ids + {id}, d, q), yes, if d in days then days[d].count else 0)
      && Grown(IdentitiesAmong(rows, ids, d, q), IdentitiesAmong(rows, ids + {id}, d, q), yes, 1)
  {
    OneIdentityMore(rows, days, ids, id, d, StateRow(env, rows, outcomes, s), StateOf(env, rows, outcomes, id) == Some(s));
  }

  lemma {:induction false} GapMore(env: Env, rows: seq<Row>, days: map<int, IdentityDay>, ids: set<string>, id: string, d: int)
    requires CountedDays(days, rows, id) && id !in ids
    ensures Grown(IdentitiesAmong(rows, ids, d, GapRow(env, rows)), IdentitiesAmong(rows, ids + {id}, d, GapRow(env, rows)),
                  d in days && HasGap(env, rows, id), 1)
  {
    OneIdentityMore(rows, days, ids, id, d, GapRow(env, rows), HasGap(env, rows, id));
  }

  /** A field that counts one state grows by that state's share. */
  predicate Grown(before: nat, after: nat, yes: bool, share: nat) {
    after == before + if yes then share else 0
  }

  lemma {:induction false} Combine(q: QualityDay, r: QualityDay, present: bool, gap: bool, s: Option<State>, count: nat)
    requires Grown(q.flaggedByLlm, r.flaggedByLlm, present && s == Some(LlmFlagged), count)
    requires Grown(q.flaggedByLlmDistinct, r.flaggedByLlmDistinct, present && s == Some(LlmFlagged), 1)
    requires Grown(q.needsReview, r.needsReview, present && s == Some(NeedsReview), 1)
    requires Grown(q.assessedGood, r.assessedGood, present && s == Some(AssessedGood), 1)
    requires Grown(q.unassessed, r.unassessed, present && s == Some(Unassessed), 1)
    requires Grown(q.phase2Gaps, r.phase2Gaps, present && gap, 1)
    ensures r == if present then Contribution(q, gap, s, count) else q
  {
  }

  lemma {:induction false} ContributionStep(env: Env, rows: seq<Row>, outcomes: Outcomes, days: map<int, IdentityDay>,
                                            ids: set<string>, id: string, d: int)
    requires CountedDays(days, rows, id) && id !in ids
    ensures QualityAmong(env, rows, outcomes, ids + {id}, d)
         == if d in days then
              Contribution(QualityAmong(env, rows, outcomes, ids, d), HasGap(env, rows, id),
                           StateOf(env, rows, outcomes, id), days[d].count)
            else QualityAmong(env, rows, outcomes, ids, d)
  {
    StateMore(env, rows, outcomes, days, ids, id, d, LlmFlagged);
    StateMore(env, rows, outcomes, days, ids, id, d, NeedsReview);
    StateMore(env, rows, outcomes, days, ids, id, d, AssessedGood);
    StateMore(env, rows, outcomes, days, ids, id, d, Unassessed);
    GapMore(env, rows, days, ids, id, d);
    Combine(QualityAmong(env, rows, outcomes, ids, d), QualityAmong(env, rows, outcomes, ids + {id}, d), d in days,
            HasGap(env, rows, id), StateOf(env, rows, outcomes, id), if d in days then days[d].count else 0);
  }

  // ----- the loops

  type QualityDays = map<int, QualityDay>

  method AddGaps(acc: QualityDays, dates: set<int>) returns (more: QualityDays)
    ensures more.Keys == acc.Keys
    ensures forall d :: d in acc ==> more[d] == if d in dates then WithGap(acc[d]) else acc[d]
  {
    more := acc;
    var todo := dates;
    while todo != {}
      invariant todo <= dates && more.Keys == acc.Keys
      invariant forall d :: d in acc ==> more[d] == if d in dates && d !in todo then WithGap(acc[d]) else acc[d]
      decreases todo
    {
      ghost var some := MemberOf(todo);
      var d :| d in todo;
      if d in more {
        more := more[d := more[d].(phase2Gaps := more[d].phase2Gaps + 1)];
      }
      todo := todo - {d};
    }
  }

  method AddState(acc: QualityDays, days: map<int, IdentityDay>, s: State) returns (more: QualityDays)
    ensures more.Keys == acc.Keys
    ensures forall d :: d in acc ==> more[d] == if d in days then WithState(acc[d], s, days[d].count) else acc[d]
  {
    more := acc;
    var todo := days.Keys;
    while todo != {}
      invariant todo <= days.Keys && more.Keys == acc.Keys
      invariant forall d :: d in acc ==>
                  more[d] == if d in days && d !in todo then WithState(acc[d], s, days[d].count) else acc[d]
      decreases todo
    {
      ghost var some := MemberOf(todo);
      var d :| d in todo;
      if d in more {
        more := more[d := WithState(more[d], s, days[d].count)];
      }
      todo := todo - {d};
    }
  }

  method AddIdentity(acc: QualityDays, days: map<int, IdentityDay>, gap: bool, core: bool, outcome: Option<State>)
      returns (more: QualityDays)
    ensures more.Keys == acc.Keys
    ensures forall d :: d in acc ==>
              more[d] == if d in days then Contribution(acc[d], gap, if core then None else outcome, days[d].count) else acc[d]
  {
    more := acc;
    if gap {
      more := AddGaps(more, days.Keys);
    }
    if core || outcome.None? {
      return;
    }
    more := AddState(more, days, outcome.value);
  }

  ghost predicate QualitySoFar(acc: QualityDays, env: Env, rows: seq<Row>, outcomes: Outcomes, ids: set<string>) {
    forall d :: d in acc ==> acc[d] == QualityAmong(env, rows, outcomes, ids, d)
  }

  lemma {:induction false} NoQuality(acc: QualityDays, env: Env, rows: seq<Row>, outcomes: Outcomes)
    requires forall d :: d in acc ==> acc[d] == QualityDay(0, 0, 0, 0, 0, 0)
    ensures QualitySoFar(acc, env, rows, outcomes, {})
  {
    forall d | d in acc ensures QualityAmong(env, rows, outcomes, {}, d) == QualityDay(0, 0, 0, 0, 0, 0) {
      NoneCounted(rows, d, StateRow(env, rows, outcomes, LlmFlagged));
      NoneCounted(rows, d, StateRow(env, rows, outcomes, NeedsReview));
      NoneCounted(rows, d, StateRow(env, rows, outcomes, AssessedGood));
      NoneCounted(rows, d, StateRow(env, rows, outcomes, Unassessed));
      NoneCounted(rows, d, GapRow(env, rows));
    }
  }

  lemma {:induction false} NoneCounted(rows: seq<Row>, d: int, q: Row -> bool)
    ensures RowsAmong(rows, {}, d, q) == 0 && IdentitiesAmong(rows, {}, d, q) == 0
  {
    AmongNone(rows, DatedWith(d, q));
  }

  lemma {:induction false} AllQuality(env: Env, rows: seq<Row>, outcomes: Outcomes, ids: set<string>, d: int)
    requires forall i :: 0 <= i < |rows| ==> rows[i].identity in ids
    ensures QualityAmong(env, rows, outcomes, ids, d) == QualityOn(env, rows, outcomes, d)
  {
    AmongAll(rows, ids, DatedWith(d, StateRow(env, rows, outcomes, LlmFlagged)));
    AmongAll(rows, ids, DatedWith(d, StateRow(env, rows, outcomes, NeedsReview)));
    AmongAll(rows, ids, DatedWith(d, StateRow(env, rows, outcomes, AssessedGood)));
    AmongAll(rows, ids, DatedWith(d, StateRow(env, rows, outcomes, Unassessed)));
    AmongAll(rows, ids, DatedWith(d, GapRow(env, rows)));
  }

  /** `_allocate_quality_by_date`. */
  method AllocateQuality(analysis: SchemaAccumulator, outcomes: Outcomes, dates: seq<int>) returns (acc: QualityDays)
    requires analysis.IdentitiesExact() && analysis.DoneAll()
    ensures acc.Keys == set d | d in dates
    ensures forall d :: d in acc ==> acc[d] == QualityOn(analysis.env, analysis.rows, outcomes, d)
  {
    ghost var env, rows := analysis.env, analysis.rows;
    acc := map d | d in dates :: QualityDay(0, 0, 0, 0, 0, 0);
    NoQuality(acc, env, rows, outcomes);
    ghost var all := analysis.identities.Keys;
    var todo := analysis.identities.Keys;
    assert all - todo == {};
    while todo != {}
      invariant todo <= all && acc.Keys == set d | d in dates
      invariant QualitySoFar(acc, env, rows, outcomes, all - todo)
      decreases todo
    {
      ghost var some := MemberOf(todo);
      var id :| id in todo;
      acc := AllocateIdentity(acc, analysis.identities[id], outcomes, env, rows, id, all - todo);
      Remaining(all, todo, id);
      todo := todo - {id};
    }
    analysis.EveryRowHasIdentity();
    assert all - {} == all;
    forall d | d in acc ensures acc[d] == QualityOn(env, rows, outcomes, d) {
      AllQuality(env, rows, outcomes, all, d);
    }
  }

  method AllocateIdentity(acc: QualityDays, x: StreamIdentity, outcomes: Outcomes,
                          ghost env: Env, ghost rows: seq<Row>, id: string, ghost ids: set<string>)
      returns (more: QualityDays)
    requires x.Done(env, rows, id) && id !in ids && QualitySoFar(acc, env, rows, outcomes, ids)
    ensures more.Keys == acc.Keys && QualitySoFar(more, env, rows, outcomes, ids + {id})
  {
    assert Look(id);
    var gap := x.representative.schema == V2 && x.readinessRuleIds != [];
    var outcome := if id in outcomes then Some(outcomes[id]) else None;
    more := AddIdentity(acc, x.days, gap, x.coreRuleIds != [], outcome);
    CoreIdsEmpty(env, rows, id);
    forall d | d in more ensures more[d] == QualityAmong(env, rows, outcomes, ids + {id}, d) {
      ContributionStep(env, rows, outcomes, x.days, ids, id, d);
    }
  }

  lemma {:induction false} CoreIdsEmpty(env: Env, rows: seq<Row>, id: string)
    ensures Keep(CORE_RULE_IDS, CoreRulesOf(env, rows, id)) == [] <==> CoreRulesOf(env, rows, id) == {}
  {
    var kept := Keep(CORE_RULE_IDS, CoreRulesOf(env, rows, id));
    CoreRulesDistinct();
    KeepExact(CORE_RULE_IDS, CoreRulesOf(env, rows, id));
    if r :| r in CoreRulesOf(env, rows, id) {
      assert r in kept;
    }
    if kept != [] {
      assert kept[0] in kept;
    }
  }

  lemma {:induction false} CoreRulesDistinct()
    ensures Sorting.NoDuplicates(CORE_RULE_IDS)
  {
  }

  // ----- conservation

  /** Two disjoint kinds of row cannot outnumber the rows. */
  lemma {:induction false} DisjointRows(rows: seq<Row>, d: int, q: Row -> bool, r: Row -> bool)
    requires forall i :: 0 <= i < |rows| ==> !(q(rows[i]) && r(rows[i]))
    ensures RowsWith(rows, d, q) + RowsWith(rows, d, r) <= |Where(rows, Dated(d))|
  {
    var a, b := Where(rows, DatedWith(d, q)), Where(rows, DatedWith(d, r));
    DisjointSum(a, b, a + b);
    SubsetSize(a + b, Where(rows, Dated(d)));
  }

  lemma {:induction false} SubsetSize<T>(a: set<T>, b: set<T>)
    requires a <= b
    ensures |a| <= |b|
  {
    assert b == a + (b - a);
    assert |b| == |a| + |b - a|;
  }

  /** A row with a core finding belongs to an identity the model never sees. */
  lemma {:induction false} FlaggedIsCore(env: Env, rows: seq<Row>, i: nat)
    requires i < |rows| && Flagged(env, rows, rows[i])
    ensures CoreRulesOf(env, rows, rows[i].identity) != {}
  {
    var r :| IsCore(r) && Fires(env, rows, rows[i], r).Some?;
    assert i in FiredBy(env, rows, rows[i].identity, r);
    assert r in CoreRulesOf(env, rows, rows[i].identity);
  }

  /** No row counts both as flagged by a rule and as flagged by the model. */
  lemma {:induction false} RuleAndModelDisjoint(env: Env, rows: seq<Row>, outcomes: Outcomes, d: int)
    ensures RowsWith(rows, d, FlaggedRow(env, rows)) + QualityOn(env, rows, outcomes, d).flaggedByLlm <= |Where(rows, Dated(d))|
  {
    forall i | 0 <= i < |rows|
      ensures !(FlaggedRow(env, rows)(rows[i]) && StateRow(env, rows, outcomes, LlmFlagged)(rows[i]))
    {
      if Flagged(env, rows, rows[i]) {
        FlaggedIsCore(env, rows, i);
      }
    }
    DisjointRows(rows, d, FlaggedRow(env, rows), StateRow(env, rows, outcomes, LlmFlagged));
  }

  /** Suppressed rows are flagged rows, and no row is both suppressed and unseen. */
  lemma {:induction false} SuppressedWithinFlagged(env: Env, rows: seq<Row>, d: int)
    ensures RowsWith(rows, d, SuppressedRow(env, rows)) <= RowsWith(rows, d, FlaggedRow(env, rows))
    ensures RowsWith(rows, d, SuppressedRow(env, rows)) + RowsWith(rows, d, UnseenRow(env, rows)) <= |Where(rows, Dated(d))|
  {
    forall row: Row | Suppressed(rows, env.panels, row) ensures Flagged(env, rows, row) {
      assert IsCore(R5) && Fires(env, rows, row, R5).Some?;
    }
    SubsetSize(Where(rows, DatedWith(d, SuppressedRow(env, rows))), Where(rows, DatedWith(d, FlaggedRow(env, rows))));
    DisjointRows(rows, d, SuppressedRow(env, rows), UnseenRow(env, rows));
  }

  /** Every identity seen on the date is flagged by a rule or has an outcome. */
  ghost predicate AllDecided(env: Env, rows: seq<Row>, outcomes: Outcomes, d: int) {
    forall i :: 0 <= i < |rows| && rows[i].date == d && CoreRulesOf(env, rows, rows[i].identity) == {} ==>
      rows[i].identity in outcomes
  }

  ghost function Decided(env: Env, rows: seq<Row>, outcomes: Outcomes, d: int): nat {
    var q := QualityOn(env, rows, outcomes, d);
    IdentitiesWith(rows, d, CoreIdentityRow(env, rows))
    + q.flaggedByLlmDistinct + q.needsReview + q.assessedGood + q.unassessed
  }

  /**
   The distinct alerts of a date are exactly those with a core finding plus those in the four states,
   if and only if every other identity present has an outcome.
   */
  lemma {:induction false} StatesAddUp(env: Env, rows: seq<Row>, outcomes: Outcomes, d: int)
    ensures Decided(env, rows, outcomes, d) <= |Values(rows, Dated(d), IdentityOfRow)|
    ensures Decided(env, rows, outcomes, d) == |Values(rows, Dated(d), IdentityOfRow)| <==> AllDecided(env, rows, outcomes, d)
  {
    var all := Values(rows, Dated(d), IdentityOfRow);
    var parts := Parts(env, rows, outcomes, d);
    assert Decided(env, rows, outcomes, d) == |parts[0]| + |parts[1]| + |parts[2]| + |parts[3]| + |parts[4]|;
    forall k, l | 0 <= k < l < 6 ensures parts[k] !! parts[l] {
      PartsDisjoint(env, rows, outcomes, d, k, l);
    }
    PartsCover(env, rows, outcomes, d);
    SixDisjoint(parts[0], parts[1], parts[2], parts[3], parts[4], parts[5], all);
    OpenRows(env, rows, outcomes, d);
  }

  /** Neither flagged by a rule nor given an outcome. */
  ghost function OpenRow(env: Env, rows: seq<Row>, outcomes: Outcomes): Row -> bool {
    (row: Row) => CoreRulesOf(env, rows, row.identity) == {} && row.identity !in outcomes
  }

  /** The six kinds of identity: flagged by a rule, the four states, undecided. */
  ghost function KindRow(env: Env, rows: seq<Row>, outcomes: Outcomes, k: nat): Row -> bool {
    if k == 0 then CoreIdentityRow(env, rows)
    else if k == 1 then StateRow(env, rows, outcomes, LlmFlagged)
    else if k == 2 then StateRow(env, rows, outcomes, NeedsReview)
    else if k == 3 then StateRow(env, rows, outcomes, AssessedGood)
    else if k == 4 then StateRow(env, rows, outcomes, Unassessed)
    else OpenRow(env, rows, outcomes)
  }

  ghost function Parts(env: Env, rows: seq<Row>, outcomes: Outcomes, d: int): (parts: seq<set<string>>)
    ensures |parts| == 6 && forall k :: 0 <= k < 6 ==> parts[k] == Identities(rows, d, KindRow(env, rows, outcomes, k))
  {
    seq(6, k requires 0 <= k < 6 => Identities(rows, d, KindRow(env, rows, outcomes, k)))
  }

  /** Which kind an identity is depends on the identity alone. */
  ghost function KindOf(env: Env, rows: seq<Row>, outcomes: Outcomes, id: string): (k: nat)
    ensures k < 6
  {
    if CoreRulesOf(env, rows, id) != {} then 0
    else if id !in outcomes then 5
    else match outcomes[id] case LlmFlagged => 1 case NeedsReview => 2 case AssessedGood => 3 case Unassessed => 4
  }

  lemma {:induction false} KindTells(env: Env, rows: seq<Row>, outcomes: Outcomes, row: Row, k: nat)
    requires k < 6
    ensures KindRow(env, rows, outcomes, k)(row) <==> KindOf(env, rows, outcomes, row.identity) == k
  {
  }

  lemma {:induction false} InPart(env: Env, rows: seq<Row>, outcomes: Outcomes, d: int, k: nat, id: string)
    requires k < 6
    ensures id in Parts(env, rows, outcomes, d)[k] <==>
              id in Values(rows, Dated(d), IdentityOfRow) && KindOf(env, rows, outcomes, id) == k
  {
    var q := KindRow(env, rows, outcomes, k);
    if i :| 0 <= i < |rows| && rows[i].identity == id && rows[i].date == d {
      KindTells(env, rows, outcomes, rows[i], k);
      assert DatedWith(d, q)(rows[i]) <==> KindOf(env, rows, outcomes, id) == k;
    }
    if id in Identities(rows, d, q) {
      var i :| 0 <= i < |rows| && DatedWith(d, q)(rows[i]) && rows[i].identity == id;
      KindTells(env, rows, outcomes, rows[i], k);
    }
  }

  lemma {:induction false} PartsDisjoint(env: Env, rows: seq<Row>, outcomes: Outcomes, d: int, k: nat, l: nat)
    requires k < l < 6
    ensures Parts(env, rows, outcomes, d)[k] !! Parts(env, rows, outcomes, d)[l]
  {
    forall id | id in Parts(env, rows, outcomes, d)[k] ensures id !in Parts(env, rows, outcomes, d)[l] {
      InPart(env, rows, outcomes, d, k, id);
      InPart(env, rows, outcomes, d, l, id);
    }
  }

  lemma {:induction false} PartsCover(env: Env, rows: seq<Row>, outcomes: Outcomes, d: int)
    ensures var p := Parts(env, rows, outcomes, d);
      forall id :: id in Values(rows, Dated(d), IdentityOfRow) <==>
        id in p[0] || id in p[1] || id in p[2] || id in p[3] || id in p[4] || id in p[5]
  {
    forall id
      ensures forall k :: 0 <= k < 6 ==> (id in Parts(env, rows, outcomes, d)[k] <==>
                id in Values(rows, Dated(d), IdentityOfRow) && KindOf(env, rows, outcomes, id) == k)
    {
      forall k | 0 <= k < 6 {
        InPart(env, rows, outcomes, d, k, id);
      }
    }
  }

  lemma {:induction false} SixDisjoint(a: set<string>, b: set<string>, c: set<string>, d: set<string>, e: set<string>,
                                       f: set<string>, all: set<string>)
    requires a !! b && a !! c && a !! d && a !! e && a !! f && b !! c && b !! d && b !! e && b !! f
    requires c !! d && c !! e && c !! f && d !! e && d !! f && e !! f
    requires forall x :: x in all <==> x in a || x in b || x in c || x in d || x in e || x in f
    ensures |all| == |a| + |b| + |c| + |d| + |e| + |f|
  {
    var s := a + b;
    var t := s + c;
    var u := t + d;
    var v := u + e;
    assert |s| == |a| + |b|;
    assert |t| == |s| + |c|;
    assert |u| == |t| + |d|;
    assert |v| == |u| + |e|;
    assert all == v + f;
  }

  lemma {:induction false} OpenRows(env: Env, rows: seq<Row>, outcomes: Outcomes, d: int)
    ensures |Parts(env, rows, outcomes, d)[5]| == 0 <==> AllDecided(env, rows, outcomes, d)
  {
    var open := Parts(env, rows, outcomes, d)[5];
    if AllDecided(env, rows, outcomes, d) {
      forall id ensures id !in open {
        InPart(env, rows, outcomes, d, 5, id);
      }
      assert open == {};
    }
    if open == {} {
      forall i | 0 <= i < |rows| && rows[i].date == d && CoreRulesOf(env, rows, rows[i].identity) == {}
        ensures rows[i].identity in outcomes
      {
        InPart(env, rows, outcomes, d, 5, rows[i].identity);
        assert Dated(d)(rows[i]) && IdentityOfRow(rows[i]) == rows[i].identity;
      }
    }
  }

  ghost function Identities(rows: seq<Row>, d: int, q: Row -> bool): (s: set<string>)
    ensures |s| == IdentitiesWith(rows, d, q)
  {
    Values(rows, DatedWith(d, q), IdentityOfRow)
  }
}
