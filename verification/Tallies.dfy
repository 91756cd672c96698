/** Daily figures added up identity by identity (`src/run/streaming.py:262-317`). */
module Tallies {
  import opened Text
  import opened Normalize
  import opened RowSets
  import opened Metrics
  import opened Rules
  import opened Suppression
  import opened Analysis
  import StreamState
  import opened Finishing

  type IdentityDay = StreamState.IdentityDay

  /** Rows of some identities that satisfy `p`. */
  function Among(ids: set<string>, p: Row -> bool): Row -> bool {
    (row: Row) => row.identity in ids && p(row)
  }

  lemma {:induction false} AmongNone(rows: seq<Row>, p: Row -> bool)
    ensures Where(rows, Among({}, p)) == {} && Values(rows, Among({}, p), IdentityOfRow) == {}
  {
  }

  lemma {:induction false} AmongAll(rows: seq<Row>, ids: set<string>, p: Row -> bool)
    requires forall i :: 0 <= i < |rows| ==> rows[i].identity in ids
    ensures Where(rows, Among(ids, p)) == Where(rows, p)
    ensures Values(rows, Among(ids, p), IdentityOfRow) == Values(rows, p, IdentityOfRow)
  {
  }

  /** Rows of some identities on a date that satisfy `q`. */
  ghost function RowsAmong(rows: seq<Row>, ids: set<string>, d: int, q: Row -> bool): nat {
    |Where(rows, Among(ids, DatedWith(d, q)))|
  }

  /** Those of the identities with such a row. */
  ghost function IdentitiesAmong(rows: seq<Row>, ids: set<string>, d: int, q: Row -> bool): nat {
    |Values(rows, Among(ids, DatedWith(d, q)), IdentityOfRow)|
  }

  ghost function RowsOfDay(rows: seq<Row>, id: string, d: int, q: Row -> bool): nat {
    |Where(rows, DayOf(id, d, q))|
  }

  lemma {:induction false} RowsOfOneMore(rows: seq<Row>, ids: set<string>, id: string, d: int, q: Row -> bool)
    requires id !in ids
    ensures RowsAmong(rows, ids + {id}, d, q) == RowsAmong(rows, ids, d, q) + RowsOfDay(rows, id, d, q)
  {
    var a, b := Where(rows, Among(ids, DatedWith(d, q))), Where(rows, DayOf(id, d, q));
    var u := Where(rows, Among(ids + {id}, DatedWith(d, q)));
    assert u == a + b && a !! b;
    DisjointSum(a, b, u);
  }

  ghost function ValuesAmong(rows: seq<Row>, ids: set<string>, d: int, q: Row -> bool): set<string> {
    Values(rows, Among(ids, DatedWith(d, q)), IdentityOfRow)
  }

  lemma {:induction false} OneMoreIdentity(rows: seq<Row>, ids: set<string>, id: string, d: int, q: Row -> bool)
    requires id !in ids
    ensures id !in ValuesAmong(rows, ids, d, q)
    ensures RowsOfDay(rows, id, d, q) != 0 ==> ValuesAmong(rows, ids + {id}, d, q) == ValuesAmong(rows, ids, d, q) + {id}
  {
    var u := ValuesAmong(rows, ids + {id}, d, q);
    if i :| i in Where(rows, DayOf(id, d, q)) {
      assert rows[i].identity in u;
    }
  }

  lemma {:induction false} NoMoreIdentity(rows: seq<Row>, ids: set<string>, id: string, d: int, q: Row -> bool)
    requires RowsOfDay(rows, id, d, q) == 0
    ensures ValuesAmong(rows, ids + {id}, d, q) == ValuesAmong(rows, ids, d, q)
  {
    assert forall i :: 0 <= i < |rows| && rows[i].identity == id && rows[i].date == d && q(rows[i]) ==>
              i in Where(rows, DayOf(id, d, q));
  }

  lemma {:induction false} IdentitiesOfOneMore(rows: seq<Row>, ids: set<string>, id: string, d: int, q: Row -> bool)
    requires id !in ids
    ensures IdentitiesAmong(rows, ids + {id}, d, q)
         == IdentitiesAmong(rows, ids, d, q) + if RowsOfDay(rows, id, d, q) == 0 then 0 else 1
  {
    OneMoreIdentity(rows, ids, id, d, q);
    if RowsOfDay(rows, id, d, q) == 0 {
      NoMoreIdentity(rows, ids, id, d, q);
    } else {
      OneMoreElement(ValuesAmong(rows, ids, d, q), id);
    }
  }

  lemma {:induction false} MemberOf<T>(s: set<T>) returns (x: T)
    requires s != {}
    ensures x in s
  {
    x :| x in s;
  }

  // ----- the counters kept on a day

  datatype Counter = FlaggedRows | SuppressedRows | UnseenRows

  function CounterOf(day: IdentityDay, k: Counter): nat {
    match k
    case FlaggedRows => day.flagged
    case SuppressedRows => day.suppressed
    case UnseenRows => day.unseen
  }

  /** The rows a counter counts. */
  ghost function CountedRow(k: Counter, env: Env, rows: seq<Row>): Row -> bool {
    match k
    case FlaggedRows => FlaggedRow(env, rows)
    case SuppressedRows => SuppressedRow(env, rows)
    case UnseenRows => UnseenRow(env, rows)
  }

  function CountAt(days: map<int, IdentityDay>, d: int, k: Counter): nat {
    if d in days then CounterOf(days[d], k) else 0
  }

  lemma {:induction false} NoRowsNoCount(rows: seq<Row>, id: string, d: int, q: Row -> bool)
    requires Where(rows, StreamState.OnDay(id, d)) == {}
    ensures Where(rows, DayOf(id, d, q)) == {}
  {
    assert Where(rows, DayOf(id, d, q)) <= Where(rows, StreamState.OnDay(id, d));
  }

  lemma {:induction false} CountAtDay(env: Env, days: map<int, IdentityDay>, rows: seq<Row>, id: string, d: int, k: Counter)
    requires DaysDone(env, days, rows, id)
    ensures CountAt(days, d, k) == RowsOfDay(rows, id, d, CountedRow(k, env, rows))
  {
    if d !in days {
      NoRowsNoCount(rows, id, d, CountedRow(k, env, rows));
    } else {
      assert DayDone(env, days[d], rows, id, d);
    }
  }

  /** Rows, and identities with one, of each date. */
  type DayTotals = map<int, (nat, nat)>

  ghost predicate TotalsAmong(t: DayTotals, rows: seq<Row>, ids: set<string>, q: Row -> bool) {
    forall d :: d in t ==> t[d] == (RowsAmong(rows, ids, d, q), IdentitiesAmong(rows, ids, d, q))
  }

  lemma {:induction false} NothingTotalled(t: DayTotals, rows: seq<Row>, q: Row -> bool)
    requires forall d :: d in t ==> t[d] == (0, 0)
    ensures TotalsAmong(t, rows, {}, q)
  {
    forall d | d in t {
      AmongNone(rows, DatedWith(d, q));
    }
  }

  lemma {:induction false} AllTotalled(t: DayTotals, rows: seq<Row>, ids: set<string>, q: Row -> bool)
    requires TotalsAmong(t, rows, ids, q)
    requires forall i :: 0 <= i < |rows| ==> rows[i].identity in ids
    ensures forall d :: d in t ==> t[d] == (RowsWith(rows, d, q), IdentitiesWith(rows, d, q))
  {
    forall d | d in t {
      AmongAll(rows, ids, DatedWith(d, q));
    }
  }

  /** `u` is `t` with the counts of some dates entered. */
  ghost predicate DaysEntered(t: DayTotals, u: DayTotals, days: map<int, IdentityDay>, met: set<int>, k: Counter) {
    && u.Keys == t.Keys
    && forall d :: d in t ==>
         u[d] == if d in met then (t[d].0 + CountAt(days, d, k), t[d].1 + if CountAt(days, d, k) != 0 then 1 else 0) else t[d]
  }

  lemma {:induction false} OneMoreTotalled(t: DayTotals, u: DayTotals, env: Env, days: map<int, IdentityDay>, rows: seq<Row>,
                        ids: set<string>, id: string, k: Counter, d: int)
    requires TotalsAmong(t, rows, ids, CountedRow(k, env, rows)) && id !in ids && DaysDone(env, days, rows, id)
    requires DaysEntered(t, u, days, days.Keys, k) && d in u
    ensures u[d] == (RowsAmong(rows, ids + {id}, d, CountedRow(k, env, rows)),
                     IdentitiesAmong(rows, ids + {id}, d, CountedRow(k, env, rows)))
  {
    CountAtDay(env, days, rows, id, d, k);
    RowsOfOneMore(rows, ids, id, d, CountedRow(k, env, rows));
    IdentitiesOfOneMore(rows, ids, id, d, CountedRow(k, env, rows));
  }

  /** One identity's days added to the totals. */
  method AddDays(t: DayTotals, days: map<int, IdentityDay>, k: Counter) returns (u: DayTotals)
    requires days.Keys <= t.Keys
    ensures DaysEntered(t, u, days, days.Keys, k)
  {
    u := t;
    var todo := days.Keys;
    while todo != {}
      invariant todo <= days.Keys
      invariant DaysEntered(t, u, days, days.Keys - todo, k)
      decreases todo
    {
      ghost var some := MemberOf(todo);
      var d :| d in todo;
      var c := CounterOf(days[d], k);
      u := u[d := (u[d].0 + c, u[d].1 + if c != 0 then 1 else 0)];
      todo := todo - {d};
    }
  }

  // ----- rule counts

  type RuleTotalsMap = map<RuleDay, (nat, nat)>

  function RuleCountAt(days: map<int, IdentityDay>, k: RuleDay): Option<nat> {
    if k.0 in days && k.1 in days[k.0].rules then Some(days[k.0].rules[k.1]) else None
  }

  function RuleCounts(days: map<int, IdentityDay>): RuleDay -> Option<nat> {
    (k: RuleDay) => RuleCountAt(days, k)
  }

  function TotalAt(t: RuleTotalsMap, k: RuleDay): (nat, nat) {
    if k in t then t[k] else (0, 0)
  }

  /** `u` is `t` with one identity's counts entered. */
  ghost predicate Entered(t: RuleTotalsMap, u: RuleTotalsMap, count: RuleDay -> Option<nat>) {
    forall k :: EnteredAt(t, u, k, count(k))
  }

  ghost predicate EnteredAt(t: RuleTotalsMap, u: RuleTotalsMap, k: RuleDay, count: Option<nat>) {
    match count
    case None => (k in u <==> k in t) && (k in t ==> u[k] == t[k])
    case Some(c) => k in u && u[k] == (TotalAt(t, k).0 + c, TotalAt(t, k).1 + 1)
  }

  /** One date's rule counts added to the totals. */
  method AddRules(t: RuleTotalsMap, date: int, rules: map<RuleId, nat>) returns (u: RuleTotalsMap)
    ensures forall r :: EnteredAt(t, u, (date, r), if r in rules then Some(rules[r]) else None)
    ensures forall k: RuleDay :: k.0 != date ==> EnteredAt(t, u, k, None)
  {
    u := t;
    var todo := rules.Keys;
    while todo != {}
      invariant todo <= rules.Keys
      invariant forall r :: EnteredAt(t, u, (date, r), if r in rules && r !in todo then Some(rules[r]) else None)
      invariant forall k: RuleDay :: k.0 != date ==> EnteredAt(t, u, k, None)
      decreases todo
    {
      var r :| r in todo;
      var k := (date, r);
      assert EnteredAt(t, u, k, None);
      var (n, distinct) := if k in u then u[k] else (0, 0);
      u := u[k := (n + rules[r], distinct + 1)];
      todo := todo - {r};
    }
  }

  ghost predicate RulesEntered(t: RuleTotalsMap, u: RuleTotalsMap, days: map<int, IdentityDay>, todo: set<int>) {
    forall k: RuleDay :: EnteredAt(t, u, k, if k.0 in todo then None else RuleCountAt(days, k))
  }

  /** One identity's rule counts added to the totals. */
  method AddAllRules(t: RuleTotalsMap, days: map<int, IdentityDay>) returns (u: RuleTotalsMap)
    ensures Entered(t, u, RuleCounts(days))
  {
    u := t;
    var todo := days.Keys;
    while todo != {}
      invariant todo <= days.Keys
      invariant RulesEntered(t, u, days, todo)
      decreases todo
    {
      ghost var some := MemberOf(todo);
      var d :| d in todo;
      var v := AddRules(u, d, days[d].rules);
      RulesStep(t, u, v, days, todo, d);
      u := v;
      todo := todo - {d};
    }
    forall k ensures EnteredAt(t, u, k, RuleCounts(days)(k)) {
      assert EnteredAt(t, u, k, if k.0 in todo then None else RuleCountAt(days, k));
    }
  }

  lemma {:induction false} RulesStep(t: RuleTotalsMap, u: RuleTotalsMap, v: RuleTotalsMap, days: map<int, IdentityDay>, todo: set<int>, d: int)
    requires RulesEntered(t, u, days, todo) && d in todo && d in days
    requires forall r :: EnteredAt(u, v, (d, r), if r in days[d].rules then Some(days[d].rules[r]) else None)
    requires forall k: RuleDay :: k.0 != d ==> EnteredAt(u, v, k, None)
    ensures RulesEntered(t, v, days, todo - {d})
  {
    forall k: RuleDay ensures EnteredAt(t, v, k, if k.0 in todo - {d} then None else RuleCountAt(days, k)) {
      assert EnteredAt(t, u, k, if k.0 in todo then None else RuleCountAt(days, k));
      if k.0 == d {
        assert EnteredAt(u, v, (d, k.1), if k.1 in days[d].rules then Some(days[d].rules[k.1]) else None);
      }
    }
  }

  ghost predicate RuleTotalsAmong(t: RuleTotalsMap, env: Env, rows: seq<Row>, ids: set<string>) {
    forall k: RuleDay :: RuleTotalAmong(t, k, rows, ids, FiredRow(env, rows, k.1))
  }

  ghost predicate RuleTotalAmong(t: RuleTotalsMap, k: RuleDay, rows: seq<Row>, ids: set<string>, q: Row -> bool) {
    && (k in t <==> RowsAmong(rows, ids, k.0, q) != 0)
    && TotalAt(t, k) == (RowsAmong(rows, ids, k.0, q), IdentitiesAmong(rows, ids, k.0, q))
  }

  lemma {:induction false} NoRuleTotalled(env: Env, rows: seq<Row>)
    ensures RuleTotalsAmong(map[], env, rows, {})
  {
    forall k: RuleDay ensures RuleTotalAmong(map[], k, rows, {}, FiredRow(env, rows, k.1)) {
      AmongNone(rows, DatedWith(k.0, FiredRow(env, rows, k.1)));
    }
  }

  lemma {:induction false} RuleCountAtDay(env: Env, days: map<int, IdentityDay>, rows: seq<Row>, id: string, k: RuleDay)
    requires DaysDone(env, days, rows, id)
    ensures var n := RowsOfDay(rows, id, k.0, FiredRow(env, rows, k.1));
      RuleCountAt(days, k) == if n == 0 then None else Some(n)
  {
    if k.0 !in days {
      NoRowsNoCount(rows, id, k.0, FiredRow(env, rows, k.1));
    } else {
      assert DayDone(env, days[k.0], rows, id, k.0);
      assert StreamState.RuleMatches(days[k.0].rules, k.1, Where(rows, DayOf(id, k.0, FiredRow(env, rows, k.1))));
    }
  }

  lemma {:induction false} OneMoreRuleTotal(t: RuleTotalsMap, u: RuleTotalsMap, rows: seq<Row>, ids: set<string>, id: string, k: RuleDay,
                         q: Row -> bool, count: Option<nat>)
    requires RuleTotalAmong(t, k, rows, ids, q) && id !in ids
    requires var n := RowsOfDay(rows, id, k.0, q); count == if n == 0 then None else Some(n)
    requires EnteredAt(t, u, k, count)
    ensures RuleTotalAmong(u, k, rows, ids + {id}, q)
  {
    RowsOfOneMore(rows, ids, id, k.0, q);
    IdentitiesOfOneMore(rows, ids, id, k.0, q);
  }

  lemma {:induction false} OneMoreRuleTotals(t: RuleTotalsMap, u: RuleTotalsMap, env: Env, days: map<int, IdentityDay>, rows: seq<Row>,
                          ids: set<string>, id: string)
    requires RuleTotalsAmong(t, env, rows, ids) && id !in ids && DaysDone(env, days, rows, id)
    requires Entered(t, u, RuleCounts(days))
    ensures RuleTotalsAmong(u, env, rows, ids + {id})
  {
    forall k: RuleDay
      ensures RuleTotalAmong(u, k, rows, ids + {id}, FiredRow(env, rows, k.1))
    {
      RuleCountAtDay(env, days, rows, id, k);
      assert RuleTotalAmong(t, k, rows, ids, FiredRow(env, rows, k.1));
      assert EnteredAt(t, u, k, RuleCounts(days)(k));
      OneMoreRuleTotal(t, u, rows, ids, id, k, FiredRow(env, rows, k.1), RuleCountAt(days, k));
    }
  }

  lemma {:induction false} RuleTotalExact(t: RuleTotalsMap, env: Env, rows: seq<Row>, ids: set<string>, k: RuleDay)
    requires RuleTotalsAmong(t, env, rows, ids)
    requires forall i :: 0 <= i < |rows| ==> rows[i].identity in ids
    ensures k in t <==> k in RuleDays(env, rows)
    ensures k in t ==> t[k] == (RowsWith(rows, k.0, FiredRow(env, rows, k.1)),
                                IdentitiesWith(rows, k.0, FiredRow(env, rows, k.1)))
  {
    var q := FiredRow(env, rows, k.1);
    assert RuleTotalAmong(t, k, rows, ids, q);
    AmongAll(rows, ids, DatedWith(k.0, q));
    RuleDayHasRow(env, rows, k);
  }

  lemma {:induction false} AllRulesTotalled(t: RuleTotalsMap, env: Env, rows: seq<Row>, ids: set<string>)
    requires RuleTotalsAmong(t, env, rows, ids)
    requires forall i :: 0 <= i < |rows| ==> rows[i].identity in ids
    ensures t == RuleTotals(env, rows)
  {
    forall k: RuleDay
      ensures k in t <==> k in RuleDays(env, rows)
      ensures k in t ==> t[k] == (RowsWith(rows, k.0, FiredRow(env, rows, k.1)),
                                  IdentitiesWith(rows, k.0, FiredRow(env, rows, k.1)))
    {
      RuleTotalExact(t, env, rows, ids, k);
    }
    RuleTotalsAre(t, env, rows);
  }

  // ----- one identity's part

  method AddIdentityDays(t: DayTotals, days: map<int, IdentityDay>, k: Counter,
                         ghost env: Env, ghost rows: seq<Row>, ghost ids: set<string>, ghost id: string)
      returns (u: DayTotals)
    requires DaysDone(env, days, rows, id) && days.Keys <= t.Keys && id !in ids
    requires TotalsAmong(t, rows, ids, CountedRow(k, env, rows))
    ensures u.Keys == t.Keys && TotalsAmong(u, rows, ids + {id}, CountedRow(k, env, rows))
  {
    u := AddDays(t, days, k);
    forall d | d in u {
      OneMoreTotalled(t, u, env, days, rows, ids, id, k, d);
    }
  }

  method AddIdentityRules(t: RuleTotalsMap, days: map<int, IdentityDay>,
                          ghost env: Env, ghost rows: seq<Row>, ghost ids: set<string>, ghost id: string)
      returns (u: RuleTotalsMap)
    requires DaysDone(env, days, rows, id) && id !in ids && RuleTotalsAmong(t, env, rows, ids)
    ensures RuleTotalsAmong(u, env, rows, ids + {id})
  {
    u := AddAllRules(t, days);
    OneMoreRuleTotals(t, u, env, days, rows, ids, id);
  }

  // ----- presence

  ghost predicate PresentAmong(t: map<int, nat>, rows: seq<Row>, ids: set<string>) {
    forall d :: d in t ==> t[d] == IdentitiesAmong(rows, ids, d, Any())
  }

  lemma {:induction false} NobodyPresent(t: map<int, nat>, rows: seq<Row>)
    requires forall d :: d in t ==> t[d] == 0
    ensures PresentAmong(t, rows, {})
  {
    forall d | d in t {
      AmongNone(rows, DatedWith(d, Any()));
    }
  }

  lemma {:induction false} EverybodyPresent(t: map<int, nat>, rows: seq<Row>, ids: set<string>, d: int)
    requires PresentAmong(t, rows, ids) && d in t
    requires forall i :: 0 <= i < |rows| ==> rows[i].identity in ids
    ensures t[d] == |Values(rows, Dated(d), IdentityOfRow)|
  {
    AmongAll(rows, ids, DatedWith(d, Any()));
    assert Values(rows, DatedWith(d, Any()), IdentityOfRow) == Values(rows, Dated(d), IdentityOfRow);
  }

  lemma {:induction false} OneMorePresent(rows: seq<Row>, days: map<int, IdentityDay>, ids: set<string>, id: string, d: int)
    requires DatesExact(days, rows, id) && id !in ids
    ensures IdentitiesAmong(rows, ids + {id}, d, Any())
         == IdentitiesAmong(rows, ids, d, Any()) + if d in days then 1 else 0
  {
    IdentitiesOfOneMore(rows, ids, id, d, Any());
    AnyOwned(rows, id);
    var s := Where(rows, StreamState.OnDay(id, d));
    assert |s| == 0 <==> s == {};
  }

  method AddPresence(t: map<int, nat>, days: map<int, IdentityDay>) returns (u: map<int, nat>)
    requires days.Keys <= t.Keys
    ensures u.Keys == t.Keys && forall d :: d in t ==> u[d] == t[d] + if d in days then 1 else 0
  {
    u := t;
    var todo := days.Keys;
    while todo != {}
      invariant todo <= days.Keys && u.Keys == t.Keys
      invariant forall d :: d in t ==> u[d] == t[d] + if d in days && d !in todo then 1 else 0
      decreases todo
    {
      ghost var some := MemberOf(todo);
      var d :| d in todo;
      u := u[d := u[d] + 1];
      todo := todo - {d};
    }
  }

  method AddIdentityPresence(t: map<int, nat>, days: map<int, IdentityDay>,
                             ghost rows: seq<Row>, ghost ids: set<string>, ghost id: string)
      returns (u: map<int, nat>)
    requires DatesExact(days, rows, id) && days.Keys <= t.Keys && id !in ids && PresentAmong(t, rows, ids)
    ensures u.Keys == t.Keys && PresentAmong(u, rows, ids + {id})
  {
    u := AddPresence(t, days);
    forall d | d in u {
      OneMorePresent(rows, days, ids, id, d);
    }
  }

  lemma {:induction false} Remaining<T>(all: set<T>, todo: set<T>, x: T)
    requires x in todo && todo <= all
    ensures all - (todo - {x}) == all - todo + {x}
  {
  }
}
