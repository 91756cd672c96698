/** What the published listing of rule counts says, entry by entry (`src/run/streaming.py:305-317`, `src/rules/engine.py:222-258`). */
module RuleTables {
  import opened Text
  import opened Normalize
  import opened Rules
  import opened RowSets
  import opened Analysis

  /** The number in a rule's name. */
  function RuleNumber(r: RuleId): nat {
    match r
    case R1 => 1 case R2 => 2 case R3 => 3 case R4 => 4 case R5 => 5
    case R6 => 6 case R7 => 7 case R8 => 8 case R9 => 9 case R10 => 10
  }

  /** Some row of the date fires the rule. */
  ghost predicate Fired(env: Env, rows: seq<Row>, d: int, r: RuleId) {
    exists i :: 0 <= i < |rows| && rows[i].date == d && Fires(env, rows, rows[i], r).Some?
  }

  /** The entry counts the rows of its date that fire its rule, and the identities of those rows. */
  ghost predicate Counts(env: Env, rows: seq<Row>, e: RuleBucketCount) {
    && e.matchCount == |Where(rows, DatedWith(e.date, FiredRow(env, rows, e.rule)))|
    && e.distinctCount == |Values(rows, DatedWith(e.date, FiredRow(env, rows, e.rule)), IdentityOfRow)|
  }

  ghost predicate HasEntry(table: seq<RuleBucketCount>, d: int, r: RuleId) {
    exists k :: 0 <= k < |table| && table[k].date == d && table[k].rule == r
  }

  /** By position of the date, then by rule number. */
  ghost predicate Precedes(dates: seq<int>, e: RuleBucketCount, f: RuleBucketCount) {
    exists a, b :: 0 <= a <= b < |dates| && dates[a] == e.date && dates[b] == f.date
      && (a == b ==> RuleNumber(e.rule) < RuleNumber(f.rule))
  }

  /** One entry for each date asked for and each rule that fired on it, with its two counts, in order. */
  ghost predicate IsRuleTable(env: Env, rows: seq<Row>, dates: seq<int>, table: seq<RuleBucketCount>) {
    && (forall k :: 0 <= k < |table| ==>
          Counts(env, rows, table[k]) && table[k].date in dates && Fired(env, rows, table[k].date, table[k].rule))
    && (forall d, r :: d in dates && Fired(env, rows, d, r) ==> HasEntry(table, d, r))
    && (forall k, l :: 0 <= k < l < |table| ==> Precedes(dates, table[k], table[l]))
  }

  /** On distinct dates there is exactly one entry for a date and a rule, and none is out of order. */
  lemma {:induction false} OneEntryEach(env: Env, rows: seq<Row>, dates: seq<int>, table: seq<RuleBucketCount>, k: nat, l: nat)
    requires IsRuleTable(env, rows, dates, table) && k < l < |table|
    requires forall a, b :: 0 <= a < b < |dates| ==> dates[a] < dates[b]
    ensures table[k].date < table[l].date || (table[k].date == table[l].date && RuleNumber(table[k].rule) < RuleNumber(table[l].rule))
  {
    assert Precedes(dates, table[k], table[l]);
  }

  // ----- the listing is such a table

  /** The entries of one date, for the first rules. */
  ghost predicate IsDay(env: Env, rows: seq<Row>, date: int, rules: seq<RuleId>, day: seq<RuleBucketCount>) {
    && (forall k :: 0 <= k < |day| ==>
          Counts(env, rows, day[k]) && day[k].date == date && day[k].rule in rules && Fired(env, rows, date, day[k].rule))
    && (forall r :: r in rules && Fired(env, rows, date, r) ==> HasEntry(day, date, r))
    && (forall k, l :: 0 <= k < l < |day| ==> RuleNumber(day[k].rule) < RuleNumber(day[l].rule))
  }

  predicate ByNumber(rules: seq<RuleId>) {
    forall i, j :: 0 <= i < j < |rules| ==> RuleNumber(rules[i]) < RuleNumber(rules[j])
  }

  lemma {:induction false} TotalsSay(env: Env, rows: seq<Row>, d: int, r: RuleId)
    ensures (d, r) in RuleTotals(env, rows) <==> Fired(env, rows, d, r)
    ensures (d, r) in RuleTotals(env, rows) ==>
      RuleTotals(env, rows)[(d, r)].0 == |Where(rows, DatedWith(d, FiredRow(env, rows, r)))|
      && RuleTotals(env, rows)[(d, r)].1 == |Values(rows, DatedWith(d, FiredRow(env, rows, r)), IdentityOfRow)|
  {
    if Fired(env, rows, d, r) {
      var i :| 0 <= i < |rows| && rows[i].date == d && Fires(env, rows, rows[i], r).Some?;
      assert (rows[i].date, r) in RuleDays(env, rows);
    }
  }

  lemma {:induction false} EntryAppended(day: seq<RuleBucketCount>, e: RuleBucketCount, d: int, r: RuleId)
    ensures HasEntry(day + [e], d, r) <==> HasEntry(day, d, r) || (e.date == d && e.rule == r)
  {
    var more := day + [e];
    if k :| 0 <= k < |day| && day[k].date == d && day[k].rule == r {
      assert more[k] == day[k];
    }
    if e.date == d && e.rule == r {
      assert more[|day|] == e;
    }
  }

  lemma {:induction false} DayIsListed(env: Env, rows: seq<Row>, date: int, rules: seq<RuleId>)
    requires ByNumber(rules)
    ensures IsDay(env, rows, date, rules, TabulateDay(date, rules, RuleTotals(env, rows)))
  {
    if rules != [] {
      var n := |rules| - 1;
      var before := TabulateDay(date, rules[..n], RuleTotals(env, rows));
      DayIsListed(env, rows, date, rules[..n]);
      TotalsSay(env, rows, date, rules[n]);
      assert rules == rules[..n] + [rules[n]];
      if Fired(env, rows, date, rules[n]) {
        var k := (date, rules[n]);
        var e := RuleBucketCount(date, rules[n], RuleTotals(env, rows)[k].0, RuleTotals(env, rows)[k].1);
        forall r ensures HasEntry(before + [e], date, r) <==> HasEntry(before, date, r) || r == rules[n] {
          EntryAppended(before, e, date, r);
        }
        forall l | 0 <= l < |before| ensures RuleNumber(before[l].rule) < RuleNumber(rules[n]) {
          assert before[l].rule in rules[..n];
        }
      }
    }
  }

  lemma {:induction false} EntryJoined(a: seq<RuleBucketCount>, b: seq<RuleBucketCount>, d: int, r: RuleId)
    ensures HasEntry(a + b, d, r) <==> HasEntry(a, d, r) || HasEntry(b, d, r)
  {
    if k :| 0 <= k < |a| && a[k].date == d && a[k].rule == r {
      assert (a + b)[k] == a[k];
    }
    if k :| 0 <= k < |b| && b[k].date == d && b[k].rule == r {
      assert (a + b)[|a| + k] == b[k];
    }
  }

  lemma {:induction false} StillPrecedes(dates: seq<int>, d: int, e: RuleBucketCount, f: RuleBucketCount)
    requires Precedes(dates, e, f)
    ensures Precedes(dates + [d], e, f)
  {
    var a, b :| 0 <= a <= b < |dates| && dates[a] == e.date && dates[b] == f.date && (a == b ==> RuleNumber(e.rule) < RuleNumber(f.rule));
    var more := dates + [d];
    assert more[a] == e.date && more[b] == f.date;
  }

  lemma {:induction false} LastPrecedes(dates: seq<int>, d: int, e: RuleBucketCount, f: RuleBucketCount)
    requires f.date == d && (e.date in dates || (e.date == d && RuleNumber(e.rule) < RuleNumber(f.rule)))
    ensures Precedes(dates + [d], e, f)
  {
    var more := dates + [d];
    assert more[|dates|] == d;
    if e.date in dates {
      var a :| 0 <= a < |dates| && dates[a] == e.date;
      assert more[a] == e.date;
    }
  }

  /** A day put after the table of the days before it. */
  lemma {:induction false} DayAdded(env: Env, rows: seq<Row>, dates: seq<int>, d: int, rules: seq<RuleId>,
                                    table: seq<RuleBucketCount>, day: seq<RuleBucketCount>)
    requires IsRuleTable(env, rows, dates, table) && IsDay(env, rows, d, rules, day) && forall r: RuleId :: r in rules
    ensures IsRuleTable(env, rows, dates + [d], table + day)
  {
    var more, all := dates + [d], table + day;
    forall k, l | 0 <= k < l < |all| ensures Precedes(more, all[k], all[l]) {
      if l < |table| {
        StillPrecedes(dates, d, table[k], table[l]);
      } else {
        LastPrecedes(dates, d, all[k], all[l]);
      }
    }
    forall e: int, r | e in more && Fired(env, rows, e, r) ensures HasEntry(all, e, r) {
      EntryJoined(table, day, e, r);
    }
  }

  lemma {:induction false} RulesListed()
    ensures ByNumber(ALL_RULE_IDS) && forall r: RuleId :: r in ALL_RULE_IDS
  {
    forall r: RuleId ensures r in ALL_RULE_IDS {
      assert ALL_RULE_IDS[RuleNumber(r) - 1] == r;
    }
  }

  /** The listing of the totals is the table. */
  lemma {:induction false} ListingIsTable(env: Env, rows: seq<Row>, dates: seq<int>)
    ensures IsRuleTable(env, rows, dates, Tabulate(dates, ALL_RULE_IDS, RuleTotals(env, rows)))
  {
    if dates != [] {
      var n := |dates| - 1;
      ListingIsTable(env, rows, dates[..n]);
      RulesListed();
      DayIsListed(env, rows, dates[n], ALL_RULE_IDS);
      DayAdded(env, rows, dates[..n], dates[n], ALL_RULE_IDS,
               Tabulate(dates[..n], ALL_RULE_IDS, RuleTotals(env, rows)), TabulateDay(dates[n], ALL_RULE_IDS, RuleTotals(env, rows)));
      assert dates == dates[..n] + [dates[n]];
    }
  }
}
