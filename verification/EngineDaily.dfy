/** The batch daily figures, counted row by row over the attached findings (`src/rules/engine.py:222-283`). */
module EngineDaily {
  import opened Text
  import opened Normalize
  import opened RowSets
  import opened Rules
  import opened Suppression
  import opened Analysis
  import RuleTables
  import opened Finishing
  import opened Engine

  ghost predicate Mentions(fs: seq<Finding>, r: RuleId) {
    exists i :: 0 <= i < |fs| && fs[i].rule == r
  }

  lemma {:induction false} ReportsMentions(fs: seq<Finding>, r: RuleId, e: Option<Evidence>)
    requires Reports(fs, r, e)
    ensures Mentions(fs, r) <==> e.Some?
  {
  }

  lemma {:induction false} MentionsNext(fs: seq<Finding>, j: nat, r: RuleId)
    requires InEvidenceOrder(fs) && j < |fs|
    ensures Mentions(fs[..j + 1], r) <==> Mentions(fs[..j], r) || fs[j].rule == r
    ensures !Mentions(fs[..j], fs[j].rule)
  {
    if Mentions(fs[..j], r) {
      var i :| 0 <= i < j && fs[..j][i].rule == r;
      assert fs[..j + 1][i].rule == r;
    }
    if fs[j].rule == r {
      assert fs[..j + 1][j].rule == r;
    }
  }

  /** The two dictionaries of `compute_daily_rule_counts`. */
  datatype Counts = Counts(rows: map<RuleDay, nat>, identities: map<RuleDay, set<string>>)

  function RowsAt(c: Counts, k: RuleDay): nat {
    if k in c.rows then c.rows[k] else 0
  }

  function IdentitiesAt(c: Counts, k: RuleDay): set<string> {
    if k in c.identities then c.identities[k] else {}
  }

  /** One more match under `k`. */
  function CountOne(c: Counts, k: RuleDay, id: string): Counts {
    Counts(c.rows[k := RowsAt(c, k) + 1], c.identities[k := IdentitiesAt(c, k) + {id}])
  }

  /** `d` is `c` with the row counted under `k`, or `c` itself there. */
  ghost predicate CountedUnder(c: Counts, d: Counts, k: RuleDay, id: string, counted: bool) {
    && RowsAt(d, k) == RowsAt(c, k) + (if counted then 1 else 0)
    && IdentitiesAt(d, k) == (if counted then IdentitiesAt(c, k) + {id} else IdentitiesAt(c, k))
    && (k in d.rows <==> k in c.rows || counted)
    && (k in d.identities <==> k in c.identities || counted)
  }

  ghost predicate RowCounted(c: Counts, d: Counts, date: int, id: string, fs: seq<Finding>) {
    forall k: RuleDay :: CountedUnder(c, d, k, id, k.0 == date && Mentions(fs, k.1))
  }

  lemma {:induction false} FindingCounted(c: Counts, d: Counts, date: int, id: string, fs: seq<Finding>, j: nat)
    requires InEvidenceOrder(fs) && j < |fs| && RowCounted(c, d, date, id, fs[..j])
    ensures RowCounted(c, CountOne(d, (date, fs[j].rule), id), date, id, fs[..j + 1])
  {
    var e := CountOne(d, (date, fs[j].rule), id);
    forall k: RuleDay ensures CountedUnder(c, e, k, id, k.0 == date && Mentions(fs[..j + 1], k.1)) {
      assert CountedUnder(c, d, k, id, k.0 == date && Mentions(fs[..j], k.1));
      MentionsNext(fs, j, k.1);
    }
  }

  method CountRow(c: Counts, item: EvaluatedRow) returns (d: Counts)
    requires InEvidenceOrder(FindingsOf(item))
    ensures RowCounted(c, d, item.row.date, item.row.identity, FindingsOf(item))
  {
    d := c;
    var fs := item.coreFindings + item.readinessFindings;
    for j := 0 to |fs|
      invariant RowCounted(c, d, item.row.date, item.row.identity, fs[..j])
    {
      FindingCounted(c, d, item.row.date, item.row.identity, fs, j);
      var key := (item.row.date, fs[j].rule);
      var n := if key in d.rows then d.rows[key] else 0;
      var ids := if key in d.identities then d.identities[key] else {};
      d := Counts(d.rows[key := n + 1], d.identities[key := ids + {item.row.identity}]);
    }
    assert fs[..|fs|] == fs;
  }

  /** The counts are those of the rows that satisfy `q` on the key's date. */
  ghost predicate CountsMatch(c: Counts, k: RuleDay, rows: seq<Row>, q: Row -> bool) {
    var p := DatedWith(k.0, q);
    && RowsAt(c, k) == |Where(rows, p)| && IdentitiesAt(c, k) == Values(rows, p, IdentityOfRow)
    && (k in c.rows <==> RowsAt(c, k) != 0) && (k in c.identities <==> k in c.rows)
  }

  lemma {:induction false} CountsStep(c: Counts, d: Counts, k: RuleDay, rows: seq<Row>, row: Row, q: Row -> bool)
    requires CountsMatch(c, k, rows, q) && CountedUnder(c, d, k, row.identity, k.0 == row.date && q(row))
    ensures CountsMatch(d, k, rows + [row], q)
  {
    WhereAppend(rows, row, DatedWith(k.0, q));
    ValuesAppend(rows, row, DatedWith(k.0, q), IdentityOfRow);
  }

  ghost predicate AllCountsMatch(c: Counts, env: Env, rows: seq<Row>, n: nat)
    requires n <= |rows|
  {
    forall k: RuleDay :: CountsMatch(c, k, rows[..n], FiredRow(env, rows, k.1))
  }

  lemma {:induction false} NothingCounted(env: Env, rows: seq<Row>)
    ensures AllCountsMatch(Counts(map[], map[]), env, rows, 0)
  {
    forall k: RuleDay ensures CountsMatch(Counts(map[], map[]), k, rows[..0], FiredRow(env, rows, k.1)) {
      assert Where(rows[..0], DatedWith(k.0, FiredRow(env, rows, k.1))) == {};
    }
  }

  lemma {:induction false} AllCountsStep(c: Counts, d: Counts, env: Env, rows: seq<Row>, items: seq<EvaluatedRow>, n: nat)
    requires Evaluated(env, rows, items) && n < |rows| && AllCountsMatch(c, env, rows, n)
    requires RowCounted(c, d, rows[n].date, rows[n].identity, FindingsOf(items[n]))
    ensures AllCountsMatch(d, env, rows, n + 1)
  {
    var row, fs := rows[n], FindingsOf(items[n]);
    ItemFindings(env, rows, items, n);
    assert rows[..n + 1] == rows[..n] + [row];
    forall k: RuleDay ensures CountsMatch(d, k, rows[..n + 1], FiredRow(env, rows, k.1)) {
      ReportsMentions(fs, k.1, Fires(env, rows, row, k.1));
      assert CountsMatch(c, k, rows[..n], FiredRow(env, rows, k.1));
      assert CountedUnder(c, d, k, row.identity, k.0 == row.date && Mentions(fs, k.1));
      CountsStep(c, d, k, rows[..n], row, FiredRow(env, rows, k.1));
    }
  }

  function TotalsOf(c: Counts): map<RuleDay, (nat, nat)> {
    map k | k in c.rows :: (c.rows[k], |IdentitiesAt(c, k)|)
  }

  lemma {:induction false} CountIsTotal(c: Counts, env: Env, rows: seq<Row>, k: RuleDay)
    requires AllCountsMatch(c, env, rows, |rows|)
    ensures k in c.rows <==> k in RuleDays(env, rows)
    ensures k in c.rows <==> k in c.identities
    ensures RowsAt(c, k) == RowsWith(rows, k.0, FiredRow(env, rows, k.1))
    ensures |IdentitiesAt(c, k)| == IdentitiesWith(rows, k.0, FiredRow(env, rows, k.1))
  {
    assert rows[..|rows|] == rows;
    assert CountsMatch(c, k, rows[..|rows|], FiredRow(env, rows, k.1));
    RuleDayHasRow(env, rows, k);
  }

  lemma {:induction false} TotalIsExact(c: Counts, env: Env, rows: seq<Row>, k: RuleDay)
    requires AllCountsMatch(c, env, rows, |rows|)
    ensures k in TotalsOf(c) <==> k in RuleDays(env, rows)
    ensures k in TotalsOf(c) ==> TotalsOf(c)[k] == (RowsWith(rows, k.0, FiredRow(env, rows, k.1)),
                                                    IdentitiesWith(rows, k.0, FiredRow(env, rows, k.1)))
  {
    CountIsTotal(c, env, rows, k);
  }

  lemma {:induction false} CountsAreTotals(c: Counts, env: Env, rows: seq<Row>)
    requires AllCountsMatch(c, env, rows, |rows|)
    ensures TotalsOf(c) == RuleTotals(env, rows)
  {
    forall k: RuleDay {
      TotalIsExact(c, env, rows, k);
    }
    RuleTotalsAre(TotalsOf(c), env, rows);
  }

  lemma {:induction false} SameKeys(c: Counts, env: Env, rows: seq<Row>)
    requires AllCountsMatch(c, env, rows, |rows|)
    ensures c.rows.Keys == c.identities.Keys
  {
    forall k: RuleDay {
      CountIsTotal(c, env, rows, k);
    }
  }

  /** `compute_daily_rule_counts`. */
  method ComputeDailyRuleCounts(items: seq<EvaluatedRow>, dates: seq<int>, ghost env: Env, ghost rows: seq<Row>)
      returns (table: seq<RuleBucketCount>)
    requires Evaluated(env, rows, items)
    ensures table == Tabulate(dates, ALL_RULE_IDS, RuleTotals(env, rows))
    ensures RuleTables.IsRuleTable(env, rows, dates, table)
  {
    var c := Counts(map[], map[]);
    NothingCounted(env, rows);
    for i := 0 to |items|
      invariant AllCountsMatch(c, env, rows, i)
    {
      ItemFindings(env, rows, items, i);
      var d := CountRow(c, items[i]);
      AllCountsStep(c, d, env, rows, items, i);
      c := d;
    }
    CountsAreTotals(c, env, rows);
    SameKeys(c, env, rows);
    RuleTables.ListingIsTable(env, rows, dates);
    table := Listing(c, dates, ALL_RULE_IDS);
  }

  method Listing(c: Counts, dates: seq<int>, rules: seq<RuleId>) returns (out: seq<RuleBucketCount>)
    requires c.rows.Keys == c.identities.Keys
    ensures out == Tabulate(dates, rules, TotalsOf(c))
  {
    out := [];
    for i := 0 to |dates|
      invariant out == Tabulate(dates[..i], rules, TotalsOf(c))
    {
      var day: seq<RuleBucketCount> := [];
      for j := 0 to |rules|
        invariant day == TabulateDay(dates[i], rules[..j], TotalsOf(c))
      {
        var key := (dates[i], rules[j]);
        assert rules[..j + 1][..j] == rules[..j];
        if key in c.rows {
          day := day + [RuleBucketCount(dates[i], rules[j], c.rows[key], |c.identities[key]|)];
        }
      }
      assert rules[..|rules|] == rules;
      assert dates[..i + 1][..i] == dates[..i];
      out := out + day;
    }
    assert dates[..|dates|] == dates;
  }

  /** `compute_daily_flagged`: rows and identities with a core finding, for each date asked for. */
  method ComputeDailyFlagged(items: seq<EvaluatedRow>, dates: seq<int>, ghost env: Env, ghost rows: seq<Row>)
      returns (t: map<int, (nat, nat)>)
    requires Evaluated(env, rows, items)
    requires forall i :: 0 <= i < |rows| ==> Mine(rows, rows[i].identity) != []
    ensures t.Keys == set d | d in dates
    ensures forall d :: d in t ==> t[d] == (RowsWith(rows, d, FlaggedRow(env, rows)),
                                            IdentitiesWith(rows, d, FlaggedRow(env, rows)))
  {
    var c := Flags(map d | d in dates :: 0, map d | d in dates :: {});
    ghost var q := FlaggedRow(env, rows);
    NoneFlagged(c, dates, q);
    for i := 0 to |items|
      invariant AllFlagged(c, dates, rows[..i], q)
    {
      FlaggedItem(c, dates, env, rows, items, i);
      if items[i].coreFindings != [] {
        c := CountFlagged(c, items[i].row);
      }
    }
    assert rows[..|rows|] == rows;
    t := map d | d in c.rows :: (c.rows[d], |c.identities[d]|);
  }

  method CountFlagged(c: Flags, row: Row) returns (d: Flags)
    requires c.rows.Keys == c.identities.Keys
    ensures d == FlagsWith(c, row)
  {
    d := c;
    if row.date in c.rows {
      d := Flags(c.rows[row.date := c.rows[row.date] + 1],
                 c.identities[row.date := c.identities[row.date] + {row.identity}]);
    }
  }

  lemma {:induction false} FlaggedItem(c: Flags, dates: seq<int>, env: Env, rows: seq<Row>, items: seq<EvaluatedRow>, i: nat)
    requires Evaluated(env, rows, items) && i < |rows| && Mine(rows, rows[i].identity) != []
    requires AllFlagged(c, dates, rows[..i], FlaggedRow(env, rows))
    ensures AllFlagged(if items[i].coreFindings != [] then FlagsWith(c, items[i].row) else c, dates, rows[..i + 1],
                       FlaggedRow(env, rows))
  {
    ItemFlagged(env, rows, items, i);
    FlaggedStep(c, dates, rows[..i], rows[i], FlaggedRow(env, rows));
    assert rows[..i + 1] == rows[..i] + [rows[i]];
  }

  /** The two dictionaries of `compute_daily_flagged`. */
  datatype Flags = Flags(rows: map<int, nat>, identities: map<int, set<string>>)

  ghost predicate FlaggedMatch(c: Flags, d: int, rows: seq<Row>, q: Row -> bool) {
    && d in c.rows && d in c.identities
    && c.rows[d] == |Where(rows, DatedWith(d, q))|
    && c.identities[d] == Values(rows, DatedWith(d, q), IdentityOfRow)
  }

  ghost predicate AllFlagged(c: Flags, dates: seq<int>, rows: seq<Row>, q: Row -> bool) {
    && c.rows.Keys == c.identities.Keys == (set d | d in dates)
    && forall d :: d in c.rows ==> FlaggedMatch(c, d, rows, q)
  }

  lemma {:induction false} NoneFlagged(c: Flags, dates: seq<int>, q: Row -> bool)
    requires c.rows.Keys == c.identities.Keys == set d | d in dates
    requires forall d :: d in c.rows ==> c.rows[d] == 0 && c.identities[d] == {}
    ensures AllFlagged(c, dates, [], q)
  {
    forall d | d in c.rows ensures FlaggedMatch(c, d, [], q) {
      assert Where([], DatedWith(d, q)) == {};
    }
  }

  /** A flagged row counted, if its date is asked for. */
  function FlagsWith(c: Flags, row: Row): Flags {
    if row.date in c.rows && row.date in c.identities then
      Flags(c.rows[row.date := c.rows[row.date] + 1], c.identities[row.date := c.identities[row.date] + {row.identity}])
    else c
  }

  lemma {:induction false} FlaggedStep(c: Flags, dates: seq<int>, rows: seq<Row>, row: Row, q: Row -> bool)
    requires AllFlagged(c, dates, rows, q)
    ensures AllFlagged(if q(row) then FlagsWith(c, row) else c, dates, rows + [row], q)
  {
    forall d | d in c.rows ensures FlaggedMatch(if q(row) then FlagsWith(c, row) else c, d, rows + [row], q) {
      FlaggedDate(c, d, rows, row, q);
    }
  }

  lemma {:induction false} FlaggedDate(c: Flags, d: int, rows: seq<Row>, row: Row, q: Row -> bool)
    requires FlaggedMatch(c, d, rows, q)
    ensures FlaggedMatch(if q(row) then FlagsWith(c, row) else c, d, rows + [row], q)
  {
    WhereAppend(rows, row, DatedWith(d, q));
    ValuesAppend(rows, row, DatedWith(d, q), IdentityOfRow);
  }
}
