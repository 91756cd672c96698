/** The batch evidence scan: one entry per rule, in the order the rules are first met (`src/run/orchestrator.py:459-482`). */
module FindingRow {
  import opened Text
  import opened Normalize
  import opened RowSets
  import opened Rules
  import opened Suppression
  import opened Analysis
  import opened StreamState
  import opened Finishing
  import opened Engine
  import opened Batch

  /** What fires on a row, given all the rows. */
  ghost function AllFinder(env: Env, rows: seq<Row>): Finder {
    (r: RuleId, row: Row) => Fires(env, rows, row, r)
  }

  /** The evidence dictionary: its entries, its insertion order, and the keys that explain that order. */
  datatype Evidences = Evidences(of: map<RuleId, Sample>, listed: seq<RuleId>, ghost keys: map<RuleId, (nat, nat)>)

  ghost function SamplesIn(e: Evidences): Samples {
    StreamState.Samples(e.of, e.keys)
  }

  ghost predicate Below(s: Samples, bound: (nat, nat)) {
    forall r :: r in s.order ==> EvidenceKeyLess(s.order[r], bound)
  }

  /** Rules are listed as they were first met, all of them before `bound`. */
  ghost predicate Ordered(e: Evidences, bound: (nat, nat)) {
    && e.of.Keys == e.keys.Keys
    && InOrder(SamplesIn(e), e.listed)
    && Below(SamplesIn(e), bound)
  }

  lemma {:induction false} Later(e: Evidences, p: (nat, nat), q: (nat, nat))
    requires Ordered(e, p) && (p == q || EvidenceKeyLess(p, q))
    ensures Ordered(e, q)
  {
  }

  /** A rule met before keeps its place. */
  lemma {:induction false} MeetKnown(e: Evidences, r: RuleId, sample: Sample, p: (nat, nat), q: (nat, nat))
    requires Ordered(e, p) && r in e.of && EvidenceKeyLess(p, q)
    ensures Ordered(e.(of := e.of[r := sample]), q)
  {
    var d := e.(of := e.of[r := sample]);
    assert InOrder(SamplesIn(e), e.listed);
    assert InOrder(SamplesIn(d), d.listed);
  }

  /** A rule not met before comes last. */
  lemma {:induction false} MeetNew(e: Evidences, r: RuleId, sample: Sample, p: (nat, nat), q: (nat, nat))
    requires Ordered(e, p) && r !in e.of && EvidenceKeyLess(p, q)
    ensures Ordered(Evidences(e.of[r := sample], e.listed + [r], e.keys[r := p]), q)
  {
    var d := Evidences(e.of[r := sample], e.listed + [r], e.keys[r := p]);
    assert InOrder(SamplesIn(d), d.listed);
  }

  /** One finding met: its rule's entry grows, or is appended. */
  method Meet(e: Evidences, f: Finding, ghost ordinal: nat) returns (d: Evidences)
    requires Ordered(e, (ordinal, EvidenceOrder(f.rule)))
    ensures Ordered(d, (ordinal, EvidenceOrder(f.rule) + 1))
    ensures SamplesIn(d) == Record(SamplesIn(e), f, ordinal, 1)
  {
    ghost var p, q := (ordinal, EvidenceOrder(f.rule)), (ordinal, EvidenceOrder(f.rule) + 1);
    if f.rule in e.of {
      var sample := e.of[f.rule].(matchedRows := e.of[f.rule].matchedRows + 1);
      MeetKnown(e, f.rule, sample, p, q);
      d := e.(of := e.of[f.rule := sample]);
    } else {
      var sample := Sample(1, f.evidence);
      MeetNew(e, f.rule, sample, p, q);
      d := Evidences(e.of[f.rule := sample], e.listed + [f.rule], e.keys[f.rule := (ordinal, EvidenceOrder(f.rule))]);
    }
  }

  /** One row's findings met, in evidence order. */
  method MeetRow(e: Evidences, fs: seq<Finding>, ghost ordinal: nat) returns (d: Evidences)
    requires Ordered(e, (ordinal, 0)) && InEvidenceOrder(fs)
    ensures Ordered(d, (ordinal + 1, 0))
    ensures SamplesIn(d) == RecordAll(SamplesIn(e), fs, ordinal)
  {
    d := e;
    ghost var bound: nat := 0;
    for j := 0 to |fs|
      invariant Ordered(d, (ordinal, bound)) && SamplesIn(d) == RecordAll(SamplesIn(e), fs[..j], ordinal)
      invariant j < |fs| ==> bound <= EvidenceOrder(fs[j].rule)
    {
      Later(d, (ordinal, bound), (ordinal, EvidenceOrder(fs[j].rule)));
      d := Meet(d, fs[j], ordinal);
      bound := EvidenceOrder(fs[j].rule) + 1;
      assert fs[..j + 1][..j] == fs[..j];
    }
    Later(d, (ordinal, bound), (ordinal + 1, 0));
    assert fs[..|fs|] == fs;
  }

  /** Rows of other identities change nothing. */
  lemma {:induction false} Skip(find: Finder, s: Samples, rows: seq<Row>, id: string, n: nat, k: nat)
    requires n <= k <= |rows| && SamplesFor(find, s, rows[..n], id)
    requires forall i :: n <= i < k ==> rows[i].identity != id
    ensures SamplesFor(find, s, rows[..k], id)
  {
    if n < k {
      Skip(find, s, rows, id, n, k - 1);
      assert rows[..k] == rows[..k - 1] + [rows[k - 1]];
      SamplesUntouched(find, s, rows[..k - 1], rows[k - 1], id);
    }
  }

  lemma {:induction false} NoSamples(find: Finder, id: string)
    ensures SamplesFor(find, StreamState.Samples(map[], map[]), [], id)
  {
    forall r ensures Where([], FoundBy(find, id, r)) == {} {}
  }

  lemma {:induction false} AllSampled(env: Env, s: Samples, rows: seq<Row>, id: string)
    requires SamplesFor(AllFinder(env, rows), s, rows, id)
    ensures SamplesDone(env, s, rows, id)
  {
    forall r ensures SampleDone(env, s, r, rows, id) {
      assert SampleMatches(AllFinder(env, rows), s, r, rows, Where(rows, FoundBy(AllFinder(env, rows), id, r)));
      assert FiredBy(env, rows, id, r) == Where(rows, FoundBy(AllFinder(env, rows), id, r));
    }
  }

  /** The scan has taken in the identity's rows below `n`. */
  ghost predicate Scanned(e: Evidences, env: Env, rows: seq<Row>, id: string, n: nat) {
    forall it: Evidences :: Look(it) && it == e ==>
      n <= |rows| && SamplesFor(AllFinder(env, rows), SamplesIn(it), rows[..n], id) && Ordered(it, (n, 0))
  }

  lemma {:induction false} ScanStart(env: Env, rows: seq<Row>, id: string)
    ensures Scanned(Evidences(map[], [], map[]), env, rows, id, 0)
  {
    NoSamples(AllFinder(env, rows), id);
    assert rows[..0] == [];
  }

  lemma {:induction false} ScanEnd(e: Evidences, env: Env, rows: seq<Row>, id: string, n: nat)
    requires Scanned(e, env, rows, id, n)
    requires var at := MineAt(rows, id); n == (if at == [] then 0 else at[|at| - 1] + 1)
    ensures SamplesDone(env, SamplesIn(e), rows, id) && InOrder(SamplesIn(e), e.listed)
  {
    assert Look(e);
    AfterMembers(rows, id, n);
    Skip(AllFinder(env, rows), SamplesIn(e), rows, id, n, |rows|);
    assert rows[..|rows|] == rows;
    AllSampled(env, SamplesIn(e), rows, id);
  }

  /** The scan over an identity's rows. */
  method Scan(items: seq<EvaluatedRow>, members: seq<nat>, ghost env: Env, ghost rows: seq<Row>, ghost id: string)
      returns (e: Evidences)
    requires Evaluated(env, rows, items) && members == MineAt(rows, id)
    ensures SamplesDone(env, SamplesIn(e), rows, id) && InOrder(SamplesIn(e), e.listed)
  {
    e := Evidences(map[], [], map[]);
    ghost var n := 0;
    ScanStart(env, rows, id);
    for m := 0 to |members|
      invariant n == (if m == 0 then 0 else members[m - 1] + 1)
      invariant Scanned(e, env, rows, id, n)
    {
      BetweenMembers(rows, id, m, n, members[m]);
      e := ScanRow(e, items, members[m], env, rows, id, n);
      n := members[m] + 1;
    }
    ScanEnd(e, env, rows, id, n);
  }

  method ScanRow(e: Evidences, items: seq<EvaluatedRow>, i: nat, ghost env: Env, ghost rows: seq<Row>, ghost id: string, ghost n: nat)
      returns (d: Evidences)
    requires Evaluated(env, rows, items) && n <= i < |rows| && rows[i].identity == id
    requires forall j :: n <= j < i ==> rows[j].identity != id
    requires Scanned(e, env, rows, id, n)
    ensures Scanned(d, env, rows, id, i + 1)
  {
    assert Look(e);
    Skip(AllFinder(env, rows), SamplesIn(e), rows, id, n, i);
    ItemFindings(env, rows, items, i);
    Later(e, (n, 0), (i, 0));
    SamplesGrow(AllFinder(env, rows), SamplesIn(e), rows[..i], rows[i], id, FindingsOf(items[i]));
    d := MeetRow(e, items[i].coreFindings + items[i].readinessFindings, i);
    assert rows[..i + 1] == rows[..i] + [rows[i]];
  }

  lemma {:induction false} BetweenMembers(rows: seq<Row>, id: string, m: nat, n: nat, i: nat)
    requires var at := MineAt(rows, id); m < |at| && i == at[m] && n == (if m == 0 then 0 else at[m - 1] + 1)
    ensures n <= i < |rows| && rows[i].identity == id
    ensures forall j :: n <= j < i ==> rows[j].identity != id
  {
    var at := MineAt(rows, id);
    MineByPosition(rows, id);
    assert i in at;
    assert forall l :: 0 <= l < |at| ==> at[l] < n || i <= at[l];
    assert forall j :: n <= j < i ==> j !in at;
  }

  lemma {:induction false} AfterMembers(rows: seq<Row>, id: string, n: nat)
    requires var at := MineAt(rows, id); n == (if at == [] then 0 else at[|at| - 1] + 1)
    ensures n <= |rows| && forall j :: n <= j < |rows| ==> rows[j].identity != id
  {
    var at := MineAt(rows, id);
    MineByPosition(rows, id);
    assert forall l :: 0 <= l < |at| ==> at[l] < n;
    assert forall j :: n <= j < |rows| ==> j !in at;
  }

  /** The batch branch of `_build_finding_row`. */
  method BuildFindingRow(x: EvaluatedIdentity, items: seq<EvaluatedRow>, unseenRows: Option<set<nat>>,
                         ghost env: Env, ghost rows: seq<Row>, ghost id: string)
      returns (report: Report)
    requires Evaluated(env, rows, items) && IdentityEvaluated(env, rows, id, x, CoreRulesOf(env, rows, id))
    requires unseenRows == if env.panels == [] then None else Some(set i | 0 <= i < |rows| && Unseen(rows, env.panels, rows[i]))
    ensures IsReport(env, rows, id, report)
  {
    MineByPosition(rows, id);
    assert forall i :: 0 <= i < |rows| ==> EvaluatedAt(env, rows, items[i], rows[i]);
    var firstSeen, lastSeen := Extent(x.members, items, rows, id);
    var e := Scan(items, x.members, env, rows, id);
    EvidenceInOrder(env, SamplesIn(e), e.listed, rows, id);
    var unseen := if unseenRows.None? then None else Some(exists m :: 0 <= m < |x.members| && x.members[m] in unseenRows.value);
    UnseenMember(env, rows, id);
    var evidence := Entries(e);
    report := Report(x.representative, |x.members|, firstSeen, lastSeen, x.coreRuleIds, x.readinessRuleIds, evidence,
                     x.facts.clearCount, x.facts.maxClearCycles24h, x.facts.maxEpisodeFiringRows, x.facts.openSince,
                     x.facts.pattern, unseen);
  }

  /** The dictionary's values, in insertion order. */
  function Entries(e: Evidences): (es: seq<Analysis.Summary>)
    requires forall r :: r in e.listed ==> r in e.of
    ensures es == EvidenceIn(SamplesIn(e), e.listed)
  {
    seq(|e.listed|, k requires 0 <= k < |e.listed| =>
      Analysis.Summary(e.listed[k], e.of[e.listed[k]].matchedRows, e.of[e.listed[k]].evidence))
  }

  /** The earliest and the latest timestamp of a group. */
  method Extent(members: seq<nat>, items: seq<EvaluatedRow>, ghost rows: seq<Row>, ghost id: string)
      returns (first: int, last: int)
    requires members == MineAt(rows, id) && Mine(rows, id) != [] && |items| == |rows|
    requires forall i :: 0 <= i < |rows| ==> items[i].row == rows[i]
    ensures forall i :: 0 <= i < |Mine(rows, id)| ==> first <= Mine(rows, id)[i].at <= last
    ensures exists i :: 0 <= i < |Mine(rows, id)| && Mine(rows, id)[i].at == first
    ensures exists i :: 0 <= i < |Mine(rows, id)| && Mine(rows, id)[i].at == last
  {
    MineByPosition(rows, id);
    ghost var mine := Mine(rows, id);
    first, last := items[members[0]].row.at, items[members[0]].row.at;
    ghost var p: nat, q: nat := 0, 0;
    for m := 1 to |members|
      invariant forall i :: 0 <= i < m ==> first <= mine[i].at <= last
      invariant p < |mine| && q < |mine| && mine[p].at == first && mine[q].at == last
    {
      var at := items[members[m]].row.at;
      assert at == mine[m].at;
      if at < first {
        first, p := at, m;
      }
      if at > last {
        last, q := at, m;
      }
    }
  }

  lemma {:induction false} UnseenMember(env: Env, rows: seq<Row>, id: string)
    ensures var unseen := set i | 0 <= i < |rows| && Unseen(rows, env.panels, rows[i]);
      UnseenAnywhere(env, rows, id) <==> exists m :: 0 <= m < |MineAt(rows, id)| && MineAt(rows, id)[m] in unseen
  {
    var at := MineAt(rows, id);
    MineByPosition(rows, id);
    if UnseenAnywhere(env, rows, id) {
      var i :| i in Where(rows, OwnedWith(id, UnseenRow(env, rows)));
      assert i in at;
      var m :| 0 <= m < |at| && at[m] == i;
    }
    if m :| 0 <= m < |at| && at[m] < |rows| && Unseen(rows, env.panels, rows[at[m]]) {
      assert at[m] in at;
      assert at[m] in Where(rows, OwnedWith(id, UnseenRow(env, rows)));
    }
  }
}
