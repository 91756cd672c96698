/** Daily volume and diagnostic counts of one schema (`src/domain/metrics.py`). */
module Metrics {
  import opened Text
  import opened Normalize
  import opened RowSets
  import opened Window

  predicate HasNodeName(row: Row) {
    row.nodeName.Some? && !IsBlank(row.nodeName.value)
  }

  type Scope = (string, string)
  type NodeScope = (string, string, string)

  function ScopeOf(row: Row): Scope {
    (row.application, OrEmpty(row.component))
  }

  function NodeOf(row: Row): NodeScope {
    (row.application, OrEmpty(row.component), OrEmpty(row.nodeName))
  }

  datatype DailyVolume = DailyVolume(
    bucket: DailyBucket,
    alerts: nat,
    distinctAlerts: nat,
    nodeNameNumerator: nat,
    nodeNameDenominator: nat,
    keyInflationNumerator: nat,
    keyInflationDenominator: nat)
  {
    /** Rows per covered hour; a bucket of a run window covers some time. */
    function AlertsPerHour(): real
      requires bucket.start < bucket.end
    {
      alerts as real / bucket.CoveredHours()
    }
  }

  // ----- what the figures are

  function Dated(d: int): Row -> bool {
    (row: Row) => row.date == d
  }

  /** Rows of a date that name a node. */
  function DatedNamed(d: int): Row -> bool {
    (row: Row) => row.date == d && HasNodeName(row)
  }

  ghost function VolumeOf(rows: seq<Row>, b: DailyBucket): DailyVolume {
    var all, named := Dated(b.date), DatedNamed(b.date);
    var keys := |Values(rows, all, IdentityOfRow)|;
    DailyVolume(b, |Where(rows, all)|, keys, |Values(rows, named, NodeOf)|, |Values(rows, named, ScopeOf)|,
                keys, |Values(rows, all, ScopeOf)|)
  }

  ghost predicate IsDailyVolume(daily: seq<DailyVolume>, rows: seq<Row>, buckets: seq<DailyBucket>) {
    |daily| == |buckets| && forall k :: 0 <= k < |buckets| ==> daily[k] == VolumeOf(rows, buckets[k])
  }

  /** The name is there and has a character that is not blank. */
  ghost predicate NamesNode(row: Row) {
    row.nodeName.Some? && exists i :: 0 <= i < |row.nodeName.value| && !IsSpace(row.nodeName.value[i])
  }

  /** Each figure, spelled out; a missing component or node name counts as empty text. */
  lemma {:induction false} VolumeMeans(rows: seq<Row>, b: DailyBucket)
    ensures var v := VolumeOf(rows, b);
      && v.bucket == b
      && v.alerts == |set i | 0 <= i < |rows| && rows[i].date == b.date|
      && v.distinctAlerts == v.keyInflationNumerator == |set i | 0 <= i < |rows| && rows[i].date == b.date :: rows[i].identity|
      && v.keyInflationDenominator ==
         |set i | 0 <= i < |rows| && rows[i].date == b.date :: (rows[i].application, Filled(rows[i].component))|
      && v.nodeNameDenominator ==
         |set i | 0 <= i < |rows| && rows[i].date == b.date && NamesNode(rows[i]) :: (rows[i].application, Filled(rows[i].component))|
      && v.nodeNameNumerator ==
         |set i | 0 <= i < |rows| && rows[i].date == b.date && NamesNode(rows[i])
            :: (rows[i].application, Filled(rows[i].component), Filled(rows[i].nodeName))|
  {
    var all, named := Dated(b.date), DatedNamed(b.date);
    assert Where(rows, all) == set i | 0 <= i < |rows| && rows[i].date == b.date;
    assert Values(rows, all, IdentityOfRow) == set i | 0 <= i < |rows| && rows[i].date == b.date :: rows[i].identity;
    assert Values(rows, all, ScopeOf)
      == set i | 0 <= i < |rows| && rows[i].date == b.date :: (rows[i].application, Filled(rows[i].component));
    assert Values(rows, named, ScopeOf)
      == set i | 0 <= i < |rows| && rows[i].date == b.date && NamesNode(rows[i]) :: (rows[i].application, Filled(rows[i].component));
    assert Values(rows, named, NodeOf)
      == set i | 0 <= i < |rows| && rows[i].date == b.date && NamesNode(rows[i])
           :: (rows[i].application, Filled(rows[i].component), Filled(rows[i].nodeName));
  }

  ghost function Filled(s: Option<string>): string {
    if s.Some? then s.value else ""
  }

  // ----- the batch computation, on string keys

  function ScopeKey(row: Row): string {
    TupleKey([Some(row.application), row.component])
  }

  function NodeKey(row: Row): string {
    TupleKey([Some(row.application), row.component, row.nodeName])
  }

  lemma {:induction false} ScopeKeyMirrors(r: Row, s: Row)
    ensures ScopeKey(r) == ScopeKey(s) <==> ScopeOf(r) == ScopeOf(s)
  {
    var p, q := [Some(r.application), r.component], [Some(s.application), s.component];
    TupleKeyInjective(p, q);
    assert p[0] == Some(r.application) && q[0] == Some(s.application) && p[1] == r.component && q[1] == s.component;
  }

  lemma {:induction false} NodeKeyMirrors(r: Row, s: Row)
    ensures NodeKey(r) == NodeKey(s) <==> NodeOf(r) == NodeOf(s)
  {
    var p := [Some(r.application), r.component, r.nodeName];
    var q := [Some(s.application), s.component, s.nodeName];
    TupleKeyInjective(p, q);
    assert p[0] == Some(r.application) && p[1] == r.component && p[2] == r.nodeName;
    assert q[0] == Some(s.application) && q[1] == s.component && q[2] == s.nodeName;
  }

  /** Counting length-prefixed string keys counts tuples, on any rows. */
  lemma {:induction false} ScopeKeysCountScopes(rows: seq<Row>, p: Row -> bool)
    ensures |Values(rows, p, ScopeKey)| == |Values(rows, p, ScopeOf)|
  {
    forall r, s ensures ScopeKey(r) == ScopeKey(s) <==> ScopeOf(r) == ScopeOf(s) {
      ScopeKeyMirrors(r, s);
    }
    EquallyMany(rows, p, ScopeKey, ScopeOf);
  }

  lemma {:induction false} NodeKeysCountNodes(rows: seq<Row>, p: Row -> bool)
    ensures |Values(rows, p, NodeKey)| == |Values(rows, p, NodeOf)|
  {
    forall r, s ensures NodeKey(r) == NodeKey(s) <==> NodeOf(r) == NodeOf(s) {
      NodeKeyMirrors(r, s);
    }
    EquallyMany(rows, p, NodeKey, NodeOf);
  }

  /** Rows of one date, in order. */
  function OnDate(rows: seq<Row>, d: int): seq<Row> {
    if rows == [] then []
    else if rows[|rows| - 1].date == d then OnDate(rows[..|rows| - 1], d) + [rows[|rows| - 1]]
    else OnDate(rows[..|rows| - 1], d)
  }

  lemma {:induction false} OnDateKeepsRows(rows: seq<Row>, d: int)
    ensures |OnDate(rows, d)| == |Where(rows, Dated(d))|
    ensures forall r :: r in OnDate(rows, d) <==> r in rows && r.date == d
  {
    if rows != [] {
      var n := |rows| - 1;
      OnDateKeepsRows(rows[..n], d);
      assert rows == rows[..n] + [rows[n]];
      WhereAppend(rows[..n], rows[n], Dated(d));
    }
  }

  /** `compute_daily_volume`: None where a row's date has no bucket. */
  method ComputeDailyVolume(rows: seq<Row>, window: RunWindow) returns (daily: Option<seq<DailyVolume>>)
    ensures daily.Some? <==> forall i :: 0 <= i < |rows| ==> rows[i].date in window.Dates()
    ensures daily.Some? ==> IsDailyVolume(daily.value, rows, window.buckets)
  {
    var grouped := GroupByDate(rows, window.Dates());
    if grouped.None? {
      return None;
    }
    var out: seq<DailyVolume> := [];
    for k := 0 to |window.buckets|
      invariant |out| == k && forall j :: 0 <= j < k ==> out[j] == VolumeOf(rows, window.buckets[j])
    {
      assert window.buckets[k].date == window.Dates()[k];
      var v := VolumeOfDay(window.buckets[k], grouped.value[window.buckets[k].date], rows);
      out := out + [v];
    }
    return Some(out);
  }

  method GroupByDate(rows: seq<Row>, dates: seq<int>) returns (grouped: Option<map<int, seq<Row>>>)
    ensures grouped.Some? <==> forall i :: 0 <= i < |rows| ==> rows[i].date in dates
    ensures grouped.Some? ==> forall d :: d in dates ==> d in grouped.value && grouped.value[d] == OnDate(rows, d)
  {
    var byDate: map<int, seq<Row>> := map d | d in dates :: [];
    for i := 0 to |rows|
      invariant forall d :: d in byDate <==> d in dates
      invariant forall d :: d in byDate ==> byDate[d] == OnDate(rows[..i], d)
      invariant forall j :: 0 <= j < i ==> rows[j].date in dates
    {
      var row := rows[i];
      if row.date !in byDate {
        return None;
      }
      assert rows[..i + 1][..i] == rows[..i];
      byDate := byDate[row.date := byDate[row.date] + [row]];
    }
    assert rows[..|rows|] == rows;
    return Some(byDate);
  }

  /** The string keys a day's loop collects. */
  datatype DayKeys = DayKeys(identities: set<string>, scopes: set<string>, nodes: set<string>, nodeScopes: set<string>)

  method CollectKeys(dayRows: seq<Row>, ghost d: int) returns (k: DayKeys)
    requires forall i :: 0 <= i < |dayRows| ==> dayRows[i].date == d
    ensures KeysOf(dayRows, d, k)
  {
    k := DayKeys({}, {}, {}, {});
    for i := 0 to |dayRows|
      invariant KeysOf(dayRows[..i], d, k)
    {
      var row := dayRows[i];
      var scope := ScopeKey(row);
      ghost var before := k;
      k := k.(identities := k.identities + {row.identity}, scopes := k.scopes + {scope});
      if HasNodeName(row) {
        k := k.(nodes := k.nodes + {NodeKey(row)}, nodeScopes := k.nodeScopes + {scope});
      }
      assert dayRows[..i + 1] == dayRows[..i] + [row];
      KeysStep(dayRows[..i], row, d, before);
    }
    assert dayRows[..|dayRows|] == dayRows;
  }

  ghost predicate KeysOf(rows: seq<Row>, d: int, k: DayKeys) {
    && k.identities == Values(rows, Dated(d), IdentityOfRow)
    && k.scopes == Values(rows, Dated(d), ScopeKey)
    && k.nodes == Values(rows, DatedNamed(d), NodeKey)
    && k.nodeScopes == Values(rows, DatedNamed(d), ScopeKey)
  }

  lemma {:induction false} KeysStep(rows: seq<Row>, row: Row, d: int, k: DayKeys)
    requires KeysOf(rows, d, k) && row.date == d
    ensures KeysOf(rows + [row], d,
              DayKeys(k.identities + {row.identity}, k.scopes + {ScopeKey(row)},
                      if HasNodeName(row) then k.nodes + {NodeKey(row)} else k.nodes,
                      if HasNodeName(row) then k.nodeScopes + {ScopeKey(row)} else k.nodeScopes))
  {
    ValuesAppend(rows, row, Dated(d), IdentityOfRow);
    ValuesAppend(rows, row, Dated(d), ScopeKey);
    ValuesAppend(rows, row, DatedNamed(d), NodeKey);
    ValuesAppend(rows, row, DatedNamed(d), ScopeKey);
  }

  method VolumeOfDay(bucket: DailyBucket, dayRows: seq<Row>, ghost rows: seq<Row>) returns (v: DailyVolume)
    requires dayRows == OnDate(rows, bucket.date)
    ensures v == VolumeOf(rows, bucket)
  {
    OnDateKeepsRows(rows, bucket.date);
    assert forall i :: 0 <= i < |dayRows| ==> dayRows[i] in dayRows;
    var k := CollectKeys(dayRows, bucket.date);
    KeyFigures(rows, bucket.date, k);
    return DailyVolume(bucket, |dayRows|, |k.identities|, |k.nodes|, |k.nodeScopes|, |k.identities|, |k.scopes|);
  }

  lemma {:induction false} KeyFigures(rows: seq<Row>, d: int, k: DayKeys)
    requires KeysOf(OnDate(rows, d), d, k)
    ensures |k.identities| == |Values(rows, Dated(d), IdentityOfRow)|
    ensures |k.scopes| == |Values(rows, Dated(d), ScopeOf)|
    ensures |k.nodes| == |Values(rows, DatedNamed(d), NodeOf)|
    ensures |k.nodeScopes| == |Values(rows, DatedNamed(d), ScopeOf)|
  {
    var own := OnDate(rows, d);
    OnDateKeepsRows(rows, d);
    ValuesOfSame(own, rows, Dated(d), IdentityOfRow);
    ValuesOfSame(own, rows, Dated(d), ScopeKey);
    ValuesOfSame(own, rows, DatedNamed(d), NodeKey);
    ValuesOfSame(own, rows, DatedNamed(d), ScopeKey);
    ScopeKeysCountScopes(rows, Dated(d));
    NodeKeysCountNodes(rows, DatedNamed(d));
    ScopeKeysCountScopes(rows, DatedNamed(d));
  }
}
