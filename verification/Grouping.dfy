/** Request grouping and balanced partitioning (`src/llm/grouping.py`). */
module Grouping {
  import opened Text
  import opened Sorting
  import opened Hashing
  import opened Normalize

  const MAX_BATCH_SIZE: int := 200

  type Key = (string, string)

  datatype AlertGroup = AlertGroup(key: Key, alerts: seq<Row>)

  datatype Batch = Batch(
    batchId: string,
    group: Key,
    partitionIndex: nat,
    partitionCount: nat,
    alerts: seq<Row>,
    alertIds: seq<string>)

  // ----- grouping

  /** The rule URL where it is usable, else the application. */
  function KeyOf(row: Row): Key {
    match row.alertRuleUrl
    case Some(url) => if IsBlank(url) then ("application", row.application) else ("alert_rule_url", url)
    case None => ("application", row.application)
  }

  /** The alert carries a rule URL with something in it. */
  ghost predicate HasUrl(row: Row) {
    row.alertRuleUrl.Some? && exists i :: 0 <= i < |row.alertRuleUrl.value| && !IsSpace(row.alertRuleUrl.value[i])
  }

  /** The same rule URL, or none and the same application. */
  ghost predicate Alike(r: Row, s: Row) {
    if HasUrl(r) then HasUrl(s) && r.alertRuleUrl == s.alertRuleUrl else !HasUrl(s) && r.application == s.application
  }

  ghost predicate InGroup(row: Row, group: Key) {
    if HasUrl(row) then group == ("alert_rule_url", row.alertRuleUrl.value) else group == ("application", row.application)
  }

  lemma {:induction false} KeySaysGroup(row: Row, group: Key)
    ensures KeyOf(row) == group <==> InGroup(row, group)
  {
  }

  lemma {:induction false} AlikeMeansOneGroup(r: Row, s: Row, g: Key, h: Key)
    requires InGroup(r, g) && InGroup(s, h)
    ensures Alike(r, s) <==> g == h
  {
    assert "alert_rule_url"[1] != "application"[1];
  }

  predicate KeyLeq(a: Key, b: Key) {
    Less(a.0, b.0) || (a.0 == b.0 && !Less(b.1, a.1))
  }

  /** By key field, then application. */
  predicate MemberLeq(r: Row, s: Row) {
    Less(r.keyField, s.keyField) || (r.keyField == s.keyField && !Less(s.application, r.application))
  }

  function Members(alerts: seq<Row>, key: Key): seq<Row> {
    if alerts == [] then []
    else
      var n := |alerts| - 1;
      if KeyOf(alerts[n]) == key then Members(alerts[..n], key) + [alerts[n]] else Members(alerts[..n], key)
  }

  /** The keys in the order they are first met. */
  function KeysOf(alerts: seq<Row>): seq<Key> {
    if alerts == [] then []
    else
      var n := |alerts| - 1;
      var keys := KeysOf(alerts[..n]);
      if KeyOf(alerts[n]) in keys then keys else keys + [KeyOf(alerts[n])]
  }

  function GroupOf(alerts: seq<Row>, key: Key): AlertGroup {
    AlertGroup(key, Sort(Members(alerts, key), MemberLeq))
  }

  function GroupsFor(alerts: seq<Row>, keys: seq<Key>): (groups: seq<AlertGroup>)
    ensures |groups| == |keys| && forall i :: 0 <= i < |keys| ==> groups[i] == GroupOf(alerts, keys[i])
  {
    seq(|keys|, i requires 0 <= i < |keys| => GroupOf(alerts, keys[i]))
  }

  function GroupsOf(alerts: seq<Row>): seq<AlertGroup> {
    GroupsFor(alerts, Sort(KeysOf(alerts), KeyLeq))
  }

  lemma {:induction false} KeysOfExact(alerts: seq<Row>)
    ensures NoDuplicates(KeysOf(alerts))
    ensures forall k :: k in KeysOf(alerts) <==> exists i :: 0 <= i < |alerts| && KeyOf(alerts[i]) == k
  {
    if alerts != [] {
      var n := |alerts| - 1;
      KeysOfExact(alerts[..n]);
      forall k ensures k in KeysOf(alerts) <==> exists i :: 0 <= i < |alerts| && KeyOf(alerts[i]) == k {
        if i :| 0 <= i < |alerts| && KeyOf(alerts[i]) == k {
          if i < n {
            assert alerts[..n][i] == alerts[i];
          }
        }
      }
    }
  }

  method GroupAlerts(alerts: seq<Row>) returns (groups: seq<AlertGroup>)
    ensures groups == GroupsOf(alerts)
  {
    var grouped: map<Key, seq<Row>> := map[];
    var keys: seq<Key> := [];
    for i := 0 to |alerts|
      invariant keys == KeysOf(alerts[..i])
      invariant forall k :: k in grouped <==> k in keys
      invariant forall k :: k in grouped ==> grouped[k] == Members(alerts[..i], k)
    {
      var key := KeyOf(alerts[i]);
      NewKeyIsEmpty(alerts[..i], key);
      assert alerts[..i + 1][..i] == alerts[..i];
      if key in grouped {
        grouped := grouped[key := grouped[key] + [alerts[i]]];
      } else {
        keys := keys + [key];
        grouped := grouped[key := [alerts[i]]];
      }
    }
    assert alerts[..|alerts|] == alerts;
    groups := SortGroups(keys, grouped, alerts);
  }

  method SortGroups(keys: seq<Key>, grouped: map<Key, seq<Row>>, ghost alerts: seq<Row>) returns (groups: seq<AlertGroup>)
    requires keys == KeysOf(alerts) && forall k :: k in keys ==> k in grouped && grouped[k] == Members(alerts, k)
    ensures groups == GroupsOf(alerts)
  {
    var ordered := Sort(keys, KeyLeq);
    SortMembers(keys, KeyLeq);
    groups := [];
    for i := 0 to |ordered|
      invariant groups == GroupsFor(alerts, ordered[..i])
    {
      assert ordered[i] in keys;
      groups := groups + [AlertGroup(ordered[i], Sort(grouped[ordered[i]], MemberLeq))];
      assert ordered[..i + 1][..i] == ordered[..i];
    }
    assert ordered[..|ordered|] == ordered;
  }

  lemma {:induction false} NewKeyIsEmpty(alerts: seq<Row>, key: Key)
    ensures key !in KeysOf(alerts) ==> Members(alerts, key) == []
  {
    if alerts != [] {
      NewKeyIsEmpty(alerts[..|alerts| - 1], key);
    }
  }

  // ----- balanced sizes

  lemma {:induction false} Scale(a: int, b: int, c: int)
    requires a <= b && c > 0
    ensures a * c <= b * c
  {
  }

  /** The quotient of a natural number. */
  function Quotient(n: nat, d: int): (q: nat)
    requires d > 0
    ensures q * d <= n < q * d + d && n % d == n - q * d
  {
    var q := n / d;
    assert n == q * d + n % d;
    assert q >= 0 by {
      if q < 0 {
        Scale(q, -1, d);
      }
    }
    q
  }

  lemma {:induction false} UniqueQuotient(n: int, d: int, p: int, q: int)
    requires d > 0 && p * d <= n < p * d + d && q * d <= n < q * d + d
    ensures p == q
  {
    if p < q {
      Scale(p + 1, q, d);
    } else if q < p {
      Scale(q + 1, p, d);
    }
  }

  /** Python's `//`: floor division; None for a zero divisor. */
  function FloorDiv(a: int, b: int): (q: Option<int>) {
    if b == 0 then None else if b > 0 then Some(a / b) else Some((-a) / (-b))
  }

  /** `ceil(n / cap)`. */
  function CeilDiv(n: nat, cap: int): nat
    requires cap > 0
  {
    Quotient(n + cap - 1, cap)
  }

  lemma {:induction false} CeilBounds(n: nat, cap: int)
    requires cap > 0
    ensures var q := CeilDiv(n, cap); q * cap - cap < n <= q * cap && (q == 0 <==> n == 0)
  {
    var q := CeilDiv(n, cap);
    if q == 0 {
      assert q * cap == 0;
    } else {
      Scale(1, q, cap);
    }
  }

  /** The sizes of `count` parts of `n`, the larger ones first. */
  function Sizes(n: nat, count: nat): (sizes: seq<nat>)
    requires count > 0
    ensures |sizes| == count
    ensures forall i :: 0 <= i < count ==> sizes[i] == Quotient(n, count) + if i < n - Quotient(n, count) * count then 1 else 0
  {
    var base := Quotient(n, count);
    seq(count, i => if i < n - base * count then base + 1 else base)
  }

  function SizesFor(n: nat, cap: int): (sizes: seq<nat>)
    requires cap > 0
    ensures |sizes| == CeilDiv(n, cap)
  {
    CeilBounds(n, cap);
    if n == 0 then [] else Sizes(n, CeilDiv(n, cap))
  }

  /** Negating around a floor division rounds up. */
  lemma {:induction false} CeilOfNegation(n: nat, cap: int)
    requires cap > 0
    ensures FloorDiv(0 - n, cap) == Some(0 - CeilDiv(n, cap))
  {
    var m: int := 0 - n;
    var q, c: int := m / cap, CeilDiv(n, cap);
    CeilBounds(n, cap);
    assert m == q * cap + m % cap;
    assert (0 - c) * cap == 0 - c * cap;
    UniqueQuotient(m, cap, q, 0 - c);
  }

  lemma {:induction false} NegativeCap(n: nat, maximum: int)
    requires maximum < 0
    ensures FloorDiv(0 - n, maximum) == Some(Quotient(n, -maximum))
    ensures Quotient(n, -maximum) == 0 <==> n < -maximum
  {
    var c, q := -maximum, Quotient(n, -maximum);
    if q > 0 {
      Scale(1, q, c);
    } else {
      assert q * c == 0;
    }
  }

  /** `balanced_partition_sizes`: None where it divides by zero. */
  method BalancedPartitionSizes(n: nat, maximum: int) returns (sizes: Option<seq<nat>>)
    ensures maximum > 0 ==> sizes == Some(SizesFor(n, maximum))
    ensures maximum <= 0 ==> sizes == if n == 0 || (maximum < 0 && n >= -maximum) then Some([]) else None
  {
    if n <= 0 {
      if maximum > 0 { CeilBounds(n, maximum); }
      return Some([]);
    }
    var quotient := FloorDiv(0 - n, maximum);
    if quotient.None? {
      return None;
    }
    var count := -quotient.value;
    if maximum > 0 {
      CeilOfNegation(n, maximum);
      CeilBounds(n, maximum);
    } else {
      NegativeCap(n, maximum);
    }
    if count == 0 {
      return None;
    }
    if count < 0 {
      return Some([]);
    }
    sizes := Some(DivMod(n, count));
  }

  /** The list built from `divmod(n, count)`. */
  function DivMod(n: nat, count: nat): (sizes: seq<nat>)
    requires count > 0
    ensures sizes == Sizes(n, count)
  {
    var base, remainder := Quotient(n, count), n % count;
    seq(count, i => if i < remainder then base + 1 else base)
  }

  // ----- batches

  /** What a run contributes to its batches: SHA-256 and the identifiers the batch id covers. */
  datatype Context = Context(digest: string -> string, runId: string, promptVersion: string, modelVersion: string)

  function SchemaName(s: Schema): string {
    match s case V1 => "v1" case V2 => "v2"
  }

  function TransportJson(row: Row): Json {
    Obj([("schema", Str(SchemaName(row.schema))), ("application", Str(row.application)), ("key_field", Str(row.keyField))])
  }

  function TransportId(digest: string -> string, row: Row): string
    requires Encodable(TransportJson(row))
  {
    digest(Encode(TransportJson(row)))
  }

  lemma {:induction false} TransportEncodable(row: Row)
    ensures Encodable(TransportJson(row)) && IsJson(TransportJson(row))
  {
    var fs := TransportJson(row).fields;
    assert fs[0].0 == "schema" && fs[1].0 == "application" && fs[2].0 == "key_field";
  }

  function TransportIds(digest: string -> string, alerts: seq<Row>): (ids: seq<string>)
    ensures |ids| == |alerts|
    ensures forall i :: 0 <= i < |alerts| ==> Encodable(TransportJson(alerts[i])) && ids[i] == TransportId(digest, alerts[i])
  {
    seq(|alerts|, i requires 0 <= i < |alerts| =>
      TransportEncodable(alerts[i]);
      TransportId(digest, alerts[i]))
  }

  function Strings(ids: seq<string>): (items: seq<Json>)
    ensures |items| == |ids| && forall i :: 0 <= i < |ids| ==> items[i] == Str(ids[i])
  {
    seq(|ids|, i requires 0 <= i < |ids| => Str(ids[i]))
  }

  function BatchJson(c: Context, group: Key, index: nat, ids: seq<string>): Json {
    Obj([("run_id", Str(c.runId)), ("group_type", Str(group.0)), ("group_value", Str(group.1)),
         ("partition_index", Num(Int(index))), ("alert_ids", Arr(Strings(ids))),
         ("prompt_version", Str(c.promptVersion)), ("model_version", Str(c.modelVersion))])
  }

  lemma {:induction false} BatchJsonFields(c: Context, group: Key, index: nat, ids: seq<string>)
    ensures Encodable(BatchJson(c, group, index, ids)) && IsJson(BatchJson(c, group, index, ids))
    ensures var fs := BatchJson(c, group, index, ids).fields;
      && |fs| == 7
      && fs[1] == ("group_type", Str(group.0)) && fs[2] == ("group_value", Str(group.1))
      && fs[3] == ("partition_index", Num(Int(index))) && fs[4] == ("alert_ids", Arr(Strings(ids)))
  {
    var fs := BatchJson(c, group, index, ids).fields;
    assert fs[0] == ("run_id", Str(c.runId)) && fs[1] == ("group_type", Str(group.0));
    assert fs[2] == ("group_value", Str(group.1)) && fs[3] == ("partition_index", Num(Int(index)));
    assert fs[4] == ("alert_ids", Arr(Strings(ids))) && fs[5] == ("prompt_version", Str(c.promptVersion));
    assert fs[6] == ("model_version", Str(c.modelVersion));
  }

  function BatchIdOf(c: Context, group: Key, index: nat, ids: seq<string>): string {
    BatchJsonFields(c, group, index, ids);
    c.digest(Encode(BatchJson(c, group, index, ids)))
  }

  function Total(sizes: seq<nat>): nat {
    if sizes == [] then 0 else Total(sizes[..|sizes| - 1]) + sizes[|sizes| - 1]
  }

  /** One partition of a group. */
  function BatchOf(c: Context, group: AlertGroup, index: nat, count: nat, lo: nat, hi: nat): Batch
    requires lo <= hi <= |group.alerts|
  {
    var members := group.alerts[lo..hi];
    var ids := TransportIds(c.digest, members);
    Batch(BatchIdOf(c, group.key, index, ids), group.key, index, count, members, ids)
  }

  /** The partition of a group that starts where the earlier sizes end. */
  function BatchAt(c: Context, group: AlertGroup, sizes: seq<nat>, i: nat): Batch
    requires i < |sizes| && Total(sizes) <= |group.alerts|
  {
    TotalGrows(sizes, i);
    BatchOf(c, group, i, |sizes|, Total(sizes[..i]), Total(sizes[..i]) + sizes[i])
  }

  /** A group's first `n` partitions. */
  function BatchesUpTo(c: Context, group: AlertGroup, sizes: seq<nat>, n: nat): (bs: seq<Batch>)
    requires n <= |sizes| && Total(sizes) <= |group.alerts|
    ensures |bs| == n && forall i :: 0 <= i < n ==> bs[i] == BatchAt(c, group, sizes, i)
  {
    seq(n, i requires 0 <= i < n => BatchAt(c, group, sizes, i))
  }

  lemma {:induction false} TotalGrows(sizes: seq<nat>, n: nat)
    requires n < |sizes|
    ensures Total(sizes[..n + 1]) == Total(sizes[..n]) + sizes[n]
    ensures Total(sizes[..n + 1]) <= Total(sizes)
    decreases |sizes| - n
  {
    assert sizes[..n + 1][..n] == sizes[..n];
    if n + 1 < |sizes| {
      TotalGrows(sizes, n + 1);
    } else {
      assert sizes[..n + 1] == sizes;
    }
  }

  /** The first `i` of sizes that are `q` or, for the first `r`, one more. */
  lemma {:induction false} TotalOfSizes(sizes: seq<nat>, q: nat, r: nat, i: nat)
    requires i <= |sizes| && forall j :: 0 <= j < |sizes| ==> sizes[j] == q + if j < r then 1 else 0
    ensures Total(sizes[..i]) == i * q + if i < r then i else r
  {
    if i > 0 {
      TotalOfSizes(sizes, q, r, i - 1);
      TotalGrows(sizes, i - 1);
      assert i * q == (i - 1) * q + q;
    } else {
      assert i * q == 0;
    }
  }

  /** The sizes add up to the whole. */
  lemma {:induction false} SizesTotal(n: nat, cap: int)
    requires cap > 0
    ensures Total(SizesFor(n, cap)) == n
  {
    CeilBounds(n, cap);
    if n > 0 {
      var count := CeilDiv(n, cap);
      var sizes, q := Sizes(n, count), Quotient(n, count);
      TotalOfSizes(sizes, q, n - q * count, count);
      assert sizes[..count] == sizes;
    }
  }

  /** Every part is non-empty, within the cap, and at most one larger than another. */
  lemma {:induction false} SizesBalanced(n: nat, cap: int)
    requires cap > 0
    ensures var sizes := SizesFor(n, cap);
      && (forall i :: 0 <= i < |sizes| ==> 0 < sizes[i] <= cap)
      && (forall i, j :: 0 <= i < |sizes| && 0 <= j < |sizes| ==> sizes[i] <= sizes[j] + 1)
      && (forall i, j :: 0 <= i < j < |sizes| ==> sizes[i] >= sizes[j])
  {
    CeilBounds(n, cap);
    if n > 0 {
      var count := CeilDiv(n, cap);
      var q := Quotient(n, count);
      BaseBounds(n, cap, count, q);
    }
  }

  lemma {:induction false} BaseBounds(n: nat, cap: int, count: nat, q: nat)
    requires cap > 0 && count > 0 && count * cap - cap < n <= count * cap && q * count <= n < q * count + count
    ensures 0 < q <= cap && (q == cap ==> n == q * count)
  {
    if q == 0 {
      // Fewer alerts than partitions would need a cap below one.
      assert n < count;
      Scale(1, cap, count);
      assert (count - 1) * cap == count * cap - cap;
      if count > 1 { Scale(1, cap, count - 1); }
    }
    if q > cap {
      Scale(cap + 1, q, count);
    }
  }
}
