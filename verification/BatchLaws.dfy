/** What the batches of a run are, said of the alerts in them alone (`src/llm/grouping.py:57-179`). */
module BatchLaws {
  import opened Text
  import opened Sorting
  import opened Hashing
  import opened Normalize
  import opened Grouping
  import opened Batching

  // ----- order

  predicate KeyBefore(a: Key, b: Key) {
    Less(a.0, b.0) || (a.0 == b.0 && Less(a.1, b.1))
  }

  /** By key field, and by application where key fields are equal. */
  predicate AlertBefore(r: Row, s: Row) {
    || Less(r.keyField, s.keyField)
    || (r.keyField == s.keyField && (Less(r.application, s.application) || r.application == s.application))
  }

  // ----- identifiers

  function SchemaText(s: Schema): string {
    if s == V1 then "v1" else "v2"
  }

  /** The digest of schema, application and key field, encoded as a mapping. */
  ghost predicate IsTransportId(digest: string -> string, row: Row, id: string) {
    var json := Obj([("schema", Str(SchemaText(row.schema))), ("application", Str(row.application)), ("key_field", Str(row.keyField))]);
    CanonicalEncode(json).Some? && id == digest(CanonicalEncode(json).value)
  }

  /** The digest of run, group, partition, alert ids in their order, and versions, encoded as a mapping. */
  ghost predicate IsBatchId(c: Context, b: Batch, id: string) {
    var json := Obj([
      ("run_id", Str(c.runId)), ("group_type", Str(b.group.0)), ("group_value", Str(b.group.1)),
      ("partition_index", Num(Int(b.partitionIndex))), ("alert_ids", Arr(seq(|b.alertIds|, i requires 0 <= i < |b.alertIds| => Str(b.alertIds[i])))),
      ("prompt_version", Str(c.promptVersion)), ("model_version", Str(c.modelVersion))]);
    CanonicalEncode(json).Some? && id == c.digest(CanonicalEncode(json).value)
  }

  // ----- one batch

  /** The most alerts a batch may have: the configured number, if there is one and it is not zero, but 200 at most. */
  predicate IsCap(maxBatchSize: Option<int>, cap: int) {
    if maxBatchSize.None? || maxBatchSize.value == 0 || maxBatchSize.value >= 200 then cap == 200 else cap == maxBatchSize.value
  }

  ghost predicate IsBatch(c: Context, b: Batch, cap: int) {
    && 0 < |b.alerts| <= cap
    && |b.alertIds| == |b.alerts|
    && (forall i :: 0 <= i < |b.alerts| ==> InGroup(b.alerts[i], b.group))
    && (forall i :: 0 <= i < |b.alerts| ==> IsTransportId(c.digest, b.alerts[i], b.alertIds[i]))
    && IsBatchId(c, b, b.batchId)
    && (forall i, j :: 0 <= i < j < |b.alerts| ==> AlertBefore(b.alerts[i], b.alerts[j]))
  }

  lemma {:induction false} CapSaid(maxBatchSize: Option<int>)
    ensures IsCap(maxBatchSize, CapOf(maxBatchSize))
  {
  }

  lemma {:induction false} TransportIdSaid(digest: string -> string, alerts: seq<Row>, i: nat)
    requires i < |alerts|
    ensures IsTransportId(digest, alerts[i], TransportIds(digest, alerts)[i])
  {
  }

  lemma {:induction false} BatchIdSaid(c: Context, b: Batch)
    requires b.batchId == BatchIdOf(c, b.group, b.partitionIndex, b.alertIds)
    ensures IsBatchId(c, b, b.batchId)
  {
    BatchJsonFields(c, b.group, b.partitionIndex, b.alertIds);
    assert Strings(b.alertIds) == seq(|b.alertIds|, i requires 0 <= i < |b.alertIds| => Str(b.alertIds[i]));
  }

  /** The alerts of a group are sorted. */
  lemma {:induction false} GroupSorted(alerts: seq<Row>, key: Key, i: nat, j: nat)
    requires i < j < |GroupOf(alerts, key).alerts|
    ensures AlertBefore(GroupOf(alerts, key).alerts[i], GroupOf(alerts, key).alerts[j])
  {
    var members := Members(alerts, key);
    MemberOrderTotal();
    SortSorts(members, MemberLeq);
    var r, s := GroupOf(alerts, key).alerts[i], GroupOf(alerts, key).alerts[j];
    LessTrichotomy(r.keyField, s.keyField);
    LessTrichotomy(r.application, s.application);
  }

  /** Partition `k` of a group takes its alerts from a place on. */
  lemma {:induction false} PartitionPlace(c: Context, group: AlertGroup, cap: int, k: nat) returns (lo: nat)
    requires cap > 0 && k < |GroupBatches(c, group, cap)|
    ensures var b := GroupBatches(c, group, cap)[k];
      lo + |b.alerts| <= |group.alerts| && b.alerts == group.alerts[lo..lo + |b.alerts|]
    ensures lo == Total(SizesFor(|group.alerts|, cap)[..k])
  {
    var sizes := SizesFor(|group.alerts|, cap);
    SizesTotal(|group.alerts|, cap);
    TotalGrows(sizes, k);
    assert BatchesUpTo(c, group, sizes, |sizes|)[k] == BatchAt(c, group, sizes, k);
    lo := Total(sizes[..k]);
  }

  lemma {:induction false} PartitionMembers(c: Context, alerts: seq<Row>, group: AlertGroup, cap: int, k: nat, i: nat)
    requires cap > 0 && group == GroupOf(alerts, group.key) && k < |GroupBatches(c, group, cap)|
    requires i < |GroupBatches(c, group, cap)[k].alerts|
    ensures var b := GroupBatches(c, group, cap)[k];
      InGroup(b.alerts[i], b.group) && |b.alertIds| == |b.alerts| && IsTransportId(c.digest, b.alerts[i], b.alertIds[i])
  {
    var b := GroupBatches(c, group, cap)[k];
    PartitionShape(c, alerts, group, cap, k);
    KeySaysGroup(b.alerts[i], b.group);
    TransportIdSaid(c.digest, b.alerts, i);
  }

  lemma {:induction false} PlacesAscend(c: Context, alerts: seq<Row>, group: AlertGroup, cap: int, k: nat, i: nat, l: nat, j: nat, lo: nat, hi: nat)
    requires cap > 0 && group == GroupOf(alerts, group.key) && k <= l < |GroupBatches(c, group, cap)|
    requires i < |GroupBatches(c, group, cap)[k].alerts| && (k == l ==> i < j)
    requires lo == Total(SizesFor(|group.alerts|, cap)[..k]) && hi == Total(SizesFor(|group.alerts|, cap)[..l])
    ensures lo + i < hi + j
  {
    PartitionShape(c, alerts, group, cap, k);
    if k < l {
      TotalSteps(SizesFor(|group.alerts|, cap), k, l);
    }
  }

  lemma {:induction false} PlacedAlert(c: Context, group: AlertGroup, cap: int, k: nat, i: nat) returns (p: nat)
    requires cap > 0 && k < |GroupBatches(c, group, cap)| && i < |GroupBatches(c, group, cap)[k].alerts|
    ensures p == Total(SizesFor(|group.alerts|, cap)[..k]) + i
    ensures p < |group.alerts| && GroupBatches(c, group, cap)[k].alerts[i] == group.alerts[p]
  {
    var lo := PartitionPlace(c, group, cap, k);
    assert GroupBatches(c, group, cap)[k].alerts == group.alerts[lo..lo + |GroupBatches(c, group, cap)[k].alerts|];
    SliceAt(group.alerts, lo, GroupBatches(c, group, cap)[k].alerts, i);
    p := lo + i;
  }

  lemma {:induction false} PartitionSorted(c: Context, alerts: seq<Row>, group: AlertGroup, cap: int, k: nat, i: nat, l: nat, j: nat)
    requires cap > 0 && group == GroupOf(alerts, group.key) && k <= l < |GroupBatches(c, group, cap)|
    requires i < |GroupBatches(c, group, cap)[k].alerts| && j < |GroupBatches(c, group, cap)[l].alerts| && (k == l ==> i < j)
    ensures AlertBefore(GroupBatches(c, group, cap)[k].alerts[i], GroupBatches(c, group, cap)[l].alerts[j])
  {
    var p := PlacedAlert(c, group, cap, k, i);
    var q := PlacedAlert(c, group, cap, l, j);
    PlacesAscend(c, alerts, group, cap, k, i, l, j, p - i, q - j);
    GroupSorted(alerts, group.key, p, q);
  }

  lemma {:induction false} SliceAt<T>(s: seq<T>, lo: nat, part: seq<T>, i: nat)
    requires lo + |part| <= |s| && part == s[lo..lo + |part|] && i < |part|
    ensures part[i] == s[lo + i]
  {
  }

  lemma {:induction false} TotalSteps(sizes: seq<nat>, k: nat, l: nat)
    requires k < l <= |sizes|
    ensures Total(sizes[..k]) + sizes[k] <= Total(sizes[..l])
  {
    if l == k + 1 {
      TotalGrows(sizes, k);
    } else {
      TotalSteps(sizes, k, l - 1);
      TotalGrows(sizes, l - 1);
    }
  }

  lemma {:induction false} PartitionIsBatch(c: Context, alerts: seq<Row>, group: AlertGroup, cap: int, k: nat)
    requires cap > 0 && group == GroupOf(alerts, group.key) && k < |GroupBatches(c, group, cap)|
    ensures IsBatch(c, GroupBatches(c, group, cap)[k], cap)
  {
    var b := GroupBatches(c, group, cap)[k];
    PartitionShape(c, alerts, group, cap, k);
    BatchIdSaid(c, b);
    forall i | 0 <= i < |b.alerts| ensures InGroup(b.alerts[i], b.group) && IsTransportId(c.digest, b.alerts[i], b.alertIds[i]) {
      PartitionMembers(c, alerts, group, cap, k, i);
    }
    forall i, j | 0 <= i < j < |b.alerts| ensures AlertBefore(b.alerts[i], b.alerts[j]) {
      PartitionSorted(c, alerts, group, cap, k, i, k, j);
    }
  }

  // ----- the groups

  /** Each alert in the one group it belongs to, groups and their members in order, no group empty. */
  ghost predicate IsGrouping(alerts: seq<Row>, groups: seq<AlertGroup>) {
    && (forall g, h :: 0 <= g < h < |groups| ==> KeyBefore(groups[g].key, groups[h].key))
    && (forall g :: 0 <= g < |groups| ==> IsGroup(alerts, groups[g]))
    && (forall x :: x in alerts ==> exists g :: 0 <= g < |groups| && InGroup(x, groups[g].key))
  }

  ghost predicate IsGroup(alerts: seq<Row>, group: AlertGroup) {
    && group.alerts != []
    && (forall x :: multiset(group.alerts)[x] == if InGroup(x, group.key) then multiset(alerts)[x] else 0)
    && (forall i, j :: 0 <= i < j < |group.alerts| ==> AlertBefore(group.alerts[i], group.alerts[j]))
  }

  /** What `group_alerts` returns. */
  lemma {:induction false} GroupsAreRight(alerts: seq<Row>)
    ensures IsGrouping(alerts, GroupsOf(alerts))
  {
    var groups := GroupsOf(alerts);
    GroupsExact(alerts);
    GroupsNonEmpty(alerts);
    forall g, h | 0 <= g < h < |groups| ensures KeyBefore(groups[g].key, groups[h].key) {
      KeysOrdered(alerts, g, h);
    }
    forall g | 0 <= g < |groups| ensures IsGroup(alerts, groups[g]) {
      GroupIsRight(alerts, groups[g].key, groups[g]);
    }
    forall x | x in alerts ensures exists g :: 0 <= g < |groups| && InGroup(x, groups[g].key) {
      var g :| 0 <= g < |groups| && groups[g].key == KeyOf(x);
      KeySaysGroup(x, groups[g].key);
    }
  }

  lemma {:induction false} GroupIsRight(alerts: seq<Row>, key: Key, group: AlertGroup)
    requires group == GroupOf(alerts, key) && group.alerts != []
    ensures IsGroup(alerts, group)
  {
    forall x ensures multiset(group.alerts)[x] == if InGroup(x, key) then multiset(alerts)[x] else 0 {
      GroupCounts(alerts, group, x);
      KeySaysGroup(x, key);
    }
    forall i, j | 0 <= i < j < |group.alerts| ensures AlertBefore(group.alerts[i], group.alerts[j]) {
      GroupSorted(alerts, key, i, j);
    }
  }

  // ----- all of them

  /** How many of the alerts belong to a group. */
  ghost function GroupSize(alerts: seq<Row>, group: Key): nat {
    |set i | 0 <= i < |alerts| && InGroup(alerts[i], group)|
  }

  /** Two batches, the first before the second. */
  ghost predicate Follows(a: Batch, b: Batch, distance: nat) {
    if a.group == b.group then
      && b.partitionIndex == a.partitionIndex + distance && a.partitionCount == b.partitionCount
      && |b.alerts| <= |a.alerts| <= |b.alerts| + 1
      && (forall i, j :: 0 <= i < |a.alerts| && 0 <= j < |b.alerts| ==> AlertBefore(a.alerts[i], b.alerts[j]))
    else KeyBefore(a.group, b.group)
  }

  /** So many batches hold so many alerts, and one fewer would not. */
  predicate JustEnough(count: nat, cap: int, size: nat) {
    (count - 1) * cap < size <= count * cap
  }

  /** The batch's group has as many batches as it needs, side by side, and this is number `partitionIndex` of them. */
  ghost predicate Placed(alerts: seq<Row>, batches: seq<Batch>, cap: int, m: nat)
    requires m < |batches|
  {
    SideBySide(batches, m) && JustEnough(batches[m].partitionCount, cap, GroupSize(alerts, batches[m].group))
  }

  ghost predicate SideBySide(batches: seq<Batch>, m: nat)
    requires m < |batches|
  {
    var b := batches[m];
    && b.partitionIndex <= m && b.partitionIndex < b.partitionCount && m - b.partitionIndex + b.partitionCount <= |batches|
    && batches[m - b.partitionIndex].group == b.group
    && batches[m - b.partitionIndex + b.partitionCount - 1].group == b.group
  }

  ghost predicate IsBatching(c: Context, alerts: seq<Row>, cap: int, batches: seq<Batch>) {
    && multiset(AlertsIn(batches)) == multiset(alerts)
    && (forall m :: 0 <= m < |batches| ==> IsBatch(c, batches[m], cap))
    && (forall m, n :: 0 <= m < n < |batches| ==> Follows(batches[m], batches[n], n - m))
    && (forall m :: 0 <= m < |batches| ==> Placed(alerts, batches, cap, m))
  }

  /** Alerts alike are in batches of one group, and others are not. */
  lemma {:induction false} AlikeShareAGroup(c: Context, alerts: seq<Row>, cap: int, batches: seq<Batch>, m: nat, i: nat, n: nat, j: nat)
    requires IsBatching(c, alerts, cap, batches) && m < |batches| && n < |batches|
    requires i < |batches[m].alerts| && j < |batches[n].alerts|
    ensures Alike(batches[m].alerts[i], batches[n].alerts[j]) <==> batches[m].group == batches[n].group
  {
    assert IsBatch(c, batches[m], cap) && IsBatch(c, batches[n], cap);
    AlikeMeansOneGroup(batches[m].alerts[i], batches[n].alerts[j], batches[m].group, batches[n].group);
  }

  // ----- they are

  lemma {:induction false} MembersCounted(alerts: seq<Row>, key: Key)
    ensures |Members(alerts, key)| == GroupSize(alerts, key)
  {
    var all := set i | 0 <= i < |alerts| && InGroup(alerts[i], key);
    if alerts == [] {
      assert all == {};
    } else {
      var n := |alerts| - 1;
      MembersCounted(alerts[..n], key);
      KeySaysGroup(alerts[n], key);
      var before := set i | 0 <= i < n && InGroup(alerts[..n][i], key);
      if InGroup(alerts[n], key) {
        assert all == before + {n};
      } else {
        assert all == before;
      }
    }
  }

  lemma {:induction false} GroupCounted(alerts: seq<Row>, key: Key)
    ensures |GroupOf(alerts, key).alerts| == GroupSize(alerts, key)
  {
    MembersCounted(alerts, key);
  }

  /** Batch `m` is partition `k` of group `g`. */
  ghost predicate At(c: Context, alerts: seq<Row>, cap: int, m: nat, g: nat, k: nat)
    requires cap > 0
  {
    var groups := GroupsOf(alerts);
    && g < |groups| && k < |GroupBatches(c, groups[g], cap)|
    && m == |BatchesOf(c, groups[..g], cap)| + k < |BatchesOf(c, groups, cap)|
    && BatchesOf(c, groups, cap)[m] == GroupBatches(c, groups[g], cap)[k]
  }

  lemma {:induction false} PartsPrefix(c: Context, groups: seq<AlertGroup>, cap: int, g: nat)
    requires cap > 0 && g <= |groups|
    ensures Batching.Parts(c, groups, cap)[..g] == Batching.Parts(c, groups[..g], cap)
  {
  }

  lemma {:induction false} Locate(c: Context, alerts: seq<Row>, cap: int, m: nat) returns (g: nat, k: nat)
    requires cap > 0 && m < |BatchesOf(c, GroupsOf(alerts), cap)|
    ensures At(c, alerts, cap, m, g, k)
  {
    var groups := GroupsOf(alerts);
    g, k := FlattenSource(Batching.Parts(c, groups, cap), m);
    PartsPrefix(c, groups, cap, g);
  }

  /** The batches before group `g` and those of it fit below any later place. */
  lemma {:induction false} Prefixes(c: Context, groups: seq<AlertGroup>, cap: int, g: nat, h: nat)
    requires cap > 0 && g < h <= |groups|
    ensures |BatchesOf(c, groups[..g], cap)| + |GroupBatches(c, groups[g], cap)| <= |BatchesOf(c, groups[..h], cap)|
    decreases h
  {
    var before := h - 1;
    OneMoreGroup(c, groups, cap, before);
    assert before + 1 == h;
    if g < before {
      Prefixes(c, groups, cap, g, before);
    }
  }

  lemma {:induction false} PlacesOrdered(c: Context, alerts: seq<Row>, cap: int, m: nat, g: nat, k: nat, n: nat, h: nat, l: nat)
    requires cap > 0 && At(c, alerts, cap, m, g, k) && At(c, alerts, cap, n, h, l) && m < n
    ensures g < h || (g == h && l == k + (n - m))
  {
    if h < g {
      Prefixes(c, GroupsOf(alerts), cap, h, g);
    }
  }

  /** Partition `k` of a group is in the batches, after those of the groups before. */
  lemma {:induction false} Lookup(c: Context, alerts: seq<Row>, cap: int, g: nat, k: nat) returns (m: nat)
    requires cap > 0 && g < |GroupsOf(alerts)| && k < |GroupBatches(c, GroupsOf(alerts)[g], cap)|
    ensures m == |BatchesOf(c, GroupsOf(alerts)[..g], cap)| + k && At(c, alerts, cap, m, g, k)
  {
    var groups := GroupsOf(alerts);
    m := |BatchesOf(c, groups[..g], cap)| + k;
    OneMoreGroup(c, groups, cap, g);
    StaysThere(c, groups, cap, g + 1, |groups|, m);
    assert groups[..|groups|] == groups;
  }

  lemma {:induction false} StaysThere(c: Context, groups: seq<AlertGroup>, cap: int, g: nat, h: nat, m: nat)
    requires cap > 0 && g <= h <= |groups| && m < |BatchesOf(c, groups[..g], cap)|
    ensures m < |BatchesOf(c, groups[..h], cap)| && BatchesOf(c, groups[..h], cap)[m] == BatchesOf(c, groups[..g], cap)[m]
  {
    if g < h {
      StaysThere(c, groups, cap, g, h - 1, m);
      OneMoreGroup(c, groups, cap, h - 1);
    }
  }

  lemma {:induction false} KeysOrdered(alerts: seq<Row>, g: nat, h: nat)
    requires g < h < |GroupsOf(alerts)|
    ensures GroupsOf(alerts)[g].key != GroupsOf(alerts)[h].key && KeyBefore(GroupsOf(alerts)[g].key, GroupsOf(alerts)[h].key)
  {
    GroupsExact(alerts);
    var a, b := GroupsOf(alerts)[g].key, GroupsOf(alerts)[h].key;
    LessTrichotomy(a.1, b.1);
  }

  lemma {:induction false} BatchAtFollows(c: Context, alerts: seq<Row>, cap: int, g: nat, k: nat, h: nat, l: nat)
    requires cap > 0 && g < |GroupsOf(alerts)| && h < |GroupsOf(alerts)| && (g < h || (g == h && k < l))
    requires k < |GroupBatches(c, GroupsOf(alerts)[g], cap)| && l < |GroupBatches(c, GroupsOf(alerts)[h], cap)|
    ensures Follows(GroupBatches(c, GroupsOf(alerts)[g], cap)[k], GroupBatches(c, GroupsOf(alerts)[h], cap)[l], if g == h then l - k else 0)
  {
    var a, b := GroupBatches(c, GroupsOf(alerts)[g], cap)[k], GroupBatches(c, GroupsOf(alerts)[h], cap)[l];
    GroupsExact(alerts);
    PartitionShape(c, alerts, GroupsOf(alerts)[g], cap, k);
    PartitionShape(c, alerts, GroupsOf(alerts)[h], cap, l);
    if g < h {
      KeysOrdered(alerts, g, h);
    } else {
      SizesBalanced(|GroupsOf(alerts)[g].alerts|, cap);
      forall i, j | 0 <= i < |a.alerts| && 0 <= j < |b.alerts| ensures AlertBefore(a.alerts[i], b.alerts[j]) {
        PartitionSorted(c, alerts, GroupsOf(alerts)[g], cap, k, i, l, j);
      }
    }
  }

  lemma {:induction false} BatchFollows(c: Context, alerts: seq<Row>, cap: int, m: nat, n: nat)
    requires cap > 0 && m < n < |BatchesOf(c, GroupsOf(alerts), cap)|
    ensures Follows(BatchesOf(c, GroupsOf(alerts), cap)[m], BatchesOf(c, GroupsOf(alerts), cap)[n], n - m)
  {
    var g, k := Locate(c, alerts, cap, m);
    var h, l := Locate(c, alerts, cap, n);
    PlacesOrdered(c, alerts, cap, m, g, k, n, h, l);
    BatchAtFollows(c, alerts, cap, g, k, h, l);
    GroupsExact(alerts);
    PartitionShape(c, alerts, GroupsOf(alerts)[g], cap, k);
    PartitionShape(c, alerts, GroupsOf(alerts)[h], cap, l);
  }

  lemma {:induction false} CountNeeded(n: nat, cap: int)
    requires cap > 0
    ensures (CeilDiv(n, cap) - 1) * cap < n <= CeilDiv(n, cap) * cap
  {
    CeilBounds(n, cap);
    var q := CeilDiv(n, cap);
    assert (q - 1) * cap == q * cap - cap;
  }

  /** Group `g` has as many batches as it needs. */
  lemma {:induction false} GroupCount(c: Context, alerts: seq<Row>, cap: int, g: nat)
    requires cap > 0 && g < |GroupsOf(alerts)|
    ensures var group := GroupsOf(alerts)[g]; var count := |GroupBatches(c, group, cap)|;
      JustEnough(count, cap, GroupSize(alerts, group.key))
  {
    GroupsExact(alerts);
    GroupCounted(alerts, GroupsOf(alerts)[g].key);
    CountNeeded(|GroupsOf(alerts)[g].alerts|, cap);
  }

  lemma {:induction false} LocatedBatch(c: Context, alerts: seq<Row>, cap: int, m: nat, g: nat, k: nat)
    requires cap > 0 && At(c, alerts, cap, m, g, k)
    ensures var b := BatchesOf(c, GroupsOf(alerts), cap)[m];
      && b.group == GroupsOf(alerts)[g].key && b.partitionIndex == k && b.partitionCount == |GroupBatches(c, GroupsOf(alerts)[g], cap)|
  {
    GroupsExact(alerts);
    PartitionShape(c, alerts, GroupsOf(alerts)[g], cap, k);
  }

  /** Where partition `k` of a group is. */
  lemma {:induction false} Sibling(c: Context, alerts: seq<Row>, cap: int, g: nat, k: nat) returns (m: nat)
    requires cap > 0 && g < |GroupsOf(alerts)| && k < |GroupBatches(c, GroupsOf(alerts)[g], cap)|
    ensures m == |BatchesOf(c, GroupsOf(alerts)[..g], cap)| + k < |BatchesOf(c, GroupsOf(alerts), cap)|
    ensures BatchesOf(c, GroupsOf(alerts), cap)[m].group == GroupsOf(alerts)[g].key
  {
    m := Lookup(c, alerts, cap, g, k);
    LocatedBatch(c, alerts, cap, m, g, k);
  }

  lemma {:induction false} SideFacts(batches: seq<Batch>, m: nat, first: nat, last: nat)
    requires m < |batches| && first <= m && last < |batches|
    requires batches[m].partitionIndex == m - first && batches[m].partitionIndex < batches[m].partitionCount == last - first + 1
    requires batches[first].group == batches[m].group && batches[last].group == batches[m].group
    ensures SideBySide(batches, m)
  {
  }

  lemma {:induction false} BatchesSideBySide(c: Context, alerts: seq<Row>, cap: int, m: nat, g: nat, k: nat)
    requires cap > 0 && At(c, alerts, cap, m, g, k)
    ensures SideBySide(BatchesOf(c, GroupsOf(alerts), cap), m)
  {
    LocatedBatch(c, alerts, cap, m, g, k);
    var first := Sibling(c, alerts, cap, g, 0);
    var last := Sibling(c, alerts, cap, g, |GroupBatches(c, GroupsOf(alerts)[g], cap)| - 1);
    SideFacts(BatchesOf(c, GroupsOf(alerts), cap), m, first, last);
  }

  lemma {:induction false} BatchPlaced(c: Context, alerts: seq<Row>, cap: int, m: nat)
    requires cap > 0 && m < |BatchesOf(c, GroupsOf(alerts), cap)|
    ensures Placed(alerts, BatchesOf(c, GroupsOf(alerts), cap), cap, m)
  {
    var g, k := Locate(c, alerts, cap, m);
    BatchesSideBySide(c, alerts, cap, m, g, k);
    LocatedBatch(c, alerts, cap, m, g, k);
    GroupCount(c, alerts, cap, g);
  }

  /** What `build_batches` returns with a positive cap. */
  lemma {:induction false} BatchesAreRight(c: Context, alerts: seq<Row>, maxBatchSize: Option<int>, cap: int)
    requires IsCap(maxBatchSize, cap) && cap > 0
    ensures Built(c, alerts, maxBatchSize).Some? && IsBatching(c, alerts, cap, Built(c, alerts, maxBatchSize).value)
  {
    CapSaid(maxBatchSize);
    var batches := Built(c, alerts, maxBatchSize).value;
    EveryAlertOnce(c, alerts, cap);
    forall m | 0 <= m < |batches| ensures IsBatch(c, batches[m], cap) && Placed(alerts, batches, cap, m) {
      var g, k := Locate(c, alerts, cap, m);
      GroupsExact(alerts);
      PartitionIsBatch(c, alerts, GroupsOf(alerts)[g], cap, k);
      BatchPlaced(c, alerts, cap, m);
    }
    forall m, n | 0 <= m < n < |batches| ensures Follows(batches[m], batches[n], n - m) {
      BatchFollows(c, alerts, cap, m, n);
    }
  }
}
