/** `build_batches`: every alert in exactly one balanced batch of its own group (`src/llm/grouping.py:141-179`). */
module Batching {
  import opened Text
  import opened Sorting
  import opened Hashing
  import opened Normalize
  import opened Grouping

  function GroupBatches(c: Context, group: AlertGroup, cap: int): (bs: seq<Batch>)
    requires cap > 0
    ensures |bs| == CeilDiv(|group.alerts|, cap)
  {
    SizesTotal(|group.alerts|, cap);
    var sizes := SizesFor(|group.alerts|, cap);
    BatchesUpTo(c, group, sizes, |sizes|)
  }

  function Flatten<T>(parts: seq<seq<T>>): seq<T> {
    if parts == [] then [] else Flatten(parts[..|parts| - 1]) + parts[|parts| - 1]
  }

  /** Where an element of a concatenation comes from. */
  lemma {:induction false} FlattenSource<T>(parts: seq<seq<T>>, m: nat) returns (g: nat, k: nat)
    requires m < |Flatten(parts)|
    ensures g < |parts| && k < |parts[g]| && Flatten(parts)[m] == parts[g][k]
    ensures m == |Flatten(parts[..g])| + k
  {
    var n := |parts| - 1;
    if m < |Flatten(parts[..n])| {
      g, k := FlattenSource(parts[..n], m);
      assert parts[..n][..g] == parts[..g];
    } else {
      g, k := n, m - |Flatten(parts[..n])|;
    }
  }

  function Parts(c: Context, groups: seq<AlertGroup>, cap: int): (parts: seq<seq<Batch>>)
    requires cap > 0
    ensures |parts| == |groups| && forall i :: 0 <= i < |groups| ==> parts[i] == GroupBatches(c, groups[i], cap)
  {
    seq(|groups|, i requires 0 <= i < |groups| => GroupBatches(c, groups[i], cap))
  }

  /** All groups' batches, group after group. */
  function BatchesOf(c: Context, groups: seq<AlertGroup>, cap: int): seq<Batch>
    requires cap > 0
  {
    Flatten(Parts(c, groups, cap))
  }

  lemma {:induction false} OneMoreGroup(c: Context, groups: seq<AlertGroup>, cap: int, n: nat)
    requires cap > 0 && n < |groups|
    ensures BatchesOf(c, groups[..n + 1], cap) == BatchesOf(c, groups[..n], cap) + GroupBatches(c, groups[n], cap)
  {
    var parts := Parts(c, groups[..n + 1], cap);
    assert parts[..n] == Parts(c, groups[..n], cap);
  }

  /** The configured size, if any, under the hard ceiling. */
  function CapOf(maxBatchSize: Option<int>): int {
    var size := match maxBatchSize case None => MAX_BATCH_SIZE case Some(m) => if m == 0 then MAX_BATCH_SIZE else m;
    if size < MAX_BATCH_SIZE then size else MAX_BATCH_SIZE
  }

  /** Some group is smaller than the magnitude of a negative cap: the partition count is then zero. */
  predicate DividesByZero(groups: seq<AlertGroup>, cap: int) {
    exists i :: 0 <= i < |groups| && |groups[i].alerts| < -cap
  }

  /** What `build_batches` returns; None where it divides by zero. */
  function Built(c: Context, alerts: seq<Row>, maxBatchSize: Option<int>): Option<seq<Batch>> {
    var cap, groups := CapOf(maxBatchSize), GroupsOf(alerts);
    if cap > 0 then Some(BatchesOf(c, groups, cap))
    else if DividesByZero(groups, cap) then None
    else Some([])
  }

  /** The batches of the first `n` groups; with a negative cap there are none, while none of them divides by zero. */
  ghost predicate Progress(c: Context, groups: seq<AlertGroup>, cap: int, n: nat, out: seq<Batch>)
    requires n <= |groups|
  {
    if cap > 0 then out == BatchesOf(c, groups[..n], cap)
    else out == [] && forall j :: 0 <= j < n ==> |groups[j].alerts| >= -cap
  }

  lemma {:induction false} ProgressStep(c: Context, groups: seq<AlertGroup>, cap: int, n: nat, out: seq<Batch>)
    requires n < |groups| && Progress(c, groups, cap, n, out)
    ensures cap > 0 ==> Progress(c, groups, cap, n + 1, out + GroupBatches(c, groups[n], cap))
    ensures cap <= 0 && |groups[n].alerts| >= -cap ==> Progress(c, groups, cap, n + 1, out)
  {
    if cap > 0 {
      OneMoreGroup(c, groups, cap, n);
    }
  }

  lemma {:induction false} ProgressEnd(c: Context, groups: seq<AlertGroup>, cap: int, out: seq<Batch>)
    requires Progress(c, groups, cap, |groups|, out)
    ensures cap > 0 ==> out == BatchesOf(c, groups, cap)
    ensures cap <= 0 ==> out == [] && !DividesByZero(groups, cap)
  {
    assert groups[..|groups|] == groups;
  }

  method BuildBatches(c: Context, alerts: seq<Row>, maxBatchSize: Option<int>) returns (batches: Option<seq<Batch>>)
    ensures batches == Built(c, alerts, maxBatchSize)
  {
    var cap := CapOf(maxBatchSize);
    var groups := GroupAlerts(alerts);
    GroupsNonEmpty(alerts);
    var out: seq<Batch> := [];
    for i := 0 to |groups|
      invariant Progress(c, groups, cap, i, out)
    {
      ProgressStep(c, groups, cap, i, out);
      var more := BatchGroup(c, groups[i], cap);
      if more.None? {
        return None;
      }
      if more.value != [] {
        out := out + more.value;
      }
    }
    ProgressEnd(c, groups, cap, out);
    return Some(out);
  }

  /** One group's batches; None where its partition count is zero. */
  method BatchGroup(c: Context, group: AlertGroup, cap: int) returns (more: Option<seq<Batch>>)
    requires group.alerts != [] && cap != 0
    ensures cap > 0 ==> more == Some(GroupBatches(c, group, cap)) && more.value != []
    ensures cap < 0 ==> more == if |group.alerts| < -cap then None else Some([])
  {
    var sizes := BalancedPartitionSizes(|group.alerts|, cap);
    if sizes.None? {
      return None;
    }
    if cap > 0 {
      SizesTotal(|group.alerts|, cap);
      CeilBounds(|group.alerts|, cap);
    }
    var out := Partition(c, group, sizes.value);
    return Some(out);
  }

  /** The inner loop: consecutive slices of the group. */
  method Partition(c: Context, group: AlertGroup, sizes: seq<nat>) returns (out: seq<Batch>)
    requires Total(sizes) <= |group.alerts|
    ensures out == BatchesUpTo(c, group, sizes, |sizes|)
  {
    out := [];
    var offset := 0;
    for i := 0 to |sizes|
      invariant offset == Total(sizes[..i])
      invariant out == BatchesUpTo(c, group, sizes, i)
    {
      NextPartition(c, group, sizes, i);
      out := out + [BatchOf(c, group, i, |sizes|, offset, offset + sizes[i])];
      offset := offset + sizes[i];
    }
  }

  lemma {:induction false} NextPartition(c: Context, group: AlertGroup, sizes: seq<nat>, i: nat)
    requires i < |sizes| && Total(sizes) <= |group.alerts|
    ensures var lo := Total(sizes[..i]);
      && lo + sizes[i] == Total(sizes[..i + 1]) <= |group.alerts|
      && BatchesUpTo(c, group, sizes, i + 1)
         == BatchesUpTo(c, group, sizes, i) + [BatchOf(c, group, i, |sizes|, lo, lo + sizes[i])]
  {
    TotalGrows(sizes, i);
  }

  // ----- groups

  lemma {:induction false} MembersOfKey(alerts: seq<Row>, key: Key, x: Row)
    ensures multiset(Members(alerts, key))[x] == if KeyOf(x) == key then multiset(alerts)[x] else 0
  {
    if alerts != [] {
      var n := |alerts| - 1;
      MembersOfKey(alerts[..n], key, x);
      assert alerts == alerts[..n] + [alerts[n]];
    }
  }

  lemma {:induction false} GroupPermutes(alerts: seq<Row>, key: Key)
    ensures multiset(GroupOf(alerts, key).alerts) == multiset(Members(alerts, key))
  {
    SortPermutes(Members(alerts, key), MemberLeq);
  }

  lemma {:induction false} GroupMember(alerts: seq<Row>, key: Key, x: Row)
    ensures x in GroupOf(alerts, key).alerts <==> x in alerts && KeyOf(x) == key
  {
    GroupPermutes(alerts, key);
    MembersOfKey(alerts, key, x);
    assert x in GroupOf(alerts, key).alerts <==> x in multiset(GroupOf(alerts, key).alerts);
    assert x in alerts <==> x in multiset(alerts);
  }

  /** The groups are those of the keys that occur, in strictly increasing order. */
  lemma {:induction false} GroupsExact(alerts: seq<Row>)
    ensures var groups := GroupsOf(alerts);
      && (forall i, j :: 0 <= i < j < |groups| ==> groups[i].key != groups[j].key && KeyLeq(groups[i].key, groups[j].key))
      && (forall i :: 0 <= i < |groups| ==> groups[i] == GroupOf(alerts, groups[i].key))
      && (forall x :: x in alerts ==> exists i :: 0 <= i < |groups| && groups[i].key == KeyOf(x))
  {
    var keys := KeysOf(alerts);
    var ordered := Sort(keys, KeyLeq);
    KeysOfExact(alerts);
    KeyOrderTotal();
    SortSorts(keys, KeyLeq);
    SortPermutes(keys, KeyLeq);
    DistinctPermutation(keys, ordered);
    forall x | x in alerts ensures exists i :: 0 <= i < |ordered| && ordered[i] == KeyOf(x) {
      var k :| 0 <= k < |alerts| && alerts[k] == x;
      KeyIsSorted(keys, KeyOf(x));
    }
  }

  lemma {:induction false} KeyIsSorted(keys: seq<Key>, key: Key)
    requires key in keys
    ensures exists i :: 0 <= i < |Sort(keys, KeyLeq)| && Sort(keys, KeyLeq)[i] == key
  {
    SortPermutes(keys, KeyLeq);
    SameElements(keys, Sort(keys, KeyLeq));
    assert key in Sort(keys, KeyLeq);
  }

  lemma {:induction false} KeyOrderTotal()
    ensures TotalPreorder(KeyLeq)
    ensures forall s: seq<Key> :: Antisymmetric(s, KeyLeq)
  {
    forall a: Key, b: Key ensures KeyLeq(a, b) || KeyLeq(b, a) {
      KeyTrichotomy(a, b);
    }
    forall a: Key, b: Key, c: Key | KeyLeq(a, b) && KeyLeq(b, c) ensures KeyLeq(a, c) {
      KeyTransitive(a, b, c);
    }
    forall a: Key, b: Key | KeyLeq(a, b) && KeyLeq(b, a) ensures a == b {
      KeyTrichotomy(a, b);
    }
  }

  lemma {:induction false} KeyTrichotomy(a: Key, b: Key)
    ensures KeyLeq(a, b) || KeyLeq(b, a)
    ensures KeyLeq(a, b) && KeyLeq(b, a) ==> a == b
  {
    LessTrichotomy(a.0, b.0);
    LessTrichotomy(a.1, b.1);
  }

  lemma {:induction false} KeyTransitive(a: Key, b: Key, c: Key)
    requires KeyLeq(a, b) && KeyLeq(b, c)
    ensures KeyLeq(a, c)
  {
    LessTrichotomy(a.0, b.0);
    LessTrichotomy(b.0, c.0);
    LessTrichotomy(a.1, b.1);
    LessTrichotomy(b.1, c.1);
    LessTrichotomy(a.1, c.1);
    if Less(a.0, b.0) && Less(b.0, c.0) {
      LessTransitive(a.0, b.0, c.0);
    }
    if Less(a.1, b.1) && Less(b.1, c.1) {
      LessTransitive(a.1, b.1, c.1);
    }
  }

  lemma {:induction false} GroupsNonEmpty(alerts: seq<Row>)
    ensures forall i :: 0 <= i < |GroupsOf(alerts)| ==> GroupsOf(alerts)[i].alerts != []
  {
    var keys := KeysOf(alerts);
    KeysOfExact(alerts);
    SortMembers(keys, KeyLeq);
    forall i | 0 <= i < |GroupsOf(alerts)| ensures GroupsOf(alerts)[i].alerts != [] {
      var key := Sort(keys, KeyLeq)[i];
      assert key in keys;
      var k :| 0 <= k < |alerts| && KeyOf(alerts[k]) == key;
      GroupMember(alerts, key, alerts[k]);
      assert alerts[k] in GroupOf(alerts, key).alerts;
    }
  }

  // ----- every alert in exactly one batch

  /** All the alerts of some batches, batch after batch. */
  function AlertsIn(bs: seq<Batch>): seq<Row> {
    if bs == [] then [] else AlertsIn(bs[..|bs| - 1]) + bs[|bs| - 1].alerts
  }

  lemma {:induction false} AlertsInJoin(a: seq<Batch>, b: seq<Batch>)
    ensures AlertsIn(a + b) == AlertsIn(a) + AlertsIn(b)
  {
    if b == [] {
      assert a + b == a;
    } else {
      var n := |b| - 1;
      assert (a + b)[..|a + b| - 1] == a + b[..n];
      AlertsInJoin(a, b[..n]);
    }
  }

  /** A group's partitions, put together again, are the group. */
  lemma {:induction false} PartitionsJoin(c: Context, group: AlertGroup, sizes: seq<nat>, n: nat)
    requires n <= |sizes| && Total(sizes) <= |group.alerts|
    ensures Total(sizes[..n]) <= |group.alerts|
    ensures AlertsIn(BatchesUpTo(c, group, sizes, n)) == group.alerts[..Total(sizes[..n])]
  {
    if n > 0 {
      PartitionsJoin(c, group, sizes, n - 1);
      TotalGrows(sizes, n - 1);
      PartitionAdds(c, group, sizes, n);
      SliceAdds(group.alerts, Total(sizes[..n - 1]), Total(sizes[..n]));
    }
  }

  lemma {:induction false} PartitionAdds(c: Context, group: AlertGroup, sizes: seq<nat>, n: nat)
    requires 0 < n <= |sizes| && Total(sizes) <= |group.alerts|
    ensures Total(sizes[..n - 1]) <= Total(sizes[..n]) <= |group.alerts|
    ensures AlertsIn(BatchesUpTo(c, group, sizes, n))
         == AlertsIn(BatchesUpTo(c, group, sizes, n - 1)) + group.alerts[Total(sizes[..n - 1])..Total(sizes[..n])]
  {
    NextPartition(c, group, sizes, n - 1);
    var lo := Total(sizes[..n - 1]);
    AlertsInLast(BatchesUpTo(c, group, sizes, n - 1), BatchOf(c, group, n - 1, |sizes|, lo, lo + sizes[n - 1]));
  }

  lemma {:induction false} AlertsInLast(bs: seq<Batch>, b: Batch)
    ensures AlertsIn(bs + [b]) == AlertsIn(bs) + b.alerts
  {
    assert (bs + [b])[..|bs|] == bs;
  }

  lemma {:induction false} SliceAdds<T>(s: seq<T>, lo: nat, hi: nat)
    requires lo <= hi <= |s|
    ensures s[..lo] + s[lo..hi] == s[..hi]
  {
  }

  lemma {:induction false} GroupJoins(c: Context, group: AlertGroup, cap: int)
    requires cap > 0
    ensures AlertsIn(GroupBatches(c, group, cap)) == group.alerts
  {
    var n := |group.alerts|;
    var sizes := SizesFor(n, cap);
    SizesTotal(n, cap);
    PartitionsJoin(c, group, sizes, |sizes|);
    assert sizes[..|sizes|] == sizes;
  }

  ghost predicate HasGroup(groups: seq<AlertGroup>, key: Key) {
    exists i :: 0 <= i < |groups| && groups[i].key == key
  }

  lemma {:induction false} HasGroupLast(groups: seq<AlertGroup>, key: Key)
    requires groups != [] && forall i, j :: 0 <= i < j < |groups| ==> groups[i].key != groups[j].key
    ensures var n := |groups| - 1;
      && (HasGroup(groups, key) <==> HasGroup(groups[..n], key) || groups[n].key == key)
      && !(HasGroup(groups[..n], key) && groups[n].key == key)
  {
    var n := |groups| - 1;
    if i :| 0 <= i < |groups| && groups[i].key == key {
      if i < n { assert groups[..n][i].key == key; }
    }
    if i :| 0 <= i < n && groups[..n][i].key == key {
      assert groups[i].key == key;
    }
  }

  lemma {:induction false} CountsAdd<T>(a: seq<T>, b: seq<T>, x: T)
    ensures multiset(a + b)[x] == multiset(a)[x] + multiset(b)[x]
  {
  }

  /** Each alert occurs among the batches of its group's key, as often as it was given, and nowhere else. */
  lemma {:induction false} Occurrences(c: Context, alerts: seq<Row>, groups: seq<AlertGroup>, cap: int, x: Row)
    requires cap > 0
    requires forall i :: 0 <= i < |groups| ==> groups[i] == GroupOf(alerts, groups[i].key)
    requires forall i, j :: 0 <= i < j < |groups| ==> groups[i].key != groups[j].key
    ensures multiset(AlertsIn(BatchesOf(c, groups, cap)))[x] == if HasGroup(groups, KeyOf(x)) then multiset(alerts)[x] else 0
  {
    if groups != [] {
      var n := |groups| - 1;
      var init, key := groups[..n], KeyOf(x);
      assert forall i :: 0 <= i < n ==> init[i] == groups[i];
      Occurrences(c, alerts, init, cap, x);
      HasGroupLast(groups, key);
      LastGroup(c, groups, cap, x);
      GroupCounts(alerts, groups[n], x);
    }
  }

  lemma {:induction false} LastGroup(c: Context, groups: seq<AlertGroup>, cap: int, x: Row)
    requires cap > 0 && groups != []
    ensures var n := |groups| - 1;
      multiset(AlertsIn(BatchesOf(c, groups, cap)))[x]
      == multiset(AlertsIn(BatchesOf(c, groups[..n], cap)))[x] + multiset(groups[n].alerts)[x]
  {
    var n := |groups| - 1;
    var before, own := BatchesOf(c, groups[..n], cap), GroupBatches(c, groups[n], cap);
    OneMoreGroup(c, groups, cap, n);
    assert groups[..n + 1] == groups;
    AlertsInJoin(before, own);
    GroupJoins(c, groups[n], cap);
    CountsAdd(AlertsIn(before), AlertsIn(own), x);
  }

  lemma {:induction false} GroupCounts(alerts: seq<Row>, group: AlertGroup, x: Row)
    requires group == GroupOf(alerts, group.key)
    ensures multiset(group.alerts)[x] == if KeyOf(x) == group.key then multiset(alerts)[x] else 0
  {
    GroupPermutes(alerts, group.key);
    MembersOfKey(alerts, group.key, x);
  }

  /** With a positive cap nothing is lost, repeated or invented. */
  lemma {:induction false} EveryAlertOnce(c: Context, alerts: seq<Row>, cap: int)
    requires cap > 0
    ensures multiset(AlertsIn(BatchesOf(c, GroupsOf(alerts), cap))) == multiset(alerts)
  {
    GroupsExact(alerts);
    var all := AlertsIn(BatchesOf(c, GroupsOf(alerts), cap));
    forall x ensures multiset(all)[x] == multiset(alerts)[x] {
      Occurrences(c, alerts, GroupsOf(alerts), cap, x);
      if x in multiset(alerts) {
        assert x in alerts;
        assert HasGroup(GroupsOf(alerts), KeyOf(x));
      }
    }
  }

  /**
   `build_batches` keeps every alert exactly when the configured size is not negative, or there is
   nothing to keep. A negative size loses them all, silently or by dividing by zero; the configuration
   loader refuses sizes below 1 (`src/config/llm.py:35`), so only a direct call can pass one.
   */
  lemma {:induction false} KeepsEveryAlert(c: Context, alerts: seq<Row>, maxBatchSize: Option<int>)
    ensures var built := Built(c, alerts, maxBatchSize);
      (built.Some? && multiset(AlertsIn(built.value)) == multiset(alerts))
      <==> (maxBatchSize.None? || maxBatchSize.value >= 0 || alerts == [])
  {
    var cap := CapOf(maxBatchSize);
    if cap > 0 {
      EveryAlertOnce(c, alerts, cap);
    } else if alerts == [] {
      assert GroupsOf(alerts) == [];
      assert AlertsIn([]) == [];
    } else {
      assert multiset(alerts) != multiset([]) by {
        assert alerts[0] in multiset(alerts);
      }
    }
  }

  /** Size -1 divides no group by zero and still returns no batch, so every alert is lost. */
  lemma {:induction false} MinusOneLosesAll(c: Context, alerts: seq<Row>)
    requires alerts != []
    ensures Built(c, alerts, Some(-1)) == Some([])
  {
    GroupsNonEmpty(alerts);
  }

  // ----- the shape of each batch

  /** What every batch promises of itself. */
  ghost predicate WellFormed(c: Context, b: Batch, cap: int) {
    && 0 < |b.alerts| <= cap
    && (forall i :: 0 <= i < |b.alerts| ==> InGroup(b.alerts[i], b.group))
    && b.alertIds == TransportIds(c.digest, b.alerts)
    && b.batchId == BatchIdOf(c, b.group, b.partitionIndex, b.alertIds)
    && b.partitionIndex < b.partitionCount
  }

  lemma {:induction false} PartitionShape(c: Context, alerts: seq<Row>, group: AlertGroup, cap: int, k: nat)
    requires cap > 0 && group == GroupOf(alerts, group.key) && k < CeilDiv(|group.alerts|, cap)
    ensures var bs := GroupBatches(c, group, cap);
      && WellFormed(c, bs[k], cap) && bs[k].group == group.key
      && bs[k].partitionIndex == k && bs[k].partitionCount == |bs|
      && |bs[k].alerts| == SizesFor(|group.alerts|, cap)[k]
  {
    var sizes := SizesFor(|group.alerts|, cap);
    SizesTotal(|group.alerts|, cap);
    SizesBalanced(|group.alerts|, cap);
    TotalGrows(sizes, k);
    assert BatchesUpTo(c, group, sizes, |sizes|)[k] == BatchAt(c, group, sizes, k);
    var lo := Total(sizes[..k]);
    forall i | lo <= i < lo + sizes[k] ensures InGroup(group.alerts[i], group.key) {
      GroupMember(alerts, group.key, group.alerts[i]);
      KeySaysGroup(group.alerts[i], group.key);
    }
  }

  /** Every batch is non-empty, within the cap, and of one group only. */
  lemma {:induction false} EveryBatchWellFormed(c: Context, alerts: seq<Row>, cap: int, m: nat)
    requires cap > 0 && m < |BatchesOf(c, GroupsOf(alerts), cap)|
    ensures WellFormed(c, BatchesOf(c, GroupsOf(alerts), cap)[m], cap)
  {
    GroupsExact(alerts);
    var g, k := FlattenSource(Parts(c, GroupsOf(alerts), cap), m);
    PartitionShape(c, alerts, GroupsOf(alerts)[g], cap, k);
  }

  /** A group of n alerts makes ceil(n / cap) batches whose sizes differ by at most one, numbered in order. */
  lemma {:induction false} GroupIsBalanced(c: Context, alerts: seq<Row>, cap: int, g: nat)
    requires 0 < cap && g < |GroupsOf(alerts)|
    ensures var group := GroupsOf(alerts)[g]; var bs := GroupBatches(c, group, cap);
      && |bs| == CeilDiv(|group.alerts|, cap)
      && (forall k :: 0 <= k < |bs| ==> bs[k].partitionIndex == k && bs[k].partitionCount == |bs| && bs[k].group == group.key)
      && (forall k, l :: 0 <= k < |bs| && 0 <= l < |bs| ==> |bs[k].alerts| <= |bs[l].alerts| + 1)
  {
    GroupsExact(alerts);
    var group := GroupsOf(alerts)[g];
    var bs := GroupBatches(c, group, cap);
    SizesBalanced(|group.alerts|, cap);
    forall k | 0 <= k < |bs|
      ensures bs[k].partitionIndex == k && bs[k].partitionCount == |bs| && bs[k].group == group.key
      ensures |bs[k].alerts| == SizesFor(|group.alerts|, cap)[k]
    {
      PartitionShape(c, alerts, group, cap, k);
    }
  }

  // ----- the order of the input does not matter

  /** No two different alerts share an application and a key field. */
  ghost predicate DistinctAlerts(alerts: seq<Row>) {
    forall x, y :: x in alerts && y in alerts && x.application == y.application && x.keyField == y.keyField ==> x == y
  }

  lemma {:induction false} MemberOrderTotal()
    ensures TotalPreorder(MemberLeq)
  {
    forall r: Row, s: Row ensures MemberLeq(r, s) || MemberLeq(s, r) {
      LessTrichotomy(r.keyField, s.keyField);
      LessTrichotomy(r.application, s.application);
    }
    forall r: Row, s: Row, t: Row | MemberLeq(r, s) && MemberLeq(s, t) ensures MemberLeq(r, t) {
      KeyTransitive((r.keyField, r.application), (s.keyField, s.application), (t.keyField, t.application));
    }
  }

  lemma {:induction false} MembersPermute(s: seq<Row>, t: seq<Row>, key: Key)
    requires multiset(s) == multiset(t)
    ensures multiset(Members(s, key)) == multiset(Members(t, key))
  {
    forall x ensures multiset(Members(s, key))[x] == multiset(Members(t, key))[x] {
      MembersOfKey(s, key, x);
      MembersOfKey(t, key, x);
    }
  }

  lemma {:induction false} SameGroup(s: seq<Row>, t: seq<Row>, key: Key)
    requires multiset(s) == multiset(t) && DistinctAlerts(s)
    ensures GroupOf(s, key) == GroupOf(t, key)
  {
    var m := Members(s, key);
    MemberOrderTotal();
    MembersPermute(s, t, key);
    forall i, j | 0 <= i < |m| && 0 <= j < |m| && MemberLeq(m[i], m[j]) && MemberLeq(m[j], m[i]) ensures m[i] == m[j] {
      MemberOf(s, key, m[i]);
      MemberOf(s, key, m[j]);
      LessTrichotomy(m[i].keyField, m[j].keyField);
      LessTrichotomy(m[i].application, m[j].application);
    }
    AntisymmetricByIndex(m, MemberLeq);
    SortOfPermutation(m, Members(t, key), MemberLeq);
  }

  lemma {:induction false} MemberOf(alerts: seq<Row>, key: Key, x: Row)
    requires x in Members(alerts, key)
    ensures x in alerts
  {
    MembersOfKey(alerts, key, x);
    assert x in multiset(Members(alerts, key));
    assert x in multiset(alerts);
  }

  lemma {:induction false} SameKeys(s: seq<Row>, t: seq<Row>)
    requires multiset(s) == multiset(t)
    ensures Sort(KeysOf(s), KeyLeq) == Sort(KeysOf(t), KeyLeq)
  {
    KeysOfExact(s);
    KeysOfExact(t);
    KeysWithin(s, t);
    KeysWithin(t, s);
    DistinctSameSize(KeysOf(s), KeysOf(t));
    InclusionPermutes(KeysOf(s), KeysOf(t));
    KeyOrderTotal();
    SortOfPermutation(KeysOf(s), KeysOf(t), KeyLeq);
  }

  lemma {:induction false} KeysWithin(s: seq<Row>, t: seq<Row>)
    requires multiset(s) == multiset(t)
    ensures forall k :: k in KeysOf(s) ==> k in KeysOf(t)
  {
    KeysOfExact(s);
    KeysOfExact(t);
    SameElements(s, t);
    forall k | k in KeysOf(s) ensures k in KeysOf(t) {
      var i :| 0 <= i < |s| && KeyOf(s[i]) == k;
      assert s[i] in t;
      var j :| 0 <= j < |t| && t[j] == s[i];
    }
  }

  lemma {:induction false} DistinctSameSize<T>(a: seq<T>, b: seq<T>)
    requires NoDuplicates(a) && NoDuplicates(b)
    requires forall x :: x in a ==> x in b
    requires forall x :: x in b ==> x in a
    ensures |a| == |b|
  {
    DistinctFits(a, b);
    DistinctFits(b, a);
  }

  lemma {:induction false} DistinctFits<T>(a: seq<T>, b: seq<T>)
    requires NoDuplicates(a) && forall x :: x in a ==> x in b
    ensures |a| <= |b|
  {
    if a != [] {
      DistinctTail(a);
      assert a[0] in b;
      var k :| 0 <= k < |b| && b[k] == a[0];
      Extract(b, k);
      forall x | x in a[1..] ensures x in Without(b, k) {
        assert x in a && x != a[0];
      }
      DistinctFits(a[1..], Without(b, k));
    }
  }

  /** Permuting the alerts changes no batch: neither membership, nor order, nor id. */
  lemma {:induction false} InputOrderIrrelevant(c: Context, s: seq<Row>, t: seq<Row>, maxBatchSize: Option<int>)
    requires multiset(s) == multiset(t) && DistinctAlerts(s)
    ensures Built(c, s, maxBatchSize) == Built(c, t, maxBatchSize)
  {
    SameKeys(s, t);
    var keys := Sort(KeysOf(s), KeyLeq);
    forall i | 0 <= i < |keys| ensures GroupsOf(s)[i] == GroupsOf(t)[i] {
      SameGroup(s, t, keys[i]);
    }
    assert GroupsOf(s) == GroupsOf(t);
  }

  // ----- batch ids

  ghost predicate Injective(digest: string -> string) {
    forall x, y :: digest(x) == digest(y) ==> x == y
  }

  /** A batch id covers the group, the partition and the alert ids with their order. */
  lemma {:induction false} BatchIdDetermines(c: Context, g: Key, i: nat, ids: seq<string>, h: Key, j: nat, jds: seq<string>)
    requires Injective(c.digest) && BatchIdOf(c, g, i, ids) == BatchIdOf(c, h, j, jds)
    ensures g == h && i == j && ids == jds
  {
    var v, w := BatchJson(c, g, i, ids), BatchJson(c, h, j, jds);
    BatchJsonFields(c, g, i, ids);
    BatchJsonFields(c, h, j, jds);
    EncodingDecides(v, w);
    assert Same(v, w);
    FieldSame(v, w, 1);
    FieldSame(v, w, 2);
    FieldSame(v, w, 3);
    FieldSame(v, w, 4);
    SameStrings(ids, jds);
  }

  lemma {:induction false} FieldSame(v: Json, w: Json, i: nat)
    requires v.Obj? && Same(v, w) && i < |v.fields| == |w.fields| && v.fields[i].0 == w.fields[i].0
    ensures Same(v.fields[i].1, w.fields[i].1)
  {
  }

  lemma {:induction false} SameStrings(a: seq<string>, b: seq<string>)
    requires Same(Arr(Strings(a)), Arr(Strings(b)))
    ensures a == b
  {
    assert |a| == |b|;
    forall i | 0 <= i < |a| ensures a[i] == b[i] {
      assert Same(Strings(a)[i], Strings(b)[i]);
    }
  }

  /** No two batches of a run share an id. */
  lemma {:induction false} BatchIdsDistinct(c: Context, alerts: seq<Row>, cap: int, m: nat, n: nat)
    requires Injective(c.digest) && cap > 0 && m < n < |BatchesOf(c, GroupsOf(alerts), cap)|
    ensures BatchesOf(c, GroupsOf(alerts), cap)[m].batchId != BatchesOf(c, GroupsOf(alerts), cap)[n].batchId
  {
    var groups := GroupsOf(alerts);
    var bs := BatchesOf(c, groups, cap);
    GroupsExact(alerts);
    var g, k := FlattenSource(Parts(c, groups, cap), m);
    var h, l := FlattenSource(Parts(c, groups, cap), n);
    PartitionShape(c, alerts, groups[g], cap, k);
    PartitionShape(c, alerts, groups[h], cap, l);
    assert g != h || k != l;
    if bs[m].batchId == bs[n].batchId {
      BatchIdDetermines(c, bs[m].group, bs[m].partitionIndex, bs[m].alertIds, bs[n].group, bs[n].partitionIndex, bs[n].alertIds);
    }
  }

  /** The transport id tells alerts of different schema, application or key field apart. */
  lemma {:induction false} TransportIdDetermines(digest: string -> string, r: Row, s: Row)
    requires Injective(digest)
    ensures TransportIds(digest, [r])[0] == TransportIds(digest, [s])[0]
       <==> r.schema == s.schema && r.application == s.application && r.keyField == s.keyField
  {
    var v, w := TransportJson(r), TransportJson(s);
    TransportEncodable(r);
    TransportEncodable(s);
    EncodingDecides(v, w);
    assert [r][0] == r && [s][0] == s;
    if r.schema == s.schema && r.application == s.application && r.keyField == s.keyField {
      assert v == w;
    }
    if Same(v, w) {
      assert v.fields[0].0 == w.fields[0].0 && v.fields[1].0 == w.fields[1].0 && v.fields[2].0 == w.fields[2].0;
      FieldSame(v, w, 0);
      FieldSame(v, w, 1);
      FieldSame(v, w, 2);
    }
  }
}
