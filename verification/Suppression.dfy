/**
 Panel suppression (R5) and narrowing (`unseen`): the whole-schema guard, over all rows at once
 (`src/suppression/evaluate.py`) and over one row at a time (`src/suppression/stream.py`).

 A leaf carries the predicate it was parsed to. Bit masks are kept as the sets of their bits.
 */
module Suppression {
  import opened Text
  import opened Normalize
  import opened Rules

  /** The kinds of leaf that decide a row's visibility; all others are `Ignored` here. */
  datatype LeafKind = SuppressionLeaf | IdentityLeaf | Ignored

  datatype Leaf = Leaf(kind: LeafKind, matches: Row -> bool)

  datatype Panel = Parsed(id: string, parsed: seq<Leaf>) | Unparseable(id: string) {
    function Leaves(): seq<Leaf> {
      if Unparseable? then [] else parsed
    }
  }

  // ----- what visibility means, given all of a schema's rows

  ghost function MatchedRows(rows: seq<Row>, leaf: Leaf): set<nat> {
    set i | 0 <= i < |rows| && leaf.matches(Bare(rows[i]))
  }

  /** Blast radius: the leaf reaches more than half of the rows, so it is not taken as suppression. */
  ghost predicate Guarded(rows: seq<Row>, leaf: Leaf) {
    2 * |MatchedRows(rows, leaf)| > |rows|
  }

  ghost predicate Excludes(rows: seq<Row>, panel: Panel, row: Row) {
    ExcludesUpTo(rows, panel.Leaves(), |panel.Leaves()|, row)
  }

  ghost predicate ExcludesUpTo(rows: seq<Row>, leaves: seq<Leaf>, n: nat, row: Row)
    requires n <= |leaves|
  {
    exists j :: 0 <= j < n && ExcludesAt(rows, leaves[j], row)
  }

  ghost predicate ExcludesAt(rows: seq<Row>, leaf: Leaf, row: Row) {
    leaf.kind == SuppressionLeaf && !Guarded(rows, leaf) && leaf.matches(Bare(row))
  }

  predicate HidesAt(leaf: Leaf, row: Row) {
    leaf.kind == IdentityLeaf && leaf.matches(Bare(row))
  }

  predicate Hides(panel: Panel, row: Row) {
    HidesUpTo(panel.Leaves(), |panel.Leaves()|, row)
  }

  predicate HidesUpTo(leaves: seq<Leaf>, n: nat, row: Row)
    requires n <= |leaves|
  {
    exists j :: 0 <= j < n && HidesAt(leaves[j], row)
  }

  /** Excluded by every supplied panel. */
  ghost predicate Suppressed(rows: seq<Row>, panels: seq<Panel>, row: Row) {
    panels != [] && forall p :: 0 <= p < |panels| ==> Excludes(rows, panels[p], row)
  }

  predicate Hidden(panels: seq<Panel>, row: Row) {
    panels != [] && forall p :: 0 <= p < |panels| ==> Hides(panels[p], row)
  }

  ghost predicate Unseen(rows: seq<Row>, panels: seq<Panel>, row: Row) {
    Hidden(panels, row) && !Suppressed(rows, panels, row)
  }

  /** A leaf of the panel that is of the kind and matches the row; a panel that could not be parsed has none. */
  ghost predicate HasLeaf(panel: Panel, kind: LeafKind, row: Row, ok: Leaf -> bool) {
    && panel.Parsed?
    && exists j ::
         0 <= j < |panel.parsed| && panel.parsed[j].kind == kind && panel.parsed[j].matches(row.(docHash := "")) && ok(panel.parsed[j])
  }

  /** The leaf matches at most half of all rows. */
  ghost function Narrow(rows: seq<Row>): Leaf -> bool {
    (leaf: Leaf) => 2 * |set i | 0 <= i < |rows| && leaf.matches(rows[i].(docHash := ""))| <= |rows|
  }

  lemma {:induction false} ExcludesMeans(rows: seq<Row>, panel: Panel, row: Row)
    ensures Excludes(rows, panel, row) <==> HasLeaf(panel, SuppressionLeaf, row, Narrow(rows))
  {
    forall leaf: Leaf ensures Narrow(rows)(leaf) <==> !Guarded(rows, leaf) {
      assert MatchedRows(rows, leaf) == set i | 0 <= i < |rows| && leaf.matches(rows[i].(docHash := ""));
    }
    if Excludes(rows, panel, row) {
      var j :| 0 <= j < |panel.Leaves()| && ExcludesAt(rows, panel.Leaves()[j], row);
      assert panel.parsed[j].matches(row.(docHash := ""));
    }
    if HasLeaf(panel, SuppressionLeaf, row, Narrow(rows)) {
      var j :| 0 <= j < |panel.parsed| && panel.parsed[j].kind == SuppressionLeaf
        && panel.parsed[j].matches(row.(docHash := "")) && Narrow(rows)(panel.parsed[j]);
      assert ExcludesAt(rows, panel.Leaves()[j], row);
    }
  }

  lemma {:induction false} HidesMeans(panel: Panel, row: Row)
    ensures Hides(panel, row) <==> HasLeaf(panel, IdentityLeaf, row, _ => true)
  {
    if Hides(panel, row) {
      var j :| 0 <= j < |panel.Leaves()| && HidesAt(panel.Leaves()[j], row);
      assert panel.parsed[j].matches(row.(docHash := ""));
    }
    if HasLeaf(panel, IdentityLeaf, row, _ => true) {
      var j :| 0 <= j < |panel.parsed| && panel.parsed[j].kind == IdentityLeaf && panel.parsed[j].matches(row.(docHash := ""));
      assert HidesAt(panel.Leaves()[j], row);
    }
  }

  /**
   A row is suppressed exactly when there are panels and each has a matching suppression leaf that
   matches at most half of all rows; unseen exactly when each has a matching identity leaf and the
   row is not suppressed.
   */
  lemma {:induction false} VisibilityMeans(rows: seq<Row>, panels: seq<Panel>, row: Row)
    ensures Suppressed(rows, panels, row) <==>
      panels != [] && forall p :: 0 <= p < |panels| ==> HasLeaf(panels[p], SuppressionLeaf, row, Narrow(rows))
    ensures Unseen(rows, panels, row) <==>
      && panels != [] && (forall p :: 0 <= p < |panels| ==> HasLeaf(panels[p], IdentityLeaf, row, _ => true))
      && !Suppressed(rows, panels, row)
  {
    forall p | 0 <= p < |panels|
      ensures Excludes(rows, panels[p], row) <==> HasLeaf(panels[p], SuppressionLeaf, row, Narrow(rows))
      ensures Hides(panels[p], row) <==> HasLeaf(panels[p], IdentityLeaf, row, _ => true)
    {
      ExcludesMeans(rows, panels[p], row);
      HidesMeans(panels[p], row);
    }
  }

  // ----- all rows at once

  /** `evaluate_suppression`: the suppressed and the unseen rows, by index. */
  method EvaluateSuppression(rows: seq<Row>, panels: seq<Panel>) returns (suppressed: set<nat>, unseen: set<nat>)
    ensures suppressed == set i | 0 <= i < |rows| && Suppressed(rows, panels, rows[i])
    ensures unseen == set i | 0 <= i < |rows| && Unseen(rows, panels, rows[i])
  {
    suppressed, unseen := {}, {};
    if panels == [] {
      return;
    }
    suppressed, unseen := EvaluatePanel(rows, panels[0]);
    for p := 1 to |panels|
      invariant suppressed == set i | 0 <= i < |rows| && forall q :: 0 <= q < p ==> Excludes(rows, panels[q], rows[i])
      invariant unseen == set i | 0 <= i < |rows| && forall q :: 0 <= q < p ==> Hides(panels[q], rows[i])
    {
      var excluded, hidden := EvaluatePanel(rows, panels[p]);
      suppressed := suppressed * excluded;
      unseen := unseen * hidden;
    }
    unseen := unseen - suppressed;
  }

  method EvaluatePanel(rows: seq<Row>, panel: Panel) returns (excluded: set<nat>, hidden: set<nat>)
    ensures excluded == set i | 0 <= i < |rows| && Excludes(rows, panel, rows[i])
    ensures hidden == set i | 0 <= i < |rows| && Hides(panel, rows[i])
  {
    var leaves := panel.Leaves();
    excluded, hidden := {}, {};
    for j := 0 to |leaves|
      invariant excluded == ExcludedUpTo(rows, leaves, j) && hidden == HiddenUpTo(rows, leaves, j)
    {
      var leaf := leaves[j];
      var matched := set i | 0 <= i < |rows| && leaf.matches(Bare(rows[i]));
      assert matched == MatchedRows(rows, leaf);
      OneMoreLeaf(rows, leaves, j);
      if leaf.kind == IdentityLeaf {
        hidden := hidden + matched;
      } else if leaf.kind == SuppressionLeaf && !(2 * |matched| > |rows|) {
        excluded := excluded + matched;
      }
    }
  }

  ghost function ExcludedUpTo(rows: seq<Row>, leaves: seq<Leaf>, n: nat): set<nat>
    requires n <= |leaves|
  {
    set i | 0 <= i < |rows| && ExcludesUpTo(rows, leaves, n, rows[i])
  }

  ghost function HiddenUpTo(rows: seq<Row>, leaves: seq<Leaf>, n: nat): set<nat>
    requires n <= |leaves|
  {
    set i | 0 <= i < |rows| && HidesUpTo(leaves, n, rows[i])
  }

  lemma {:induction false} OneMoreLeaf(rows: seq<Row>, leaves: seq<Leaf>, j: nat)
    requires j < |leaves|
    ensures ExcludedUpTo(rows, leaves, j + 1) == ExcludedUpTo(rows, leaves, j)
              + (if leaves[j].kind == SuppressionLeaf && !Guarded(rows, leaves[j]) then MatchedRows(rows, leaves[j]) else {})
    ensures HiddenUpTo(rows, leaves, j + 1) == HiddenUpTo(rows, leaves, j)
              + (if leaves[j].kind == IdentityLeaf then MatchedRows(rows, leaves[j]) else {})
  {
    forall i | 0 <= i < |rows|
      ensures ExcludesUpTo(rows, leaves, j + 1, rows[i])
         <==> ExcludesUpTo(rows, leaves, j, rows[i]) || ExcludesAt(rows, leaves[j], rows[i])
      ensures HidesUpTo(leaves, j + 1, rows[i]) <==> HidesUpTo(leaves, j, rows[i]) || HidesAt(leaves[j], rows[i])
    {
    }
  }

  // ----- one row at a time

  /** A suppression leaf by position: its panel, and its place there. */
  type Position = (nat, nat)

  function LeafAt(panels: seq<Panel>, at: Position): Leaf
    requires at.0 < |panels| && at.1 < |panels[at.0].Leaves()|
  {
    panels[at.0].Leaves()[at.1]
  }

  /** The suppression leaves among the first `n` of panel `p`. */
  function PanelPositions(p: nat, leaves: seq<Leaf>, n: nat): seq<Position>
    requires n <= |leaves|
  {
    if n == 0 then []
    else if leaves[n - 1].kind == SuppressionLeaf then PanelPositions(p, leaves, n - 1) + [(p, n - 1)]
    else PanelPositions(p, leaves, n - 1)
  }

  function Positions(panels: seq<Panel>): seq<Position> {
    if panels == [] then []
    else
      var p := |panels| - 1;
      Positions(panels[..p]) + PanelPositions(p, panels[p].Leaves(), |panels[p].Leaves()|)
  }

  ghost predicate IsSuppressionLeaf(panels: seq<Panel>, at: Position) {
    at.0 < |panels| && at.1 < |panels[at.0].Leaves()| && LeafAt(panels, at).kind == SuppressionLeaf
  }

  lemma {:induction false} PanelPositionsExact(p: nat, leaves: seq<Leaf>, n: nat, at: Position)
    requires n <= |leaves|
    ensures at in PanelPositions(p, leaves, n) <==> at.0 == p && at.1 < n && leaves[at.1].kind == SuppressionLeaf
  {
    if n > 0 {
      PanelPositionsExact(p, leaves, n - 1, at);
    }
  }

  /** The listed positions are exactly those of the panels' suppression leaves. */
  lemma {:induction false} PositionsExact(panels: seq<Panel>, at: Position)
    ensures at in Positions(panels) <==> IsSuppressionLeaf(panels, at)
  {
    if panels != [] {
      var p := |panels| - 1;
      PositionsExact(panels[..p], at);
      PanelPositionsExact(p, panels[p].Leaves(), |panels[p].Leaves()|, at);
    }
  }

  /** The suppression leaves matching one row, by their place in the list. */
  ghost function Mask(panels: seq<Panel>, row: Row): set<nat> {
    var leaves := Positions(panels);
    set k | 0 <= k < |leaves| && IsSuppressionLeaf(panels, leaves[k]) && LeafAt(panels, leaves[k]).matches(Bare(row))
  }

  class SuppressionAccumulator {
    const panels: seq<Panel>
    const leaves: seq<Position>
    const panelMasks: seq<set<nat>>
    var matches: seq<nat>
    var total: nat
    var activeMask: set<nat>

    /** Every row added so far. */
    ghost var rows: seq<Row>

    /** The counters are those of the rows. */
    ghost predicate Counting()
      reads this
    {
      && leaves == Positions(panels)
      && (forall k :: 0 <= k < |leaves| ==> IsSuppressionLeaf(panels, leaves[k]))
      && |panelMasks| == |panels|
      && (forall p :: 0 <= p < |panels| ==> panelMasks[p] == set k | 0 <= k < |leaves| && leaves[k].0 == p)
      && |matches| == |leaves|
      && total == |rows|
      && forall k :: 0 <= k < |leaves| ==> matches[k] == |MatchedRows(rows, LeafAt(panels, leaves[k]))|
    }

    /** `Counting`, folded away from callers that only carry it along. */
    ghost predicate Valid()
      reads this
    {
      forall n: nat :: Look(n) && n == total ==> Counting()
    }

    /** `activeMask` holds the leaves that the guard lets through. */
    ghost predicate Finished()
      reads this
    {
      Counting() && activeMask == set k | 0 <= k < |leaves| && !Guarded(rows, LeafAt(panels, leaves[k]))
    }

    constructor (panels: seq<Panel>)
      ensures Valid() && rows == [] && this.panels == panels && activeMask == {}
    {
      var listed := Positions(panels);
      this.panels := panels;
      leaves := listed;
      panelMasks := seq(|panels|, p => set k | 0 <= k < |listed| && listed[k].0 == p);
      matches := seq(|listed|, _ => 0);
      total, activeMask, rows := 0, {}, [];
      new;
      forall k | 0 <= k < |leaves| ensures IsSuppressionLeaf(panels, leaves[k]) {
        PositionsExact(panels, leaves[k]);
      }
      forall k | 0 <= k < |leaves| ensures MatchedRows([], LeafAt(panels, leaves[k])) == {} {}
    }

    method Add(row: Row) returns (mask: set<nat>, hidden: bool)
      requires Valid()
      modifies this`matches, this`total, this`rows
      ensures Valid() && rows == old(rows) + [row]
      ensures mask == Mask(panels, row) && hidden == Hidden(panels, row)
    {
      assert Look(total);
      total := total + 1;
      mask := {};
      for k := 0 to |leaves|
        invariant |matches| == |leaves| && total == |rows| + 1 && rows == old(rows)
        invariant mask == set l | 0 <= l < k && LeafAt(panels, leaves[l]).matches(Bare(row))
        invariant forall l :: 0 <= l < |leaves| ==> matches[l] == old(matches)[l] + if l in mask then 1 else 0
      {
        if LeafAt(panels, leaves[k]).matches(Bare(row)) {
          mask := mask + {k};
          matches := matches[k := matches[k] + 1];
        }
      }
      hidden := Hidden(panels, row);
      rows := rows + [row];
      forall k | 0 <= k < |leaves| ensures matches[k] == |MatchedRows(rows, LeafAt(panels, leaves[k]))| {
        OneMoreRow(old(rows), row, LeafAt(panels, leaves[k]));
      }
    }

    method Finish()
      requires Valid() && activeMask == {}
      modifies this`activeMask
      ensures Valid() && Finished()
    {
      assert Look(total);
      for k := 0 to |leaves|
        invariant activeMask == set l | 0 <= l < k && !Guarded(rows, LeafAt(panels, leaves[l]))
      {
        if !(total != 0 && 2 * matches[k] > total) {
          activeMask := activeMask + {k};
        }
      }
    }

    /** `suppressed`: some active leaf of every panel is in the mask. */
    predicate IsSuppressed(mask: set<nat>)
      reads this
    {
      panelMasks != [] && forall p :: 0 <= p < |panelMasks| ==> mask * panelMasks[p] * activeMask != {}
    }

    lemma {:induction false} MaskExcludes(row: Row, p: nat)
      requires Finished() && p < |panels| && Mask(panels, row) * panelMasks[p] * activeMask != {}
      ensures Excludes(rows, panels[p], row)
    {
      var k :| k in Mask(panels, row) * panelMasks[p] * activeMask;
      assert ExcludesAt(rows, panels[p].Leaves()[leaves[k].1], row);
    }

    lemma {:induction false} ExcludedIsMasked(row: Row, p: nat)
      requires Finished() && p < |panels| && Excludes(rows, panels[p], row)
      ensures Mask(panels, row) * panelMasks[p] * activeMask != {}
    {
      var own := panels[p].Leaves();
      var j: nat :| j < |own| && ExcludesAt(rows, own[j], row);
      PositionsExact(panels, (p, j));
      var k :| 0 <= k < |leaves| && leaves[k] == (p, j);
      assert k in Mask(panels, row) && k in panelMasks[p];
      assert k in Mask(panels, row) * panelMasks[p] * activeMask;
    }

    lemma {:induction false} ExcludedByMask(row: Row, p: nat)
      requires Finished() && p < |panels|
      ensures Mask(panels, row) * panelMasks[p] * activeMask != {} <==> Excludes(rows, panels[p], row)
    {
      if Mask(panels, row) * panelMasks[p] * activeMask != {} {
        MaskExcludes(row, p);
      }
      if Excludes(rows, panels[p], row) {
        ExcludedIsMasked(row, p);
      }
    }

    /** The answer late-bound at the end is the one the whole schema's rows give. */
    lemma {:induction false} SuppressedByMask(row: Row)
      requires Finished()
      ensures IsSuppressed(Mask(panels, row)) <==> Suppressed(rows, panels, row)
    {
      forall p | 0 <= p < |panels|
        ensures Mask(panels, row) * panelMasks[p] * activeMask != {} <==> Excludes(rows, panels[p], row)
      {
        ExcludedByMask(row, p);
      }
    }
  }

  lemma {:induction false} OneMoreRow(rows: seq<Row>, row: Row, leaf: Leaf)
    ensures |MatchedRows(rows + [row], leaf)| == |MatchedRows(rows, leaf)| + if leaf.matches(Bare(row)) then 1 else 0
  {
    var more := if leaf.matches(Bare(row)) then {|rows|} else {};
    assert MatchedRows(rows + [row], leaf) == MatchedRows(rows, leaf) + more;
  }
}
