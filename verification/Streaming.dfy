/**
 The streaming weekly analysis of one schema: every row is seen once, in time order, and only
 representatives, counters and signatures are kept (`src/run/streaming.py:113-317`).
 */
module Streaming {
  import opened Text
  import opened Normalize
  import opened RowSets
  import opened Window
  import opened Metrics
  import opened Firing
  import opened FiringStream
  import opened Rules
  import opened Suppression
  import opened Analysis
  import StreamState
  import opened StreamIdentities
  import Finishing
  import RuleTables
  import opened Tallies

  datatype ScopeDay = ScopeDay(count: nat, scopes: set<Scope>, nodes: set<NodeScope>, nodeScopes: set<Scope>)

  /** The ValueErrors `add` raises. */
  datatype Refusal = AnalysisFinished | OutsideWindow | OutOfOrder

  ghost predicate ScopeMatches(s: ScopeDay, rows: seq<Row>, d: int) {
    && s.count == |Where(rows, Dated(d))|
    && s.scopes == Values(rows, Dated(d), ScopeOf)
    && s.nodes == Values(rows, DatedNamed(d), NodeOf)
    && s.nodeScopes == Values(rows, DatedNamed(d), ScopeOf)
  }

  function ScopeAfter(s: ScopeDay, row: Row): ScopeDay {
    ScopeDay(s.count + 1, s.scopes + {ScopeOf(row)},
             if HasNodeName(row) then s.nodes + {NodeOf(row)} else s.nodes,
             if HasNodeName(row) then s.nodeScopes + {ScopeOf(row)} else s.nodeScopes)
  }

  lemma {:induction false} ScopeStep(s: ScopeDay, rows: seq<Row>, row: Row, d: int)
    requires ScopeMatches(s, rows, d)
    ensures ScopeMatches(if row.date == d then ScopeAfter(s, row) else s, rows + [row], d)
  {
    WhereAppend(rows, row, Dated(d));
    ValuesAppend(rows, row, Dated(d), ScopeOf);
    ValuesAppend(rows, row, DatedNamed(d), NodeOf);
    ValuesAppend(rows, row, DatedNamed(d), ScopeOf);
  }

  class SchemaAccumulator {
    const schema: Schema
    const window: RunWindow
    const env: Env
    const visibility: SuppressionAccumulator
    var identities: map<string, StreamIdentity>
    var scopes: map<int, ScopeDay>
    var rowCount: nat
    var lastAt: Option<int>
    var finished: bool

    /** Every row added so far, its document hash filled in. */
    ghost var rows: seq<Row>

    /** The objects behind the identities. */
    ghost var parts: set<object>

    ghost predicate Owned()
      reads this`identities, this`parts
    {
      && this !in parts && visibility !in parts
      && forall id :: id in identities ==> identities[id] in parts && identities[id].firing in parts
    }

    /** No two identities share an object. */
    ghost predicate Separate()
      reads this`identities
    {
      forall a, b :: a in identities && b in identities && a != b ==>
        identities[a] != identities[b] && identities[a].firing != identities[b].firing
    }

    ghost predicate RowsInWindow()
      reads this`rows
    {
      && IsRunWindow(window, window.runAt)
      && Chronological(rows)
      && forall i :: 0 <= i < |rows| ==>
           rows[i].schema == schema && window.Contains(rows[i].at) && rows[i].date == UtcDate(rows[i].at)
    }

    /** The counters and the per-date scopes are those of the rows. */
    ghost predicate Counts()
      reads this`rows, this`rowCount, this`lastAt, this`scopes
    {
      && rowCount == |rows|
      && lastAt == (if rows == [] then None else Some(rows[|rows| - 1].at))
      && ScopesMatch(scopes, rows)
    }

    /** One scope for each date of the window. */
    ghost predicate ScopesMatch(s: map<int, ScopeDay>, all: seq<Row>) {
      && (forall d :: d in s <==> d in window.Dates())
      && forall d :: d in s ==> ScopeMatches(s[d], all, d)
    }

    lemma {:induction false} ScopesStep(s: map<int, ScopeDay>, all: seq<Row>, row: Row)
      requires ScopesMatch(s, all) && row.date in s
      ensures ScopesMatch(s[row.date := ScopeAfter(s[row.date], row)], all + [StreamState.Hashed(env.sha, row)])
    {
      forall d | d in s {
        ScopeStep(s[d], all, StreamState.Hashed(env.sha, row), d);
      }
    }

    ghost predicate SeesAll()
      reads this`rows, visibility
    {
      visibility.Valid() && visibility.panels == env.panels && BareAlike(visibility.rows, rows)
    }

    ghost predicate IdentitiesExact()
      reads this`rows, this`identities
    {
      forall id :: id in identities <==> Mine(rows, id) != []
    }

    ghost predicate TracksAll()
      reads this`rows, this`identities, this`parts, parts
    {
      Owned() && forall id :: id in identities ==> identities[id].Tracks(env, rows, id)
    }

    /** The identities' side of the state, folded away from callers that only carry it along. */
    ghost predicate Tracking()
      reads this`rows, this`identities, this`parts, parts, visibility
    {
      forall all: seq<Row> :: Look(all) && all == rows ==> Separate() && IdentitiesExact() && TracksAll() && SeesAll()
    }

    ghost predicate DoneAll()
      reads this`rows, this`identities, this`parts, parts
    {
      Owned() && forall id :: id in identities ==> identities[id].Done(env, rows, id)
    }

    ghost predicate Valid()
      reads this, visibility, parts
    {
      && RowsInWindow() && Counts()
      && (if finished then Separate() && IdentitiesExact() && DoneAll() && SeesAll()
          else Tracking() && visibility.activeMask == {} && this !in parts && visibility !in parts)
    }

    constructor (schema: Schema, window: RunWindow, env: Env)
      requires IsRunWindow(window, window.runAt)
      ensures Valid() && fresh(visibility) && rows == [] && !finished && parts == {}
      ensures this.schema == schema && this.window == window && this.env == env
    {
      this.schema, this.window, this.env := schema, window, env;
      identities := map[];
      scopes := map d | d in window.Dates() :: ScopeDay(0, {}, {}, {});
      visibility := new SuppressionAccumulator(env.panels);
      rowCount, lastAt, finished, rows, parts := 0, None, false, [], {};
      new;
      forall d | d in scopes ensures ScopeMatches(scopes[d], rows, d) {
        assert Where([], Dated(d)) == {};
      }
    }

    // ----- one row

    ghost predicate OthersTrack(id0: string)
      reads this`rows, this`identities, this`parts, parts
    {
      Owned() && forall id :: id in identities && id != id0 ==> identities[id].Tracks(env, rows, id)
    }

    /** `add`: the reason a row is refused, or None where it is taken. */
    method Add(row: Row) returns (refused: Option<Refusal>)
      requires Valid() && row.date == UtcDate(row.at)
      modifies this, visibility, parts
      ensures Valid() && finished == old(finished)
      ensures refused ==
        if old(finished) then Some(AnalysisFinished)
        else if row.schema != schema || !window.Contains(row.at) then Some(OutsideWindow)
        else if old(rows) != [] && row.at < old(rows)[|old(rows)| - 1].at then Some(OutOfOrder)
        else None
      ensures rows == if refused.Some? then old(rows) else old(rows) + [StreamState.Hashed(env.sha, row)]
      ensures fresh(parts - old(parts))
    {
      if finished {
        return Some(AnalysisFinished);
      }
      if row.schema != schema || !window.Contains(row.at) {
        return Some(OutsideWindow);
      }
      if lastAt.Some? && row.at < lastAt.value {
        return Some(OutOfOrder);
      }
      Take(row);
      return None;
    }

    method Take(row: Row)
      requires Valid() && !finished && row.date == UtcDate(row.at)
      requires row.schema == schema && window.Contains(row.at) && ChronologicalWith(rows, row)
      modifies this, visibility, parts
      ensures Valid() && !finished
      ensures rows == old(rows) + [StreamState.Hashed(env.sha, row)]
      ensures fresh(parts - old(parts))
    {
      Advance(row);
      CountScope(row, old(rows));
    }

    /** The counters and the row itself, but not yet its scope. */
    method Advance(row: Row)
      requires Tracking() && RowsInWindow() && rowCount == |rows| && this !in parts && visibility !in parts
      requires row.schema == schema && window.Contains(row.at) && row.date == UtcDate(row.at) && ChronologicalWith(rows, row)
      modifies this`lastAt, this`rowCount, this`identities, this`parts, this`rows, parts
      modifies visibility`matches, visibility`total, visibility`rows
      ensures rows == old(rows) + [StreamState.Hashed(env.sha, row)] && fresh(parts - old(parts))
      ensures Tracking() && RowsInWindow() && this !in parts && visibility !in parts
      ensures rowCount == |rows| && lastAt == Some(row.at)
    {
      lastAt := Some(row.at);
      var ordinal := rowCount;
      rowCount := rowCount + 1;
      Admit(row, ordinal);
    }

    /** The identity's side of a row, and the row itself taken into the history. */
    method Admit(row: Row, ordinal: nat)
      requires Tracking() && ordinal == |rows| && ChronologicalWith(rows, row) && this !in parts && visibility !in parts
      modifies this`identities, this`parts, this`rows, parts
      modifies visibility`matches, visibility`total, visibility`rows
      ensures rows == old(rows) + [StreamState.Hashed(env.sha, row)]
      ensures Tracking() && this !in parts && visibility !in parts
      ensures fresh(parts - old(parts))
    {
      assert Look(rows);
      var identity, seen := IdentityFor(row, ordinal);
      Land(identity, row, seen, ordinal);
    }

    method MakeIdentity(row: Row, ordinal: nat) returns (identity: StreamIdentity)
      requires Mine(rows, row.identity) == [] && ordinal == |rows|
      ensures fresh(identity) && fresh(identity.firing) && identity.Poised(env, rows, row)
    {
      StreamState.PoiseNew(env, rows, row, row.identity);
      identity := new StreamIdentity(row, ordinal);
    }

    /** The row joins the history; the other identities stand as they did. */
    ghost method TakeIn(row: Row)
      requires OthersTrack(row.identity) && IdentitiesExactWith(row.identity)
      requires identities[row.identity].Tracks(env, rows + [StreamState.Hashed(env.sha, row)], row.identity)
      requires visibility.Valid() && visibility.panels == env.panels
      requires BareAlike(visibility.rows, rows + [StreamState.Hashed(env.sha, row)])
      modifies this`rows
      ensures rows == old(rows) + [StreamState.Hashed(env.sha, row)]
      ensures IdentitiesExact() && TracksAll() && SeesAll()
    {
      var before, h := rows, StreamState.Hashed(env.sha, row);
      rows := rows + [h];
      forall id ensures Mine(rows, id) != [] <==> Mine(before, id) != [] || id == row.identity {
        StreamState.MineAppend(before, h, id);
      }
      forall id | id in identities && id != row.identity ensures identities[id].Tracks(env, rows, id) {
        StillTracks(env, identities[id], before, h, id);
      }
    }

    /** The row observed by its identity, and taken in. */
    method Land(identity: StreamIdentity, row: Row, seen: Row, ordinal: nat)
      requires Separate() && OthersTrack(row.identity) && SeesAll() && ordinal == |rows|
      requires IdentitiesExactWith(row.identity) && identities[row.identity] == identity
      requires identity.Poised(env, rows, row) && ChronologicalWith(rows, row)
      requires seen == row || seen == StreamState.Hashed(env.sha, row)
      modifies this`rows, identity`days, identity`samples, identity.firing
      modifies visibility`matches, visibility`total, visibility`rows
      ensures rows == old(rows) + [StreamState.Hashed(env.sha, row)]
      ensures IdentitiesExact() && TracksAll() && SeesAll()
    {
      Observe(identity, row, seen, ordinal);
      TakeIn(row);
    }

    method Observe(identity: StreamIdentity, row: Row, seen: Row, ordinal: nat)
      requires Separate() && OthersTrack(row.identity) && SeesAll() && ordinal == |rows|
      requires row.identity in identities && identities[row.identity] == identity
      requires identity.Poised(env, rows, row) && ChronologicalWith(rows, row)
      requires seen == row || seen == StreamState.Hashed(env.sha, row)
      modifies identity`days, identity`samples, identity.firing
      modifies visibility`matches, visibility`total, visibility`rows
      ensures OthersTrack(row.identity)
      ensures identity.Tracks(env, rows + [StreamState.Hashed(env.sha, row)], row.identity)
      ensures visibility.Valid() && visibility.panels == env.panels
      ensures BareAlike(visibility.rows, rows + [StreamState.Hashed(env.sha, row)])
    {
      identity.Land(env, row, seen, ordinal, visibility, rows);
    }

    /** `id0` has an object too, its first row being on the way. */
    ghost predicate IdentitiesExactWith(id0: string)
      reads this`rows, this`identities
    {
      id0 in identities && forall id :: id in identities <==> Mine(rows, id) != [] || id == id0
    }

    /** The diagnostic counts of the row's date. A date in the window is always there. */
    method CountScope(row: Row, ghost before: seq<Row>)
      requires RowsInWindow() && window.Contains(row.at) && row.date == UtcDate(row.at)
      requires rows == before + [StreamState.Hashed(env.sha, row)] && rowCount == |rows| && lastAt == Some(row.at)
      requires ScopesMatch(scopes, before)
      modifies this`scopes
      ensures Counts()
    {
      DateHasBucket(window, row.at);
      ScopesStep(scopes, before, row);
      var day := scopes[row.date];
      var scope := (row.application, OrEmpty(row.component));
      day := day.(count := day.count + 1, scopes := day.scopes + {scope});
      if row.nodeName.Some? && !IsBlank(row.nodeName.value) {
        day := day.(nodes := day.nodes + {(scope.0, scope.1, row.nodeName.value)}, nodeScopes := day.nodeScopes + {scope});
      }
      scopes := scopes[row.date := day];
    }

    /** The identity's object, made on its first row, with its representative brought up to date. */
    method IdentityFor(row: Row, ordinal: nat) returns (identity: StreamIdentity, seen: Row)
      requires Separate() && IdentitiesExact() && TracksAll() && ordinal == |rows|
      modifies this`identities, this`parts, parts
      ensures Separate() && OthersTrack(row.identity)
      ensures IdentitiesExactWith(row.identity) && identities[row.identity] == identity && fresh(parts - old(parts))
      ensures seen == row || seen == StreamState.Hashed(env.sha, row)
      ensures identity.Poised(env, rows, row)
    {
      if row.identity in identities {
        identity := identities[row.identity];
        seen := KnownIdentity(identity, row);
      } else {
        identity, seen := NewIdentity(row, ordinal);
      }
    }

    method KnownIdentity(identity: StreamIdentity, row: Row) returns (seen: Row)
      requires Separate() && TracksAll() && row.identity in identities && identities[row.identity] == identity
      modifies identity`representative
      ensures OthersTrack(row.identity)
      ensures seen == row || seen == StreamState.Hashed(env.sha, row)
      ensures identity.Poised(env, rows, row)
    {
      assert identity.Tracks(env, rows, row.identity);
      StreamState.PoiseKnown(env, identity.State(), rows, row, row.identity);
      seen := identity.MeetRow(env.sha, row);
    }

    method NewIdentity(row: Row, ordinal: nat) returns (identity: StreamIdentity, seen: Row)
      requires Separate() && IdentitiesExact() && TracksAll() && ordinal == |rows| && row.identity !in identities
      modifies this`identities, this`parts
      ensures IdentitiesExactWith(row.identity) && identities[row.identity] == identity && fresh(parts - old(parts))
      ensures Separate() && OthersTrack(row.identity)
      ensures seen == row
      ensures identity.Poised(env, rows, row)
    {
      identity := MakeIdentity(row, ordinal);
      Enter(identity, row.identity);
      seen := row;
    }

    method Enter(identity: StreamIdentity, id: string)
      requires Separate() && IdentitiesExact() && TracksAll() && id !in identities
      requires identity !in parts && identity.firing !in parts
      modifies this`identities, this`parts
      ensures Separate() && OthersTrack(id) && IdentitiesExactWith(id) && identities[id] == identity
      ensures parts == old(parts) + {identity, identity.firing}
    {
      identities := identities[id := identity];
      parts := parts + {identity, identity.firing};
    }

    // ----- after the last row

    /** `finish`: False where the analysis was finished before. */
    method Finish() returns (ok: bool)
      requires Valid()
      modifies this`finished, visibility`activeMask, parts
      ensures Valid() && finished && ok == !old(finished)
    {
      if finished {
        return false;
      }
      assert Look(rows);
      finished := true;
      visibility.Finish();
      FinishAll();
      return true;
    }

    /** Suppression is settled. */
    ghost predicate Settled()
      reads this`rows, visibility
    {
      visibility.Finished() && visibility.panels == env.panels && BareAlike(visibility.rows, rows)
    }

    /** The identities in `todo` still stand for the rows; the others report on them. */
    ghost predicate HalfDone(todo: set<string>)
      reads this`rows, this`identities, this`parts, parts
    {
      Owned() && forall id :: id in identities ==>
        if id in todo then identities[id].Tracks(env, rows, id) else identities[id].Done(env, rows, id)
    }

    method FinishAll()
      requires Separate() && TracksAll() && Settled()
      modifies parts
      ensures DoneAll()
    {
      var todo := identities.Keys;
      while todo != {}
        invariant todo <= identities.Keys && HalfDone(todo) && Settled()
        decreases todo
      {
        var id :| id in todo;
        FinishOne(id, todo);
        todo := todo - {id};
      }
    }

    method FinishOne(id: string, ghost todo: set<string>)
      requires Separate() && HalfDone(todo) && Settled() && id in identities && id in todo
      modifies parts
      ensures HalfDone(todo - {id}) && Settled()
    {
      var identity := identities[id];
      identity.Finish(env, visibility, rows, id);
    }

    // ----- what is reported

    lemma {:induction false} EveryRowHasIdentity()
      requires IdentitiesExact()
      ensures forall i :: 0 <= i < |rows| ==> rows[i].identity in identities
    {
      forall i | 0 <= i < |rows| ensures rows[i].identity in identities {
        MineIsPresent(rows, rows[i].identity);
      }
    }

    lemma {:induction false} DatesInScope(id: string)
      requires id in identities && RowsInWindow() && Counts() && DoneAll()
      ensures identities[id].days.Keys <= scopes.Keys
      ensures Finishing.DaysDone(env, identities[id].days, rows, id)
    {
      assert Look(id);
      assert identities[id].Judged(env, rows, id);
      forall d | d in identities[id].days ensures d in scopes {
        var i :| i in Where(rows, StreamState.OnDay(id, d));
        DateHasBucket(window, rows[i].at);
      }
    }

    lemma {:induction false} DaysAreDone(id: string)
      requires id in identities && DoneAll()
      ensures Finishing.DaysDone(env, identities[id].days, rows, id)
    {
      assert Look(id);
    }

    /** One stored finding row per identity. */
    method ReportOn(id: string) returns (report: Report)
      requires DoneAll() && Chronological(rows) && id in identities
      ensures IsReport(env, rows, id, report)
    {
      report := identities[id].MakeReport(env, rows, id);
    }

    /** Rows and identities of each date that a counter counts: the flagged, suppressed or unseen ones. */
    method DailyTotals(k: Counter) returns (t: DayTotals)
      requires Valid() && finished
      ensures t.Keys == scopes.Keys
      ensures forall d :: d in t ==> t[d] == (RowsWith(rows, d, CountedRow(k, env, rows)),
                                              IdentitiesWith(rows, d, CountedRow(k, env, rows)))
    {
      ghost var q := CountedRow(k, env, rows);
      t := map d | d in scopes :: (0, 0);
      NothingTotalled(t, rows, q);
      var todo := identities.Keys;
      while todo != {}
        invariant todo <= identities.Keys && t.Keys == scopes.Keys
        invariant TotalsAmong(t, rows, identities.Keys - todo, q)
        decreases todo
      {
        ghost var some := MemberOf(todo);
        var id :| id in todo;
        DatesInScope(id);
        t := AddIdentityDays(t, identities[id].days, k, env, rows, identities.Keys - todo, id);
        Remaining(identities.Keys, todo, id);
        todo := todo - {id};
      }
      EveryRowHasIdentity();
      assert identities.Keys - {} == identities.Keys;
      AllTotalled(t, rows, identities.Keys, q);
    }

    /** `daily_visibility`: rows of each date that a counter counts. */
    method DailyVisibility(k: Counter) returns (t: map<int, nat>)
      requires Valid() && finished
      ensures t.Keys == scopes.Keys
      ensures forall d :: d in t ==> t[d] == RowsWith(rows, d, CountedRow(k, env, rows))
    {
      var totals := DailyTotals(k);
      t := map d | d in totals :: totals[d].0;
    }

    /** `daily_rules`: rows and identities for each rule and date, dates outermost. */
    method DailyRules() returns (table: seq<RuleBucketCount>)
      requires Valid() && finished
      ensures table == Tabulate(window.Dates(), ALL_RULE_IDS, RuleTotals(env, rows))
      ensures RuleTables.IsRuleTable(env, rows, window.Dates(), table)
    {
      var totals: RuleTotalsMap := map[];
      NoRuleTotalled(env, rows);
      var todo := identities.Keys;
      assert identities.Keys - todo == {};
      while todo != {}
        invariant todo <= identities.Keys
        invariant RuleTotalsAmong(totals, env, rows, identities.Keys - todo)
        decreases todo
      {
        ghost var some := MemberOf(todo);
        var id :| id in todo;
        DaysAreDone(id);
        totals := AddIdentityRules(totals, identities[id].days, env, rows, identities.Keys - todo, id);
        Remaining(identities.Keys, todo, id);
        todo := todo - {id};
      }
      EveryRowHasIdentity();
      assert identities.Keys - {} == identities.Keys;
      AllRulesTotalled(totals, env, rows, identities.Keys);
      RuleTables.ListingIsTable(env, rows, window.Dates());
      table := Tabulate(window.Dates(), ALL_RULE_IDS, totals);
    }

    /** `daily_volume`: the figures of every bucket, from the scopes and the identities' dates. */
    method DailyVolumes() returns (daily: seq<DailyVolume>)
      requires Valid() && finished
      ensures IsDailyVolume(daily, rows, window.buckets)
    {
      var distinct := Distinct();
      daily := [];
      for k := 0 to |window.buckets|
        invariant |daily| == k && forall j :: 0 <= j < k ==> daily[j] == VolumeOf(rows, window.buckets[j])
      {
        var volume := BucketVolume(k, distinct);
        daily := daily + [volume];
      }
    }

    method BucketVolume(k: nat, distinct: map<int, nat>) returns (volume: DailyVolume)
      requires RowsInWindow() && Counts() && k < |window.buckets|
      requires distinct.Keys == scopes.Keys && forall d :: d in distinct ==> distinct[d] == |Values(rows, Dated(d), IdentityOfRow)|
      ensures volume == VolumeOf(rows, window.buckets[k])
    {
      var bucket := window.buckets[k];
      assert window.Dates()[k] == bucket.date;
      var day := scopes[bucket.date];
      var keys := distinct[bucket.date];
      volume := DailyVolume(bucket, day.count, keys, |day.nodes|, |day.nodeScopes|, keys, |day.scopes|);
    }

    method Distinct() returns (t: map<int, nat>)
      requires Valid() && finished
      ensures t.Keys == scopes.Keys
      ensures forall d :: d in t ==> t[d] == |Values(rows, Dated(d), IdentityOfRow)|
    {
      t := map d | d in scopes :: 0;
      NobodyPresent(t, rows);
      var todo := identities.Keys;
      assert identities.Keys - todo == {};
      while todo != {}
        invariant todo <= identities.Keys && t.Keys == scopes.Keys
        invariant PresentAmong(t, rows, identities.Keys - todo)
        decreases todo
      {
        ghost var some := MemberOf(todo);
        var id :| id in todo;
        DatesInScope(id);
        t := AddIdentityPresence(t, identities[id].days, rows, identities.Keys - todo, id);
        Remaining(identities.Keys, todo, id);
        todo := todo - {id};
      }
      EveryRowHasIdentity();
      assert identities.Keys - {} == identities.Keys;
      forall d | d in t {
        EverybodyPresent(t, rows, identities.Keys, d);
      }
    }
  }

  lemma {:induction false} StillTracks(env: Env, x: StreamIdentity, rows: seq<Row>, row: Row, id: string)
    requires x.Tracks(env, rows, id) && row.identity != id
    ensures x.Tracks(env, rows + [row], id)
  {
    StreamState.KeptUntouched(env, x.State(), rows, row, id);
    StreamState.MineAppend(rows, row, id);
  }

  lemma {:induction false} DateHasBucket(w: RunWindow, at: int)
    requires IsRunWindow(w, w.runAt) && w.Contains(at)
    ensures UtcDate(at) in w.Dates()
  {
    EveryInstantHasItsBucket(w, w.runAt, at);
    assert w.Dates()[UtcDate(at) - UtcDate(w.start)] == UtcDate(at);
  }
}
