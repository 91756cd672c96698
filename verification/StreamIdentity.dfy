/** One identity of the streaming analysis: fed row by row, then finished (`src/run/streaming.py:47-110, 186-260`). */
module StreamIdentities {
  import opened Text
  import opened Hashing
  import opened Normalize
  import opened RowSets
  import opened Firing
  import opened FiringStream
  import opened Rules
  import opened Suppression
  import opened Analysis
  import StreamState
  import opened Finishing

  type IdentityDay = StreamState.IdentityDay
  type Samples = StreamState.Samples
  type Signature = StreamState.Signature
  type Live = StreamState.Live

  /** The accumulator's rows, up to document hashes, are `rows`. */
  ghost predicate BareAlike(a: seq<Row>, b: seq<Row>) {
    |a| == |b| && forall i :: 0 <= i < |a| ==> Bare(a[i]) == Bare(b[i])
  }

  lemma {:induction false} SuppressedOfBare(a: seq<Row>, b: seq<Row>, panels: seq<Panel>, row: Row)
    requires BareAlike(a, b)
    ensures Suppressed(a, panels, row) <==> Suppressed(b, panels, row)
  {
    forall leaf: Leaf ensures ExcludesAt(a, leaf, row) <==> ExcludesAt(b, leaf, row) {
      assert MatchedRows(a, leaf) == MatchedRows(b, leaf);
    }
    forall p | 0 <= p < |panels| ensures Excludes(a, panels[p], row) <==> Excludes(b, panels[p], row) {}
  }

  ghost predicate ChronologicalWith(rows: seq<Row>, row: Row) {
    Chronological(rows) && (rows == [] || rows[|rows| - 1].at <= row.at)
  }

  /** The firing history of an identity ends no later than the rows do. */
  lemma {:induction false} NotBefore(own: seq<Row>, rows: seq<Row>, id: string, row: Row)
    requires Events(own) == Events(Mine(rows, id)) && ChronologicalWith(rows, row)
    ensures own == [] || own[|own| - 1].at <= row.at
  {
    if own != [] {
      var n := |own| - 1;
      assert |Events(own)| == |Events(Mine(rows, id))|;
      assert Events(own)[n] == Events(Mine(rows, id))[n];
      MineIsPresent(rows, id);
      var i :| 0 <= i < |rows| && rows[i] == Mine(rows, id)[n];
    }
  }

  lemma {:induction false} EventsStep(env: Env, own: seq<Row>, rows: seq<Row>, row: Row, seen: Row)
    requires Events(own) == Events(Mine(rows, row.identity))
    requires seen == row || seen == StreamState.Hashed(env.sha, row)
    ensures Events(own + [seen]) == Events(Mine(rows + [StreamState.Hashed(env.sha, row)], row.identity))
  {
    var h := StreamState.Hashed(env.sha, row);
    StreamState.MineAppend(rows, h, row.identity);
    EventsAppend(own, seen);
    EventsAppend(Mine(rows, row.identity), h);
  }

  class StreamIdentity {
    var representative: Row
    var firstSeen: int
    var firstOrdinal: nat
    var days: map<int, IdentityDay>
    var samples: Samples
    var coreRuleIds: seq<RuleId>
    var readinessRuleIds: seq<RuleId>
    const firing: FiringAccumulator
    var clearCount: nat
    var maxClearCycles24h: nat
    var maxEpisodeFiringRows: nat
    var openSince: Option<int>
    var firePattern: Option<Pattern>
    var unseen: Option<bool>

    ghost function State(): Live
      reads this
    {
      StreamState.Live(representative, firstSeen, firstOrdinal, days, samples)
    }

    /** While rows arrive: the object stands for the identity's part of `rows`. */
    ghost predicate Tracks(env: Env, rows: seq<Row>, id: string)
      reads this, firing
    {
      && StreamState.LiveKept(env, State(), rows, id)
      && firing.Valid()
      && Events(firing.rows) == Events(Mine(rows, id))
    }

    constructor (row: Row, ordinal: nat)
      ensures State() == StreamState.LiveFirst(row, ordinal)
      ensures fresh(firing) && firing.Valid() && firing.rows == []
    {
      representative, firstSeen, firstOrdinal := row, row.at, ordinal;
      days, samples := map[], StreamState.Samples(map[], map[]);
      coreRuleIds, readinessRuleIds := [], [];
      firing := new FiringAccumulator();
      clearCount, maxClearCycles24h, maxEpisodeFiringRows := 0, 0, 0;
      openSince, firePattern, unseen := None, None, None;
    }

    /** The representative moves on; hashes are computed only on a tie. `seen` is the row, hashed if that was needed. */
    method MeetRow(sha: Json -> string, row: Row) returns (seen: Row)
      modifies this`representative
      ensures representative == StreamState.NextRepresentative(sha, old(representative), row)
      ensures seen == row || seen == StreamState.Hashed(sha, row)
    {
      seen := row;
      if row.at > representative.at {
        representative := row;
      } else if row.at == representative.at {
        if representative.docHash == "" {
          representative := representative.(docHash := sha(representative.source));
        }
        if seen.docHash == "" {
          seen := seen.(docHash := sha(seen.source));
        }
        if Less(seen.docHash, representative.docHash) {
          representative := seen;
        }
      }
    }

    method Record(finding: Finding, ordinal: nat, count: nat)
      modifies this`samples
      ensures samples == StreamState.Record(old(samples), finding, ordinal, count)
    {
      var rule := finding.rule;
      if rule !in samples.of {
        samples := StreamState.Samples(samples.of[rule := StreamState.Sample(count, finding.evidence)],
                                       samples.order[rule := (ordinal, EvidenceOrder(rule))]);
      } else {
        var sample := samples.of[rule];
        samples := samples.(of := samples.of[rule := sample.(matchedRows := sample.matchedRows + count)]);
      }
    }

    /** Findings of one row, counted on its day and recorded as samples. */
    method Take(findings: seq<Finding>, date: int, ordinal: nat)
      modifies this`days, this`samples
      ensures samples == StreamState.RecordAll(old(samples), findings, ordinal)
      ensures var day := if date in old(days) then old(days)[date] else StreamState.NO_ROWS;
        days == old(days)[date := day.(count := day.count + 1, rules := StreamState.Counted(day.rules, findings))]
    {
      var day := if date in days then days[date] else StreamState.NO_ROWS;
      var rules := day.rules;
      for i := 0 to |findings|
        invariant rules == StreamState.Counted(day.rules, findings[..i])
        invariant samples == StreamState.RecordAll(old(samples), findings[..i], ordinal)
        invariant days == old(days)
      {
        var rule := findings[i].rule;
        assert findings[..i + 1][..i] == findings[..i];
        rules := rules[rule := (if rule in rules then rules[rule] else 0) + 1];
        Record(findings[i], ordinal, 1);
      }
      assert findings[..|findings|] == findings;
      days := days[date := day.(count := day.count + 1, rules := rules)];
    }

    method TakeFindings(env: Env, row: Row, ordinal: nat) returns (core: bool)
      modifies this`days, this`samples
      ensures core <==> EvaluateCoreRules(env.rules, row) != []
      ensures samples == StreamState.RecordAll(old(samples), StreamState.RowFindings(env, row), ordinal)
      ensures var day := if row.date in old(days) then old(days)[row.date] else StreamState.NO_ROWS;
        days == old(days)[row.date := day.(count := day.count + 1,
                                           rules := StreamState.Counted(day.rules, StreamState.RowFindings(env, row)))]
    {
      var found := EvaluateCoreRules(env.rules, row);
      Take(found + EvaluateReadinessRules(env.rules, row), row.date, ordinal);
      core := found != [];
    }

    /** The row's signature counted on its day. */
    method Sign(date: int, g: Signature, ordinal: nat)
      requires date in days
      modifies this`days
      ensures var day := old(days)[date];
        days == old(days)[date := day.(signatures := StreamState.Signed(day.signatures, g, ordinal))]
    {
      var day := days[date];
      var (count, first) := if g in day.signatures then day.signatures[g] else (0, ordinal);
      days := days[date := day.(signatures := day.signatures[g := (count + 1, first)])];
    }

    /** Ready for the row: observing it brings the object up to the rows with it. */
    ghost predicate Poised(env: Env, rows: seq<Row>, row: Row)
      reads this, firing
    {
      && firing.Valid()
      && Events(firing.rows) == Events(Mine(rows, row.identity))
      && StreamState.LivePoised(env, State(), rows, row, row.identity)
    }

    /** The row observed by an object made ready for it. */
    method Land(env: Env, row: Row, seen: Row, ordinal: nat, visibility: SuppressionAccumulator, ghost rows: seq<Row>)
      requires Poised(env, rows, row) && ChronologicalWith(rows, row) && ordinal == |rows|
      requires seen == row || seen == StreamState.Hashed(env.sha, row)
      requires visibility.Valid() && visibility.panels == env.panels && BareAlike(visibility.rows, rows)
      modifies this`days, this`samples, firing, visibility`matches, visibility`total, visibility`rows
      ensures Tracks(env, rows + [StreamState.Hashed(env.sha, row)], row.identity)
      ensures visibility.Valid() && BareAlike(visibility.rows, rows + [StreamState.Hashed(env.sha, row)])
    {
      NotBefore(firing.rows, rows, row.identity, row);
      StreamState.PoisedLands(env, State(), rows, row, seen, row.identity);
      EventsStep(env, firing.rows, rows, row, seen);
      Observe(env, seen, ordinal, visibility);
    }

    /** The part of `add` that concerns the identity's own row. */
    method Observe(env: Env, row: Row, ordinal: nat, visibility: SuppressionAccumulator)
      requires firing.Valid() && visibility.Valid() && visibility.panels == env.panels
      requires firing.rows == [] || firing.rows[|firing.rows| - 1].at <= row.at
      modifies this`days, this`samples, firing, visibility`matches, visibility`total, visibility`rows
      ensures State() == StreamState.LiveAfter(env, old(State()), row, StreamState.SignatureOf(env, row), ordinal)
      ensures firing.Valid() && firing.rows == old(firing.rows) + [row]
      ensures visibility.Valid() && visibility.rows == old(visibility.rows) + [row]
    {
      var ok := firing.Add(row);
      assert ok;
      Account(env, row, ordinal, visibility);
    }

    method Account(env: Env, row: Row, ordinal: nat, visibility: SuppressionAccumulator)
      requires visibility.Valid() && visibility.panels == env.panels
      modifies this`days, this`samples, visibility`matches, visibility`total, visibility`rows
      ensures State() == StreamState.LiveAfter(env, old(State()), row, StreamState.SignatureOf(env, row), ordinal)
      ensures visibility.Valid() && visibility.rows == old(visibility.rows) + [row]
    {
      ghost var before := State();
      var core := TakeFindings(env, row, ordinal);
      ghost var taken := days;
      var mask, hidden := visibility.Add(row);
      Sign(row.date, StreamState.Signature(mask, core, hidden), ordinal);
      StreamState.TakenAndSigned(env, before, row, StreamState.SignatureOf(env, row), ordinal, taken);
    }

    // ----- after the last row

    /** What the rows alone settle: the representative, the first sighting and the firing facts. */
    ghost predicate Measured(rows: seq<Row>, id: string)
      reads this`representative, this`firstSeen, this`clearCount, this`maxClearCycles24h
      reads this`maxEpisodeFiringRows, this`openSince, this`firePattern
    {
      && Mine(rows, id) != []
      && representative == Representative(Mine(rows, id))
      && firstSeen == Mine(rows, id)[0].at
      && clearCount == Facts(rows, id).clearCount
      && maxClearCycles24h == Facts(rows, id).maxClearCycles24h
      && maxEpisodeFiringRows == Facts(rows, id).maxEpisodeFiringRows
      && openSince == Facts(rows, id).openSince
      && firePattern == Facts(rows, id).pattern
    }

    /** What needs the late findings: the days, the samples, the rule ids and the unseen flag. */
    ghost predicate Judged(env: Env, rows: seq<Row>, id: string)
      reads this`representative, this`days, this`samples, this`coreRuleIds, this`readinessRuleIds, this`unseen
    {
      && DaysDone(env, days, rows, id)
      && SamplesDone(env, samples, rows, id)
      && coreRuleIds == Keep(CORE_RULE_IDS, CoreRulesOf(env, rows, id))
      && readinessRuleIds == RuleIdsOf(EvaluateReadinessRules(env.rules, representative))
      && unseen == (if env.panels == [] then None else Some(UnseenAnywhere(env, rows, id)))
    }

    /** Everything the identity reports, late findings included: measured and judged, folded away. */
    ghost predicate Done(env: Env, rows: seq<Row>, id: string)
      reads this
    {
      forall x: string :: Look(x) && x == id ==> Measured(rows, x) && Judged(env, rows, x)
    }

    /** `row_count`: the days' counts added up are the identity's rows. */
    method RowCount(ghost rows: seq<Row>, ghost id: string) returns (n: nat)
      requires DatesExact(days, rows, id)
      requires forall d :: d in days ==> days[d].count == |Where(rows, StreamState.OnDay(id, d))|
      ensures n == |Mine(rows, id)|
    {
      n := 0;
      var todo := days.Keys;
      CountBounds(days, rows, id);
      while todo != {}
        invariant todo <= days.Keys
        invariant n == CountOutside(days, todo, rows, id)
        decreases todo
      {
        var d :| d in todo;
        OneMoreCount(days, todo, rows, id, d);
        n := n + days[d].count;
        todo := todo - {d};
      }
    }

    /** Everything left until the last row is known: R6, R5, and what follows from them. */
    method Finish(env: Env, visibility: SuppressionAccumulator, ghost rows: seq<Row>, ghost id: string)
      requires Tracks(env, rows, id)
      requires visibility.Finished() && visibility.panels == env.panels && BareAlike(visibility.rows, rows)
      modifies this, firing
      ensures Done(env, rows, id)
    {
      var facts := Measure(env, rows, id);
      Judge(env, facts, visibility, rows, id);
    }

    method Measure(env: Env, ghost rows: seq<Row>, ghost id: string) returns (facts: FiringFacts)
      requires Tracks(env, rows, id)
      modifies this`representative, this`clearCount, this`maxClearCycles24h, this`maxEpisodeFiringRows
      modifies this`openSince, this`firePattern, firing
      ensures Measured(rows, id) && facts == Facts(rows, id)
      ensures StreamState.LiveMatches(env, State(), rows, id)
    {
      assert Look(State());
      HashRepresentative(env, rows, id);
      facts := TakeFacts(rows, id);
    }

    method HashRepresentative(env: Env, ghost rows: seq<Row>, ghost id: string)
      requires StreamState.LiveMatches(env, State(), rows, id)
      modifies this`representative
      ensures StreamState.LiveMatches(env, State(), rows, id) && representative == Representative(Mine(rows, id))
    {
      if representative.docHash == "" {
        representative := representative.(docHash := env.sha(representative.source));
      }
    }

    method Judge(env: Env, facts: FiringFacts, visibility: SuppressionAccumulator, ghost rows: seq<Row>, ghost id: string)
      requires StreamState.LiveMatches(env, State(), rows, id) && facts == Facts(rows, id)
      requires visibility.Finished() && visibility.panels == env.panels && BareAlike(visibility.rows, rows)
      modifies this`days, this`samples, this`coreRuleIds, this`readinessRuleIds, this`unseen
      ensures Judged(env, rows, id)
    {
      RecordLate(env, facts, visibility, rows, id);
      Conclude(env, rows, id);
    }

    /** R6 and R5 entered on the days and among the samples. */
    method RecordLate(env: Env, facts: FiringFacts, visibility: SuppressionAccumulator, ghost rows: seq<Row>, ghost id: string)
      requires StreamState.LiveMatches(env, State(), rows, id) && facts == Facts(rows, id)
      requires visibility.Finished() && visibility.panels == env.panels && BareAlike(visibility.rows, rows)
      modifies this`days, this`samples
      ensures DaysDone(env, days, rows, id) && SamplesDone(env, samples, rows, id)
    {
      ghost var live := State();
      if facts.pattern.Some? {
        var n := RowCount(rows, id);
        Record(Finding(R6, FromFiring(facts, n)), firstOrdinal, n);
      }
      var settled, first, count := SettleDays(days, facts.pattern.Some?, visibility, env, rows, id);
      days := settled;
      if first.Some? {
        Record(Finding(R5, FromPanels(PanelIds(env.panels))), first.value, count);
      }
      LateSamples(env, live, rows, id, first, count);
    }

    method Conclude(env: Env, ghost rows: seq<Row>, ghost id: string)
      requires DaysDone(env, days, rows, id) && SamplesDone(env, samples, rows, id)
      modifies this`coreRuleIds, this`readinessRuleIds, this`unseen
      ensures coreRuleIds == Keep(CORE_RULE_IDS, CoreRulesOf(env, rows, id))
      ensures readinessRuleIds == RuleIdsOf(EvaluateReadinessRules(env.rules, representative))
      ensures unseen == (if env.panels == [] then None else Some(UnseenAnywhere(env, rows, id)))
    {
      CoreRulesSampled(env, samples, rows, id);
      coreRuleIds := Keep(CORE_RULE_IDS, samples.of.Keys);
      readinessRuleIds := RuleIdsOf(EvaluateReadinessRules(env.rules, representative));
      UnseenSomeDay(env, days, rows, id);
      unseen := if env.panels == [] then None else Some(exists d :: d in days && days[d].unseen != 0);
    }

    method TakeFacts(ghost rows: seq<Row>, ghost id: string) returns (facts: FiringFacts)
      requires firing.Valid() && Events(firing.rows) == Events(Mine(rows, id))
      requires Mine(rows, id) != [] && representative == Representative(Mine(rows, id))
      modifies this`clearCount, this`maxClearCycles24h, this`maxEpisodeFiringRows, this`openSince, this`firePattern, firing
      ensures facts == Facts(rows, id)
      ensures clearCount == facts.clearCount && maxClearCycles24h == facts.maxClearCycles24h
      ensures maxEpisodeFiringRows == facts.maxEpisodeFiringRows
      ensures openSince == facts.openSince && firePattern == facts.pattern
    {
      SameFacts(firing.rows, Mine(rows, id), representative.provider);
      var found := firing.Finish(representative.provider);
      facts := found.value;
      clearCount, maxClearCycles24h := facts.clearCount, facts.maxClearCycles24h;
      maxEpisodeFiringRows, openSince, firePattern := facts.maxEpisodeFiringRows, facts.openSince, facts.pattern;
    }

    /** What the stored finding row takes from a finished identity. */
    method MakeReport(ghost env: Env, ghost rows: seq<Row>, ghost id: string) returns (report: Report)
      requires Done(env, rows, id) && Chronological(rows)
      ensures IsReport(env, rows, id, report)
    {
      assert Look(id);
      var n := RowCount(rows, id);
      SeenSpan(rows, id);
      EvidenceIsExact(env, samples, rows, id);
      report := Report(representative, n, firstSeen, representative.at, coreRuleIds, readinessRuleIds, EvidenceOf(samples),
                       clearCount, maxClearCycles24h, maxEpisodeFiringRows, openSince, firePattern, unseen);
    }
  }

  lemma {:induction false} SameFacts(a: seq<Row>, b: seq<Row>, provider: Option<string>)
    requires a != [] || b != []
    requires Events(a) == Events(b)
    ensures a != [] && b != [] && FactsOfRows(a, provider) == FactsOfRows(b, provider)
  {
    assert |Events(a)| == |Events(b)|;
  }

  lemma {:induction false} CoreRulesSampled(env: Env, s: Samples, rows: seq<Row>, id: string)
    requires SamplesDone(env, s, rows, id)
    ensures Keep(CORE_RULE_IDS, s.of.Keys) == Keep(CORE_RULE_IDS, CoreRulesOf(env, rows, id))
  {
    forall r | r in CORE_RULE_IDS ensures r in s.of <==> r in CoreRulesOf(env, rows, id) {
      assert SampleDone(env, s, r, rows, id);
    }
    KeepSame(CORE_RULE_IDS, s.of.Keys, CoreRulesOf(env, rows, id));
  }

  lemma {:induction false} UnseenSomeDay(env: Env, days: map<int, IdentityDay>, rows: seq<Row>, id: string)
    requires DaysDone(env, days, rows, id)
    ensures UnseenAnywhere(env, rows, id) <==> exists d :: d in days && days[d].unseen != 0
  {
    var q := UnseenRow(env, rows);
    if UnseenAnywhere(env, rows, id) {
      var i :| i in Where(rows, OwnedWith(id, q));
      var d := rows[i].date;
      assert i in Where(rows, StreamState.OnDay(id, d)) && i in Where(rows, DayOf(id, d, q));
      assert d in days && days[d].unseen != 0;
    }
    if d :| d in days && days[d].unseen != 0 {
      assert DayDone(env, days[d], rows, id, d);
      var i :| i in Where(rows, DayOf(id, d, q));
      assert i in Where(rows, OwnedWith(id, q));
    }
  }

  lemma {:induction false} MineChronological(rows: seq<Row>, id: string)
    requires Chronological(rows)
    ensures Chronological(Mine(rows, id))
  {
    if rows != [] {
      var n := |rows| - 1;
      MineChronological(rows[..n], id);
      MineIsPresent(rows[..n], id);
      var init := Mine(rows[..n], id);
      forall i | 0 <= i < |init| ensures init[i].at <= rows[n].at {
        assert init[i] in rows[..n];
      }
    }
  }

  /** In chronological rows, the first row and the representative bound the times an identity was seen. */
  lemma {:induction false} SeenSpan(rows: seq<Row>, id: string)
    requires Chronological(rows) && Mine(rows, id) != []
    ensures var mine := Mine(rows, id);
      && (forall i :: 0 <= i < |mine| ==> mine[0].at <= mine[i].at <= Representative(mine).at)
      && (exists i :: 0 <= i < |mine| && mine[i].at == mine[0].at)
      && (exists i :: 0 <= i < |mine| && mine[i].at == Representative(mine).at)
  {
    var mine := Mine(rows, id);
    MineChronological(rows, id);
    RepresentativeIsLatest(mine);
    var k :| 0 <= k < |mine| && IsRepresentativeAt(mine, k) && Representative(mine) == mine[k];
    forall i | 0 <= i < |mine| ensures mine[0].at <= mine[i].at <= mine[k].at {
      assert !Displaces(mine[i], mine[k]);
    }
    assert mine[0].at == mine[0].at;
  }

  /** Rows on the dates not yet counted. */
  ghost function CountOutside(days: map<int, IdentityDay>, todo: set<int>, rows: seq<Row>, id: string): nat {
    |Where(rows, OnDates(id, days.Keys - todo, Any()))|
  }

  lemma {:induction false} CountBounds(days: map<int, IdentityDay>, rows: seq<Row>, id: string)
    requires DatesExact(days, rows, id)
    ensures CountOutside(days, days.Keys, rows, id) == 0
    ensures CountOutside(days, {}, rows, id) == |Mine(rows, id)|
  {
    assert days.Keys - days.Keys == {} && days.Keys - {} == days.Keys;
    NoDates(rows, id, Any());
    AllDates(days, rows, id, Any());
    AnyOwned(rows, id);
    MineIsPresent(rows, id);
  }

  lemma {:induction false} OneMoreCount(days: map<int, IdentityDay>, todo: set<int>, rows: seq<Row>, id: string, d: int)
    requires d in days && d in todo && todo <= days.Keys
    ensures CountOutside(days, todo - {d}, rows, id)
         == CountOutside(days, todo, rows, id) + |Where(rows, StreamState.OnDay(id, d))|
  {
    assert days.Keys - (todo - {d}) == days.Keys - todo + {d};
    OneMoreDate(rows, id, days.Keys - todo, d, Any());
    AnyOwned(rows, id);
  }

  // ----- a day's signatures, once suppression is known

  /** The signatures that count as flagged, as suppressed, as unseen. */
  datatype Chosen = Chosen(flagged: set<Signature>, suppressed: set<Signature>, unseen: set<Signature>)

  datatype Tally = Tally(flagged: nat, suppressed: nat, unseen: nat, first: Option<nat>)

  /** How many rows carry one of these signatures. */
  ghost function SignedCount(env: Env, rows: seq<Row>, id: string, d: int, s: set<Signature>): nat {
    |Where(rows, SignedIn(env, id, d, s))|
  }

  ghost predicate TallyOf(t: Tally, c: Chosen, env: Env, rows: seq<Row>, id: string, d: int, base: set<nat>) {
    && t.flagged == SignedCount(env, rows, id, d, c.flagged)
    && t.suppressed == SignedCount(env, rows, id, d, c.suppressed)
    && t.unseen == SignedCount(env, rows, id, d, c.unseen)
    && FirstSuppressed(t.first, env, rows, id, d, c.suppressed, base)
  }

  ghost predicate FirstSuppressed(first: Option<nat>, env: Env, rows: seq<Row>, id: string, d: int,
                                  s: set<Signature>, base: set<nat>)
  {
    IsFirst(first, base + Where(rows, SignedIn(env, id, d, s)))
  }

  lemma {:induction false} NothingTallied(first: Option<nat>, env: Env, rows: seq<Row>, id: string, d: int, base: set<nat>)
    requires IsFirst(first, base)
    ensures TallyOf(Tally(0, 0, 0, first), Chosen({}, {}, {}), env, rows, id, d, base)
  {
    NoneSigned(env, rows, id, d);
    assert base + {} == base;
  }

  /** One signature's rows added to the tally. */
  function TallyWith(t: Tally, g: Signature, count: nat, first: nat, suppressed: bool, pattern: bool): Tally {
    Tally(if g.core || suppressed || pattern then t.flagged + count else t.flagged,
          if suppressed then t.suppressed + count else t.suppressed,
          if g.hidden && !suppressed then t.unseen + count else t.unseen,
          if suppressed then Earlier(t.first, first) else t.first)
  }

  function ChosenWith(c: Chosen, g: Signature, suppressed: bool, pattern: bool): Chosen {
    Chosen(if g.core || suppressed || pattern then c.flagged + {g} else c.flagged,
           if suppressed then c.suppressed + {g} else c.suppressed,
           if g.hidden && !suppressed then c.unseen + {g} else c.unseen)
  }

  lemma {:induction false} CountStep(day: IdentityDay, env: Env, rows: seq<Row>, id: string, d: int, s: set<Signature>, g: Signature)
    requires StreamState.SignaturesMatch(env, day.signatures, rows, id, d) && g in day.signatures && g !in s
    ensures SignedCount(env, rows, id, d, s + {g}) == SignedCount(env, rows, id, d, s) + day.signatures[g].0
  {
    OneMoreSignature(env, day, rows, id, d, s, g);
  }

  lemma {:induction false} FirstStep(first: Option<nat>, day: IdentityDay, env: Env, rows: seq<Row>, id: string, d: int,
                  s: set<Signature>, g: Signature, base: set<nat>)
    requires StreamState.SignaturesMatch(env, day.signatures, rows, id, d) && g in day.signatures && g !in s
    requires FirstSuppressed(first, env, rows, id, d, s, base)
    ensures FirstSuppressed(Earlier(first, day.signatures[g].1), env, rows, id, d, s + {g}, base)
  {
    var before, own := Where(rows, SignedIn(env, id, d, s)), Where(rows, StreamState.SignedOnDay(env, id, d, g));
    OneMoreSignature(env, day, rows, id, d, s, g);
    EarlierIsFirst(first, day.signatures[g].1, base + before, own);
    assert base + (before + own) == base + before + own;
  }

  lemma {:induction false} TallyStep(t: Tally, c: Chosen, g: Signature, suppressed: bool, pattern: bool,
                  day: IdentityDay, env: Env, rows: seq<Row>, id: string, d: int, base: set<nat>)
    requires TallyOf(t, c, env, rows, id, d, base) && StreamState.SignaturesMatch(env, day.signatures, rows, id, d)
    requires g in day.signatures && g !in c.flagged && g !in c.suppressed && g !in c.unseen
    ensures TallyOf(TallyWith(t, g, day.signatures[g].0, day.signatures[g].1, suppressed, pattern),
                    ChosenWith(c, g, suppressed, pattern), env, rows, id, d, base)
  {
    CountStep(day, env, rows, id, d, c.flagged, g);
    CountStep(day, env, rows, id, d, c.unseen, g);
    CountStep(day, env, rows, id, d, c.suppressed, g);
    FirstStep(t.first, day, env, rows, id, d, c.suppressed, g, base);
  }

  /** The choices are right for the signatures already met, and leave out the others. */
  ghost predicate ChosenBy(c: Chosen, met: set<Signature>, pattern: bool, visibility: SuppressionAccumulator)
    reads visibility
  {
    && (forall g :: g in c.flagged <==> g in met && (g.core || visibility.IsSuppressed(g.mask) || pattern))
    && (forall g :: g in c.suppressed <==> g in met && visibility.IsSuppressed(g.mask))
    && (forall g :: g in c.unseen <==> g in met && g.hidden && !visibility.IsSuppressed(g.mask))
  }

  lemma {:induction false} ChosenStep(c: Chosen, all: set<Signature>, todo: set<Signature>, g: Signature, pattern: bool,
                   visibility: SuppressionAccumulator)
    requires ChosenBy(c, all - todo, pattern, visibility) && g in todo && todo <= all
    ensures g !in c.flagged && g !in c.suppressed && g !in c.unseen
    ensures ChosenBy(ChosenWith(c, g, visibility.IsSuppressed(g.mask), pattern), all - (todo - {g}), pattern, visibility)
  {
  }

  /** The loop over one day's signatures, counting on from `first`. */
  method TallySignatures(day: IdentityDay, pattern: bool, visibility: SuppressionAccumulator, first: Option<nat>,
                         ghost env: Env, ghost rows: seq<Row>, ghost id: string, ghost d: int, ghost base: set<nat>)
      returns (t: Tally, ghost c: Chosen)
    requires StreamState.SignaturesMatch(env, day.signatures, rows, id, d) && IsFirst(first, base)
    ensures TallyOf(t, c, env, rows, id, d, base)
    ensures ChosenBy(c, day.signatures.Keys, pattern, visibility)
  {
    t, c := Tally(0, 0, 0, first), Chosen({}, {}, {});
    NothingTallied(first, env, rows, id, d, base);
    var todo := day.signatures.Keys;
    while todo != {}
      invariant todo <= day.signatures.Keys
      invariant TallyOf(t, c, env, rows, id, d, base)
      invariant ChosenBy(c, day.signatures.Keys - todo, pattern, visibility)
      decreases todo
    {
      var g :| g in todo;
      var (count, earliest) := day.signatures[g];
      var suppressed := visibility.IsSuppressed(g.mask);
      ChosenStep(c, day.signatures.Keys, todo, g, pattern, visibility);
      TallyStep(t, c, g, suppressed, pattern, day, env, rows, id, d, base);
      t := AddTo(t, g, count, earliest, suppressed, pattern);
      c := ChosenWith(c, g, suppressed, pattern);
      todo := todo - {g};
    }
  }

  method AddTo(t: Tally, g: Signature, count: nat, earliest: nat, suppressed: bool, pattern: bool) returns (u: Tally)
    ensures u == TallyWith(t, g, count, earliest, suppressed, pattern)
  {
    u := t;
    if suppressed {
      u := u.(suppressed := u.suppressed + count, first := Earlier(u.first, earliest));
    }
    if g.core || suppressed || pattern {
      u := u.(flagged := u.flagged + count);
    }
    if g.hidden && !suppressed {
      u := u.(unseen := u.unseen + count);
    }
  }

  // ----- the settled day

  /** Once suppression is settled, a signature says of its rows what the analysis says of them. */
  lemma {:induction false} SignatureTells(env: Env, rows: seq<Row>, row: Row, visibility: SuppressionAccumulator)
    requires visibility.Finished() && visibility.panels == env.panels && BareAlike(visibility.rows, rows)
    requires Mine(rows, row.identity) != []
    ensures var g := StreamState.SignatureOf(env, row);
      && (visibility.IsSuppressed(g.mask) <==> Suppressed(rows, env.panels, row))
      && (Flagged(env, rows, row) <==>
            g.core || visibility.IsSuppressed(g.mask) || Facts(rows, row.identity).pattern.Some?)
      && (Unseen(rows, env.panels, row) <==> g.hidden && !visibility.IsSuppressed(g.mask))
  {
    visibility.SuppressedByMask(row);
    SuppressedOfBare(visibility.rows, rows, env.panels, row);
    FlaggedBySignature(env, rows, row);
  }

  lemma {:induction false} SettledCounts(t: Tally, c: Chosen, day: IdentityDay, pattern: bool, visibility: SuppressionAccumulator,
                      env: Env, rows: seq<Row>, id: string, d: int, base: set<nat>)
    requires visibility.Finished() && visibility.panels == env.panels && BareAlike(visibility.rows, rows)
    requires Mine(rows, id) != [] && pattern == Facts(rows, id).pattern.Some?
    requires StreamState.SignaturesMatch(env, day.signatures, rows, id, d)
    requires TallyOf(t, c, env, rows, id, d, base) && ChosenBy(c, day.signatures.Keys, pattern, visibility)
    ensures t.flagged == |Where(rows, DayOf(id, d, FlaggedRow(env, rows)))|
    ensures t.suppressed == |Where(rows, DayOf(id, d, SuppressedRow(env, rows)))|
    ensures t.unseen == |Where(rows, DayOf(id, d, UnseenRow(env, rows)))|
    ensures IsFirst(t.first, base + Where(rows, DayOf(id, d, SuppressedRow(env, rows))))
  {
    forall row | row in rows && row.identity == id && row.date == d && StreamState.SignatureOf(env, row) in day.signatures
      ensures StreamState.SignatureOf(env, row) in c.flagged <==> FlaggedRow(env, rows)(row)
      ensures StreamState.SignatureOf(env, row) in c.suppressed <==> SuppressedRow(env, rows)(row)
      ensures StreamState.SignatureOf(env, row) in c.unseen <==> UnseenRow(env, rows)(row)
    {
      SignatureTells(env, rows, row, visibility);
    }
    ChosenSignatures(env, day, rows, id, d, c.flagged, FlaggedRow(env, rows));
    ChosenSignatures(env, day, rows, id, d, c.suppressed, SuppressedRow(env, rows));
    ChosenSignatures(env, day, rows, id, d, c.unseen, UnseenRow(env, rows));
  }

  /** A day with its tally and its late rule counts entered, and its signatures dropped. */
  function Settled(day: IdentityDay, t: Tally, pattern: bool): IdentityDay {
    StreamState.IdentityDay(day.count, RulesWithLate(day.rules, day.count, pattern, t.suppressed), map[],
                            t.flagged, t.suppressed, t.unseen)
  }

  lemma {:induction false} SettledDay(t: Tally, c: Chosen, day: IdentityDay, pattern: bool, visibility: SuppressionAccumulator,
                   env: Env, rows: seq<Row>, id: string, d: int, base: set<nat>)
    requires visibility.Finished() && visibility.panels == env.panels && BareAlike(visibility.rows, rows)
    requires Mine(rows, id) != [] && pattern == Facts(rows, id).pattern.Some?
    requires StreamState.DayMatches(env, day, rows, id, d) && Where(rows, StreamState.OnDay(id, d)) != {}
    requires TallyOf(t, c, env, rows, id, d, base) && ChosenBy(c, day.signatures.Keys, pattern, visibility)
    ensures DayDone(env, Settled(day, t, pattern), rows, id, d)
    ensures IsFirst(t.first, base + Where(rows, DayOf(id, d, SuppressedRow(env, rows))))
  {
    SettledCounts(t, c, day, pattern, visibility, env, rows, id, d, base);
    RulesDone(env, day, rows, id, d, t.suppressed);
  }

  /** One date's part of `finish`. */
  method SettleDay(day: IdentityDay, pattern: bool, visibility: SuppressionAccumulator, first: Option<nat>,
                   ghost env: Env, ghost rows: seq<Row>, ghost id: string, ghost d: int, ghost base: set<nat>)
      returns (settled: IdentityDay, earliest: Option<nat>)
    requires visibility.Finished() && visibility.panels == env.panels && BareAlike(visibility.rows, rows)
    requires Mine(rows, id) != [] && pattern == Facts(rows, id).pattern.Some?
    requires StreamState.DayMatches(env, day, rows, id, d) && Where(rows, StreamState.OnDay(id, d)) != {}
    requires IsFirst(first, base)
    ensures DayDone(env, settled, rows, id, d)
    ensures IsFirst(earliest, base + Where(rows, DayOf(id, d, SuppressedRow(env, rows))))
  {
    ghost var c;
    var t;
    t, c := TallySignatures(day, pattern, visibility, first, env, rows, id, d, base);
    SettledDay(t, c, day, pattern, visibility, env, rows, id, d, base);
    settled := EnterLate(day, t, pattern);
    earliest := t.first;
  }

  method EnterLate(day: IdentityDay, t: Tally, pattern: bool) returns (settled: IdentityDay)
    ensures settled == Settled(day, t, pattern)
  {
    var rules := day.rules;
    if pattern {
      rules := rules[R6 := day.count];
    }
    if t.suppressed != 0 {
      rules := rules[R5 := t.suppressed];
    }
    settled := StreamState.IdentityDay(day.count, rules, map[], t.flagged, t.suppressed, t.unseen);
  }

  /** The earliest suppressed row on some dates, and how many there are. */
  ghost predicate LateSoFar(first: Option<nat>, count: nat, env: Env, rows: seq<Row>, id: string, dates: set<int>) {
    var s := Where(rows, OnDates(id, dates, SuppressedRow(env, rows)));
    IsFirst(first, s) && count == |s|
  }

  lemma {:induction false} LateStep(first: Option<nat>, count: nat, later: Option<nat>, more: nat,
                 env: Env, rows: seq<Row>, id: string, all: set<int>, todo: set<int>, d: int)
    requires LateSoFar(first, count, env, rows, id, all - todo) && d in todo && todo <= all
    requires IsFirst(later, Where(rows, OnDates(id, all - todo, SuppressedRow(env, rows)))
                            + Where(rows, DayOf(id, d, SuppressedRow(env, rows))))
    requires more == |Where(rows, DayOf(id, d, SuppressedRow(env, rows)))|
    ensures LateSoFar(later, count + more, env, rows, id, all - (todo - {d}))
  {
    assert all - (todo - {d}) == all - todo + {d};
    OneMoreDate(rows, id, all - todo, d, SuppressedRow(env, rows));
  }

  lemma {:induction false} LateBounds(days: map<int, IdentityDay>, env: Env, rows: seq<Row>, id: string)
    requires DatesExact(days, rows, id)
    ensures LateSoFar(None, 0, env, rows, id, days.Keys - days.Keys)
    ensures Where(rows, OnDates(id, days.Keys - {}, SuppressedRow(env, rows)))
         == Where(rows, OwnedWith(id, SuppressedRow(env, rows)))
  {
    assert days.Keys - days.Keys == {} && days.Keys - {} == days.Keys;
    NoDates(rows, id, SuppressedRow(env, rows));
    AllDates(days, rows, id, SuppressedRow(env, rows));
  }

  /** The dates done so far are settled, the others still as they were. */
  ghost predicate Settling(settled: map<int, IdentityDay>, days: map<int, IdentityDay>, todo: set<int>,
                           env: Env, rows: seq<Row>, id: string)
  {
    && settled.Keys == days.Keys
    && (forall d :: d in todo && d in days ==> d in settled && settled[d] == days[d])
    && (forall d :: d in settled && d !in todo ==> DayDone(env, settled[d], rows, id, d))
  }

  lemma {:induction false} SettlingStep(settled: map<int, IdentityDay>, days: map<int, IdentityDay>, todo: set<int>,
                     env: Env, rows: seq<Row>, id: string, d: int, day: IdentityDay)
    requires Settling(settled, days, todo, env, rows, id) && d in todo && d in days
    requires DayDone(env, day, rows, id, d)
    ensures Settling(settled[d := day], days, todo - {d}, env, rows, id)
  {
  }

  lemma {:induction false} SettledAll(settled: map<int, IdentityDay>, days: map<int, IdentityDay>, env: Env, rows: seq<Row>, id: string)
    requires Settling(settled, days, {}, env, rows, id) && DatesExact(days, rows, id)
    ensures DaysDone(env, settled, rows, id)
  {
  }

  lemma {:induction false} DateToSettle(env: Env, days: map<int, IdentityDay>, rows: seq<Row>, id: string, d: int)
    requires StreamState.DaysMatch(env, days, rows, id) && d in days
    ensures StreamState.DayMatches(env, days[d], rows, id, d) && Where(rows, StreamState.OnDay(id, d)) != {}
  {
  }

  /** The loop over an identity's dates. */
  method SettleDays(days: map<int, IdentityDay>, pattern: bool, visibility: SuppressionAccumulator,
                    ghost env: Env, ghost rows: seq<Row>, ghost id: string)
      returns (settled: map<int, IdentityDay>, first: Option<nat>, count: nat)
    requires visibility.Finished() && visibility.panels == env.panels && BareAlike(visibility.rows, rows)
    requires Mine(rows, id) != [] && pattern == Facts(rows, id).pattern.Some?
    requires StreamState.DaysMatch(env, days, rows, id)
    ensures DaysDone(env, settled, rows, id)
    ensures IsFirst(first, Where(rows, OwnedWith(id, SuppressedRow(env, rows))))
    ensures count == |Where(rows, OwnedWith(id, SuppressedRow(env, rows)))|
  {
    settled, first, count := days, None, 0;
    var todo := days.Keys;
    LateBounds(days, env, rows, id);
    while todo != {}
      invariant todo <= days.Keys
      invariant Settling(settled, days, todo, env, rows, id)
      invariant LateSoFar(first, count, env, rows, id, days.Keys - todo)
      decreases todo
    {
      var d :| d in todo;
      settled, first, count := SettleNext(settled, first, count, d, pattern, visibility, env, days, todo, rows, id);
      todo := todo - {d};
    }
    SettledAll(settled, days, env, rows, id);
  }

  method SettleNext(settled: map<int, IdentityDay>, first: Option<nat>, count: nat, d: int, pattern: bool,
                    visibility: SuppressionAccumulator, ghost env: Env, ghost days: map<int, IdentityDay>,
                    ghost todo: set<int>, ghost rows: seq<Row>, ghost id: string)
      returns (more: map<int, IdentityDay>, earliest: Option<nat>, total: nat)
    requires visibility.Finished() && visibility.panels == env.panels && BareAlike(visibility.rows, rows)
    requires Mine(rows, id) != [] && pattern == Facts(rows, id).pattern.Some?
    requires StreamState.DaysMatch(env, days, rows, id) && todo <= days.Keys && d in todo && d in settled
    requires Settling(settled, days, todo, env, rows, id)
    requires LateSoFar(first, count, env, rows, id, days.Keys - todo)
    ensures Settling(more, days, todo - {d}, env, rows, id)
    ensures LateSoFar(earliest, total, env, rows, id, days.Keys - (todo - {d}))
  {
    DateToSettle(env, days, rows, id, d);
    ghost var base := Where(rows, OnDates(id, days.Keys - todo, SuppressedRow(env, rows)));
    var day;
    day, earliest := SettleDay(settled[d], pattern, visibility, first, env, rows, id, d, base);
    LateStep(first, count, earliest, day.suppressed, env, rows, id, days.Keys, todo, d);
    SettlingStep(settled, days, todo, env, rows, id, d, day);
    more, total := settled[d := day], count + day.suppressed;
  }
}
