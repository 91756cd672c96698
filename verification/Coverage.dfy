/** What an assessment covers: every alert, exactly once, batch by batch (`src/llm/assess.py:139-242`). */
module Coverage {
  import opened Text
  import opened Sorting
  import opened Hashing
  import opened Normalize
  import opened Quality
  import opened Grouping
  import opened Batching
  import opened Request
  import opened Response
  import opened LlmAudit
  import opened Protocol
  import opened Attempts
  import opened Assess

  // ----- every alert has one outcome

  function AlertsOf(outs: seq<AlertOutcome>): (rows: seq<Row>)
    ensures |rows| == |outs| && forall i :: 0 <= i < |outs| ==> rows[i] == outs[i].alert
  {
    seq(|outs|, i requires 0 <= i < |outs| => outs[i].alert)
  }

  lemma {:induction false} AlertsOfJoin(a: seq<AlertOutcome>, b: seq<AlertOutcome>)
    ensures AlertsOf(a + b) == AlertsOf(a) + AlertsOf(b)
  {
  }

  /** An alert is either reused or requested. */
  lemma {:induction false} ReusedOrRequested(existing: map<string, Verdict>, alerts: seq<Row>)
    ensures multiset(AlertsOf(Reused(existing, alerts))) + multiset(ToRequest(existing, alerts)) == multiset(alerts)
  {
    if alerts != [] {
      var n := |alerts| - 1;
      ReusedOrRequested(existing, alerts[..n]);
      assert alerts == alerts[..n] + [alerts[n]];
      if VerdictKey(alerts[n]) in existing {
        AlertsOfJoin(Reused(existing, alerts[..n]), [FromVerdict(existing[VerdictKey(alerts[n])], true, alerts[n])]);
      }
    }
  }

  /** Every batch writes an outcome for each of its alerts. */
  lemma {:induction false} AssignedAlerts(batches: seq<Batch>, results: seq<Result>)
    requires AllFitting(batches, results)
    ensures AlertsOf(Assigned(batches, results)) == AlertsIn(batches[..|results|])
  {
    if results != [] {
      var n := |results| - 1;
      AssignedAlerts(batches, results[..n]);
      AlertsOfJoin(Assigned(batches, results[..n]), GivenAll(batches[n], results[n]));
      assert AlertsOf(GivenAll(batches[n], results[n])) == batches[n].alerts;
      AlertsInLast(batches[..n], batches[n]);
      assert batches[..n + 1] == batches[..n] + [batches[n]];
    }
  }

  /** All the outcomes written by a complete assessment. */
  function Outcomes(s: Setup, alerts: seq<Row>, results: seq<Result>): seq<AlertOutcome>
    requires AllFitting(BatchesFor(s, alerts), results)
  {
    Reused(s.existing, alerts) + Assigned(BatchesFor(s, alerts), results)
  }

  predicate Completed(s: Setup, alerts: seq<Row>, results: seq<Result>) {
    && Built(s.context, ToRequest(s.existing, alerts), s.maxBatchSize).Some?
    && |results| == |BatchesFor(s, alerts)| && AllFitting(BatchesFor(s, alerts), results)
  }

  /** One outcome for each alert, no more and no fewer. */
  lemma {:induction false} OneOutcomeEach(s: Setup, alerts: seq<Row>, results: seq<Result>)
    requires Completed(s, alerts, results) && CapOf(s.maxBatchSize) > 0
    ensures multiset(AlertsOf(Outcomes(s, alerts, results))) == multiset(alerts)
  {
    var batches, todo := BatchesFor(s, alerts), ToRequest(s.existing, alerts);
    AlertsOfJoin(Reused(s.existing, alerts), Assigned(batches, results));
    AssignedAlerts(batches, results);
    assert batches[..|results|] == batches;
    EveryAlertOnce(s.context, todo, CapOf(s.maxBatchSize));
    ReusedOrRequested(s.existing, alerts);
  }

  // ----- the record of outcomes

  lemma {:induction false} RecordExact(outs: seq<AlertOutcome>)
    ensures forall o :: o in outs ==> o.alert.identity in Record(outs)
    ensures forall id :: id in Record(outs) ==> Record(outs)[id] in outs && Record(outs)[id].alert.identity == id
  {
    if outs != [] {
      var n := |outs| - 1;
      RecordExact(outs[..n]);
      assert outs == outs[..n] + [outs[n]];
    }
  }

  /** A later outcome of an identity replaces earlier ones. */
  lemma {:induction false} LastIsRecorded(outs: seq<AlertOutcome>, i: nat)
    requires i < |outs| && forall j :: i < j < |outs| ==> outs[j].alert.identity != outs[i].alert.identity
    ensures outs[i].alert.identity in Record(outs) && Record(outs)[outs[i].alert.identity] == outs[i]
  {
    var n := |outs| - 1;
    if i < n {
      LastIsRecorded(outs[..n], i);
    }
  }

  ghost predicate DistinctIdentities(alerts: seq<Row>) {
    forall i, j :: 0 <= i < j < |alerts| ==> alerts[i].identity != alerts[j].identity
  }

  // ----- exhaustive

  ghost predicate Covered(alerts: seq<Row>, outcomes: map<string, AlertOutcome>) {
    forall a :: a in alerts ==> a.identity in outcomes
  }

  predicate Identified(alerts: seq<Row>) {
    forall i :: 0 <= i < |alerts| ==> alerts[i].identity == VerdictKey(alerts[i])
  }

  lemma {:induction false} OutcomeOf(s: Setup, alerts: seq<Row>, results: seq<Result>, a: Row) returns (o: AlertOutcome)
    requires Completed(s, alerts, results) && CapOf(s.maxBatchSize) > 0 && a in alerts
    ensures o in Outcomes(s, alerts, results) && o.alert == a
  {
    OneOutcomeEach(s, alerts, results);
    var outs := Outcomes(s, alerts, results);
    SameElements(AlertsOf(outs), alerts);
    var i :| 0 <= i < |outs| && AlertsOf(outs)[i] == a;
    o := outs[i];
  }

  lemma {:induction false} AlertOfOutcome(s: Setup, alerts: seq<Row>, results: seq<Result>, o: AlertOutcome)
    requires Completed(s, alerts, results) && CapOf(s.maxBatchSize) > 0 && o in Outcomes(s, alerts, results)
    ensures o.alert in alerts
  {
    OneOutcomeEach(s, alerts, results);
    var outs := Outcomes(s, alerts, results);
    SameElements(AlertsOf(outs), alerts);
    var i :| 0 <= i < |outs| && outs[i] == o;
    assert AlertsOf(outs)[i] in AlertsOf(outs);
  }

  lemma {:induction false} ReusedHasVerdict(existing: map<string, Verdict>, alerts: seq<Row>, o: AlertOutcome)
    requires o in Reused(existing, alerts)
    ensures VerdictKey(o.alert) in existing && o.alert in alerts && o.reused
  {
    var n := |alerts| - 1;
    if o in Reused(existing, alerts[..n]) {
      ReusedHasVerdict(existing, alerts[..n], o);
    }
  }

  /**
   Every alert ends with a state exactly when the configured batch size is not negative, or
   everything was reused.
   */
  lemma {:induction false} AssessmentIsExhaustive(s: Setup, alerts: seq<Row>, results: seq<Result>)
    requires Completed(s, alerts, results) && Identified(alerts)
    ensures Covered(alerts, ResultOf(s, alerts, BatchesFor(s, alerts), results).outcomes)
            <==> (s.maxBatchSize.None? || s.maxBatchSize.value >= 0 || ToRequest(s.existing, alerts) == [])
  {
    var outs := Outcomes(s, alerts, results);
    RecordExact(outs);
    if CapOf(s.maxBatchSize) > 0 {
      forall a | a in alerts ensures a.identity in Record(outs) {
        var o := OutcomeOf(s, alerts, results, a);
      }
    } else {
      NothingRequested(s, alerts, results);
    }
  }

  /** With a negative size only the reused alerts get a state. */
  lemma {:induction false} NothingRequested(s: Setup, alerts: seq<Row>, results: seq<Result>)
    requires Completed(s, alerts, results) && Identified(alerts) && CapOf(s.maxBatchSize) <= 0
    ensures Covered(alerts, Record(Outcomes(s, alerts, results))) <==> ToRequest(s.existing, alerts) == []
  {
    var outs, todo := Outcomes(s, alerts, results), ToRequest(s.existing, alerts);
    assert outs == Reused(s.existing, alerts);
    RecordExact(outs);
    if todo != [] {
      ToRequestMember(s.existing, alerts, todo[0]);
      assert todo[0].identity !in Record(outs) by {
        if todo[0].identity in Record(outs) {
          var o := Record(outs)[todo[0].identity];
          ReusedHasVerdict(s.existing, alerts, o);
        }
      }
    } else {
      forall a | a in alerts ensures a.identity in Record(outs) {
        ToRequestMember(s.existing, alerts, a);
        HasReused(s.existing, alerts, a);
      }
    }
  }

  lemma {:induction false} HasReused(existing: map<string, Verdict>, alerts: seq<Row>, a: Row)
    requires a in alerts && VerdictKey(a) in existing
    ensures FromVerdict(existing[VerdictKey(a)], true, a) in Reused(existing, alerts)
  {
    var n := |alerts| - 1;
    assert alerts == alerts[..n] + [alerts[n]];
    if a in alerts[..n] {
      HasReused(existing, alerts[..n], a);
    }
  }

  // ----- each alert its own outcome

  /**
   Every alert gets its own outcome exactly when no two different alerts share an identity: the
   identity leaves the schema out, so one alert per schema can.
   */
  lemma {:induction false} OwnOutcomeEach(s: Setup, alerts: seq<Row>, results: seq<Result>)
    requires Completed(s, alerts, results) && CapOf(s.maxBatchSize) > 0
    ensures var m := ResultOf(s, alerts, BatchesFor(s, alerts), results).outcomes;
      (forall a :: a in alerts ==> a.identity in m && m[a.identity].alert == a)
      <==> (forall a, b :: a in alerts && b in alerts && a.identity == b.identity ==> a == b)
  {
    var outs := Outcomes(s, alerts, results);
    var m := Record(outs);
    RecordExact(outs);
    if forall a, b :: a in alerts && b in alerts && a.identity == b.identity ==> a == b {
      forall a | a in alerts ensures a.identity in m && m[a.identity].alert == a {
        var o := OutcomeOf(s, alerts, results, a);
        AlertOfOutcome(s, alerts, results, m[a.identity]);
      }
    }
  }

  // ----- all or nothing

  lemma {:induction false} GivenIsAssigned(batches: seq<Batch>, results: seq<Result>, k: nat, i: nat)
    requires AllFitting(batches, results) && k < |results| && i < |batches[k].alerts|
    ensures Given(batches[k], results[k], i) in Assigned(batches, results)
  {
    var n := |results| - 1;
    if k < n {
      GivenIsAssigned(batches, results[..n], k, i);
    } else {
      assert GivenAll(batches[n], results[n])[i] in GivenAll(batches[n], results[n]);
    }
  }

  lemma {:induction false} SameIdentity(alerts: seq<Row>, a: Row, b: Row)
    requires DistinctIdentities(alerts) && a in alerts && b in alerts && a.identity == b.identity
    ensures a == b
  {
  }

  lemma {:induction false} OneOutcomeOnly(s: Setup, alerts: seq<Row>, results: seq<Result>)
    requires Completed(s, alerts, results) && CapOf(s.maxBatchSize) > 0 && DistinctIdentities(alerts)
    ensures NoDuplicates(AlertsOf(Outcomes(s, alerts, results)))
  {
    OneOutcomeEach(s, alerts, results);
    assert NoDuplicates(alerts);
    DistinctPermutation(alerts, AlertsOf(Outcomes(s, alerts, results)));
  }

  lemma {:induction false} TellApart(outs: seq<AlertOutcome>, o: AlertOutcome, p: AlertOutcome)
    requires NoDuplicates(AlertsOf(outs)) && o in outs && p in outs && o.alert == p.alert
    ensures o == p
  {
    var i :| 0 <= i < |outs| && outs[i] == o;
    var j :| 0 <= j < |outs| && outs[j] == p;
    assert AlertsOf(outs)[i] == AlertsOf(outs)[j];
  }

  lemma {:induction false} OutcomesDistinct(s: Setup, alerts: seq<Row>, results: seq<Result>, o: AlertOutcome, p: AlertOutcome)
    requires Completed(s, alerts, results) && CapOf(s.maxBatchSize) > 0 && DistinctIdentities(alerts)
    requires o in Outcomes(s, alerts, results) && p in Outcomes(s, alerts, results) && o.alert.identity == p.alert.identity
    ensures o == p
  {
    OneOutcomeOnly(s, alerts, results);
    AlertOfOutcome(s, alerts, results, o);
    AlertOfOutcome(s, alerts, results, p);
    SameIdentity(alerts, o.alert, p.alert);
    TellApart(Outcomes(s, alerts, results), o, p);
  }

  /** The record gives alert `i` of a batch the outcome the batch's result has for it. */
  lemma {:induction false} GivenStands(s: Setup, alerts: seq<Row>, results: seq<Result>, k: nat, i: nat)
    requires DistinctIdentities(alerts) && Completed(s, alerts, results) && k < |results| && i < |BatchesFor(s, alerts)[k].alerts|
    ensures var b := BatchesFor(s, alerts)[k]; var m := Record(Outcomes(s, alerts, results));
      b.alerts[i].identity in m && m[b.alerts[i].identity] == Given(b, results[k], i)
  {
    var batches := BatchesFor(s, alerts);
    var outs := Outcomes(s, alerts, results);
    var o := Given(batches[k], results[k], i);
    GivenIsAssigned(batches, results, k, i);
    RecordExact(outs);
    OutcomesDistinct(s, alerts, results, o, Record(outs)[o.alert.identity]);
  }

  /** What the outcome of an alert says when it comes from the verdict `v`. */
  ghost predicate Carries(o: AlertOutcome, v: Verdict) {
    && (o.state == LlmFlagged <==> v.assessment == CatalogViolation && v.confidence == High)
    && (o.state == AssessedGood <==> v.assessment == NoViolation)
    && (o.state == NeedsReview <==> v.assessment == OtherViolation || (v.assessment == CatalogViolation && v.confidence != High))
    && o.principleId == Some(v.principleId)
    && o.confidence == Some(v.confidence)
    && o.justification == Some(v.justification)
    && o.unassessedReason == None
  }

  /** ... and when there is none. */
  ghost predicate HasNone(o: AlertOutcome, reason: string) {
    && o.state == Unassessed && !o.reused
    && o.principleId == None && o.confidence == None && o.justification == None
    && o.unassessedReason == Some(reason)
  }

  /** Each alert carries the verdict about it. */
  ghost predicate Carry(b: Batch, m: map<string, AlertOutcome>, vs: seq<Verdict>) {
    && |vs| == |b.alerts| == |b.alertIds|
    && forall i :: 0 <= i < |b.alerts| ==>
         && vs[i].alertId == b.alertIds[i]
         && b.alerts[i].identity in m
         && var o := m[b.alerts[i].identity]; o.alert == b.alerts[i] && !o.reused && Carries(o, vs[i])
  }

  /** The alerts of a batch carry the verdicts of one accepted response. */
  ghost predicate AllJudged(s: Setup, b: Batch, m: map<string, AlertOutcome>)
    requires |b.alerts| == |b.alertIds|
  {
    exists text, vs :: AnswersBatch(s.parse, b, text, vs) && Carry(b, m, vs)
  }

  /** The alerts of a batch are all unassessed, for one reason. */
  ghost predicate AllUnassessed(b: Batch, m: map<string, AlertOutcome>) {
    exists status :: Share(b, m, "batch exhausted 3 attempts - " + status)
  }

  ghost predicate Share(b: Batch, m: map<string, AlertOutcome>, reason: string) {
    forall i :: 0 <= i < |b.alerts| ==>
      && b.alerts[i].identity in m
      && var o := m[b.alerts[i].identity]; o.alert == b.alerts[i] && HasNone(o, reason)
  }

  lemma {:induction false} AnswerIds(parse: Parser, b: Batch, text: string, vs: seq<Verdict>)
    requires |b.alerts| == |b.alertIds| && AnswersBatch(parse, b, text, vs)
    ensures |vs| == |b.alerts| && forall i :: 0 <= i < |b.alerts| ==> vs[i].alertId == b.alertIds[i]
  {
    var items := Items(parse(text).value, b.batchId).value;
    var all: seq<Verdict> :| SayAll(items, all) && CoversIds(all, b.alertIds) && Picks(all, b.alertIds, vs);
  }

  ghost predicate Gives(b: Batch, r: Result, m: map<string, AlertOutcome>)
    requires Fitting(b, r)
  {
    forall i :: 0 <= i < |b.alerts| ==> b.alerts[i].identity in m && m[b.alerts[i].identity] == Given(b, r, i)
  }

  lemma {:induction false} GivesJudged(s: Setup, b: Batch, r: Result, m: map<string, AlertOutcome>, text: string)
    requires |b.alerts| == |b.alertIds| && Fitting(b, r) && Gives(b, r, m)
    requires r.Assessed? && AnswersBatch(s.parse, b, text, r.verdicts)
    ensures AllJudged(s, b, m)
  {
    AnswerIds(s.parse, b, text, r.verdicts);
    assert Carry(b, m, r.verdicts);
  }

  lemma {:induction false} GivesUnassessed(b: Batch, r: Result, m: map<string, AlertOutcome>)
    requires Fitting(b, r) && Gives(b, r, m) && r.GaveUp?
    ensures AllUnassessed(b, m)
  {
    assert Share(b, m, "batch exhausted 3 attempts - " + r.status);
  }

  lemma {:induction false} OutcomeText(judge: Judge, s: Setup, b: Batch, r: Result, w: World, v: World) returns (text: string)
    requires RanOne(judge, s, b, r, w, v) && r.Assessed?
    ensures AnswersBatch(s.parse, b, text, r.verdicts)
  {
    var (c, t) := Prepare(w.tables, JobOf(s, b)).value;
    text := FirstAnswer(judge, JobOf(s, b), t, c, 1, s.client).value;
  }

  /** Of every batch, either all alerts are judged by one response, or none is. */
  lemma {:induction false} AllOrNothing(judge: Judge, s: Setup, alerts: seq<Row>, results: seq<Result>, worlds: seq<World>, k: nat)
    requires Documents(alerts) && DistinctIdentities(alerts)
    requires Completed(s, alerts, results) && Ran(judge, s, BatchesFor(s, alerts), results, worlds) && k < |results|
    ensures var b := BatchesFor(s, alerts)[k]; var m := ResultOf(s, alerts, BatchesFor(s, alerts), results).outcomes;
      |b.alerts| == |b.alertIds| && (AllJudged(s, b, m) || AllUnassessed(b, m))
  {
    var b, r := BatchesFor(s, alerts)[k], results[k];
    var m := Record(Outcomes(s, alerts, results));
    assert RanOne(judge, s, b, r, worlds[k], worlds[k + 1]);
    assert Gives(b, r, m) by {
      forall i | 0 <= i < |b.alerts| ensures b.alerts[i].identity in m && m[b.alerts[i].identity] == Given(b, r, i) {
        GivenStands(s, alerts, results, k, i);
      }
    }
    if r.Assessed? {
      var text := OutcomeText(judge, s, b, r, worlds[k], worlds[k + 1]);
      GivesJudged(s, b, r, m, text);
    } else {
      GivesUnassessed(b, r, m);
    }
  }

  // ----- where every outcome comes from

  /** The outcome is that of alert `i` in batch `k`, as the batch ended. */
  ghost predicate FromBatch(o: AlertOutcome, batches: seq<Batch>, results: seq<Result>, k: nat, i: nat)
    requires AllFitting(batches, results) && k < |results| && i < |batches[k].alerts|
  {
    && o.alert == batches[k].alerts[i] && !o.reused
    && match results[k]
       case Assessed(vs) => Carries(o, vs[i])
       case GaveUp(status) => HasNone(o, "batch exhausted 3 attempts - " + status)
       case Refused => false
  }

  lemma {:induction false} AssignedSource(batches: seq<Batch>, results: seq<Result>, o: AlertOutcome) returns (k: nat, i: nat)
    requires AllFitting(batches, results) && o in Assigned(batches, results)
    ensures k < |results| && i < |batches[k].alerts| && FromBatch(o, batches, results, k, i)
  {
    var n := |results| - 1;
    if o in Assigned(batches, results[..n]) {
      k, i := AssignedSource(batches, results[..n], o);
      assert results[..n][k] == results[k];
    } else {
      k := n;
      i :| 0 <= i < |batches[n].alerts| && GivenAll(batches[n], results[n])[i] == o;
    }
  }

  lemma {:induction false} ReusedSource(existing: map<string, Verdict>, alerts: seq<Row>, o: AlertOutcome)
    requires o in Reused(existing, alerts)
    ensures o.alert in alerts && o.reused
    ensures VerdictKey(o.alert) in existing && Carries(o, existing[VerdictKey(o.alert)])
  {
    var n := |alerts| - 1;
    if o in Reused(existing, alerts[..n]) {
      ReusedSource(existing, alerts[..n], o);
    }
  }

  /**
   Every recorded outcome is either a stored verdict reused for its alert, or what its alert's batch
   came to; whatever identities the alerts share.
   */
  lemma {:induction false} EveryOutcomeExplained(s: Setup, alerts: seq<Row>, results: seq<Result>, id: string)
    requires Completed(s, alerts, results)
    requires id in ResultOf(s, alerts, BatchesFor(s, alerts), results).outcomes
    ensures var o := ResultOf(s, alerts, BatchesFor(s, alerts), results).outcomes[id];
      && o.alert.identity == id
      && if o.reused then
           VerdictKey(o.alert) in s.existing && Carries(o, s.existing[VerdictKey(o.alert)])
         else
           exists k: nat, i: nat :: k < |results| && i < |BatchesFor(s, alerts)[k].alerts| && FromBatch(o, BatchesFor(s, alerts), results, k, i)
  {
    var outs := Outcomes(s, alerts, results);
    RecordExact(outs);
    var o := Record(outs)[id];
    if o in Reused(s.existing, alerts) {
      ReusedSource(s.existing, alerts, o);
    } else {
      var k, i := AssignedSource(BatchesFor(s, alerts), results, o);
    }
  }

  /** An alert with a stored verdict carries it, and is never sent to the model. */
  lemma {:induction false} StoredVerdictIsReused(s: Setup, alerts: seq<Row>, results: seq<Result>, a: Row)
    requires Completed(s, alerts, results) && Identified(alerts) && Documents(alerts)
    requires a in alerts && VerdictKey(a) in s.existing
    ensures var m := ResultOf(s, alerts, BatchesFor(s, alerts), results).outcomes;
      a.identity in m && m[a.identity].reused && Carries(m[a.identity], s.existing[VerdictKey(a)])
  {
    var outs := Outcomes(s, alerts, results);
    HasReused(s.existing, alerts, a);
    RecordExact(outs);
    var o := Record(outs)[a.identity];
    if o in Reused(s.existing, alerts) {
      ReusedSource(s.existing, alerts, o);
    } else {
      var k, i := AssignedSource(BatchesFor(s, alerts), results, o);
      RequestedHasNone(s, alerts, k, i);
    }
  }

  lemma {:induction false} RequestedHasNone(s: Setup, alerts: seq<Row>, k: nat, i: nat)
    requires Documents(alerts) && k < |BatchesFor(s, alerts)| && i < |BatchesFor(s, alerts)[k].alerts|
    ensures BatchesFor(s, alerts)[k].alerts[i] in alerts && VerdictKey(BatchesFor(s, alerts)[k].alerts[i]) !in s.existing
  {
    var todo := ToRequest(s.existing, alerts);
    var batches := BatchesFor(s, alerts);
    EveryAlertOnce(s.context, todo, CapOf(s.maxBatchSize));
    AlertsInMember(batches, k, i);
    SameElements(AlertsIn(batches), todo);
    ToRequestMember(s.existing, alerts, batches[k].alerts[i]);
  }

  /** The record is that of alert `i` in batch `k`, which was answered. */
  ghost predicate IsNew(n: NewVerdict, batches: seq<Batch>, results: seq<Result>, k: nat, i: nat)
    requires AllFitting(batches, results) && k < |results| && i < |batches[k].alerts|
  {
    results[k].Assessed? && n.alert == batches[k].alerts[i] && n.verdict == results[k].verdicts[i]
  }

  lemma {:induction false} NewVerdictSource(batches: seq<Batch>, results: seq<Result>, n: NewVerdict) returns (k: nat, i: nat)
    requires AllFitting(batches, results) && n in NewVerdicts(batches, results)
    ensures k < |results| && i < |batches[k].alerts| && IsNew(n, batches, results, k, i)
  {
    var m := |results| - 1;
    if n in NewVerdicts(batches, results[..m]) {
      k, i := NewVerdictSource(batches, results[..m], n);
      assert results[..m][k] == results[k];
    } else {
      k := m;
      i :| 0 <= i < |VerdictsOf(batches[m], results[m])| && VerdictsOf(batches[m], results[m])[i] == n;
    }
  }

  lemma {:induction false} NewVerdictStored(batches: seq<Batch>, results: seq<Result>, n: NewVerdict, k: nat, i: nat)
    requires AllFitting(batches, results) && k < |results| && i < |batches[k].alerts| && IsNew(n, batches, results, k, i)
    ensures n in NewVerdicts(batches, results)
  {
    var m := |results| - 1;
    if k < m {
      assert results[..m][k] == results[k];
      NewVerdictStored(batches, results[..m], n, k, i);
    } else {
      assert VerdictsOf(batches[m], results[m])[i] == n;
    }
  }

  /** What there is to store: the verdict of every alert of every answered batch, and nothing else. */
  lemma {:induction false} NewVerdictsExact(batches: seq<Batch>, results: seq<Result>, n: NewVerdict)
    requires AllFitting(batches, results)
    ensures n in NewVerdicts(batches, results) <==>
      exists k: nat, i: nat :: k < |results| && i < |batches[k].alerts| && IsNew(n, batches, results, k, i)
  {
    if n in NewVerdicts(batches, results) {
      var k, i := NewVerdictSource(batches, results, n);
    }
    if k: nat, i: nat :| k < |results| && i < |batches[k].alerts| && IsNew(n, batches, results, k, i) {
      NewVerdictStored(batches, results, n, k, i);
    }
  }

  // ----- one judge for all batches of a run

  ghost function TheJudge(s: Setup, batches: seq<Batch>): Judge {
    (job: Job, text: string) =>
      exists k, vs :: 0 <= k < |batches| && HasDocuments(batches[k]) && Mappings(batches[k].alerts) && JobOf(s, batches[k]) == job
        && AnswersBatch(s.parse, batches[k], text, vs)
  }

  /** Because no two batches share an id, one judge can know the answers to each of them. */
  lemma {:induction false} AJudgeExists(s: Setup, alerts: seq<Row>)
    requires Injective(s.context.digest)
    ensures JudgesAll(TheJudge(s, BatchesFor(s, alerts)), s, BatchesFor(s, alerts))
  {
    var batches := BatchesFor(s, alerts);
    var judge := TheJudge(s, batches);
    forall k | 0 <= k < |batches| && HasDocuments(batches[k]) && Mappings(batches[k].alerts)
      ensures Judges(judge, JobOf(s, batches[k]), s.parse, batches[k])
    {
      forall text ensures judge(JobOf(s, batches[k]), text) <==> exists vs :: AnswersBatch(s.parse, batches[k], text, vs) {
        forall l | 0 <= l < |batches| && HasDocuments(batches[l]) && Mappings(batches[l].alerts) && JobOf(s, batches[l]) == JobOf(s, batches[k])
          ensures l == k
        {
          SameBatch(s, alerts, k, l);
        }
      }
    }
  }

  lemma {:induction false} SameBatch(s: Setup, alerts: seq<Row>, k: nat, l: nat)
    requires Injective(s.context.digest) && k < |BatchesFor(s, alerts)| && l < |BatchesFor(s, alerts)|
    requires BatchesFor(s, alerts)[k].batchId == BatchesFor(s, alerts)[l].batchId
    ensures k == l
  {
    var cap, todo := CapOf(s.maxBatchSize), ToRequest(s.existing, alerts);
    if k < l {
      BatchIdsDistinct(s.context, todo, cap, k, l);
    } else if l < k {
      BatchIdsDistinct(s.context, todo, cap, l, k);
    }
  }
}
