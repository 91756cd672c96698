/** The assessment of a run's alerts: stored verdicts reused, the rest batched, one state for each (`src/llm/assess.py:122-242`). */
module Assess {
  import opened Text
  import opened Sorting
  import opened Hashing
  import opened Normalize
  import opened Quality
  import opened Grouping
  import opened Batching
  import opened Request
  import opened Response
  import opened LlmAudit
  import opened Protocol
  import opened Attempts

  datatype AlertOutcome = AlertOutcome(
    state: State,
    principleId: Option<string>,
    confidence: Option<Confidence>,
    justification: Option<string>,
    unassessedReason: Option<string>,
    reused: bool,
    alert: Row)

  datatype NewVerdict = NewVerdict(alert: Row, verdict: Verdict)

  /** Outcomes by alert identity, and what there is to store. */
  datatype Assessment = Assessment(
    outcomes: map<string, AlertOutcome>,
    newVerdicts: seq<NewVerdict>,
    requestedBatches: nat,
    reusedVerdicts: nat)

  /** What one call works with; `hash` is that of the serialized request. */
  datatype Setup = Setup(
    context: Context,
    rulesetVersion: string,
    maxBatchSize: Option<int>,
    existing: map<string, Verdict>,
    parse: Parser,
    hash: LlmRequest -> string,
    client: Client)

  // ----- outcomes

  function FromVerdict(v: Verdict, reused: bool, alert: Row): AlertOutcome {
    AlertOutcome(StateFor(v), Some(v.principleId), Some(v.confidence), Some(v.justification), None, reused, alert)
  }

  /** The reason names the status of the last failure. */
  function FromFailure(status: string, alert: Row): AlertOutcome {
    AlertOutcome(Unassessed, None, None, None, Some("batch exhausted 3 attempts - " + status), false, alert)
  }

  function VerdictKey(alert: Row): string {
    IdentityOf(alert.application, alert.keyField)
  }

  /** A stored verdict is that of alerts with one application and one key field. */
  lemma {:induction false} VerdictKeyTells(r: Row, s: Row)
    ensures VerdictKey(r) == Decimal(|r.application|) + ":" + r.application + "|" + (Decimal(|r.keyField|) + ":" + r.keyField)
    ensures VerdictKey(r) == VerdictKey(s) <==> r.application == s.application && r.keyField == s.keyField
  {
    KeysAreWritten(r.application, r.keyField);
    if VerdictKey(r) == VerdictKey(s) {
      IdentityInjective(r.application, r.keyField, s.application, s.keyField);
    }
  }

  /** The alerts without a stored verdict. */
  function ToRequest(existing: map<string, Verdict>, alerts: seq<Row>): seq<Row> {
    if alerts == [] then []
    else
      var n := |alerts| - 1;
      if VerdictKey(alerts[n]) in existing then ToRequest(existing, alerts[..n]) else ToRequest(existing, alerts[..n]) + [alerts[n]]
  }

  /** The outcomes of the alerts with one. */
  function Reused(existing: map<string, Verdict>, alerts: seq<Row>): seq<AlertOutcome> {
    if alerts == [] then []
    else
      var n := |alerts| - 1;
      if VerdictKey(alerts[n]) in existing then
        Reused(existing, alerts[..n]) + [FromVerdict(existing[VerdictKey(alerts[n])], true, alerts[n])]
      else Reused(existing, alerts[..n])
  }

  /** The result is about this batch: a verdict for each alert, or none at all. */
  predicate Fitting(b: Batch, r: Result) {
    r.GaveUp? || (r.Assessed? && |r.verdicts| == |b.alerts|)
  }

  predicate AllFitting(batches: seq<Batch>, results: seq<Result>) {
    |results| <= |batches| && forall k :: 0 <= k < |results| ==> Fitting(batches[k], results[k])
  }

  function Given(b: Batch, r: Result, i: nat): AlertOutcome
    requires Fitting(b, r) && i < |b.alerts|
  {
    if r.Assessed? then FromVerdict(r.verdicts[i], false, b.alerts[i]) else FromFailure(r.status, b.alerts[i])
  }

  function GivenAll(b: Batch, r: Result): (outs: seq<AlertOutcome>)
    requires Fitting(b, r)
    ensures |outs| == |b.alerts| && forall i :: 0 <= i < |outs| ==> outs[i] == Given(b, r, i)
  {
    seq(|b.alerts|, i requires 0 <= i < |b.alerts| => Given(b, r, i))
  }

  /** The outcomes of the first batches, batch after batch. */
  function Assigned(batches: seq<Batch>, results: seq<Result>): seq<AlertOutcome>
    requires AllFitting(batches, results)
  {
    if results == [] then []
    else
      var n := |results| - 1;
      Assigned(batches, results[..n]) + GivenAll(batches[n], results[n])
  }

  /** Later outcomes of an identity replace earlier ones. */
  function Record(outs: seq<AlertOutcome>): map<string, AlertOutcome> {
    if outs == [] then map[]
    else
      var n := |outs| - 1;
      Record(outs[..n])[outs[n].alert.identity := outs[n]]
  }

  function VerdictsOf(b: Batch, r: Result): (news: seq<NewVerdict>)
    requires Fitting(b, r)
  {
    if r.Assessed? then seq(|b.alerts|, i requires 0 <= i < |b.alerts| => NewVerdict(b.alerts[i], r.verdicts[i])) else []
  }

  function NewVerdicts(batches: seq<Batch>, results: seq<Result>): seq<NewVerdict>
    requires AllFitting(batches, results)
  {
    if results == [] then []
    else
      var n := |results| - 1;
      NewVerdicts(batches, results[..n]) + VerdictsOf(batches[n], results[n])
  }

  // ----- the request of a batch

  function SharedKeys(docs: seq<Document>): set<string> {
    if docs == [] then {} else set i | 0 <= i < |docs[0]| && SharedBy(docs, docs[0][i].0) :: docs[0][i].0
  }

  lemma {:induction false} SharedKeysExact(docs: seq<Document>, shared: set<string>)
    requires IsSharedSet(docs, shared)
    ensures shared == SharedKeys(docs)
  {
    forall key ensures key in SharedKeys(docs) <==> SharedBy(docs, key) {
      if SharedBy(docs, key) {
        var i :| 0 <= i < |docs[0]| && docs[0][i].0 == key;
      }
    }
  }

  predicate Mappings(alerts: seq<Row>) {
    forall i :: 0 <= i < |alerts| ==> alerts[i].source.Obj?
  }

  function JobOf(s: Setup, b: Batch): Job
    requires |b.alertIds| == |b.alerts| && Mappings(b.alerts)
  {
    Job(b.batchId, s.hash(Factored(b, s.rulesetVersion, s.context.promptVersion, SharedKeys(Sources(b)))))
  }

  /** A job's request hash is that of a request for the batch under the configured versions. */
  lemma {:induction false} JobMeans(s: Setup, b: Batch)
    requires HasDocuments(b) && Mappings(b.alerts) && AllEncodable(Sources(b))
    ensures JobOf(s, b).batch == b.batchId
    ensures exists r :: IsRequest(b, s.rulesetVersion, s.context.promptVersion, r) && JobOf(s, b).requestHash == s.hash(r)
  {
    var shared := SharedKeys(Sources(b));
    assert IsSharedSet(Sources(b), shared) by {
      SharedKeysAre(Sources(b));
    }
    FactoredIsRequest(b, s.rulesetVersion, s.context.promptVersion, shared);
  }

  lemma {:induction false} SharedKeysAre(docs: seq<Document>)
    ensures IsSharedSet(docs, SharedKeys(docs))
  {
    forall key | SharedBy(docs, key) ensures key in SharedKeys(docs) {
      var i :| 0 <= i < |docs[0]| && docs[0][i].0 == key;
    }
  }

  /** Builds the request and asserts that it is lossless: None where either raises. */
  method RequestHash(s: Setup, b: Batch) returns (hash: Option<string>)
    requires HasDocuments(b)
    ensures hash.Some? ==> Job(b.batchId, hash.value) == JobOf(s, b)
    ensures AllEncodable(Sources(b)) ==> hash.Some?
  {
    var request := BuildRequest(b, s.rulesetVersion, s.context.promptVersion);
    if request.None? {
      return None;
    }
    ghost var shared :| IsSharedSet(Sources(b), shared) && request.value == Factored(b, s.rulesetVersion, s.context.promptVersion, shared);
    SharedKeysExact(Sources(b), shared);
    var ok := AssertLossless(request.value, b);
    if !ok {
      return None;
    }
    return Some(s.hash(request.value));
  }

  // ----- the whole assessment

  predicate Documents(alerts: seq<Row>) {
    forall i :: 0 <= i < |alerts| ==> alerts[i].source.Obj? && IsJson(alerts[i].source)
  }

  function BatchesFor(s: Setup, alerts: seq<Row>): seq<Batch> {
    match Built(s.context, ToRequest(s.existing, alerts), s.maxBatchSize)
    case None => []
    case Some(batches) => batches
  }

  lemma {:induction false} ToRequestMember(existing: map<string, Verdict>, alerts: seq<Row>, x: Row)
    ensures x in ToRequest(existing, alerts) <==> x in alerts && VerdictKey(x) !in existing
  {
    if alerts != [] {
      var n := |alerts| - 1;
      ToRequestMember(existing, alerts[..n], x);
      assert alerts == alerts[..n] + [alerts[n]];
    }
  }

  lemma {:induction false} AlertsInMember(batches: seq<Batch>, k: nat, i: nat)
    requires k < |batches| && i < |batches[k].alerts|
    ensures batches[k].alerts[i] in AlertsIn(batches)
  {
    var n := |batches| - 1;
    if k < n {
      AlertsInMember(batches[..n], k, i);
    }
  }

  lemma {:induction false} BatchShape(s: Setup, alerts: seq<Row>, k: nat)
    requires Documents(alerts) && k < |BatchesFor(s, alerts)|
    ensures var b := BatchesFor(s, alerts)[k];
      HasDocuments(b) && Mappings(b.alerts) && forall i :: 0 <= i < |b.alerts| ==> b.alerts[i] in alerts
  {
    var todo := ToRequest(s.existing, alerts);
    var batches := BatchesFor(s, alerts);
    var cap := CapOf(s.maxBatchSize);
    EveryAlertOnce(s.context, todo, cap);
    EveryBatchWellFormed(s.context, todo, cap, k);
    forall i | 0 <= i < |batches[k].alerts| ensures batches[k].alerts[i] in alerts {
      AlertsInMember(batches, k, i);
      SameElements(AlertsIn(batches), todo);
      ToRequestMember(s.existing, alerts, batches[k].alerts[i]);
    }
  }

  /** `judge` accepts, for each batch, exactly the responses that answer it. */
  ghost predicate JudgesAll(judge: Judge, s: Setup, batches: seq<Batch>) {
    forall k :: 0 <= k < |batches| && HasDocuments(batches[k]) && Mappings(batches[k].alerts) ==>
      Judges(judge, JobOf(s, batches[k]), s.parse, batches[k])
  }

  ghost predicate Reaches(judge: Judge, w: World, v: World) {
    exists ws :: Follows(judge, w, ws) && Last(ws) == v
  }

  /** A batch went from one world to the next, with its outcome. */
  ghost predicate RanOne(judge: Judge, s: Setup, b: Batch, r: Result, w: World, v: World) {
    && HasDocuments(b) && Mappings(b.alerts)
    && Outcome(judge, JobOf(s, b), s.parse, b, w.tables, s.client, r)
    && Leaves(judge, JobOf(s, b), s.client, w, v)
    && Reaches(judge, w, v)
  }

  /** The first batches were run one after the other. */
  ghost predicate Ran(judge: Judge, s: Setup, batches: seq<Batch>, results: seq<Result>, worlds: seq<World>) {
    && |worlds| == |results| + 1
    && AllFitting(batches, results)
    && forall k :: 0 <= k < |results| ==> RanOne(judge, s, batches[k], results[k], worlds[k], worlds[k + 1])
  }

  /** The batch cannot be run: a document has no encoding, or another request is stored under its id. */
  ghost predicate Stuck(s: Setup, b: Batch, t: Tables) {
    HasDocuments(b) && Mappings(b.alerts) && (!AllEncodable(Sources(b)) || Prepare(t, JobOf(s, b)).None?)
  }

  function ResultOf(s: Setup, alerts: seq<Row>, batches: seq<Batch>, results: seq<Result>): Assessment
    requires AllFitting(batches, results)
  {
    Assessment(
      Record(Reused(s.existing, alerts) + Assigned(batches, results)),
      NewVerdicts(batches, results),
      |batches|,
      |Reused(s.existing, alerts)|)
  }

  lemma {:induction false} RecordOne(outs: seq<AlertOutcome>, o: AlertOutcome)
    ensures Record(outs + [o]) == Record(outs)[o.alert.identity := o]
  {
    assert (outs + [o])[..|outs|] == outs;
  }

  /** Stored verdicts first. */
  method ReuseStored(s: Setup, alerts: seq<Row>) returns (outcomes: map<string, AlertOutcome>, todo: seq<Row>, reused: nat)
    ensures outcomes == Record(Reused(s.existing, alerts)) && reused == |Reused(s.existing, alerts)|
    ensures todo == ToRequest(s.existing, alerts)
  {
    outcomes, todo, reused := map[], [], 0;
    for i := 0 to |alerts|
      invariant outcomes == Record(Reused(s.existing, alerts[..i])) && reused == |Reused(s.existing, alerts[..i])|
      invariant todo == ToRequest(s.existing, alerts[..i])
    {
      var alert := alerts[i];
      assert alerts[..i + 1][..i] == alerts[..i];
      if VerdictKey(alert) in s.existing {
        var outcome := FromVerdict(s.existing[VerdictKey(alert)], true, alert);
        RecordOne(Reused(s.existing, alerts[..i]), outcome);
        outcomes := outcomes[alert.identity := outcome];
        reused := reused + 1;
      } else {
        todo := todo + [alert];
      }
    }
    assert alerts[..|alerts|] == alerts;
  }

  /** A record being filled: the first `n` outcomes of a batch are in. */
  ghost predicate Filled(written: map<string, AlertOutcome>, outs: seq<AlertOutcome>, given: seq<AlertOutcome>, n: nat)
    requires n <= |given|
  {
    written == Record(outs + given[..n])
  }

  lemma {:induction false} FillOne(written: map<string, AlertOutcome>, outs: seq<AlertOutcome>, given: seq<AlertOutcome>, n: nat)
    requires n < |given| && Filled(written, outs, given, n)
    ensures Filled(written[given[n].alert.identity := given[n]], outs, given, n + 1)
  {
    RecordOne(outs + given[..n], given[n]);
    assert outs + given[..n] + [given[n]] == outs + given[..n + 1];
  }

  lemma {:induction false} FillEnds(written: map<string, AlertOutcome>, outs: seq<AlertOutcome>, given: seq<AlertOutcome>)
    ensures written == Record(outs) ==> Filled(written, outs, given, 0)
    ensures Filled(written, outs, given, |given|) ==> written == Record(outs + given)
  {
    assert outs + given[..0] == outs && given[..|given|] == given;
  }

  method WriteVerdicts(b: Batch, r: Result, outcomes: map<string, AlertOutcome>, ghost outs: seq<AlertOutcome>)
      returns (written: map<string, AlertOutcome>, news: seq<NewVerdict>)
    requires Fitting(b, r) && r.Assessed? && outcomes == Record(outs)
    ensures written == Record(outs + GivenAll(b, r)) && news == VerdictsOf(b, r)
  {
    written, news := outcomes, [];
    ghost var given := GivenAll(b, r);
    FillEnds(written, outs, given);
    for i := 0 to |r.verdicts|
      invariant Filled(written, outs, given, i)
      invariant |news| == i && forall j :: 0 <= j < i ==> news[j] == NewVerdict(b.alerts[j], r.verdicts[j])
    {
      FillOne(written, outs, given, i);
      var alert := b.alerts[i];
      written := written[alert.identity := FromVerdict(r.verdicts[i], false, alert)];
      news := news + [NewVerdict(alert, r.verdicts[i])];
    }
    FillEnds(written, outs, given);
  }

  method WriteUnassessed(b: Batch, status: string, outcomes: map<string, AlertOutcome>, ghost outs: seq<AlertOutcome>)
      returns (written: map<string, AlertOutcome>)
    requires outcomes == Record(outs)
    ensures written == Record(outs + GivenAll(b, GaveUp(status)))
  {
    written := outcomes;
    ghost var given := GivenAll(b, GaveUp(status));
    FillEnds(written, outs, given);
    for i := 0 to |b.alerts|
      invariant Filled(written, outs, given, i)
    {
      FillOne(written, outs, given, i);
      var alert := b.alerts[i];
      written := written[alert.identity := FromFailure(status, alert)];
    }
    FillEnds(written, outs, given);
  }

  method WriteOutcomes(b: Batch, r: Result, outcomes: map<string, AlertOutcome>, ghost outs: seq<AlertOutcome>)
      returns (written: map<string, AlertOutcome>, news: seq<NewVerdict>)
    requires Fitting(b, r) && outcomes == Record(outs)
    ensures written == Record(outs + GivenAll(b, r)) && news == VerdictsOf(b, r)
  {
    if r.Assessed? {
      written, news := WriteVerdicts(b, r, outcomes, outs);
    } else {
      written := WriteUnassessed(b, r.status, outcomes, outs);
      news := [];
    }
  }

  /** One batch, from its request to its result; None where something raises. */
  method RunBatch(journal: Journal, s: Setup, b: Batch, ghost judge: Judge, ghost w: World) returns (result: Option<Result>, ghost v: World)
    requires HasDocuments(b) && Mappings(b.alerts) && Judges(judge, JobOf(s, b), s.parse, b)
    requires w.tables == journal.State() && w.proc == Idle
    modifies journal
    ensures v.tables == journal.State() && v.proc == Idle
    ensures result.Some? ==> RanOne(judge, s, b, result.value, w, v) && Fitting(b, result.value)
    ensures result.None? ==> Stuck(s, b, w.tables) && journal.State() == old(journal.State()) && v == w
  {
    v := w;
    var hash := RequestHash(s, b);
    if hash.None? {
      return None, v;
    }
    var attempted;
    ghost var trace;
    attempted, trace := AttemptBatch(journal, b, hash.value, s.parse, s.client, judge, w);
    if attempted.Refused? {
      return None, v;
    }
    v := Last(trace);
    return Some(attempted), v;
  }

  lemma {:induction false} RanOneMore(judge: Judge, s: Setup, batches: seq<Batch>, results: seq<Result>, worlds: seq<World>, r: Result, v: World)
    requires Ran(judge, s, batches, results, worlds) && |results| < |batches|
    requires RanOne(judge, s, batches[|results|], r, worlds[|results|], v) && Fitting(batches[|results|], r)
    ensures Ran(judge, s, batches, results + [r], worlds + [v])
  {
    var all, ws := results + [r], worlds + [v];
    forall k | 0 <= k < |all| ensures RanOne(judge, s, batches[k], all[k], ws[k], ws[k + 1]) {
      if k < |results| {
        assert RanOne(judge, s, batches[k], results[k], worlds[k], worlds[k + 1]);
      }
    }
  }

  lemma {:induction false} AssignedOneMore(batches: seq<Batch>, results: seq<Result>, r: Result)
    requires AllFitting(batches, results) && |results| < |batches| && Fitting(batches[|results|], r)
    ensures AllFitting(batches, results + [r])
    ensures Assigned(batches, results + [r]) == Assigned(batches, results) + GivenAll(batches[|results|], r)
    ensures NewVerdicts(batches, results + [r]) == NewVerdicts(batches, results) + VerdictsOf(batches[|results|], r)
  {
    assert (results + [r])[..|results|] == results;
  }

  /** The loop over the batches: those of `results` are done. */
  ghost predicate Underway(judge: Judge, s: Setup, batches: seq<Batch>, outs: seq<AlertOutcome>, w: World, now: Tables,
                           outcomes: map<string, AlertOutcome>, news: seq<NewVerdict>, results: seq<Result>, worlds: seq<World>) {
    && Ran(judge, s, batches, results, worlds)
    && worlds[0] == w && Last(worlds) == World(now, Idle, Last(worlds).calls)
    && outcomes == Record(outs + Assigned(batches, results))
    && news == NewVerdicts(batches, results)
  }

  lemma {:induction false} Associative<T>(a: seq<T>, b: seq<T>, c: seq<T>)
    ensures a + b + c == a + (b + c)
  {
  }

  lemma {:induction false} UnderwayOneMore(judge: Judge, s: Setup, batches: seq<Batch>, outs: seq<AlertOutcome>, w: World, was: Tables,
                           outcomes: map<string, AlertOutcome>, news: seq<NewVerdict>, results: seq<Result>, worlds: seq<World>,
                           r: Result, v: World, now: Tables, written: map<string, AlertOutcome>)
    requires Underway(judge, s, batches, outs, w, was, outcomes, news, results, worlds) && |results| < |batches|
    requires var b := batches[|results|];
      && RanOne(judge, s, b, r, Last(worlds), v) && Fitting(b, r) && v == World(now, Idle, v.calls)
      && written == Record(outs + Assigned(batches, results) + GivenAll(b, r))
    ensures Underway(judge, s, batches, outs, w, now, written, news + VerdictsOf(batches[|results|], r), results + [r], worlds + [v])
  {
    RanOneMore(judge, s, batches, results, worlds, r, v);
    AssignedOneMore(batches, results, r);
    Associative(outs, Assigned(batches, results), GivenAll(batches[|results|], r));
  }

  lemma {:induction false} UnderwayStart(judge: Judge, s: Setup, batches: seq<Batch>, outs: seq<AlertOutcome>, w: World)
    requires w.proc == Idle
    ensures Underway(judge, s, batches, outs, w, w.tables, Record(outs), [], [], [w])
  {
    assert outs + Assigned(batches, []) == outs;
  }

  /** One turn of the loop: batch `k` is run and its outcomes are written; false where something raises. */
  method AssessBatch(journal: Journal, alerts: seq<Row>, s: Setup, batches: seq<Batch>, k: nat, outcomes: map<string, AlertOutcome>,
                     news: seq<NewVerdict>, ghost judge: Judge, ghost w: World, ghost outs: seq<AlertOutcome>,
                     ghost results: seq<Result>, ghost worlds: seq<World>)
      returns (ok: bool, written: map<string, AlertOutcome>, allNews: seq<NewVerdict>, ghost all: seq<Result>, ghost ws: seq<World>)
    requires Documents(alerts) && batches == BatchesFor(s, alerts) && JudgesAll(judge, s, batches)
    requires k == |results| < |batches|
    requires Underway(judge, s, batches, outs, w, journal.State(), outcomes, news, results, worlds)
    modifies journal
    ensures Underway(judge, s, batches, outs, w, journal.State(), written, allNews, all, ws)
    ensures if ok then |all| == k + 1 else |all| == k && Stuck(s, batches[k], Last(ws).tables)
  {
    BatchShape(s, alerts, k);
    ghost var was := journal.State();
    var result;
    ghost var v;
    result, v := RunBatch(journal, s, batches[k], judge, Last(worlds));
    if result.None? {
      return false, outcomes, news, results, worlds;
    }
    var more;
    written, more := WriteOutcomes(batches[k], result.value, outcomes, outs + Assigned(batches, results));
    UnderwayOneMore(judge, s, batches, outs, w, was, outcomes, news, results, worlds, result.value, v, journal.State(), written);
    return true, written, news + more, results + [result.value], worlds + [v];
  }

  method AssessAlerts(journal: Journal, alerts: seq<Row>, s: Setup, ghost judge: Judge, ghost w: World)
      returns (assessment: Option<Assessment>, ghost results: seq<Result>, ghost worlds: seq<World>)
    requires Documents(alerts) && JudgesAll(judge, s, BatchesFor(s, alerts))
    requires w.tables == journal.State() && w.proc == Idle
    modifies journal
    ensures Ran(judge, s, BatchesFor(s, alerts), results, worlds)
    ensures worlds[0] == w && Last(worlds).tables == journal.State()
    ensures assessment.Some? ==>
      && Built(s.context, ToRequest(s.existing, alerts), s.maxBatchSize).Some?
      && |results| == |BatchesFor(s, alerts)|
      && assessment.value == ResultOf(s, alerts, BatchesFor(s, alerts), results)
    ensures assessment.None? ==>
      || Built(s.context, ToRequest(s.existing, alerts), s.maxBatchSize).None?
      || (|results| < |BatchesFor(s, alerts)| && Stuck(s, BatchesFor(s, alerts)[|results|], Last(worlds).tables))
  {
    results, worlds := [], [w];
    var outcomes, todo, reused := ReuseStored(s, alerts);
    ghost var outs := Reused(s.existing, alerts);
    var built := BuildBatches(s.context, todo, s.maxBatchSize);
    UnderwayStart(judge, s, BatchesFor(s, alerts), outs, w);
    if built.None? {
      return None, results, worlds;
    }
    var batches := built.value;
    var news: seq<NewVerdict> := [];
    for k := 0 to |batches|
      invariant |results| == k && Underway(judge, s, batches, outs, w, journal.State(), outcomes, news, results, worlds)
    {
      var ok;
      ok, outcomes, news, results, worlds := AssessBatch(journal, alerts, s, batches, k, outcomes, news, judge, w, outs, results, worlds);
      if !ok {
        return None, results, worlds;
      }
    }
    return Some(Assessment(outcomes, news, |batches|, reused)), results, worlds;
  }
}
