/**
 The store: runs and their rows, publications and verdicts
 (`src/db/repositories.py:241-330`, `src/review/publication.py:141-300`). A method is one transaction.
 */
module Repositories {
  import opened Text
  import opened Hashing
  import opened Publication

  type Values = map<string, Json>

  datatype Table = DailyMetrics | DailyRuleCounts | AlertFindings | LlmBatchAttempts | RunPanels

  const CHILD_TABLES: seq<Table> := [DailyMetrics, DailyRuleCounts, AlertFindings, LlmBatchAttempts, RunPanels]

  datatype RunRow = RunRow(teamId: string, windowStart: int, windowEnd: int, status: string, values: Values)

  datatype ChildRow = ChildRow(table: Table, runId: string, values: Values)

  datatype VerdictId = VerdictId(application: string, keyField: string, promptVersion: string, modelVersion: string)

  datatype VerdictRow = VerdictRow(id: VerdictId, values: Values)

  datatype Withdrawal = Withdrawal(at: int, operator: string, reason: string)

  /** A publication's id is its position in the table, from 1. */
  datatype PublicationRow = PublicationRow(
    runId: string,
    teamId: string,
    start: int,
    end: int,
    publishedAt: int,
    publishedBy: string,
    note: Option<string>,
    withdrawn: Option<Withdrawal>)

  datatype Tables = Tables(
    runs: map<string, RunRow>,
    children: seq<ChildRow>,
    publications: seq<PublicationRow>,
    verdicts: map<VerdictId, Values>)

  datatype Payload = Payload(runId: string, run: RunRow, children: seq<ChildRow>, verdicts: seq<VerdictRow>)

  // ----- reading

  predicate IsCurrent(p: PublicationRow) {
    p.withdrawn.None?
  }

  predicate IsPublished(t: Tables, runId: string) {
    exists i :: 0 <= i < |t.publications| && t.publications[i].runId == runId && IsCurrent(t.publications[i])
  }

  function WeekOf(pubs: seq<PublicationRow>, i: nat): PublishedWeek
    requires i < |pubs|
  {
    PublishedWeek(pubs[i].runId, pubs[i].start, pubs[i].end, i + 1)
  }

  /** `_current_weeks`, in the order of the table. */
  function CurrentWeeks(pubs: seq<PublicationRow>, team: string): seq<PublishedWeek> {
    if pubs == [] then []
    else
      var n := |pubs| - 1;
      if pubs[n].teamId == team && IsCurrent(pubs[n]) then CurrentWeeks(pubs[..n], team) + [WeekOf(pubs, n)]
      else CurrentWeeks(pubs[..n], team)
  }

  /** The rows of a run in all child tables. */
  function RowsOf(children: seq<ChildRow>, runId: string): seq<ChildRow> {
    if children == [] then []
    else
      var n := |children| - 1;
      if children[n].runId == runId then RowsOf(children[..n], runId) + [children[n]] else RowsOf(children[..n], runId)
  }

  // ----- persisting

  /** The rows that a deletion from the given tables leaves. */
  function Remaining(children: seq<ChildRow>, tables: seq<Table>, runId: string): seq<ChildRow> {
    if children == [] then []
    else
      var n := |children| - 1;
      if children[n].runId == runId && children[n].table in tables then Remaining(children[..n], tables, runId)
      else Remaining(children[..n], tables, runId) + [children[n]]
  }

  lemma {:induction false} RemainingOfNone(children: seq<ChildRow>, runId: string)
    ensures Remaining(children, [], runId) == children
  {
    if children != [] {
      RemainingOfNone(children[..|children| - 1], runId);
    }
  }

  lemma {:induction false} RemainingOneMore(children: seq<ChildRow>, tables: seq<Table>, table: Table, runId: string)
    ensures Remaining(Remaining(children, tables, runId), [table], runId) == Remaining(children, tables + [table], runId)
  {
    if children != [] {
      var n := |children| - 1;
      RemainingOneMore(children[..n], tables, table, runId);
      var kept := Remaining(children[..n], tables, runId);
      assert (kept + [children[n]])[..|kept|] == kept;
    }
  }

  function Inserted(verdicts: map<VerdictId, Values>, v: VerdictRow): map<VerdictId, Values> {
    if v.id in verdicts then verdicts else verdicts[v.id := v.values]
  }

  function InsertedAll(verdicts: map<VerdictId, Values>, vs: seq<VerdictRow>): map<VerdictId, Values> {
    if vs == [] then verdicts else Inserted(InsertedAll(verdicts, vs[..|vs| - 1]), vs[|vs| - 1])
  }

  /** The store after a run was persisted. */
  function Persisted(t: Tables, p: Payload): Tables {
    Tables(
      t.runs[p.runId := p.run],
      Remaining(t.children, CHILD_TABLES, p.runId) + p.children,
      t.publications,
      InsertedAll(t.verdicts, p.verdicts))
  }

  /** Every row refers to a run that is there. */
  predicate Refer(children: seq<ChildRow>, runs: map<string, RunRow>) {
    forall i :: 0 <= i < |children| ==> children[i].runId in runs
  }

  // ----- publishing

  datatype Cleaned = TooLong | Clean(text: Option<string>)

  function Strip(s: string): string {
    TrimRight(TrimLeft(s))
  }

  /** Exactly the blank characters at both ends are dropped. */
  lemma {:induction false} StripsBothEnds(s: string) returns (left: string, right: string)
    ensures IsStripped(s, Strip(s), left, right)
  {
    left, right := StripMeans(s);
  }

  /** `_clean`: stripped, None when nothing is left. */
  function CleanText(text: Option<string>, limit: nat): Cleaned {
    match text
    case None => Clean(None)
    case Some(s) =>
      if Strip(s) == "" then Clean(None)
      else if |Strip(s)| > limit then TooLong
      else Clean(Some(Strip(s)))
  }

  const OPERATOR_LIMIT: nat := 128
  const NOTE_LIMIT: nat := 4000
  const REASON_LIMIT: nat := 1000

  datatype Request = Request(runId: string, publishedBy: string, note: Option<string>, replace: bool, allowGap: bool, at: int)

  datatype Rejection = NoOperator | TextTooLong | NoSuchRun | NotCompleted | ByTheRules(why: Refusal) | NoReason | NotPublished

  datatype PublishResult = Rejected(why: Rejection) | Published(publicationId: nat, replaced: Option<string>)

  predicate Names(text: string) {
    CleanText(Some(text), OPERATOR_LIMIT).Clean? && CleanText(Some(text), OPERATOR_LIMIT).text.Some?
  }

  function CandidateOf(t: Tables, runId: string): PublishedWeek
    requires runId in t.runs
  {
    PublishedWeek(runId, t.runs[runId].windowStart, t.runs[runId].windowEnd, 0)
  }

  predicate MayPublish(t: Tables, r: Request) {
    && Names(r.publishedBy) && CleanText(r.note, NOTE_LIMIT).Clean?
    && r.runId in t.runs && t.runs[r.runId].status == "completed"
    && Permitted(CandidateOf(t, r.runId), CurrentWeeks(t.publications, t.runs[r.runId].teamId), r.replace, r.allowGap)
  }

  /** What a rejection says is so. */
  predicate Explains(t: Tables, r: Request, why: Rejection) {
    match why
    case NoOperator => CleanText(Some(r.publishedBy), OPERATOR_LIMIT) == Clean(None)
    case TextTooLong => CleanText(Some(r.publishedBy), OPERATOR_LIMIT).TooLong? || CleanText(r.note, NOTE_LIMIT).TooLong?
    case NoSuchRun => r.runId !in t.runs
    case NotCompleted => r.runId in t.runs && t.runs[r.runId].status != "completed"
    case ByTheRules(refusal) =>
      && r.runId in t.runs
      && Justified(refusal, CandidateOf(t, r.runId), CurrentWeeks(t.publications, t.runs[r.runId].teamId), r.replace, r.allowGap)
    case _ => false
  }

  /** The row of a new publication: the run's own team and window, and the texts stripped. */
  predicate IsRowOf(p: PublicationRow, t: Tables, r: Request) {
    && r.runId in t.runs
    && p.runId == r.runId && p.teamId == t.runs[r.runId].teamId
    && p.start == t.runs[r.runId].windowStart && p.end == t.runs[r.runId].windowEnd
    && p.publishedAt == r.at && p.publishedBy == Strip(r.publishedBy) && p.withdrawn == None
    && p.note == if r.note.Some? && Strip(r.note.value) != "" then Some(Strip(r.note.value)) else None
  }

  function NewRow(t: Tables, r: Request): PublicationRow
    requires MayPublish(t, r)
  {
    var run := t.runs[r.runId];
    PublicationRow(r.runId, run.teamId, run.windowStart, run.windowEnd, r.at,
                   CleanText(Some(r.publishedBy), OPERATOR_LIMIT).text.value, CleanText(r.note, NOTE_LIMIT).text, None)
  }

  lemma {:induction false} RowAdded(t: Tables, r: Request)
    requires MayPublish(t, r)
    ensures IsRowOf(NewRow(t, r), t, r)
  {
  }

  function Withdrawn(pubs: seq<PublicationRow>, i: nat, w: Withdrawal): seq<PublicationRow>
    requires i < |pubs|
  {
    pubs[i := pubs[i].(withdrawn := Some(w))]
  }

  /** A publication: the row is added; with `replace`, the week it replaces is withdrawn first. */
  ghost predicate Publishes(t: Tables, r: Request, u: Tables, result: PublishResult) {
    && MayPublish(t, r)
    && var current := CurrentWeeks(t.publications, t.runs[r.runId].teamId);
       if r.replace then
         exists k :: FirstSame(CandidateOf(t, r.runId), current, k) && Replaces(t, r, current[k], u, result)
       else
         && result == Published(|t.publications| + 1, None)
         && u == t.(publications := t.publications + [NewRow(t, r)])
  }

  ghost predicate Replaces(t: Tables, r: Request, week: PublishedWeek, u: Tables, result: PublishResult)
    requires MayPublish(t, r)
  {
    && 1 <= week.publicationId <= |t.publications|
    && result == Published(|t.publications| + 1, Some(week.runId))
    && u == t.(publications := Withdrawn(t.publications, week.publicationId - 1, ReplacedBy(t, r)) + [NewRow(t, r)])
  }

  function ReplacedBy(t: Tables, r: Request): Withdrawal
    requires MayPublish(t, r)
  {
    Withdrawal(r.at, NewRow(t, r).publishedBy, "replaced by run " + r.runId)
  }

  /** A withdrawal of the run's current publication. */
  ghost predicate Withdraws(t: Tables, runId: string, w: Withdrawal, u: Tables) {
    exists i :: 0 <= i < |t.publications| && WithdrawsAt(t, runId, w, u, i)
  }

  ghost predicate WithdrawsAt(t: Tables, runId: string, w: Withdrawal, u: Tables, i: nat)
    requires i < |t.publications|
  {
    && t.publications[i].runId == runId && IsCurrent(t.publications[i])
    && u == t.(publications := Withdrawn(t.publications, i, w))
  }

  /** What `publish_run` does: publishes exactly when permitted; else says why and changes nothing. */
  ghost predicate PublishOutcome(t: Tables, r: Request, u: Tables, result: PublishResult) {
    if MayPublish(t, r) then Publishes(t, r, u, result)
    else result.Rejected? && Explains(t, r, result.why) && u == t
  }

  /** In full: the run is there and completed, the texts fit, and the rules hold of its week and the team's current ones. */
  ghost predicate PublishRulesHold(t: Tables, r: Request) {
    && r.runId in t.runs && t.runs[r.runId].status == "completed"
    && 1 <= |Strip(r.publishedBy)| <= 128 && (r.note.Some? ==> |Strip(r.note.value)| <= 4000)
    && RulesHold(PublishedWeek(r.runId, t.runs[r.runId].windowStart, t.runs[r.runId].windowEnd, 0),
                 CurrentWeeks(t.publications, t.runs[r.runId].teamId), r.replace, r.allowGap)
  }

  lemma {:induction false} MayPublishMeans(t: Tables, r: Request)
    ensures MayPublish(t, r) <==> PublishRulesHold(t, r)
  {
    if r.runId in t.runs {
      PermittedMeans(CandidateOf(t, r.runId), CurrentWeeks(t.publications, t.runs[r.runId].teamId), r.replace, r.allowGap);
    }
  }

  /** What `PublishRun` answers, in full. */
  lemma {:induction false} PublishMeans(t: Tables, r: Request, u: Tables, result: PublishResult)
    requires PublishOutcome(t, r, u, result)
    ensures result.Published? <==> PublishRulesHold(t, r)
    ensures result.Published? ==>
      && result.publicationId == |u.publications| == |t.publications| + 1
      && IsRowOf(u.publications[|t.publications|], t, r)
  {
    MayPublishMeans(t, r);
    if MayPublish(t, r) {
      RowAdded(t, r);
    }
  }

  /** Publication `i` is the team's current one of the run's window, and is withdrawn in favour of the new run. */
  ghost predicate GivesWay(t: Tables, r: Request, u: Tables, result: PublishResult, i: nat)
    requires r.runId in t.runs && i < |t.publications| < |u.publications|
  {
    var run, p := t.runs[r.runId], t.publications[i];
    && p.teamId == run.teamId && p.withdrawn == None && p.start == run.windowStart && p.end == run.windowEnd
    && u.publications[i] == p.(withdrawn := Some(Withdrawal(r.at, Strip(r.publishedBy), "replaced by run " + r.runId)))
    && result.Published? && result.replaced == Some(p.runId)
  }

  /** A replacement withdraws the week that gives way and no other publication; without one, none is withdrawn. */
  lemma {:induction false} ReplaceMeans(t: Tables, r: Request, u: Tables, result: PublishResult) returns (i: int)
    requires PublishOutcome(t, r, u, result) && result.Published?
    ensures |u.publications| == |t.publications| + 1
    ensures forall j :: 0 <= j < |t.publications| && j != i ==> u.publications[j] == t.publications[j]
    ensures if r.replace then 0 <= i < |t.publications| && GivesWay(t, r, u, result, i) else i == -1 && result.replaced == None
  {
    var current := CurrentWeeks(t.publications, t.runs[r.runId].teamId);
    i := -1;
    if r.replace {
      var k :| FirstSame(CandidateOf(t, r.runId), current, k) && Replaces(t, r, current[k], u, result);
      CurrentExact(t.publications, t.runs[r.runId].teamId);
      RowAdded(t, r);
      i := current[k].publicationId - 1;
    }
  }

  /** What `_current_weeks` returns are the team's current publications, each under its own id. */
  lemma {:induction false} CurrentExact(pubs: seq<PublicationRow>, team: string)
    ensures forall k :: 0 <= k < |CurrentWeeks(pubs, team)| ==>
      var w := CurrentWeeks(pubs, team)[k];
      && 1 <= w.publicationId <= |pubs| && w == WeekOf(pubs, w.publicationId - 1)
      && pubs[w.publicationId - 1].teamId == team && IsCurrent(pubs[w.publicationId - 1])
    ensures forall i :: 0 <= i < |pubs| && pubs[i].teamId == team && IsCurrent(pubs[i]) ==> WeekOf(pubs, i) in CurrentWeeks(pubs, team)
    ensures forall k, l :: 0 <= k < l < |CurrentWeeks(pubs, team)| ==>
      CurrentWeeks(pubs, team)[k].publicationId < CurrentWeeks(pubs, team)[l].publicationId
  {
    if pubs != [] {
      var n := |pubs| - 1;
      var before := CurrentWeeks(pubs[..n], team);
      CurrentExact(pubs[..n], team);
      forall k | 0 <= k < |before| ensures before[k] == WeekOf(pubs, before[k].publicationId - 1) {
        assert before[k] == WeekOf(pubs[..n], before[k].publicationId - 1);
      }
      forall i | 0 <= i < n && pubs[i].teamId == team && IsCurrent(pubs[i]) ensures WeekOf(pubs, i) in CurrentWeeks(pubs, team) {
        assert pubs[..n][i] == pubs[i] && WeekOf(pubs[..n], i) == WeekOf(pubs, i);
      }
    }
  }

  // ----- the store

  class Store {
    var runs: map<string, RunRow>
    var children: seq<ChildRow>
    var publications: seq<PublicationRow>
    var verdicts: map<VerdictId, Values>

    function State(): Tables
      reads this
    {
      Tables(runs, children, publications, verdicts)
    }

    constructor ()
      ensures State() == Tables(map[], [], [], map[])
    {
      runs, children, publications, verdicts := map[], [], [], map[];
    }

    method FindCurrent(runId: string) returns (i: Option<nat>)
      ensures i.Some? ==> i.value < |publications| && publications[i.value].runId == runId && IsCurrent(publications[i.value])
      ensures i.None? ==> !IsPublished(State(), runId)
    {
      for j := 0 to |publications|
        invariant forall k :: 0 <= k < j ==> !(publications[k].runId == runId && IsCurrent(publications[k]))
      {
        if publications[j].runId == runId && IsCurrent(publications[j]) {
          return Some(j);
        }
      }
      return None;
    }

    method InsertVerdictIfAbsent(v: VerdictRow)
      modifies this`verdicts
      ensures verdicts == Inserted(old(verdicts), v)
    {
      if v.id !in verdicts {
        verdicts := verdicts[v.id := v.values];
      }
    }

    method DeleteRows(runId: string)
      modifies this`children
      ensures children == Remaining(old(children), CHILD_TABLES, runId)
    {
      RemainingOfNone(children, runId);
      for k := 0 to |CHILD_TABLES|
        invariant children == Remaining(old(children), CHILD_TABLES[..k], runId)
      {
        RemainingOneMore(old(children), CHILD_TABLES[..k], CHILD_TABLES[k], runId);
        assert CHILD_TABLES[..k] + [CHILD_TABLES[k]] == CHILD_TABLES[..k + 1];
        children := Remaining(children, [CHILD_TABLES[k]], runId);
      }
      assert CHILD_TABLES[..|CHILD_TABLES|] == CHILD_TABLES;
    }

    /** A published run is refused; so is a row that refers to no run. A refusal changes nothing. */
    method PersistRun(p: Payload) returns (saved: bool)
      modifies this
      ensures saved <==> !IsPublished(old(State()), p.runId) && Refer(p.children, old(runs)[p.runId := p.run])
      ensures State() == if saved then Persisted(old(State()), p) else old(State())
    {
      var published := FindCurrent(p.runId);
      if published.Some? || !Refer(p.children, runs[p.runId := p.run]) {
        return false;
      }
      DeleteRows(p.runId);
      runs := runs[p.runId := p.run];
      children := children + p.children;
      for k := 0 to |p.verdicts|
        invariant verdicts == InsertedAll(old(verdicts), p.verdicts[..k])
        invariant runs == old(runs)[p.runId := p.run] && publications == old(publications)
        invariant children == Remaining(old(children), CHILD_TABLES, p.runId) + p.children
      {
        assert p.verdicts[..k + 1][..k] == p.verdicts[..k];
        InsertVerdictIfAbsent(p.verdicts[k]);
      }
      assert p.verdicts[..|p.verdicts|] == p.verdicts;
      return true;
    }

    method PublishRun(r: Request) returns (result: PublishResult)
      modifies this`publications
      ensures PublishOutcome(old(State()), r, State(), result)
    {
      var operator := CleanText(Some(r.publishedBy), OPERATOR_LIMIT);
      if operator.TooLong? {
        return Rejected(TextTooLong);
      }
      if operator.text.None? {
        return Rejected(NoOperator);
      }
      var note := CleanText(r.note, NOTE_LIMIT);
      if note.TooLong? {
        return Rejected(TextTooLong);
      }
      if r.runId !in runs {
        return Rejected(NoSuchRun);
      }
      var run := runs[r.runId];
      if run.status != "completed" {
        return Rejected(NotCompleted);
      }
      var current := CurrentWeeks(publications, run.teamId);
      CurrentExact(publications, run.teamId);
      var candidate := PublishedWeek(r.runId, run.windowStart, run.windowEnd, 0);
      var decision := CheckPublication(candidate, current, r.replace, r.allowGap);
      if decision.Refused? {
        return Rejected(ByTheRules(decision.why));
      }
      result := Published(|publications| + 1, None);
      if decision.replaced.Some? {
        var replaced := current[decision.replaced.value];
        result := Published(|publications| + 1, Some(replaced.runId));
        publications := Withdrawn(publications, replaced.publicationId - 1,
                                  Withdrawal(r.at, operator.text.value, "replaced by run " + r.runId));
      }
      publications := publications
        + [PublicationRow(r.runId, run.teamId, run.windowStart, run.windowEnd, r.at, operator.text.value, note.text, None)];
    }

    method UnpublishRun(runId: string, withdrawnBy: string, reason: string, at: int) returns (rejection: Option<Rejection>)
      modifies this`publications
      ensures rejection.None? <==>
        && 1 <= |Strip(withdrawnBy)| <= 128 && 1 <= |Strip(reason)| <= 1000
        && IsPublished(old(State()), runId)
      ensures if rejection.None? then
          Withdraws(old(State()), runId, Withdrawal(at, Strip(withdrawnBy), Strip(reason)), State())
        else State() == old(State())
    {
      var operator := CleanText(Some(withdrawnBy), OPERATOR_LIMIT);
      var why := CleanText(Some(reason), REASON_LIMIT);
      if operator.TooLong? || why.TooLong? {
        return Some(TextTooLong);
      }
      if operator.text.None? {
        return Some(NoOperator);
      }
      if why.text.None? {
        return Some(NoReason);
      }
      var current := FindCurrent(runId);
      if current.None? {
        return Some(NotPublished);
      }
      publications := Withdrawn(publications, current.value, Withdrawal(at, operator.text.value, why.text.value));
      assert WithdrawsAt(old(State()), runId, Withdrawal(at, Strip(withdrawnBy), Strip(reason)), State(), current.value);
      return None;
    }
  }
}
