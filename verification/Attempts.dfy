/** One batch through at most three attempts, resumed from the journal (`src/llm/assess.py:245-400`). */
module Attempts {
  import opened Text
  import opened Hashing
  import opened Normalize
  import opened Grouping
  import opened Response
  import opened LlmAudit
  import opened Protocol

  /** `json.loads`: None where it raises. */
  type Parser = string -> Option<Json>

  /** The model: what it replies to the given attempt at a job. */
  type Client = (Job, nat) -> Reply

  /** The journal refused the batch; or its verdicts; or the status of the last of three failures. */
  datatype Result = Refused | Assessed(verdicts: seq<Verdict>) | GaveUp(status: string)

  // ----- what a batch comes to

  /** The text is an accepted response to the batch, answering it with `vs`. */
  ghost predicate AnswersBatch(parse: Parser, b: Batch, text: string, vs: seq<Verdict>)
    requires |b.alerts| == |b.alertIds|
  {
    && parse(text).Some? && Items(parse(text).value, b.batchId).Some?
    && IsAnswer(Items(parse(text).value, b.batchId).value, b.alertIds, Some(b.alerts), vs)
  }

  ghost predicate Judges(judge: Judge, job: Job, parse: Parser, b: Batch)
    requires |b.alerts| == |b.alertIds|
  {
    forall text :: judge(job, text) <==> exists vs :: AnswersBatch(parse, b, text, vs)
  }

  /** What attempt `n` is worth: as stored, written off when unfinished, or asked for now. */
  function Worth(judge: Judge, job: Job, t: Tables, c: Cycle, n: nat, client: Client): AttemptRow {
    match AttemptIn(t, c, n)
    case None => Judged(judge, job, client(job, n))
    case Some(Started) => Failed("interrupted")
    case Some(Failed(kind)) => Failed(kind)
    case Some(Answered(text)) => if judge(job, text) then Answered(text) else Failed("invalid_response")
  }

  /** The first accepted answer among the attempts from `n` on. */
  function FirstAnswer(judge: Judge, job: Job, t: Tables, c: Cycle, n: nat, client: Client): Option<string>
    decreases MAX_ATTEMPTS + 1 - n
  {
    if n > MAX_ATTEMPTS then None
    else match Worth(judge, job, t, c, n, client)
      case Answered(text) => Some(text)
      case _ => FirstAnswer(judge, job, t, c, n + 1, client)
  }

  /** The outcome of a batch, given the journal it starts from. */
  ghost predicate Outcome(judge: Judge, job: Job, parse: Parser, b: Batch, t: Tables, client: Client, result: Result)
    requires |b.alerts| == |b.alertIds|
  {
    match Prepare(t, job)
    case None => result == Refused
    case Some((c, u)) =>
      match FirstAnswer(judge, job, u, c, 1, client)
      case None => result.GaveUp? && Worth(judge, job, u, c, MAX_ATTEMPTS, client) == Failed(result.status)
      case Some(text) => result.Assessed? && AnswersBatch(parse, b, text, result.verdicts)
  }

  /** The call of attempt `n`: none where the attempt is stored. */
  function Own(job: Job, t: Tables, c: Cycle, n: nat): seq<Call> {
    if AttemptIn(t, c, n) == None then [Call(c, n, job.requestHash)] else []
  }

  /** The calls of the attempts before `n`. */
  function CallsBefore(job: Job, t: Tables, c: Cycle, n: nat): seq<Call> {
    if n <= 1 then [] else CallsBefore(job, t, c, n - 1) + Own(job, t, c, n - 1)
  }

  /** A new attempt is stored as what it came to, an unfinished one is written off, any other stays. */
  ghost predicate Written(judge: Judge, job: Job, client: Client, c: Cycle, m: nat, t: Tables, u: Tables) {
    AttemptIn(u, c, m) ==
    match AttemptIn(t, c, m)
    case None => Some(Worth(judge, job, t, c, m, client))
    case Some(Started) => Some(Failed("interrupted"))
    case Some(row) => Some(row)
  }

  /** The loop left the cycle after attempt `n`: the first accepted one, or the last. */
  ghost predicate EndsAfter(judge: Judge, job: Job, client: Client, w: World, v: World, c: Cycle, t: Tables, n: nat) {
    && 1 <= n <= MAX_ATTEMPTS
    && (forall m :: 1 <= m < n ==> Worth(judge, job, t, c, m, client).Failed?)
    && (Worth(judge, job, t, c, n, client).Answered? || n == MAX_ATTEMPTS)
    && v.calls == w.calls + CallsBefore(job, t, c, n + 1)
    && (forall m :: 1 <= m <= n ==> Written(judge, job, client, c, m, t, v.tables))
    && v.tables.cycles == Complete(t, c, Worth(judge, job, t, c, n, client).Answered?).cycles
  }

  /** How a batch leaves the world. */
  ghost predicate Leaves(judge: Judge, job: Job, client: Client, w: World, v: World) {
    match Prepare(w.tables, job)
    case None => v == w
    case Some((c, t)) => exists n :: EndsAfter(judge, job, client, w, v, c, t, n)
  }

  // ----- runs of steps

  lemma {:induction false} OneMore(judge: Judge, w: World, ws: seq<World>, v: World)
    requires Follows(judge, w, ws) && Step(judge, Last(ws), v)
    ensures Follows(judge, w, ws + [v]) && Last(ws + [v]) == v
  {
    var all := ws + [v];
    forall i | 0 <= i < |all| - 1 ensures Step(judge, all[i], all[i + 1]) {
      if i < |ws| - 1 {
        assert Step(judge, ws[i], ws[i + 1]);
      }
    }
  }

  lemma {:induction false} ThenAlso(judge: Judge, w: World, ws: seq<World>, vs: seq<World>)
    requires Follows(judge, w, ws) && Follows(judge, Last(ws), vs)
    ensures Follows(judge, w, ws + vs[1..]) && Last(ws + vs[1..]) == Last(vs)
  {
    var all := ws + vs[1..];
    forall i | 0 <= i < |all| - 1 ensures Step(judge, all[i], all[i + 1]) {
      if i < |ws| - 1 {
        assert Step(judge, ws[i], ws[i + 1]);
      } else {
        var k := i - (|ws| - 1);
        assert Step(judge, vs[k], vs[k + 1]);
        assert all[i] == vs[k] && all[i + 1] == vs[k + 1];
      }
    }
  }

  // ----- one attempt

  /** No other attempt of the cycle is touched, and no cycle. */
  ghost predicate OnlyAt(t: Tables, u: Tables, c: Cycle, n: nat) {
    u.cycles == t.cycles && forall m :: m != n ==> AttemptIn(t, c, m) == AttemptIn(u, c, m)
  }

  /** Parses and validates: None where either raises. */
  method ReadResponse(parse: Parser, b: Batch, text: string) returns (verdicts: Option<seq<Verdict>>)
    requires |b.alerts| == |b.alertIds|
    ensures verdicts.Some? ==> AnswersBatch(parse, b, text, verdicts.value)
    ensures verdicts.None? ==> forall vs :: !AnswersBatch(parse, b, text, vs)
  {
    var parsed := parse(text);
    if parsed.None? {
      return None;
    }
    var result := ValidateResponse(parsed.value, b.batchId, b.alertIds, Some(b.alerts));
    verdicts := if result.Valid? then Some(result.verdicts) else None;
    assert result.Valid? <==> Acceptable(parsed.value, b.batchId, b.alertIds, Some(b.alerts));
  }

  /** A stored attempt is replayed. */
  method Replay(journal: Journal, b: Batch, job: Job, c: Cycle, n: nat, parse: Parser, saved: AttemptRow, ghost judge: Judge,
                ghost client: Client, ghost w: World)
      returns (verdicts: Option<seq<Verdict>>, row: AttemptRow, ghost steps: seq<World>)
    requires |b.alerts| == |b.alertIds| && Judges(judge, job, parse, b)
    requires w.tables == journal.State() && w.proc == Looking(job, c, n)
    requires AttemptIn(journal.State(), c, n) == Some(saved)
    modifies journal
    ensures row == Worth(judge, job, old(journal.State()), c, n, client)
    ensures if verdicts.Some? then row.Answered? && AnswersBatch(parse, b, row.response, verdicts.value) else row.Failed?
    ensures
      && Follows(judge, w, steps) && Last(steps) == World(journal.State(), After(job, c, n, row), w.calls)
    ensures Written(judge, job, client, c, n, old(journal.State()), journal.State())
    ensures OnlyAt(old(journal.State()), journal.State(), c, n)
  {
    verdicts, row := None, saved;
    match saved {
      case Started =>
        row := Failed("interrupted");
        journal.Finish(c, n, row);
      case Failed(_) =>
      case Answered(text) =>
        verdicts := ReadResponse(parse, b, text);
        if verdicts.None? {
          row := Failed("invalid_response");
        }
    }
    ghost var v := World(journal.State(), After(job, c, n, row), w.calls);
    assert Replays(judge, w, v);
    steps := [w, v];
  }

  /** The steps of a new attempt. */
  lemma {:induction false} AskSteps(judge: Judge, w: World, job: Job, c: Cycle, n: nat, reply: Reply) returns (steps: seq<World>)
    requires w.proc == Looking(job, c, n) && (c, n) !in w.tables.attempts
    ensures var row := Judged(judge, job, reply);
      && Follows(judge, w, steps)
      && Last(steps) == World(Store(Store(w.tables, (c, n), Started), (c, n), row), After(job, c, n, row),
                              w.calls + [Call(c, n, job.requestHash)])
  {
    var started := World(Store(w.tables, (c, n), Started), Calling(job, c, n), w.calls);
    var holding := World(started.tables, Holding(job, c, n, reply), w.calls + [Call(c, n, job.requestHash)]);
    var row := Judged(judge, job, reply);
    var v := World(Store(started.tables, (c, n), row), After(job, c, n, row), holding.calls);
    assert Starts(w, started);
    assert Calls(started, holding, reply);
    assert Finishes(judge, holding, v);
    OneMore(judge, w, [w], started);
    OneMore(judge, w, [w] + [started], holding);
    OneMore(judge, w, [w] + [started] + [holding], v);
    steps := [w] + [started] + [holding] + [v];
  }

  /** A new attempt: journalled, sent, judged, and its result journalled. */
  method Ask(journal: Journal, b: Batch, job: Job, c: Cycle, n: nat, parse: Parser, client: Client, ghost judge: Judge, ghost w: World)
      returns (verdicts: Option<seq<Verdict>>, row: AttemptRow, ghost steps: seq<World>)
    requires |b.alerts| == |b.alertIds| && Judges(judge, job, parse, b)
    requires w.tables == journal.State() && w.proc == Looking(job, c, n)
    requires AttemptIn(journal.State(), c, n) == None
    modifies journal
    ensures row == Worth(judge, job, old(journal.State()), c, n, client)
    ensures if verdicts.Some? then row.Answered? && AnswersBatch(parse, b, row.response, verdicts.value) else row.Failed?
    ensures
      && Follows(judge, w, steps)
      && Last(steps) == World(journal.State(), After(job, c, n, row), w.calls + [Call(c, n, job.requestHash)])
    ensures Written(judge, job, client, c, n, old(journal.State()), journal.State())
    ensures OnlyAt(old(journal.State()), journal.State(), c, n)
  {
    var _ := journal.Start(c, n);
    var reply := client(job, n);
    match reply {
      case Response(text) =>
        verdicts := ReadResponse(parse, b, text);
        row := if verdicts.Some? then Answered(text) else Failed("invalid_response");
      case Fault(kind) =>
        verdicts := None;
        row := Failed(if kind in FAULT_KINDS then kind else "transport_error");
    }
    journal.Finish(c, n, row);
    assert AttemptIn(journal.State(), c, n) == Some(row);
    steps := AskSteps(judge, w, job, c, n, reply);
  }

  /** Attempts `m` and later are as they were. */
  ghost predicate Untouched(t: Tables, u: Tables, c: Cycle, n: nat) {
    forall m :: n <= m ==> AttemptIn(t, c, m) == AttemptIn(u, c, m)
  }

  lemma {:induction false} SameFirst(judge: Judge, job: Job, t: Tables, u: Tables, c: Cycle, n: nat, client: Client)
    requires Untouched(t, u, c, n)
    ensures FirstAnswer(judge, job, t, c, n, client) == FirstAnswer(judge, job, u, c, n, client)
    decreases MAX_ATTEMPTS + 1 - n
  {
    if n <= MAX_ATTEMPTS {
      assert AttemptIn(t, c, n) == AttemptIn(u, c, n);
      SameFirst(judge, job, t, u, c, n + 1, client);
    }
  }

  /** One attempt, replayed or asked for. */
  method Try(journal: Journal, b: Batch, job: Job, c: Cycle, n: nat, parse: Parser, client: Client, ghost judge: Judge, ghost w: World)
      returns (verdicts: Option<seq<Verdict>>, row: AttemptRow, ghost steps: seq<World>)
    requires |b.alerts| == |b.alertIds| && Judges(judge, job, parse, b)
    requires w.tables == journal.State() && w.proc == Looking(job, c, n)
    modifies journal
    ensures row == Worth(judge, job, old(journal.State()), c, n, client)
    ensures if verdicts.Some? then row.Answered? && AnswersBatch(parse, b, row.response, verdicts.value) else row.Failed?
    ensures
      && Follows(judge, w, steps)
      && Last(steps) == World(journal.State(), After(job, c, n, row), w.calls + Own(job, old(journal.State()), c, n))
    ensures OnlyAt(old(journal.State()), journal.State(), c, n)
    ensures Written(judge, job, client, c, n, old(journal.State()), journal.State())
  {
    var saved := journal.Saved(c, n);
    if saved.Some? {
      assert w.calls + [] == w.calls;
      verdicts, row, steps := Replay(journal, b, job, c, n, parse, saved.value, judge, client, w);
    } else {
      verdicts, row, steps := Ask(journal, b, job, c, n, parse, client, judge, w);
    }
  }

  /** The process ends a batch: the cycle is marked, and the process is idle again. */
  lemma {:induction false} CloseStep(judge: Judge, w: World, ws: seq<World>, t: Tables, job: Job, c: Cycle, outcome: Option<string>)
      returns (all: seq<World>)
    requires Follows(judge, w, ws) && Last(ws).proc == Closing(job, c, outcome)
    requires t == Complete(Last(ws).tables, c, outcome.Some?)
    ensures Follows(judge, w, all) && Last(all) == World(t, Idle, Last(ws).calls)
  {
    var v := World(t, Idle, Last(ws).calls);
    assert Closes(Last(ws), v);
    OneMore(judge, w, ws, v);
    all := ws + [v];
  }

  lemma {:induction false} BeginStep(judge: Judge, w: World, job: Job, c: Cycle, t: Tables) returns (ws: seq<World>)
    requires w.proc == Idle && Prepare(w.tables, job) == Some((c, t))
    ensures Follows(judge, w, ws) && Last(ws) == World(t, Looking(job, c, 1), w.calls)
  {
    var v := World(t, Looking(job, c, 1), w.calls);
    assert Begins(w, v, job);
    OneMore(judge, w, [w], v);
    ws := [w] + [v];
  }

  /** Before attempt `n`, or after the last one: nothing so far was accepted. */
  ghost predicate Trying(judge: Judge, w: World, ws: seq<World>, job: Job, client: Client, c: Cycle, n: nat, t: Tables, now: Tables,
                         failure: string) {
    && 1 <= n <= MAX_ATTEMPTS + 1
    && Follows(judge, w, ws)
    && Last(ws) == World(now, if n <= MAX_ATTEMPTS then Looking(job, c, n) else Closing(job, c, None),
                         w.calls + CallsBefore(job, t, c, n))
    && now.cycles == t.cycles
    && (forall m :: 1 <= m < n ==> Worth(judge, job, t, c, m, client).Failed? && Written(judge, job, client, c, m, t, now))
    && FirstAnswer(judge, job, t, c, 1, client) == FirstAnswer(judge, job, t, c, n, client)
    && Untouched(t, now, c, n)
    && (n > 1 ==> Worth(judge, job, t, c, n - 1, client) == Failed(failure))
  }

  /** Attempt `n` was the first accepted one; the cycle is not marked yet. */
  ghost predicate Found(judge: Judge, w: World, ws: seq<World>, job: Job, client: Client, c: Cycle, n: nat, t: Tables, now: Tables,
                        text: string) {
    && Follows(judge, w, ws) && Last(ws) == World(now, Closing(job, c, Some(text)), Last(ws).calls)
    && FirstAnswer(judge, job, t, c, 1, client) == Some(text)
    && EndsAfter(judge, job, client, w, World(Complete(now, c, true), Idle, Last(ws).calls), c, t, n)
  }

  lemma {:induction false} Tried(judge: Judge, w: World, ws: seq<World>, job: Job, client: Client, c: Cycle, n: nat, t: Tables, was: Tables,
                                 steps: seq<World>, now: Tables, failure: string)
      returns (all: seq<World>)
    requires n <= MAX_ATTEMPTS && Trying(judge, w, ws, job, client, c, n, t, was, failure)
    requires Follows(judge, Last(ws), steps)
    requires Last(steps) == World(now, After(job, c, n, Worth(judge, job, was, c, n, client)), Last(ws).calls + Own(job, was, c, n))
    requires OnlyAt(was, now, c, n) && Written(judge, job, client, c, n, was, now)
    ensures var row := Worth(judge, job, was, c, n, client);
      if row.Answered? then Found(judge, w, all, job, client, c, n, t, now, row.response)
      else row.Failed? ==> Trying(judge, w, all, job, client, c, n + 1, t, now, row.kind)
  {
    assert AttemptIn(t, c, n) == AttemptIn(was, c, n);
    ThenAlso(judge, w, ws, steps);
    all := ws + steps[1..];
    assert Last(all).calls == w.calls + (CallsBefore(job, t, c, n) + Own(job, t, c, n));
    forall m | 1 <= m <= n ensures Written(judge, job, client, c, m, t, now) {
      assert m < n ==> Written(judge, job, client, c, m, t, was);
    }
  }

  lemma {:induction false} CloseFound(judge: Judge, w: World, ws: seq<World>, job: Job, client: Client, c: Cycle, n: nat, t: Tables,
                                      now: Tables, text: string) returns (all: seq<World>)
    requires Prepare(w.tables, job) == Some((c, t)) && Found(judge, w, ws, job, client, c, n, t, now, text)
    ensures Follows(judge, w, all) && Last(all) == World(Complete(now, c, true), Idle, Last(all).calls)
    ensures Leaves(judge, job, client, w, Last(all))
  {
    all := CloseStep(judge, w, ws, Complete(now, c, true), job, c, Some(text));
    assert EndsAfter(judge, job, client, w, Last(all), c, t, n);
  }

  lemma {:induction false} CloseGivenUp(judge: Judge, w: World, ws: seq<World>, job: Job, client: Client, c: Cycle, t: Tables,
                                        now: Tables, failure: string) returns (all: seq<World>)
    requires Prepare(w.tables, job) == Some((c, t))
    requires Trying(judge, w, ws, job, client, c, MAX_ATTEMPTS + 1, t, now, failure)
    ensures Follows(judge, w, all) && Last(all) == World(Complete(now, c, false), Idle, Last(all).calls)
    ensures Leaves(judge, job, client, w, Last(all))
  {
    all := CloseStep(judge, w, ws, Complete(now, c, false), job, c, None);
    assert EndsAfter(judge, job, client, w, Last(all), c, t, MAX_ATTEMPTS);
  }

  /** The batch's outcome, and the protocol steps it took to get there from `w`. */
  method AttemptBatch(journal: Journal, b: Batch, requestHash: string, parse: Parser, client: Client, ghost judge: Judge, ghost w: World)
      returns (result: Result, ghost trace: seq<World>)
    requires |b.alerts| == |b.alertIds| && Judges(judge, Job(b.batchId, requestHash), parse, b)
    requires w.tables == journal.State() && w.proc == Idle
    modifies journal
    ensures Outcome(judge, Job(b.batchId, requestHash), parse, b, old(journal.State()), client, result)
    ensures Follows(judge, w, trace) && Last(trace) == World(journal.State(), Idle, Last(trace).calls)
    ensures Leaves(judge, Job(b.batchId, requestHash), client, w, Last(trace))
    ensures result.Refused? ==> journal.State() == old(journal.State())
  {
    var job := Job(b.batchId, requestHash);
    trace := [w];
    var prepared := journal.PrepareCycle(job);
    if prepared.None? {
      return Refused, trace;
    }
    var c := prepared.value;
    ghost var t := journal.State();
    trace := BeginStep(judge, w, job, c, t);
    var failure := "unknown failure";
    var n := 1;
    while n <= MAX_ATTEMPTS
      invariant Trying(judge, w, trace, job, client, c, n, t, journal.State(), failure)
    {
      ghost var was := journal.State();
      var verdicts, row;
      ghost var steps;
      verdicts, row, steps := Try(journal, b, job, c, n, parse, client, judge, Last(trace));
      trace := Tried(judge, w, trace, job, client, c, n, t, was, steps, journal.State(), failure);
      if verdicts.Some? {
        ghost var now := journal.State();
        journal.CompleteBatch(c, true);
        trace := CloseFound(judge, w, trace, job, client, c, n, t, now, row.response);
        return Assessed(verdicts.value), trace;
      }
      failure := row.kind;
      n := n + 1;
    }
    ghost var now := journal.State();
    journal.CompleteBatch(c, false);
    trace := CloseGivenUp(judge, w, trace, job, client, c, t, now, failure);
    return GaveUp(failure), trace;
  }

  lemma {:induction false} FailuresAreSkipped(judge: Judge, job: Job, t: Tables, c: Cycle, m: nat, n: nat, client: Client)
    requires 1 <= m <= n <= MAX_ATTEMPTS && AllLost(t.attempts, c, n - 1)
    ensures FirstAnswer(judge, job, t, c, m, client) == FirstAnswer(judge, job, t, c, n, client)
    decreases n - m
  {
    if m < n {
      assert Lost(t.attempts, c, m);
      FailuresAreSkipped(judge, job, t, c, m + 1, n, client);
    }
  }

  /** A batch whose answer is stored comes to that answer again, whatever the model would say now. */
  lemma {:induction false} StoredAnswerWins(judge: Judge, w: World, job: Job, parse: Parser, b: Batch, client: Client,
                                            c: Cycle, n: nat, text: string, result: Result)
    requires Good(judge, w) && Won(w.tables, c, n, text)
    requires |b.alerts| == |b.alertIds| && c.batch == job.batch
    ensures Prepare(w.tables, job) in {None, Some((c, w.tables))}
    ensures Outcome(judge, job, parse, b, w.tables, client, result) <==>
            if Prepare(w.tables, job).None? then result == Refused else result.Assessed? && AnswersBatch(parse, b, text, result.verdicts)
  {
    WinnerIsLatest(judge, w, c, n, text);
    assert AttemptOk(judge, w.tables, (c, n));
    if Prepare(w.tables, job).Some? {
      assert job == Job(c.batch, RowOf(w.tables, c).requestHash);
      FailuresAreSkipped(judge, job, w.tables, c, 1, n, client);
    }
  }
}
