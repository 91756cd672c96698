/**
 The assessment protocol of one review scope: a durable journal, one process at a time that may
 crash anywhere, and a remote model whose calls cannot be undone
 (`src/llm/assess.py:245-400`, `src/db/llm_audit.py:114-198`).
 */
module Protocol {
  import opened Text
  import opened Sorting
  import opened LlmAudit

  datatype Reply = Response(text: string) | Fault(kind: string)

  /** Where the process is between two atomic steps. */
  datatype Proc =
    | Idle
    | Looking(job: Job, cycle: Cycle, n: nat)
    | Calling(job: Job, cycle: Cycle, n: nat)
    | Holding(job: Job, cycle: Cycle, n: nat, reply: Reply)
    | Closing(job: Job, cycle: Cycle, outcome: Option<string>)

  datatype Call = Call(cycle: Cycle, n: nat, requestHash: string)

  datatype World = World(tables: Tables, proc: Proc, calls: seq<Call>)

  /** Whether a response to a job passes `validate_response`. */
  type Judge = (Job, string) -> bool

  const MAX_ATTEMPTS: nat := 3

  const FAULT_KINDS: seq<string> := [
    "timeout", "refusal", "incomplete", "empty", "interrupted", "invalid_response", "transport_error"]

  /** What is stored of a reply: an accepted answer, or a failure of a known kind. */
  function Judged(judge: Judge, job: Job, reply: Reply): AttemptRow {
    match reply
    case Response(text) => if judge(job, text) then Answered(text) else Failed("invalid_response")
    case Fault(kind) => Failed(if kind in FAULT_KINDS then kind else "transport_error")
  }

  /** After attempt `n` failed: the next one, or giving up. */
  function AfterFailure(job: Job, cycle: Cycle, n: nat): Proc {
    if n < MAX_ATTEMPTS then Looking(job, cycle, n + 1) else Closing(job, cycle, None)
  }

  function After(job: Job, cycle: Cycle, n: nat, row: AttemptRow): Proc {
    match row
    case Answered(text) => Closing(job, cycle, Some(text))
    case _ => AfterFailure(job, cycle, n)
  }

  // ----- the steps

  predicate Begins(w: World, v: World, job: Job) {
    && w.proc == Idle
    && Prepare(w.tables, job).Some?
    && v == World(Prepare(w.tables, job).value.1, Looking(job, Prepare(w.tables, job).value.0, 1), w.calls)
  }

  /** The attempt row is committed before the model is called. */
  predicate Starts(w: World, v: World) {
    && w.proc.Looking?
    && (w.proc.cycle, w.proc.n) !in w.tables.attempts
    && v == World(Store(w.tables, (w.proc.cycle, w.proc.n), Started), Calling(w.proc.job, w.proc.cycle, w.proc.n), w.calls)
  }

  predicate Calls(w: World, v: World, reply: Reply) {
    && w.proc.Calling?
    && v == World(w.tables, Holding(w.proc.job, w.proc.cycle, w.proc.n, reply),
                  w.calls + [Call(w.proc.cycle, w.proc.n, w.proc.job.requestHash)])
  }

  predicate Finishes(judge: Judge, w: World, v: World) {
    && w.proc.Holding?
    && var row := Judged(judge, w.proc.job, w.proc.reply);
       v == World(Store(w.tables, (w.proc.cycle, w.proc.n), row), After(w.proc.job, w.proc.cycle, w.proc.n, row), w.calls)
  }

  /** An attempt stored earlier is replayed: an unfinished one is written off, an answer is judged again. */
  predicate Replays(judge: Judge, w: World, v: World) {
    && w.proc.Looking?
    && var a := (w.proc.cycle, w.proc.n);
       a in w.tables.attempts &&
       match w.tables.attempts[a]
       case Started => v == World(Store(w.tables, a, Failed("interrupted")), AfterFailure(w.proc.job, w.proc.cycle, w.proc.n), w.calls)
       case Failed(_) => v == w.(proc := AfterFailure(w.proc.job, w.proc.cycle, w.proc.n))
       case Answered(text) =>
         v == w.(proc := if judge(w.proc.job, text) then Closing(w.proc.job, w.proc.cycle, Some(text))
                         else AfterFailure(w.proc.job, w.proc.cycle, w.proc.n))
  }

  predicate Closes(w: World, v: World) {
    && w.proc.Closing?
    && v == World(Complete(w.tables, w.proc.cycle, w.proc.outcome.Some?), Idle, w.calls)
  }

  /** The process is lost, with everything it had not stored. */
  predicate Crashes(w: World, v: World) {
    v == w.(proc := Idle)
  }

  ghost predicate Step(judge: Judge, w: World, v: World) {
    || (exists job :: Begins(w, v, job))
    || Starts(w, v)
    || (exists reply :: Calls(w, v, reply))
    || Finishes(judge, w, v)
    || Replays(judge, w, v)
    || Closes(w, v)
    || Crashes(w, v)
  }

  // ----- what every reachable world satisfies

  /** The attempt is stored and did not succeed. */
  predicate Lost(attempts: map<Attempt, AttemptRow>, c: Cycle, n: nat) {
    (c, n) in attempts && attempts[(c, n)].Failed?
  }

  /** The first `n` attempts of a cycle. */
  predicate AllLost(attempts: map<Attempt, AttemptRow>, c: Cycle, n: nat) {
    forall m :: 1 <= m <= n ==> Lost(attempts, c, m)
  }

  /** Stored attempts are a prefix of 1, 2, 3, of which all but the last have failed. */
  ghost predicate AttemptOk(judge: Judge, t: Tables, a: Attempt)
    requires a in t.attempts
  {
    && Has(t, a.0)
    && 1 <= a.1 <= MAX_ATTEMPTS
    && AllLost(t.attempts, a.0, a.1 - 1)
    && (t.attempts[a].Answered? ==>
          && RowOf(t, a.0).status != Exhausted
          && judge(Job(a.0.batch, RowOf(t, a.0).requestHash), t.attempts[a].response))
  }

  predicate GivenUp(t: Tables, c: Cycle) {
    AllLost(t.attempts, c, MAX_ATTEMPTS)
  }

  /** One of the cycle's attempts was answered and accepted. */
  predicate Settled(attempts: map<Attempt, AttemptRow>, c: Cycle) {
    exists n :: 1 <= n <= MAX_ATTEMPTS && Holds(attempts, c, n)
  }

  predicate Holds(attempts: map<Attempt, AttemptRow>, c: Cycle, n: nat) {
    (c, n) in attempts && attempts[(c, n)].Answered?
  }

  /** Cycles marked succeeded hold an answer; those marked exhausted lost all three attempts; all but the latest were; one request serves them all. */
  ghost predicate BatchOk(t: Tables, batch: string) {
    var rows := CyclesOf(t, batch);
    forall i :: 0 <= i < |rows| ==>
      && (rows[i].status == Exhausted ==> GivenUp(t, Cycle(batch, i + 1)))
      && (rows[i].status == Succeeded ==> Settled(t.attempts, Cycle(batch, i + 1)))
      && (i < |rows| - 1 ==> rows[i].status == Exhausted)
      && rows[i].requestHash == rows[|rows| - 1].requestHash
  }

  ghost predicate TablesOk(judge: Judge, t: Tables) {
    && (forall a :: a in t.attempts ==> AttemptOk(judge, t, a))
    && (forall batch :: BatchOk(t, batch))
  }

  /** The cycle a process works on is its batch's latest, for the same request, and not given up. */
  ghost predicate AtWork(t: Tables, job: Job, c: Cycle) {
    && Has(t, c) && c == Latest(t, job.batch)
    && RowOf(t, c).requestHash == job.requestHash && RowOf(t, c).status != Exhausted
  }

  ghost predicate ProcOk(judge: Judge, w: World) {
    match w.proc
    case Idle => true
    case Looking(job, c, n) =>
      AtWork(w.tables, job, c) && 1 <= n <= MAX_ATTEMPTS && AllLost(w.tables.attempts, c, n - 1)
    case Calling(job, c, n) =>
      AtWork(w.tables, job, c) && (c, n) in w.tables.attempts && w.tables.attempts[(c, n)] == Started && !Called(w.calls, (c, n))
    case Holding(job, c, n, _) =>
      AtWork(w.tables, job, c) && (c, n) in w.tables.attempts && w.tables.attempts[(c, n)] == Started
    case Closing(job, c, outcome) =>
      AtWork(w.tables, job, c) && match outcome case None => GivenUp(w.tables, c) case Some(text) => HasAnswer(w.tables, c, text)
  }

  predicate Called(calls: seq<Call>, a: Attempt) {
    exists i :: 0 <= i < |calls| && (calls[i].cycle, calls[i].n) == a
  }

  /** The attempt is stored with this answer. */
  predicate Won(t: Tables, c: Cycle, n: nat, text: string) {
    (c, n) in t.attempts && t.attempts[(c, n)] == Answered(text)
  }

  ghost predicate HasAnswer(t: Tables, c: Cycle, text: string) {
    exists n :: Won(t, c, n, text)
  }

  /** Every call was journalled before it was made, and none was made twice. */
  ghost predicate CallsOk(w: World) {
    && (forall i :: 0 <= i < |w.calls| ==> (w.calls[i].cycle, w.calls[i].n) in w.tables.attempts)
    && OncePerAttempt(w.calls)
  }

  ghost predicate Good(judge: Judge, w: World) {
    TablesOk(judge, w.tables) && ProcOk(judge, w) && CallsOk(w)
  }

  const START := World(Tables(map[], map[]), Idle, [])

  lemma {:induction false} StartIsGood(judge: Judge)
    ensures Good(judge, START)
  {
  }

  // ----- every step keeps it

  /** A row without a result was not among the lost. */
  lemma {:induction false} StillLost(attempts: map<Attempt, AttemptRow>, a: Attempt, row: AttemptRow, c: Cycle, n: nat)
    requires a in attempts ==> attempts[a] == Started
    requires AllLost(attempts, c, n)
    ensures AllLost(attempts[a := row], c, n)
  {
    var later := attempts[a := row];
    forall m | 1 <= m <= n ensures Lost(later, c, m) {
      assert Lost(attempts, c, m);
    }
  }

  /** Writing the row of an attempt that has no result yet. */
  lemma {:induction false} StoreKeeps(judge: Judge, t: Tables, c: Cycle, n: nat, row: AttemptRow)
    requires TablesOk(judge, t) && Has(t, c) && RowOf(t, c).status != Exhausted
    requires 1 <= n <= MAX_ATTEMPTS && AllLost(t.attempts, c, n - 1)
    requires (c, n) in t.attempts ==> t.attempts[(c, n)] == Started
    requires row.Answered? ==> judge(Job(c.batch, RowOf(t, c).requestHash), row.response)
    ensures TablesOk(judge, Store(t, (c, n), row))
    ensures AllLost(Store(t, (c, n), row).attempts, c, n - 1)
  {
    var u := Store(t, (c, n), row);
    StillLost(t.attempts, (c, n), row, c, n - 1);
    forall a | a in u.attempts ensures AttemptOk(judge, u, a) {
      if a != (c, n) {
        assert AttemptOk(judge, t, a);
        StillLost(t.attempts, (c, n), row, a.0, a.1 - 1);
      }
    }
    forall batch ensures BatchOk(u, batch) {
      StoreBatchOk(t, (c, n), row, batch);
    }
  }

  lemma {:induction false} StoreBatchOk(t: Tables, a: Attempt, row: AttemptRow, batch: string)
    requires a in t.attempts ==> t.attempts[a] == Started
    requires BatchOk(t, batch)
    ensures BatchOk(Store(t, a, row), batch)
  {
    var rows := CyclesOf(t, batch);
    forall i | 0 <= i < |rows| && rows[i].status == Exhausted ensures GivenUp(Store(t, a, row), Cycle(batch, i + 1)) {
      StillLost(t.attempts, a, row, Cycle(batch, i + 1), MAX_ATTEMPTS);
    }
    forall i | 0 <= i < |rows| && rows[i].status == Succeeded ensures Settled(t.attempts[a := row], Cycle(batch, i + 1)) {
      var c := Cycle(batch, i + 1);
      var n :| 1 <= n <= MAX_ATTEMPTS && Holds(t.attempts, c, n);
      assert Holds(t.attempts[a := row], c, n);
    }
  }

  /** A new cycle is opened only after the latest one was given up. */
  lemma {:induction false} NewCycle(t: Tables, job: Job, u: Tables)
    requires BatchOk(t, job.batch)
    requires var rows := CyclesOf(t, job.batch);
      && (rows != [] ==> rows[|rows| - 1].requestHash == job.requestHash && rows[|rows| - 1].status == Exhausted)
      && CyclesOf(u, job.batch) == rows + [CycleRow(job.requestHash, Running)]
    requires u.attempts == t.attempts
    ensures BatchOk(u, job.batch)
  {
    var rows, more := CyclesOf(t, job.batch), CyclesOf(u, job.batch);
    forall i | 0 <= i < |more|
      ensures more[i].status == Exhausted ==> GivenUp(u, Cycle(job.batch, i + 1))
      ensures more[i].status == Succeeded ==> Settled(u.attempts, Cycle(job.batch, i + 1))
      ensures i < |more| - 1 ==> more[i].status == Exhausted
      ensures more[i].requestHash == job.requestHash
    {
      if i < |rows| {
        assert more[i] == rows[i];
        assert rows[i].status == Exhausted;
      }
    }
  }

  lemma {:induction false} PrepareKeeps(judge: Judge, t: Tables, job: Job)
    requires TablesOk(judge, t) && Prepare(t, job).Some?
    ensures var (c, u) := Prepare(t, job).value;
      TablesOk(judge, u) && AtWork(u, job, c) && u.attempts == t.attempts
  {
    var (c, u) := Prepare(t, job).value;
    assert BatchOk(t, job.batch);
    if u != t {
      NewCycle(t, job, u);
      forall batch ensures BatchOk(u, batch) {
        if batch != job.batch {
          assert BatchOk(t, batch) && CyclesOf(u, batch) == CyclesOf(t, batch);
        }
      }
      forall a | a in u.attempts ensures AttemptOk(judge, u, a) {
        assert AttemptOk(judge, t, a);
        SameCycle(t, u, a.0, c);
      }
    }
  }

  lemma {:induction false} SameCycle(t: Tables, u: Tables, d: Cycle, c: Cycle)
    requires Has(t, d) && Has(u, c) && |CyclesOf(t, c.batch)| + 1 == c.number
    requires u.cycles == t.cycles[c.batch := CyclesOf(t, c.batch) + [CycleRow(RowOf(u, c).requestHash, Running)]]
    ensures Has(u, d) && RowOf(u, d) == RowOf(t, d)
  {
  }

  lemma {:induction false} CompletedRow(t: Tables, job: Job, c: Cycle, succeeded: bool, d: Cycle)
    requires AtWork(t, job, c) && Has(t, d)
    ensures var u := Complete(t, c, succeeded);
      Has(u, d) && RowOf(u, d) == if d == c then RowOf(t, c).(status := if succeeded then Succeeded else Exhausted) else RowOf(t, d)
  {
  }

  lemma {:induction false} CompleteKeeps(judge: Judge, t: Tables, job: Job, c: Cycle, succeeded: bool)
    requires TablesOk(judge, t) && AtWork(t, job, c) && (if succeeded then Settled(t.attempts, c) else GivenUp(t, c))
    ensures TablesOk(judge, Complete(t, c, succeeded))
  {
    var u := Complete(t, c, succeeded);
    forall a | a in u.attempts ensures AttemptOk(judge, u, a) {
      assert AttemptOk(judge, t, a);
      CompletedRow(t, job, c, succeeded, a.0);
      assert a.0 == c && !succeeded ==> Lost(t.attempts, c, a.1);
    }
    forall batch ensures BatchOk(u, batch) {
      assert BatchOk(t, batch);
      if batch == c.batch {
        CompleteBatchOk(t, c, succeeded);
      } else {
        assert CyclesOf(u, batch) == CyclesOf(t, batch);
      }
    }
  }

  lemma {:induction false} CompleteBatchOk(t: Tables, c: Cycle, succeeded: bool)
    requires BatchOk(t, c.batch) && Has(t, c) && c == Latest(t, c.batch) && (if succeeded then Settled(t.attempts, c) else GivenUp(t, c))
    ensures BatchOk(Complete(t, c, succeeded), c.batch)
  {
    var u := Complete(t, c, succeeded);
    var rows, more := CyclesOf(t, c.batch), CyclesOf(u, c.batch);
    forall i | 0 <= i < |more|
      ensures more[i].status == Exhausted ==> GivenUp(u, Cycle(c.batch, i + 1))
      ensures more[i].status == Succeeded ==> Settled(u.attempts, Cycle(c.batch, i + 1))
      ensures i < |more| - 1 ==> more[i].status == Exhausted
      ensures more[i].requestHash == rows[i].requestHash
    {
      assert i < |more| - 1 ==> more[i] == rows[i];
    }
  }

  lemma {:induction false} FailedThird(t: Tables, c: Cycle, n: nat)
    requires n >= 1 && AllLost(t.attempts, c, n - 1) && Lost(t.attempts, c, n)
    ensures n == MAX_ATTEMPTS ==> GivenUp(t, c)
    ensures AllLost(t.attempts, c, n)
  {
  }

  /** The process goes on after an attempt was lost. */
  lemma {:induction false} GoOn(judge: Judge, w: World, job: Job, c: Cycle, n: nat)
    requires TablesOk(judge, w.tables) && CallsOk(w) && AtWork(w.tables, job, c) && 1 <= n <= MAX_ATTEMPTS
    requires AllLost(w.tables.attempts, c, n - 1) && Lost(w.tables.attempts, c, n)
    requires w.proc == AfterFailure(job, c, n)
    ensures Good(judge, w)
  {
    FailedThird(w.tables, c, n);
  }

  lemma {:induction false} JobIs(t: Tables, job: Job, c: Cycle)
    requires AtWork(t, job, c)
    ensures job == Job(c.batch, RowOf(t, c).requestHash)
  {
    assert job == Job(job.batch, job.requestHash);
  }

  lemma {:induction false} BeginsKeeps(judge: Judge, w: World, v: World, job: Job)
    requires Good(judge, w) && Begins(w, v, job)
    ensures Good(judge, v)
  {
    PrepareKeeps(judge, w.tables, job);
  }

  lemma {:induction false} StartsKeeps(judge: Judge, w: World, v: World)
    requires Good(judge, w) && Starts(w, v)
    ensures Good(judge, v)
  {
    StoreKeeps(judge, w.tables, w.proc.cycle, w.proc.n, Started);
  }

  lemma {:induction false} CallsKeeps(judge: Judge, w: World, v: World, reply: Reply)
    requires Good(judge, w) && Calls(w, v, reply)
    ensures Good(judge, v)
  {
    var call := Call(w.proc.cycle, w.proc.n, w.proc.job.requestHash);
    assert v.calls[|w.calls|] == call;
    forall i | 0 <= i < |w.calls| ensures (v.calls[i].cycle, v.calls[i].n) != (call.cycle, call.n) {
      assert v.calls[i] == w.calls[i];
    }
  }

  lemma {:induction false} FinishesKeeps(judge: Judge, w: World, v: World)
    requires Good(judge, w) && Finishes(judge, w, v)
    ensures Good(judge, v)
  {
    var c, n := w.proc.cycle, w.proc.n;
    var row := Judged(judge, w.proc.job, w.proc.reply);
    assert AttemptOk(judge, w.tables, (c, n));
    JobIs(w.tables, w.proc.job, c);
    StoreKeeps(judge, w.tables, c, n, row);
    if row.Answered? {
      assert Won(v.tables, c, n, row.response);
    } else {
      GoOn(judge, v, w.proc.job, c, n);
    }
  }

  lemma {:induction false} ReplaysKeeps(judge: Judge, w: World, v: World)
    requires Good(judge, w) && Replays(judge, w, v)
    ensures Good(judge, v)
  {
    var c, n := w.proc.cycle, w.proc.n;
    assert AttemptOk(judge, w.tables, (c, n));
    match w.tables.attempts[(c, n)]
    case Started =>
      StoreKeeps(judge, w.tables, c, n, Failed("interrupted"));
        GoOn(judge, v, w.proc.job, c, n);
    case Failed(_) =>
      GoOn(judge, v, w.proc.job, c, n);
    case Answered(text) =>
      JobIs(w.tables, w.proc.job, c);
      assert Won(v.tables, c, n, text);
  }

  lemma {:induction false} ClosesKeeps(judge: Judge, w: World, v: World)
    requires Good(judge, w) && Closes(w, v)
    ensures Good(judge, v)
  {
    if w.proc.outcome.Some? {
      var n :| Won(w.tables, w.proc.cycle, n, w.proc.outcome.value);
      assert AttemptOk(judge, w.tables, (w.proc.cycle, n));
      assert Holds(w.tables.attempts, w.proc.cycle, n);
    }
    CompleteKeeps(judge, w.tables, w.proc.job, w.proc.cycle, w.proc.outcome.Some?);
  }

  /** Every step, crashes included, leads from a good world to a good world. */
  lemma {:induction false} StepKeeps(judge: Judge, w: World, v: World)
    requires Good(judge, w) && Step(judge, w, v)
    ensures Good(judge, v)
  {
    if job :| Begins(w, v, job) {
      BeginsKeeps(judge, w, v, job);
    } else if Starts(w, v) {
      StartsKeeps(judge, w, v);
    } else if reply :| Calls(w, v, reply) {
      CallsKeeps(judge, w, v, reply);
    } else if Finishes(judge, w, v) {
      FinishesKeeps(judge, w, v);
    } else if Replays(judge, w, v) {
      ReplaysKeeps(judge, w, v);
    } else if Closes(w, v) {
      ClosesKeeps(judge, w, v);
    }
  }

  // ----- runs

  ghost predicate Follows(judge: Judge, w: World, ws: seq<World>) {
    && ws != [] && ws[0] == w
    && forall i :: 0 <= i < |ws| - 1 ==> Step(judge, ws[i], ws[i + 1])
  }

  function Last(ws: seq<World>): World
    requires ws != []
  {
    ws[|ws| - 1]
  }

  /** Any interleaving of attempts, crashes and restarts, from an empty journal. */
  ghost predicate Run(judge: Judge, ws: seq<World>) {
    Follows(judge, START, ws)
  }

  lemma {:induction false} RunIsGood(judge: Judge, ws: seq<World>, i: nat)
    requires Run(judge, ws) && i < |ws|
    ensures Good(judge, ws[i])
  {
    if i == 0 {
      StartIsGood(judge);
    } else {
      RunIsGood(judge, ws, i - 1);
      StepKeeps(judge, ws[i - 1], ws[i]);
    }
  }

  /** The model is asked at most once for each attempt of each cycle, whatever crashed and restarted. */
  lemma {:induction false} CalledAtMostOnce(judge: Judge, ws: seq<World>, k: nat, i: nat, j: nat)
    requires Run(judge, ws) && k < |ws| && i < j < |ws[k].calls|
    ensures ws[k].calls[i].cycle == ws[k].calls[j].cycle ==> ws[k].calls[i].n != ws[k].calls[j].n
  {
    RunIsGood(judge, ws, k);
  }

  /** The attempt numbers under which a cycle reached the model. */
  function NumbersCalled(calls: seq<Call>, c: Cycle): seq<nat> {
    if calls == [] then []
    else
      var last := calls[|calls| - 1];
      var before := NumbersCalled(calls[..|calls| - 1], c);
      if last.cycle == c then before + [last.n] else before
  }

  lemma {:induction false} NumbersAreCalls(calls: seq<Call>, c: Cycle, x: nat)
    requires x in NumbersCalled(calls, c)
    ensures Called(calls, (c, x))
  {
    var n := |calls| - 1;
    if x in NumbersCalled(calls[..n], c) {
      NumbersAreCalls(calls[..n], c, x);
      var i :| 0 <= i < n && (calls[..n][i].cycle, calls[..n][i].n) == (c, x);
      assert (calls[i].cycle, calls[i].n) == (c, x);
    } else {
      assert (calls[n].cycle, calls[n].n) == (c, x);
    }
  }

  ghost predicate OncePerAttempt(calls: seq<Call>) {
    forall i, j :: 0 <= i < j < |calls| ==> (calls[i].cycle, calls[i].n) != (calls[j].cycle, calls[j].n)
  }

  lemma {:induction false} NumbersDistinct(calls: seq<Call>, c: Cycle)
    requires OncePerAttempt(calls)
    ensures NoDuplicates(NumbersCalled(calls, c))
  {
    if calls != [] {
      var n := |calls| - 1;
      NumbersDistinct(calls[..n], c);
      if calls[n].cycle == c && calls[n].n in NumbersCalled(calls[..n], c) {
        NumbersAreCalls(calls[..n], c, calls[n].n);
      }
    }
  }

  /** No cycle makes more than three calls. */
  lemma {:induction false} AtMostThreeCalls(judge: Judge, ws: seq<World>, k: nat, c: Cycle)
    requires Run(judge, ws) && k < |ws|
    ensures |NumbersCalled(ws[k].calls, c)| <= 3
  {
    var w := ws[k];
    RunIsGood(judge, ws, k);
    NumbersDistinct(w.calls, c);
    var numbers := NumbersCalled(w.calls, c);
    forall i | 0 <= i < |numbers| ensures 1 <= numbers[i] <= MAX_ATTEMPTS {
      NumbersAreCalls(w.calls, c, numbers[i]);
      assert AttemptOk(judge, w.tables, (c, numbers[i]));
    }
    FewNumbers(numbers, MAX_ATTEMPTS);
  }

  /** Distinct numbers from 1 to `most`. */
  lemma {:induction false} FewNumbers(numbers: seq<nat>, most: nat)
    requires NoDuplicates(numbers) && forall i :: 0 <= i < |numbers| ==> 1 <= numbers[i] <= most
    ensures |numbers| <= most
  {
    if numbers == [] {
      return;
    }
    assert 1 <= numbers[0] <= most;
    if k :| 0 <= k < |numbers| && numbers[k] == most {
      Extract(numbers, k);
      var rest := Without(numbers, k);
      forall i | 0 <= i < |rest| ensures 1 <= rest[i] <= most - 1 {
        assert rest[i] == numbers[if i < k then i else i + 1];
      }
      FewNumbers(rest, most - 1);
    } else {
      FewNumbers(numbers, most - 1);
    }
  }

  /** Stored attempts are a prefix 1..k whose earlier members all failed or were interrupted. */
  lemma {:induction false} AttemptsArePrefix(judge: Judge, ws: seq<World>, k: nat, c: Cycle, n: nat, m: nat)
    requires Run(judge, ws) && k < |ws| && (c, n) in ws[k].tables.attempts && 1 <= m < n
    ensures n <= 3
    ensures (c, m) in ws[k].tables.attempts && ws[k].tables.attempts[(c, m)].Failed?
  {
    RunIsGood(judge, ws, k);
    assert AttemptOk(judge, ws[k].tables, (c, n));
    assert Lost(ws[k].tables.attempts, c, m);
  }

  /** Of the attempts of one cycle, at most one has not failed. */
  lemma {:induction false} OneNotLost(judge: Judge, t: Tables, c: Cycle, m: nat, n: nat)
    requires TablesOk(judge, t) && (c, m) in t.attempts && (c, n) in t.attempts
    requires !Lost(t.attempts, c, m) && !Lost(t.attempts, c, n)
    ensures m == n
  {
    assert AttemptOk(judge, t, (c, m)) && AttemptOk(judge, t, (c, n));
  }

  /** A stored success belongs to the latest cycle, and no other attempt of the batch may still call. */
  lemma {:induction false} WinnerIsLatest(judge: Judge, w: World, c: Cycle, n: nat, text: string)
    requires Good(judge, w) && Won(w.tables, c, n, text)
    ensures Has(w.tables, c) && c == Latest(w.tables, c.batch)
    ensures forall m: nat, other :: Won(w.tables, c, m, other) ==> m == n
    ensures w.proc.Calling? || w.proc.Holding? ==> w.proc.cycle.batch != c.batch
    ensures w.proc.Looking? && w.proc.cycle.batch == c.batch ==> w.proc.n <= n
  {
    var t := w.tables;
    assert AttemptOk(judge, t, (c, n)) && BatchOk(t, c.batch);
    assert !Lost(t.attempts, c, n);
    if w.proc.Looking? && w.proc.cycle.batch == c.batch {
      assert w.proc.cycle == c;
    }
    if (w.proc.Calling? || w.proc.Holding?) && w.proc.cycle.batch == c.batch {
      assert w.proc.cycle == c;
      OneNotLost(judge, t, c, w.proc.n, n);
    }
    forall m: nat, other | Won(t, c, m, other) ensures m == n {
      OneNotLost(judge, t, c, m, n);
    }
  }

  /** How often a batch was sent. */
  function CallsFor(calls: seq<Call>, batch: string): nat {
    if calls == [] then 0
    else CallsFor(calls[..|calls| - 1], batch) + if calls[|calls| - 1].cycle.batch == batch then 1 else 0
  }

  /** Once a success is stored it stays stored, and the batch is not sent again. */
  lemma {:induction false} SuccessEndsCalls(judge: Judge, w: World, v: World, c: Cycle, n: nat, text: string)
    requires Good(judge, w) && Step(judge, w, v) && Won(w.tables, c, n, text)
    ensures Won(v.tables, c, n, text)
    ensures CallsFor(v.calls, c.batch) == CallsFor(w.calls, c.batch)
  {
    WinnerIsLatest(judge, w, c, n, text);
    if reply :| Calls(w, v, reply) {
      var call := Call(w.proc.cycle, w.proc.n, w.proc.job.requestHash);
      assert v.calls == w.calls + [call];
      assert (w.calls + [call])[..|w.calls|] == w.calls;
    }
  }

  /** ... at any later point of the run. */
  lemma {:induction false} NeverRequestedAgain(judge: Judge, ws: seq<World>, i: nat, j: nat, c: Cycle, n: nat, text: string)
    requires Run(judge, ws) && i <= j < |ws| && Won(ws[i].tables, c, n, text)
    ensures Won(ws[j].tables, c, n, text)
    ensures CallsFor(ws[j].calls, c.batch) == CallsFor(ws[i].calls, c.batch)
  {
    if i < j {
      NeverRequestedAgain(judge, ws, i, j - 1, c, n, text);
      RunIsGood(judge, ws, j - 1);
      assert Step(judge, ws[j - 1], ws[j - 1 + 1]);
      SuccessEndsCalls(judge, ws[j - 1], ws[j], c, n, text);
    }
  }

  lemma {:induction false} OutcomeIsTheAnswer(judge: Judge, w: World, c: Cycle, n: nat, text: string)
    requires Good(judge, w) && Won(w.tables, c, n, text)
    requires w.proc.Closing? && w.proc.cycle.batch == c.batch
    ensures w.proc.outcome == Some(text)
  {
    WinnerIsLatest(judge, w, c, n, text);
    assert AttemptOk(judge, w.tables, (c, n));
    assert !Lost(w.tables.attempts, c, n);
    assert !GivenUp(w.tables, c);
    assert w.proc.outcome.Some?;
    var m :| Won(w.tables, c, m, w.proc.outcome.value);
  }

  /** ... and every later outcome for the batch is the stored answer: the same response, hence the same verdicts. */
  lemma {:induction false} ReplaysTheSameAnswer(judge: Judge, ws: seq<World>, i: nat, j: nat, c: Cycle, n: nat, text: string)
    requires Run(judge, ws) && i <= j < |ws| && Won(ws[i].tables, c, n, text)
    requires ws[j].proc.Closing? && ws[j].proc.cycle.batch == c.batch
    ensures ws[j].proc.outcome == Some(text)
  {
    NeverRequestedAgain(judge, ws, i, j, c, n, text);
    RunIsGood(judge, ws, j);
    OutcomeIsTheAnswer(judge, ws[j], c, n, text);
  }
}
