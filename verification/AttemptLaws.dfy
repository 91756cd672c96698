/** What a batch's attempts come to, said of the replies and of the stored rows (`src/llm/assess.py:245-400`). */
module AttemptLaws {
  import opened Text
  import opened Grouping
  import opened LlmAudit
  import opened Protocol
  import opened Attempts

  /** The batch's latest cycle stores another request. */
  predicate Differs(t: Tables, job: Job) {
    var rows := CyclesOf(t, job.batch);
    rows != [] && rows[|rows| - 1].requestHash != job.requestHash
  }

  /** The latest cycle while it is not exhausted, else a new one. */
  predicate WorksOn(t: Tables, job: Job, c: Cycle) {
    var rows := CyclesOf(t, job.batch);
    && !Differs(t, job) && c.batch == job.batch
    && c.number == if rows != [] && rows[|rows| - 1].status in {Running, Succeeded} then |rows| else |rows| + 1
  }

  /** Attempt `m` comes to this text, stored or replied now, and the text answers the batch. */
  ghost predicate Accepted(parse: Parser, b: Batch, job: Job, client: Client, t: Tables, c: Cycle, m: nat, text: string)
    requires |b.alerts| == |b.alertIds|
  {
    && (exists vs :: AnswersBatch(parse, b, text, vs))
    && if (c, m) in t.attempts then t.attempts[(c, m)] == Answered(text) else client(job, m) == Response(text)
  }

  ghost predicate NoneBefore(parse: Parser, b: Batch, job: Job, client: Client, t: Tables, c: Cycle, n: nat)
    requires |b.alerts| == |b.alertIds|
  {
    forall m: nat, text :: 1 <= m < n ==> !Accepted(parse, b, job, client, t, c, m, text)
  }

  /** The calls are those of the attempts 1 to `n` that were not stored, each once and in order. */
  ghost predicate AsksUpTo(calls: seq<Call>, t: Tables, c: Cycle, job: Job, n: nat) {
    && (forall i :: 0 <= i < |calls| ==> IsCall(calls[i], t, c, job, n))
    && (forall i, j :: 0 <= i < j < |calls| ==> calls[i].n < calls[j].n)
    && (forall m :: 1 <= m <= n && (c, m) !in t.attempts ==> exists i :: 0 <= i < |calls| && calls[i].n == m)
  }

  predicate IsCall(call: Call, t: Tables, c: Cycle, job: Job, n: nat) {
    call.cycle == c && call.requestHash == job.requestHash && 1 <= call.n <= n && (c, call.n) !in t.attempts
  }

  /** Nothing else was sent. */
  ghost predicate Sends(w: World, v: World, c: Cycle, job: Job, n: nat) {
    |w.calls| <= |v.calls| && v.calls[..|w.calls|] == w.calls && AsksUpTo(v.calls[|w.calls|..], w.tables, c, job, n)
  }

  /** Why attempt `m` failed. */
  predicate FailsWith(job: Job, client: Client, t: Tables, c: Cycle, m: nat, status: string) {
    if (c, m) in t.attempts then
      match t.attempts[(c, m)]
      case Started => status == "interrupted"
      case Failed(kind) => status == kind
      case Answered(_) => status == "invalid_response"
    else
      match client(job, m)
      case Response(_) => status == "invalid_response"
      case Fault(kind) =>
        status ==
        if kind in {"timeout", "refusal", "incomplete", "empty", "interrupted", "invalid_response", "transport_error"}
        then kind else "transport_error"
  }

  /** The cycle's row, and how it is marked. */
  predicate Marked(t: Tables, c: Cycle, status: CycleStatus) {
    1 <= c.number <= |CyclesOf(t, c.batch)| && CyclesOf(t, c.batch)[c.number - 1].status == status
  }

  // ----- from the loop's terms to these

  lemma {:induction false} Prepared(t: Tables, job: Job)
    ensures Prepare(t, job).None? <==> Differs(t, job)
    ensures Prepare(t, job).Some? ==>
      var (c, u) := Prepare(t, job).value;
      && WorksOn(t, job, c) && u.attempts == t.attempts && Has(u, c)
  {
  }

  lemma {:induction false} AcceptedIsAnswered(judge: Judge, parse: Parser, b: Batch, job: Job, client: Client, t: Tables, c: Cycle, m: nat)
    requires |b.alerts| == |b.alertIds| && Judges(judge, job, parse, b)
    ensures Worth(judge, job, t, c, m, client).Answered? ==>
      Accepted(parse, b, job, client, t, c, m, Worth(judge, job, t, c, m, client).response)
    ensures forall text :: Accepted(parse, b, job, client, t, c, m, text) ==> Worth(judge, job, t, c, m, client) == Answered(text)
    ensures Worth(judge, job, t, c, m, client).Failed? ==> FailsWith(job, client, t, c, m, Worth(judge, job, t, c, m, client).kind)
  {
  }

  lemma {:induction false} AsksOneMore(before: seq<Call>, t: Tables, c: Cycle, job: Job, n: nat, all: seq<Call>)
    requires AsksUpTo(before, t, c, job, n)
    requires (c, n + 1) !in t.attempts && all == before + [Call(c, n + 1, job.requestHash)]
    ensures AsksUpTo(all, t, c, job, n + 1)
  {
    forall i | 0 <= i < |all| ensures IsCall(all[i], t, c, job, n + 1) {
      assert i < |before| ==> IsCall(before[i], t, c, job, n);
    }
    forall i, j | 0 <= i < j < |all| ensures all[i].n < all[j].n {
      assert IsCall(before[i], t, c, job, n);
    }
    forall m | 1 <= m <= n + 1 && (c, m) !in t.attempts ensures exists i :: 0 <= i < |all| && all[i].n == m {
      if m <= n {
        var i :| 0 <= i < |before| && before[i].n == m;
        assert all[i] == before[i];
      } else {
        assert all[|before|].n == m;
      }
    }
  }

  lemma {:induction false} AsksNoMore(before: seq<Call>, t: Tables, c: Cycle, job: Job, n: nat)
    requires AsksUpTo(before, t, c, job, n) && (c, n + 1) in t.attempts
    ensures AsksUpTo(before, t, c, job, n + 1)
  {
    forall i | 0 <= i < |before| ensures IsCall(before[i], t, c, job, n + 1) {
      assert IsCall(before[i], t, c, job, n);
    }
  }

  lemma {:induction false} CallsAsk(job: Job, t: Tables, c: Cycle, n: nat)
    ensures AsksUpTo(CallsBefore(job, t, c, n + 1), t, c, job, n)
  {
    if n > 0 {
      CallsAsk(job, t, c, n - 1);
      if (c, n) in t.attempts {
        assert CallsBefore(job, t, c, n + 1) == CallsBefore(job, t, c, n);
        AsksNoMore(CallsBefore(job, t, c, n), t, c, job, n - 1);
      } else {
        AsksOneMore(CallsBefore(job, t, c, n), t, c, job, n - 1, CallsBefore(job, t, c, n + 1));
      }
    }
  }

  lemma {:induction false} CallsSame(job: Job, t: Tables, u: Tables, c: Cycle, n: nat)
    requires t.attempts == u.attempts
    ensures AsksUpTo(CallsBefore(job, u, c, n + 1), t, c, job, n)
  {
    CallsAsk(job, u, c, n);
    var calls := CallsBefore(job, u, c, n + 1);
    forall i | 0 <= i < |calls| ensures IsCall(calls[i], t, c, job, n) {
      assert IsCall(calls[i], u, c, job, n);
    }
  }

  /** Two places where the loop may have stopped are one. */
  lemma {:induction false} OneStop(judge: Judge, job: Job, client: Client, t: Tables, c: Cycle, m: nat, n: nat)
    requires 1 <= m <= 3 && forall l :: 1 <= l < m ==> Worth(judge, job, t, c, l, client).Failed?
    requires 1 <= n <= 3 && forall l :: 1 <= l < n ==> Worth(judge, job, t, c, l, client).Failed?
    requires Worth(judge, job, t, c, m, client).Answered? || m == 3
    requires Worth(judge, job, t, c, n, client).Answered? || n == 3
    ensures m == n
  {
    assert m < n ==> Worth(judge, job, t, c, m, client).Failed?;
    assert n < m ==> Worth(judge, job, t, c, n, client).Failed?;
  }

  lemma {:induction false} WorthIsResult(judge: Judge, job: Job, client: Client, t: Tables, c: Cycle, m: nat)
    ensures !Worth(judge, job, t, c, m, client).Started?
  {
  }

  /** The loop stopped where it should: `n` is the first accepted attempt, or 3. */
  lemma {:induction false} StopsAt(judge: Judge, parse: Parser, b: Batch, job: Job, client: Client, w: World, v: World, c: Cycle, t: Tables,
                                   n: nat)
    requires |b.alerts| == |b.alertIds| && Judges(judge, job, parse, b)
    requires Leaves(judge, job, client, w, v) && Prepare(w.tables, job) == Some((c, t))
    requires 1 <= n <= 3 && NoneBefore(parse, b, job, client, t, c, n)
    requires n == 3 || exists text :: Accepted(parse, b, job, client, t, c, n, text)
    ensures EndsAfter(judge, job, client, w, v, c, t, n)
  {
    var m :| EndsAfter(judge, job, client, w, v, c, t, m);
    AcceptedIsAnswered(judge, parse, b, job, client, t, c, n);
    forall l: nat | 1 <= l < n ensures Worth(judge, job, t, c, l, client).Failed? {
      AcceptedIsAnswered(judge, parse, b, job, client, t, c, l);
      WorthIsResult(judge, job, client, t, c, l);
    }
    OneStop(judge, job, client, t, c, m, n);
  }

  lemma {:induction false} SameAccepted(parse: Parser, b: Batch, job: Job, client: Client, t: Tables, u: Tables, c: Cycle, n: nat)
    requires |b.alerts| == |b.alertIds| && t.attempts == u.attempts
    ensures NoneBefore(parse, b, job, client, t, c, n) ==> NoneBefore(parse, b, job, client, u, c, n)
    ensures forall text :: Accepted(parse, b, job, client, t, c, n, text) ==> Accepted(parse, b, job, client, u, c, n, text)
  {
    if NoneBefore(parse, b, job, client, t, c, n) {
      forall m: nat, text | 1 <= m < n ensures !Accepted(parse, b, job, client, u, c, m, text) {
        assert !Accepted(parse, b, job, client, t, c, m, text);
      }
    }
  }

  lemma {:induction false} EndsSends(judge: Judge, job: Job, client: Client, w: World, v: World, c: Cycle, t: Tables, n: nat)
    requires EndsAfter(judge, job, client, w, v, c, t, n) && t.attempts == w.tables.attempts
    ensures Sends(w, v, c, job, n)
  {
    CallsSame(job, w.tables, t, c, n);
    assert v.calls[|w.calls|..] == CallsBefore(job, t, c, n + 1);
  }

  lemma {:induction false} FirstIs(judge: Judge, job: Job, t: Tables, c: Cycle, m: nat, n: nat, client: Client)
    requires 1 <= m <= n <= MAX_ATTEMPTS && forall l :: m <= l < n ==> Worth(judge, job, t, c, l, client).Failed?
    ensures FirstAnswer(judge, job, t, c, m, client) == FirstAnswer(judge, job, t, c, n, client)
    decreases n - m
  {
    if m < n {
      FirstIs(judge, job, t, c, m + 1, n, client);
    }
  }

  // ----- what a batch comes to

  /** The batch is refused exactly when its stored request differs; nothing is sent or written. */
  lemma {:induction false} RefusedExactly(judge: Judge, parse: Parser, b: Batch, job: Job, client: Client, w: World, v: World, result: Result)
    requires |b.alerts| == |b.alertIds|
    requires Outcome(judge, job, parse, b, w.tables, client, result) && Leaves(judge, job, client, w, v)
    ensures result.Refused? <==> Differs(w.tables, job)
    ensures Differs(w.tables, job) ==> v == w
  {
    Prepared(w.tables, job);
  }

  /**
   Where attempt `n` is the first accepted one: exactly the attempts up to it that were not stored
   are sent, its verdicts are the outcome, and its text is stored in a cycle marked succeeded.
   */
  lemma {:induction false} FirstAcceptedWins(judge: Judge, parse: Parser, b: Batch, job: Job, client: Client, w: World, v: World,
                                             result: Result, c: Cycle, n: nat, text: string)
    requires |b.alerts| == |b.alertIds| && Judges(judge, job, parse, b)
    requires Outcome(judge, job, parse, b, w.tables, client, result) && Leaves(judge, job, client, w, v)
    requires WorksOn(w.tables, job, c) && 1 <= n <= 3 && Accepted(parse, b, job, client, w.tables, c, n, text)
    requires NoneBefore(parse, b, job, client, w.tables, c, n)
    ensures result.Assessed? && AnswersBatch(parse, b, text, result.verdicts)
    ensures Sends(w, v, c, job, n)
    ensures AttemptIn(v.tables, c, n) == Some(Answered(text)) && Marked(v.tables, c, Succeeded)
  {
    Prepared(w.tables, job);
    var t := Prepare(w.tables, job).value.1;
    SameAccepted(parse, b, job, client, w.tables, t, c, n);
    StopsAt(judge, parse, b, job, client, w, v, c, t, n);
    EndsSends(judge, job, client, w, v, c, t, n);
    AcceptedIsAnswered(judge, parse, b, job, client, t, c, n);
    FirstIs(judge, job, t, c, 1, n, client);
    assert Written(judge, job, client, c, n, t, v.tables);
  }

  /** Where no attempt is accepted: all three are used up, and the outcome is the third's failure. */
  lemma {:induction false} NoneAcceptedGivesUp(judge: Judge, parse: Parser, b: Batch, job: Job, client: Client, w: World, v: World,
                                               result: Result, c: Cycle)
    requires |b.alerts| == |b.alertIds| && Judges(judge, job, parse, b)
    requires Outcome(judge, job, parse, b, w.tables, client, result) && Leaves(judge, job, client, w, v)
    requires WorksOn(w.tables, job, c) && NoneBefore(parse, b, job, client, w.tables, c, 4)
    ensures result.GaveUp? && FailsWith(job, client, w.tables, c, 3, result.status)
    ensures Sends(w, v, c, job, 3)
    ensures Marked(v.tables, c, Exhausted)
  {
    Prepared(w.tables, job);
    var t := Prepare(w.tables, job).value.1;
    SameAccepted(parse, b, job, client, w.tables, t, c, 4);
    StopsAt(judge, parse, b, job, client, w, v, c, t, 3);
    EndsSends(judge, job, client, w, v, c, t, 3);
    AcceptedIsAnswered(judge, parse, b, job, client, t, c, 3);
    WorthIsResult(judge, job, client, t, c, 3);
    FirstIs(judge, job, t, c, 1, 3, client);
  }

  /** The batch was never prepared, or its latest cycle, for the same request, was given up. */
  predicate OpensNew(t: Tables, job: Job) {
    var rows := CyclesOf(t, job.batch);
    rows != [] ==> rows[|rows| - 1].requestHash == job.requestHash && rows[|rows| - 1].status == Exhausted
  }

  lemma {:induction false} NewCycleIsEmpty(judge: Judge, w: World, job: Job, c: Cycle)
    requires Good(judge, w) && OpensNew(w.tables, job) && c == Cycle(job.batch, |CyclesOf(w.tables, job.batch)| + 1)
    ensures WorksOn(w.tables, job, c) && forall m: nat :: (c, m) !in w.tables.attempts
  {
    forall m: nat ensures (c, m) !in w.tables.attempts {
      assert (c, m) in w.tables.attempts ==> AttemptOk(judge, w.tables, (c, m));
    }
  }

  lemma {:induction false} NeverReplied(parse: Parser, b: Batch, job: Job, client: Client, t: Tables, c: Cycle)
    requires |b.alerts| == |b.alertIds| && forall m: nat :: (c, m) !in t.attempts
    requires forall m: nat, text, vs :: 1 <= m <= 3 && client(job, m) == Response(text) ==> !AnswersBatch(parse, b, text, vs)
    ensures NoneBefore(parse, b, job, client, t, c, 4)
  {
  }

  lemma {:induction false} SendsThree(w: World, v: World, c: Cycle, job: Job)
    requires Sends(w, v, c, job, 3) && forall m: nat :: (c, m) !in w.tables.attempts
    ensures v.calls == w.calls + [Call(c, 1, job.requestHash), Call(c, 2, job.requestHash), Call(c, 3, job.requestHash)]
  {
    ThreeAsked(v.calls[|w.calls|..], w.tables, c, job);
    assert v.calls == v.calls[..|w.calls|] + v.calls[|w.calls|..];
  }

  lemma {:induction false} NewCycleSendsThree(judge: Judge, w: World, parse: Parser, b: Batch, job: Job, client: Client, v: World, result: Result)
    requires Good(judge, w)
    requires |b.alerts| == |b.alertIds| && Judges(judge, job, parse, b)
    requires Outcome(judge, job, parse, b, w.tables, client, result) && Leaves(judge, job, client, w, v)
    requires OpensNew(w.tables, job)
    requires forall m: nat, text, vs :: 1 <= m <= 3 && client(job, m) == Response(text) ==> !AnswersBatch(parse, b, text, vs)
    ensures var c := Cycle(job.batch, |CyclesOf(w.tables, job.batch)| + 1); var h := job.requestHash;
      v.calls == w.calls + [Call(c, 1, h), Call(c, 2, h), Call(c, 3, h)]
    ensures result.GaveUp?
  {
    var c := Cycle(job.batch, |CyclesOf(w.tables, job.batch)| + 1);
    NewCycleIsEmpty(judge, w, job, c);
    NeverReplied(parse, b, job, client, w.tables, c);
    NoneAcceptedGivesUp(judge, parse, b, job, client, w, v, result, c);
    SendsThree(w, v, c, job);
  }

  /** In a new cycle of a reachable journal nothing is stored, so a model that is never accepted is called exactly three times. */
  lemma {:induction false} ThreeCallsOfANewCycle(judge: Judge, ws: seq<World>, k: nat, parse: Parser, b: Batch, job: Job, client: Client,
                                                 v: World, result: Result)
    requires Run(judge, ws) && k < |ws|
    requires |b.alerts| == |b.alertIds| && Judges(judge, job, parse, b)
    requires Outcome(judge, job, parse, b, ws[k].tables, client, result) && Leaves(judge, job, client, ws[k], v)
    requires OpensNew(ws[k].tables, job)
    requires forall m: nat, text, vs :: 1 <= m <= 3 && client(job, m) == Response(text) ==> !AnswersBatch(parse, b, text, vs)
    ensures var c := Cycle(job.batch, |CyclesOf(ws[k].tables, job.batch)| + 1); var h := job.requestHash;
      v.calls == ws[k].calls + [Call(c, 1, h), Call(c, 2, h), Call(c, 3, h)]
    ensures result.GaveUp?
  {
    RunIsGood(judge, ws, k);
    NewCycleSendsThree(judge, ws[k], parse, b, job, client, v, result);
  }

  lemma {:induction false} NumbersGrow(calls: seq<Call>, l: nat)
    requires l < |calls| && calls[0].n >= 1 && forall i, j :: 0 <= i < j < |calls| ==> calls[i].n < calls[j].n
    ensures calls[l].n >= l + 1
  {
    if l > 0 {
      NumbersGrow(calls, l - 1);
    }
  }

  lemma {:induction false} ThreeAsked(calls: seq<Call>, t: Tables, c: Cycle, job: Job)
    requires AsksUpTo(calls, t, c, job, 3) && (c, 1) !in t.attempts && (c, 2) !in t.attempts && (c, 3) !in t.attempts
    ensures calls == [Call(c, 1, job.requestHash), Call(c, 2, job.requestHash), Call(c, 3, job.requestHash)]
  {
    var i :| 0 <= i < |calls| && calls[i].n == 1;
    var j :| 0 <= j < |calls| && calls[j].n == 2;
    var k :| 0 <= k < |calls| && calls[k].n == 3;
    assert forall l :: 0 <= l < |calls| ==> IsCall(calls[l], t, c, job, 3);
    NumbersGrow(calls, i);
    NumbersGrow(calls, j);
    NumbersGrow(calls, k);
    NumbersGrow(calls, |calls| - 1);
  }
}
