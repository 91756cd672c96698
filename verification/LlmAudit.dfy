/** The durable journal of one review scope: cycles and attempts (`src/db/llm_audit.py:114-198`). */
module LlmAudit {
  import opened Text

  /** A cycle is three attempts at one batch; `sha256_of([scope, batch, number])` is kept as its parts. */
  datatype Cycle = Cycle(batch: string, number: nat)

  datatype CycleStatus = Running | Succeeded | Exhausted

  datatype CycleRow = CycleRow(requestHash: string, status: CycleStatus)

  /** A stored attempt: started without a result yet, failed for some reason, or answered and accepted. */
  datatype AttemptRow = Started | Failed(kind: string) | Answered(response: string)

  type Attempt = (Cycle, nat)

  /** Each batch's cycles by number, from 1; and the attempts stored under them. */
  datatype Tables = Tables(cycles: map<string, seq<CycleRow>>, attempts: map<Attempt, AttemptRow>)

  /** What is being assessed: a batch, and the hash of its request bytes. */
  datatype Job = Job(batch: string, requestHash: string)

  // ----- the operations, as functions of the tables

  function CyclesOf(t: Tables, batch: string): seq<CycleRow> {
    if batch in t.cycles then t.cycles[batch] else []
  }

  predicate Has(t: Tables, c: Cycle) {
    1 <= c.number <= |CyclesOf(t, c.batch)|
  }

  function RowOf(t: Tables, c: Cycle): CycleRow
    requires Has(t, c)
  {
    t.cycles[c.batch][c.number - 1]
  }

  /** The cycle with the highest number. */
  function Latest(t: Tables, batch: string): Cycle {
    Cycle(batch, |CyclesOf(t, batch)|)
  }

  /** `prepare`: the cycle to work on, and the tables with it; None where the stored request differs. */
  function Prepare(t: Tables, job: Job): Option<(Cycle, Tables)> {
    var rows := CyclesOf(t, job.batch);
    var latest := Latest(t, job.batch);
    if rows != [] && RowOf(t, latest).requestHash != job.requestHash then None
    else if rows != [] && RowOf(t, latest).status != Exhausted then Some((latest, t))
    else
      Some((Cycle(job.batch, |rows| + 1),
            t.(cycles := t.cycles[job.batch := rows + [CycleRow(job.requestHash, Running)]])))
  }

  function Store(t: Tables, a: Attempt, row: AttemptRow): Tables {
    t.(attempts := t.attempts[a := row])
  }

  function Complete(t: Tables, c: Cycle, succeeded: bool): Tables {
    if Has(t, c) then
      var rows := t.cycles[c.batch];
      var row := rows[c.number - 1].(status := if succeeded then Succeeded else Exhausted);
      t.(cycles := t.cycles[c.batch := rows[c.number - 1 := row]])
    else t
  }

  function AttemptIn(t: Tables, c: Cycle, n: nat): Option<AttemptRow> {
    if (c, n) in t.attempts then Some(t.attempts[(c, n)]) else None
  }

  // ----- the journal

  class Journal {
    var cycles: map<string, seq<CycleRow>>
    var attempts: map<Attempt, AttemptRow>

    function State(): Tables
      reads this
    {
      Tables(cycles, attempts)
    }

    constructor ()
      ensures State() == Tables(map[], map[])
    {
      cycles := map[];
      attempts := map[];
    }

    /** The cycle to work on; None where the batch's stored request differs, and nothing is written. */
    method PrepareCycle(job: Job) returns (cycle: Option<Cycle>)
      modifies this`cycles
      ensures match Prepare(old(State()), job)
        case None => cycle == None && State() == old(State())
        case Some((c, t)) => cycle == Some(c) && State() == t
    {
      var rows := if job.batch in cycles then cycles[job.batch] else [];
      if rows != [] {
        var latest := rows[|rows| - 1];
        if latest.requestHash != job.requestHash {
          return None;
        }
        if latest.status != Exhausted {
          return Some(Cycle(job.batch, |rows|));
        }
      }
      cycles := cycles[job.batch := rows + [CycleRow(job.requestHash, Running)]];
      return Some(Cycle(job.batch, |rows| + 1));
    }

    method Saved(c: Cycle, n: nat) returns (row: Option<AttemptRow>)
      ensures row == AttemptIn(State(), c, n)
    {
      row := if (c, n) in attempts then Some(attempts[(c, n)]) else None;
    }

    /** Inserts the attempt before the model is called; false where its key is taken already, and nothing is written. */
    method Start(c: Cycle, n: nat) returns (inserted: bool)
      modifies this`attempts
      ensures inserted <==> AttemptIn(old(State()), c, n) == None
      ensures State() == if inserted then Store(old(State()), (c, n), Started) else old(State())
    {
      inserted := (c, n) !in attempts;
      if inserted {
        attempts := attempts[(c, n) := Started];
      }
    }

    /** Updates the attempt, if it is there. */
    method Finish(c: Cycle, n: nat, row: AttemptRow)
      modifies this`attempts
      ensures State() == if AttemptIn(old(State()), c, n).Some? then Store(old(State()), (c, n), row) else old(State())
    {
      if (c, n) in attempts {
        attempts := attempts[(c, n) := row];
      }
    }

    method CompleteBatch(c: Cycle, succeeded: bool)
      modifies this`cycles
      ensures State() == Complete(old(State()), c, succeeded)
    {
      var rows := if c.batch in cycles then cycles[c.batch] else [];
      if 1 <= c.number <= |rows| {
        var row := rows[c.number - 1].(status := if succeeded then Succeeded else Exhausted);
        cycles := cycles[c.batch := rows[c.number - 1 := row]];
      }
    }
  }
}
