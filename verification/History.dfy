/** What later steps cannot change: the rows behind a published week, the record of publications, and stored verdicts. */
module History {
  import opened Text
  import opened Hashing
  import opened Publication
  import opened Repositories
  import opened PublishedWeeks

  // ----- the rows of a run

  lemma {:induction false} RowsJoin(a: seq<ChildRow>, b: seq<ChildRow>, runId: string)
    ensures RowsOf(a + b, runId) == RowsOf(a, runId) + RowsOf(b, runId)
  {
    if b == [] {
      assert a + b == a;
    } else {
      var n := |b| - 1;
      assert (a + b)[..|a + b| - 1] == a + b[..n];
      RowsJoin(a, b[..n], runId);
    }
  }

  lemma {:induction false} OneRow(row: ChildRow, runId: string)
    ensures RowsOf([row], runId) == if row.runId == runId then [row] else []
  {
    assert [row][..0] == [];
  }

  lemma {:induction false} DeletedRows(children: seq<ChildRow>, runId: string, other: string)
    ensures RowsOf(Remaining(children, CHILD_TABLES, runId), other) == if other == runId then [] else RowsOf(children, other)
  {
    if children != [] {
      var n := |children| - 1;
      DeletedRows(children[..n], runId, other);
      assert children[n].table in CHILD_TABLES by {
        match children[n].table
        case DailyMetrics => assert CHILD_TABLES[0] == DailyMetrics;
        case DailyRuleCounts => assert CHILD_TABLES[1] == DailyRuleCounts;
        case AlertFindings => assert CHILD_TABLES[2] == AlertFindings;
        case LlmBatchAttempts => assert CHILD_TABLES[3] == LlmBatchAttempts;
        case RunPanels => assert CHILD_TABLES[4] == RunPanels;
      }
      if children[n].runId != runId {
        RowsJoin(Remaining(children[..n], CHILD_TABLES, runId), [children[n]], other);
        OneRow(children[n], other);
      }
    }
  }

  lemma {:induction false} RowsAfter(t: Tables, p: Payload, other: string)
    ensures RowsOf(Persisted(t, p).children, other) == if other == p.runId then RowsOf(p.children, other) else RowsOf(t.children, other) + RowsOf(p.children, other)
  {
    var left := Remaining(t.children, CHILD_TABLES, p.runId);
    RowsJoin(left, p.children, other);
    DeletedRows(t.children, p.runId, other);
    if other == p.runId {
      assert [] + RowsOf(p.children, other) == RowsOf(p.children, other);
    }
  }

  lemma {:induction false} NoForeignRows(rows: seq<ChildRow>, runId: string, other: string)
    requires other != runId && forall i :: 0 <= i < |rows| ==> rows[i].runId == runId
    ensures RowsOf(rows, other) == []
  {
    if rows != [] {
      NoForeignRows(rows[..|rows| - 1], runId, other);
    }
  }

  lemma {:induction false} ForeignRow(rows: seq<ChildRow>, i: nat)
    requires i < |rows|
    ensures RowsOf(rows, rows[i].runId) != []
  {
    var n := |rows| - 1;
    if i < n {
      ForeignRow(rows[..n], i);
    }
  }

  /** The rows of every run but one are the same in both. */
  ghost predicate OthersKept(before: seq<ChildRow>, after: seq<ChildRow>, runId: string) {
    forall other :: other != runId ==> RowsOf(after, other) == RowsOf(before, other)
  }

  /**
   Persisting a run replaces its own rows; it leaves every other run's rows alone exactly when
   all the rows it brings are its own.
   */
  lemma {:induction false} PersistReplacesOnlyItsOwn(t: Tables, p: Payload)
    ensures RowsOf(Persisted(t, p).children, p.runId) == RowsOf(p.children, p.runId)
    ensures OthersKept(t.children, Persisted(t, p).children, p.runId) <==> OwnRows(p)
  {
    RowsAfter(t, p, p.runId);
    if OwnRows(p) {
      forall other | other != p.runId ensures RowsOf(Persisted(t, p).children, other) == RowsOf(t.children, other) {
        RowsAfter(t, p, other);
        NoForeignRows(p.children, p.runId, other);
      }
    } else {
      var i :| 0 <= i < |p.children| && p.children[i].runId != p.runId;
      RowsAfter(t, p, p.children[i].runId);
      ForeignRow(p.children, i);
      var a, b := RowsOf(t.children, p.children[i].runId), RowsOf(p.children, p.children[i].runId);
      assert |a + b| != |a|;
    }
  }

  // ----- publications are a record

  /** Publications stay where they are; a current one may be withdrawn, and that is all. */
  ghost predicate Extends(t: Tables, u: Tables) {
    && |t.publications| <= |u.publications|
    && forall i :: 0 <= i < |t.publications| ==> Later(t.publications[i], u.publications[i])
  }

  predicate Later(p: PublicationRow, q: PublicationRow) {
    q == p || (p.withdrawn.None? && q.withdrawn.Some? && q == p.(withdrawn := q.withdrawn))
  }

  lemma {:induction false} StepExtends(t: Tables, u: Tables)
    requires Step(t, u)
    ensures Extends(t, u)
  {
    if r, result :| Publishes(t, r, u, result) {
      PublishExtends(t, r, u, result);
    }
  }

  lemma {:induction false} PublishExtends(t: Tables, r: Request, u: Tables, result: PublishResult)
    requires Publishes(t, r, u, result)
    ensures Extends(t, u)
  {
    if r.replace {
      var team := t.runs[r.runId].teamId;
      CurrentExact(t.publications, team);
    }
  }

  lemma {:induction false} ExtendsFurther(t: Tables, u: Tables, v: Tables)
    requires Extends(t, u) && Extends(u, v)
    ensures Extends(t, v)
  {
    forall k | 0 <= k < |t.publications| ensures Later(t.publications[k], v.publications[k]) {
      assert Later(t.publications[k], u.publications[k]) && Later(u.publications[k], v.publications[k]);
    }
  }

  /** At a later point of a run every earlier publication is still there, and a withdrawn one still withdrawn. */
  lemma {:induction false} HistoryExtends(ts: seq<Tables>, i: nat, j: nat)
    requires Run(ts) && i <= j < |ts|
    ensures Extends(ts[i], ts[j])
  {
    if i < j {
      HistoryExtends(ts, i, j - 1);
      StepAt(ts, j);
      StepExtends(ts[j - 1], ts[j]);
      ExtendsFurther(ts[i], ts[j - 1], ts[j]);
    }
  }

  // ----- a published week is frozen

  /** The run behind publication `k` and its rows are the same in both. */
  ghost predicate SameContent(t: Tables, u: Tables, k: int)
    requires 0 <= k < |t.publications|
  {
    var runId := t.publications[k].runId;
    && runId in t.runs && runId in u.runs && u.runs[runId] == t.runs[runId]
    && RowsOf(u.children, runId) == RowsOf(t.children, runId)
  }

  lemma {:induction false} StepKeepsContent(t: Tables, u: Tables, k: int)
    requires Sound(t) && Step(t, u) && Current(t, k)
    ensures SameContent(t, u, k)
  {
    assert Backed(t, k);
    if p :| Persists(t, u, p) {
      assert p.runId != t.publications[k].runId;
      PersistReplacesOnlyItsOwn(t, p);
    }
  }

  lemma {:induction false} CurrentThroughout(t: Tables, u: Tables, v: Tables, k: int)
    requires Extends(t, u) && Extends(u, v) && Current(t, k) && Current(v, k)
    ensures Current(u, k) && u.publications[k] == t.publications[k] && v.publications[k] == t.publications[k]
  {
    assert Later(t.publications[k], u.publications[k]) && Later(u.publications[k], v.publications[k]);
  }

  lemma {:induction false} ContentFurther(t: Tables, u: Tables, v: Tables, k: int)
    requires Current(t, k) && Current(u, k) && u.publications[k] == t.publications[k]
    requires SameContent(t, u, k) && SameContent(u, v, k)
    ensures SameContent(t, v, k)
  {
  }

  /**
   Between any two points of any run at which a publication is current, nothing has changed the
   run behind it or its rows; in particular since it was published.
   */
  lemma {:induction false} PublishedWeekIsFrozen(ts: seq<Tables>, i: nat, j: nat, k: int)
    requires Run(ts) && i <= j < |ts| && Current(ts[i], k) && Current(ts[j], k)
    ensures SameContent(ts[i], ts[j], k) && ts[j].publications[k] == ts[i].publications[k]
  {
    RunIsSound(ts, i);
    assert Backed(ts[i], k);
    if i < j {
      HistoryExtends(ts, i, j - 1);
      HistoryExtends(ts, j - 1, j);
      CurrentThroughout(ts[i], ts[j - 1], ts[j], k);
      PublishedWeekIsFrozen(ts, i, j - 1, k);
      RunIsSound(ts, j - 1);
      StepAt(ts, j);
      StepKeepsContent(ts[j - 1], ts[j], k);
      ContentFurther(ts[i], ts[j - 1], ts[j], k);
    }
  }

  // ----- verdicts

  lemma {:induction false} InsertedKeeps(verdicts: map<VerdictId, Values>, vs: seq<VerdictRow>, id: VerdictId)
    requires id in verdicts
    ensures id in InsertedAll(verdicts, vs) && InsertedAll(verdicts, vs)[id] == verdicts[id]
  {
    if vs != [] {
      InsertedKeeps(verdicts, vs[..|vs| - 1], id);
    }
  }

  lemma {:induction false} StepKeepsVerdict(t: Tables, u: Tables, id: VerdictId)
    requires Step(t, u) && id in t.verdicts
    ensures id in u.verdicts && u.verdicts[id] == t.verdicts[id]
  {
    if p :| Persists(t, u, p) {
      InsertedKeeps(t.verdicts, p.verdicts, id);
    }
  }

  /** A stored verdict is never changed or removed. */
  lemma {:induction false} VerdictIsForGood(ts: seq<Tables>, i: nat, j: nat, id: VerdictId)
    requires Run(ts) && i <= j < |ts| && id in ts[i].verdicts
    ensures id in ts[j].verdicts && ts[j].verdicts[id] == ts[i].verdicts[id]
  {
    if i < j {
      VerdictIsForGood(ts, i, j - 1, id);
      StepAt(ts, j);
      StepKeepsVerdict(ts[j - 1], ts[j], id);
    }
  }

  /** Of several verdicts brought for one key, the first is stored. */
  lemma {:induction false} FirstVerdictWins(verdicts: map<VerdictId, Values>, vs: seq<VerdictRow>, k: nat)
    requires k < |vs| && vs[k].id !in verdicts && forall l :: 0 <= l < k ==> vs[l].id != vs[k].id
    ensures vs[k].id in InsertedAll(verdicts, vs) && InsertedAll(verdicts, vs)[vs[k].id] == vs[k].values
  {
    var n := |vs| - 1;
    if k < n {
      FirstVerdictWins(verdicts, vs[..n], k);
    } else {
      NotInserted(verdicts, vs[..n], vs[k].id);
    }
  }

  lemma {:induction false} NotInserted(verdicts: map<VerdictId, Values>, vs: seq<VerdictRow>, id: VerdictId)
    requires id !in verdicts && forall l :: 0 <= l < |vs| ==> vs[l].id != id
    ensures id !in InsertedAll(verdicts, vs)
  {
    if vs != [] {
      NotInserted(verdicts, vs[..|vs| - 1], id);
    }
  }
}
