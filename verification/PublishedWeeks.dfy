/** What the store keeps whatever is persisted, published and withdrawn (`src/review/publication.py:183-300`, `src/db/repositories.py:241-330`). */
module PublishedWeeks {
  import opened Text
  import opened Hashing
  import opened Publication
  import opened Repositories

  // ----- steps

  /** Every row of the payload belongs to its own run. */
  predicate OwnRows(p: Payload) {
    forall i :: 0 <= i < |p.children| ==> p.children[i].runId == p.runId
  }

  predicate Persists(t: Tables, u: Tables, p: Payload) {
    && !IsPublished(t, p.runId) && Refer(p.children, t.runs[p.runId := p.run]) && OwnRows(p)
    && u == Persisted(t, p)
  }

  ghost predicate Step(t: Tables, u: Tables) {
    || (exists p :: Persists(t, u, p))
    || (exists r, result :: Publishes(t, r, u, result))
    || (exists runId, w :: Withdraws(t, runId, w, u))
    || (exists v :: u == t.(verdicts := Inserted(t.verdicts, v)))
  }

  const EMPTY := Tables(map[], [], [], map[])

  /** Any sequence of steps from the empty store: `IsRun`, folded away. */
  ghost predicate Run(ts: seq<Tables>) {
    forall x: seq<Tables> :: Look(x) && x == ts ==> IsRun(x)
  }

  ghost predicate IsRun(ts: seq<Tables>) {
    && ts != [] && ts[0] == EMPTY
    && forall i :: 0 <= i < |ts| - 1 ==> Step(ts[i], ts[i + 1])
  }

  lemma {:induction false} StepAt(ts: seq<Tables>, j: nat)
    requires Run(ts) && j < |ts|
    ensures if j == 0 then ts[j] == EMPTY else Step(ts[j - 1], ts[j])
  {
    assert Look(ts);
    if j > 0 {
      assert Step(ts[j - 1], ts[j - 1 + 1]);
    }
  }

  // ----- what every reachable store satisfies

  predicate Current(t: Tables, i: int) {
    0 <= i < |t.publications| && IsCurrent(t.publications[i])
  }

  /** A current publication is of a whole week, and of a completed run of its team and window. */
  predicate Backed(t: Tables, i: nat)
    requires i < |t.publications|
  {
    var p := t.publications[i];
    && p.end - p.start == WEEK
    && p.runId in t.runs
    && t.runs[p.runId].teamId == p.teamId && t.runs[p.runId].status == "completed"
    && t.runs[p.runId].windowStart == p.start && t.runs[p.runId].windowEnd == p.end
  }

  /** Two current publications are of different runs, and of weeks apart when of one team. */
  predicate Apart(t: Tables, i: nat, j: nat)
    requires i < |t.publications| && j < |t.publications|
  {
    && t.publications[i].runId != t.publications[j].runId
    && (t.publications[i].teamId == t.publications[j].teamId ==>
          !Overlapping(WeekOf(t.publications, i), WeekOf(t.publications, j)))
  }

  ghost predicate Sound(t: Tables) {
    && (forall i :: Current(t, i) ==> Backed(t, i))
    && (forall i, j :: Current(t, i) && Current(t, j) && i < j ==> Apart(t, i, j))
  }

  // ----- persisting

  lemma {:induction false} PersistSound(t: Tables, u: Tables, p: Payload)
    requires Sound(t) && Persists(t, u, p)
    ensures Sound(u)
  {
    forall i | Current(u, i) ensures Backed(u, i) {
      assert Current(t, i) && Backed(t, i);
    }
    forall i, j | Current(u, i) && Current(u, j) && i < j ensures Apart(u, i, j) {
      assert Current(t, i) && Current(t, j) && Apart(t, i, j);
    }
  }

  // ----- publishing

  /** Publication `i` is the one a replacement withdraws. */
  ghost predicate Displaced(t: Tables, r: Request, i: int)
    requires r.runId in t.runs
  {
    var current := CurrentWeeks(t.publications, t.runs[r.runId].teamId);
    exists k :: FirstSame(CandidateOf(t, r.runId), current, k) && current[k].publicationId == i + 1
  }

  lemma {:induction false} ApartFromNew(t: Tables, r: Request, i: nat)
    requires Sound(t) && MayPublish(t, r) && Current(t, i)
    ensures t.publications[i].runId != r.runId
    ensures t.publications[i].teamId == t.runs[r.runId].teamId && Overlapping(WeekOf(t.publications, i), CandidateOf(t, r.runId)) ==>
              Displaced(t, r, i)
  {
    var team := t.runs[r.runId].teamId;
    var current := CurrentWeeks(t.publications, team);
    CurrentExact(t.publications, team);
    assert Backed(t, i);
    if t.publications[i].teamId == team {
      var k :| 0 <= k < |current| && current[k] == WeekOf(t.publications, i);
      assert current[k].runId != r.runId;
    }
  }

  lemma {:induction false} AddedSound(t: Tables, r: Request, pubs: seq<PublicationRow>, u: Tables)
    requires Sound(t) && MayPublish(t, r) && u == t.(publications := pubs + [NewRow(t, r)])
    requires |pubs| == |t.publications|
    requires forall i :: 0 <= i < |pubs| && IsCurrent(pubs[i]) ==> pubs[i] == t.publications[i] && IsCurrent(t.publications[i])
    requires forall i :: 0 <= i < |pubs| && IsCurrent(pubs[i]) ==> !Displaced(t, r, i)
    ensures Sound(u)
  {
    forall i | Current(u, i) ensures Backed(u, i) {
      if i < |pubs| {
        assert Current(t, i) && Backed(t, i);
      }
    }
    forall i, j | Current(u, i) && Current(u, j) && i < j ensures Apart(u, i, j) {
      assert IsCurrent(pubs[i]) && Current(t, i);
      if j < |pubs| {
        assert IsCurrent(pubs[j]) && Current(t, j) && Apart(t, i, j);
      } else {
        ApartFromNew(t, r, i);
      }
    }
  }

  /** Withdrawing the week that is replaced leaves nothing displaced. */
  lemma {:induction false} ReplaceSound(t: Tables, r: Request, u: Tables, result: PublishResult, k: nat)
    requires Sound(t) && MayPublish(t, r)
    requires var current := CurrentWeeks(t.publications, t.runs[r.runId].teamId);
      FirstSame(CandidateOf(t, r.runId), current, k) && Replaces(t, r, current[k], u, result)
    ensures Sound(u)
  {
    var current := CurrentWeeks(t.publications, t.runs[r.runId].teamId);
    var q := current[k].publicationId - 1;
    var pubs := Withdrawn(t.publications, q, ReplacedBy(t, r));
    forall i | 0 <= i < |pubs| && IsCurrent(pubs[i]) ensures pubs[i] == t.publications[i] && !Displaced(t, r, i) {
      assert i != q;
      forall l | FirstSame(CandidateOf(t, r.runId), current, l) ensures l == k {}
    }
    AddedSound(t, r, pubs, u);
  }

  lemma {:induction false} PublishSound(t: Tables, r: Request, u: Tables, result: PublishResult)
    requires Sound(t) && Publishes(t, r, u, result)
    ensures Sound(u)
  {
    var c := CandidateOf(t, r.runId);
    var current := CurrentWeeks(t.publications, t.runs[r.runId].teamId);
    if r.replace {
      var k :| FirstSame(c, current, k) && Replaces(t, r, current[k], u, result);
      ReplaceSound(t, r, u, result, k);
    } else {
      forall i | 0 <= i < |t.publications| ensures !Displaced(t, r, i) {
        assert !HasWeek(c, current);
      }
      AddedSound(t, r, t.publications, u);
    }
  }

  lemma {:induction false} WithdrawSound(t: Tables, runId: string, w: Withdrawal, u: Tables)
    requires Sound(t) && Withdraws(t, runId, w, u)
    ensures Sound(u)
  {
    forall i | Current(u, i) ensures Current(t, i) && u.publications[i] == t.publications[i] {}
    forall i | Current(u, i) ensures Backed(u, i) {
      assert Backed(t, i);
    }
    forall i, j | Current(u, i) && Current(u, j) && i < j ensures Apart(u, i, j) {
      assert Apart(t, i, j);
    }
  }

  lemma {:induction false} StepSound(t: Tables, u: Tables)
    requires Sound(t) && Step(t, u)
    ensures Sound(u)
  {
    if p :| Persists(t, u, p) {
      PersistSound(t, u, p);
    } else if r, result :| Publishes(t, r, u, result) {
      PublishSound(t, r, u, result);
    } else if runId, w :| Withdraws(t, runId, w, u) {
      WithdrawSound(t, runId, w, u);
    } else {
      forall i | Current(u, i) ensures Backed(u, i) {
        assert Current(t, i) && Backed(t, i);
      }
      forall i, j | Current(u, i) && Current(u, j) && i < j ensures Apart(u, i, j) {
        assert Current(t, i) && Current(t, j) && Apart(t, i, j);
      }
    }
  }

  lemma {:induction false} RunIsSound(ts: seq<Tables>, k: nat)
    requires Run(ts) && k < |ts|
    ensures Sound(ts[k])
  {
    StepAt(ts, k);
    if k > 0 {
      RunIsSound(ts, k - 1);
      StepSound(ts[k - 1], ts[k]);
    }
  }

  /**
   At any point of any run: each current publication covers exactly one week, two of them are of
   different runs, and two of one team do not overlap.
   */
  lemma {:induction false} WeeksNeverOverlap(ts: seq<Tables>, k: nat, i: nat, j: nat)
    requires Run(ts) && k < |ts| && Current(ts[k], i) && Current(ts[k], j) && i < j
    ensures var p, q := ts[k].publications[i], ts[k].publications[j];
      && p.end - p.start == 168 * 3_600_000_000 && q.end - q.start == 168 * 3_600_000_000
      && p.runId != q.runId
      && (p.teamId == q.teamId ==> p.end <= q.start || q.end <= p.start)
  {
    RunIsSound(ts, k);
    assert Backed(ts[k], i) && Backed(ts[k], j) && Apart(ts[k], i, j);
  }

  // ----- one chain

  /** A current publication of the team. */
  predicate Of(t: Tables, team: string, i: int) {
    Current(t, i) && t.publications[i].teamId == team
  }

  /** A published week of the team ends where this one starts. */
  ghost predicate Preceded(t: Tables, team: string, i: int)
    requires Of(t, team, i)
  {
    exists k :: Of(t, team, k) && t.publications[k].end == t.publications[i].start
  }

  /** Only the team's first week has no week right before it: `LinksUp`, folded away. */
  ghost predicate Chained(t: Tables, team: string) {
    forall x: string :: Look(x) && x == team ==> LinksUp(t, x)
  }

  ghost predicate LinksUp(t: Tables, team: string) {
    forall i, j :: Of(t, team, i) && Of(t, team, j) && t.publications[j].start < t.publications[i].start ==> Preceded(t, team, i)
  }

  /** No gap is allowed and nothing is withdrawn for good. */
  ghost predicate StrictStep(t: Tables, u: Tables) {
    || (exists p :: Persists(t, u, p))
    || (exists r: Request, result :: !r.allowGap && Publishes(t, r, u, result))
    || (exists v :: u == t.(verdicts := Inserted(t.verdicts, v)))
  }

  lemma {:induction false} SamePublications(t: Tables, u: Tables, team: string)
    requires u.publications == t.publications && LinksUp(t, team)
    ensures LinksUp(u, team)
  {
    forall i | Of(u, team, i) ensures Of(t, team, i) {}
    forall i, j | Of(u, team, i) && Of(u, team, j) && u.publications[j].start < u.publications[i].start ensures Preceded(u, team, i) {
      assert Preceded(t, team, i);
      var k :| Of(t, team, k) && t.publications[k].end == t.publications[i].start;
      assert Of(u, team, k);
    }
  }

  /** Two weeks of a team: the one that starts first is over when the other starts. */
  lemma {:induction false} Ordered(t: Tables, team: string, i: int, j: int)
    requires Sound(t) && Of(t, team, i) && Of(t, team, j) && t.publications[j].start < t.publications[i].start
    ensures t.publications[j].end <= t.publications[i].start
  {
    assert Backed(t, i) && Backed(t, j);
    if i < j {
      assert Apart(t, i, j);
    } else {
      assert Apart(t, j, i);
    }
  }

  lemma {:induction false} InCurrent(t: Tables, team: string, i: int)
    requires Of(t, team, i)
    ensures WeekOf(t.publications, i) in CurrentWeeks(t.publications, team)
  {
    CurrentExact(t.publications, team);
  }

  lemma {:induction false} FromCurrent(t: Tables, team: string, w: PublishedWeek) returns (i: int)
    requires w in CurrentWeeks(t.publications, team)
    ensures Of(t, team, i) && t.publications[i].start == w.start && t.publications[i].end == w.end
  {
    CurrentExact(t.publications, team);
    i := w.publicationId - 1;
  }

  /** The new week has a week right before it, if any week is earlier. */
  lemma {:induction false} NewIsPreceded(t: Tables, team: string, c: PublishedWeek, j: int) returns (k: int)
    requires NoGap(c, CurrentWeeks(t.publications, team)) && Of(t, team, j) && t.publications[j].end <= c.start
    ensures Of(t, team, k) && t.publications[k].end == c.start
  {
    var current := CurrentWeeks(t.publications, team);
    InCurrent(t, team, j);
    assert EndedBy(current, c.start);
    var l :| 0 <= l < |current| && current[l].end == c.start;
    k := FromCurrent(t, team, current[l]);
  }

  /** The team's first week so far starts where the new week ends, if that comes before it. */
  lemma {:induction false} NewPrecedes(t: Tables, team: string, c: PublishedWeek, i: int)
    requires NoGap(c, CurrentWeeks(t.publications, team)) && Of(t, team, i) && c.end <= t.publications[i].start
    requires forall j :: Of(t, team, j) ==> t.publications[i].start <= t.publications[j].start
    ensures c.end == t.publications[i].start
  {
    var current := CurrentWeeks(t.publications, team);
    InCurrent(t, team, i);
    assert StartsFrom(current, c.end);
    var l :| 0 <= l < |current| && current[l].start == c.end;
    var k := FromCurrent(t, team, current[l]);
  }

  lemma {:induction false} AddedPreceded(t: Tables, r: Request, u: Tables, i: int, j: int)
    requires Sound(t) && Sound(u) && MayPublish(t, r) && !r.replace && !r.allowGap && LinksUp(t, t.runs[r.runId].teamId)
    requires u == t.(publications := t.publications + [NewRow(t, r)])
    requires var team := t.runs[r.runId].teamId;
      Of(u, team, i) && Of(u, team, j) && u.publications[j].start < u.publications[i].start
    ensures Preceded(u, t.runs[r.runId].teamId, i)
  {
    var team, n := t.runs[r.runId].teamId, |t.publications|;
    var c := CandidateOf(t, r.runId);
    Ordered(u, team, i, j);
    if i == n {
      var k := NewIsPreceded(t, team, c, j);
      assert Of(u, team, k);
    } else if l :| Of(t, team, l) && t.publications[l].start < t.publications[i].start {
      assert Of(t, team, i) && Preceded(t, team, i);
      var k :| Of(t, team, k) && t.publications[k].end == t.publications[i].start;
      assert Of(u, team, k);
    } else {
      assert j == n;
      NewPrecedes(t, team, c, i);
      assert Of(u, team, n);
    }
  }

  lemma {:induction false} AddedChained(t: Tables, r: Request, u: Tables, team: string)
    requires Sound(t) && Sound(u) && MayPublish(t, r) && !r.replace && !r.allowGap && LinksUp(t, team)
    requires u == t.(publications := t.publications + [NewRow(t, r)])
    ensures LinksUp(u, team)
  {
    forall i, j | Of(u, team, i) && Of(u, team, j) && u.publications[j].start < u.publications[i].start ensures Preceded(u, team, i) {
      if team == t.runs[r.runId].teamId {
        AddedPreceded(t, r, u, i, j);
      } else {
        assert Of(t, team, i) && Of(t, team, j);
        var k :| Of(t, team, k) && t.publications[k].end == t.publications[i].start;
        assert Of(u, team, k);
      }
    }
  }

  /** Publication `i` after a replacement has the window of a publication before it. */
  function Origin(n: nat, q: int, i: int): int {
    if i == n then q else i
  }

  lemma {:induction false} ReplacedChained(t: Tables, r: Request, u: Tables, result: PublishResult, k: nat, team: string)
    requires MayPublish(t, r) && LinksUp(t, team)
    requires var current := CurrentWeeks(t.publications, t.runs[r.runId].teamId);
      FirstSame(CandidateOf(t, r.runId), current, k) && Replaces(t, r, current[k], u, result)
    ensures LinksUp(u, team)
  {
    var home := t.runs[r.runId].teamId;
    var current := CurrentWeeks(t.publications, home);
    CurrentExact(t.publications, home);
    var n, q := |t.publications|, current[k].publicationId - 1;
    forall i | Of(u, team, i)
      ensures var o := Origin(n, q, i);
        Of(t, team, o) && t.publications[o].start == u.publications[i].start && t.publications[o].end == u.publications[i].end
    {
      if i == n {
        assert Of(t, home, q);
      }
    }
    forall i, j | Of(u, team, i) && Of(u, team, j) && u.publications[j].start < u.publications[i].start ensures Preceded(u, team, i) {
      assert Preceded(t, team, Origin(n, q, i));
      var l :| Of(t, team, l) && t.publications[l].end == u.publications[i].start;
      assert Of(u, team, if l == q then n else l);
    }
  }

  lemma {:induction false} StrictStepChained(t: Tables, u: Tables, team: string)
    requires Sound(t) && Chained(t, team) && StrictStep(t, u)
    ensures Step(t, u) && Chained(u, team)
  {
    assert Look(team);
    if r: Request, result :| !r.allowGap && Publishes(t, r, u, result) {
      PublishSound(t, r, u, result);
      if r.replace {
        var current := CurrentWeeks(t.publications, t.runs[r.runId].teamId);
        var k :| FirstSame(CandidateOf(t, r.runId), current, k) && Replaces(t, r, current[k], u, result);
        ReplacedChained(t, r, u, result, k, team);
      } else {
        AddedChained(t, r, u, team);
      }
    } else {
      SamePublications(t, u, team);
    }
  }

  ghost predicate StrictRun(ts: seq<Tables>) {
    && ts != [] && ts[0] == EMPTY
    && forall i :: 0 <= i < |ts| - 1 ==> StrictStep(ts[i], ts[i + 1])
  }

  lemma {:induction false} StrictRunIsChained(ts: seq<Tables>, k: nat, team: string)
    requires StrictRun(ts) && k < |ts|
    ensures Sound(ts[k]) && Chained(ts[k], team)
  {
    if k > 0 {
      StrictRunIsChained(ts, k - 1, team);
      assert StrictStep(ts[k - 1], ts[k - 1 + 1]);
      StrictStepChained(ts[k - 1], ts[k], team);
      StepSound(ts[k - 1], ts[k]);
    }
  }

  /** The team has a published week that starts at `time`. */
  ghost predicate WeekAt(t: Tables, team: string, time: int) {
    exists i :: Of(t, team, i) && t.publications[i].start == time
  }

  /** The start of the `n`-th week after `base`. */
  function WeekFrom(base: int, n: nat): int {
    if n == 0 then base else WeekFrom(base, n - 1) + WEEK
  }

  lemma {:induction false} Predecessor(t: Tables, team: string, i: int, j: int) returns (k: int)
    requires Sound(t) && Chained(t, team) && Of(t, team, i) && Of(t, team, j) && t.publications[j].start < t.publications[i].start
    ensures Of(t, team, k) && t.publications[k].start + WEEK == t.publications[i].start
    ensures t.publications[j].start <= t.publications[k].start
  {
    assert Look(team);
    assert Preceded(t, team, i);
    k :| Of(t, team, k) && t.publications[k].end == t.publications[i].start;
    assert Backed(t, k);
    if t.publications[k].start < t.publications[j].start {
      Ordered(t, team, j, k);
    }
  }

  /** Between two published weeks of a chain there is nothing but published weeks, back to back. */
  lemma {:induction false} BackToBack(t: Tables, team: string, i: int, j: int) returns (n: nat)
    requires Sound(t) && Chained(t, team) && Of(t, team, i) && Of(t, team, j) && t.publications[j].start <= t.publications[i].start
    ensures t.publications[i].start == WeekFrom(t.publications[j].start, n)
    ensures forall m :: 0 <= m <= n ==> WeekAt(t, team, WeekFrom(t.publications[j].start, m))
    decreases t.publications[i].start - t.publications[j].start
  {
    if t.publications[j].start == t.publications[i].start {
      n := 0;
      assert Of(t, team, i);
    } else {
      var k := Predecessor(t, team, i, j);
      var before := BackToBack(t, team, k, j);
      n := before + 1;
      assert WeekAt(t, team, t.publications[i].start);
    }
  }

  /** Without gaps allowed and without withdrawals, a team's weeks are one back-to-back chain at any point of any run. */
  lemma {:induction false} OneChain(ts: seq<Tables>, k: nat, team: string, i: int, j: int) returns (n: nat)
    requires StrictRun(ts) && k < |ts| && Of(ts[k], team, i) && Of(ts[k], team, j)
    requires ts[k].publications[j].start <= ts[k].publications[i].start
    ensures ts[k].publications[i].start == WeekFrom(ts[k].publications[j].start, n)
    ensures forall m :: 0 <= m <= n ==> WeekAt(ts[k], team, WeekFrom(ts[k].publications[j].start, m))
  {
    StrictRunIsChained(ts, k, team);
    n := BackToBack(ts[k], team, i, j);
  }

  // ----- what may be published next

  /** All current weeks of the team are over by `time`, and one of them ends then. */
  ghost predicate LastEndsAt(t: Tables, team: string, time: int) {
    && (forall i :: Of(t, team, i) ==> t.publications[i].end <= time)
    && (exists i :: Of(t, team, i) && t.publications[i].end == time)
  }

  ghost predicate NothingCurrent(t: Tables, team: string) {
    forall i :: !Of(t, team, i)
  }

  /**
   In every reachable store: a completed run of 168 hours that is not published, and whose window
   starts where its team's last current week ends (or whose team has no current week), is published
   when asked for, with neither a replacement nor a gap allowed: its row is added, under the run's
   own team and window, and nothing else changes.
   */
  lemma {:induction false} NextWeekIsPublished(ts: seq<Tables>, k: nat, r: Request, u: Tables, result: PublishResult)
    requires Run(ts) && k < |ts| && r.runId in ts[k].runs && !r.replace && !r.allowGap
    requires 1 <= |Strip(r.publishedBy)| <= 128 && (r.note.Some? ==> |Strip(r.note.value)| <= 4000)
    requires var run := ts[k].runs[r.runId];
      && run.status == "completed" && run.windowEnd - run.windowStart == 168 * 3_600_000_000
      && !IsPublished(ts[k], r.runId)
      && (LastEndsAt(ts[k], run.teamId, run.windowStart) || NothingCurrent(ts[k], run.teamId))
    requires PublishOutcome(ts[k], r, u, result)
    ensures result == Published(|ts[k].publications| + 1, None)
    ensures exists row :: IsRowOf(row, ts[k], r) && u == ts[k].(publications := ts[k].publications + [row])
  {
    RunIsSound(ts, k);
    NextWeekIsPermitted(ts[k], r);
    RowAdded(ts[k], r);
  }

  lemma {:induction false} NextWeekIsPermitted(t: Tables, r: Request)
    requires Sound(t) && r.runId in t.runs && !IsPublished(t, r.runId)
    requires var run := t.runs[r.runId];
      && run.windowEnd - run.windowStart == WEEK
      && (LastEndsAt(t, run.teamId, run.windowStart) || NothingCurrent(t, run.teamId))
    ensures Permitted(CandidateOf(t, r.runId), CurrentWeeks(t.publications, t.runs[r.runId].teamId), false, false)
  {
    var run := t.runs[r.runId];
    var c, current := CandidateOf(t, r.runId), CurrentWeeks(t.publications, run.teamId);
    forall i | 0 <= i < |current|
      ensures current[i].runId != r.runId && current[i].start < current[i].end <= run.windowStart
    {
      var k := FromCurrentRow(t, run.teamId, current[i]);
      assert Backed(t, k);
    }
    if LastEndsAt(t, run.teamId, run.windowStart) {
      var j :| Of(t, run.teamId, j) && t.publications[j].end == run.windowStart;
      InCurrent(t, run.teamId, j);
      var l :| 0 <= l < |current| && current[l] == WeekOf(t.publications, j);
      assert EndsAt(current, c.start);
    } else if current != [] {
      var k := FromCurrentRow(t, run.teamId, current[0]);
    }
  }

  lemma {:induction false} FromCurrentRow(t: Tables, team: string, w: PublishedWeek) returns (i: int)
    requires w in CurrentWeeks(t.publications, team)
    ensures Of(t, team, i) && w == WeekOf(t.publications, i)
  {
    CurrentExact(t.publications, team);
    i := w.publicationId - 1;
  }
}
