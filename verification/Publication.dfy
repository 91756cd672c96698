/** Which run may be published as a team's week, next to the weeks published already (`src/review/publication.py:68-138`). */
module Publication {
  import opened Text
  import Window

  const WEEK: int := Window.WINDOW_HOURS * Window.HOUR

  datatype PublishedWeek = PublishedWeek(runId: string, start: int, end: int, publicationId: nat)

  datatype Refusal = NotOneWeek | AlreadyPublished | WeekIsTaken | NothingToReplace | WeeksOverlap | GapBefore | GapAfter

  /** Allowed names the position of the week that is replaced, if any. */
  datatype Decision = Refused(why: Refusal) | Allowed(replaced: Option<nat>)

  predicate SameWeek(a: PublishedWeek, b: PublishedWeek) {
    a.start == b.start && a.end == b.end
  }

  function Min(a: int, b: int): int {
    if b < a then b else a
  }

  function Max(a: int, b: int): int {
    if b > a then b else a
  }

  predicate Overlapping(a: PublishedWeek, b: PublishedWeek) {
    Min(a.end, b.end) > Max(a.start, b.start)
  }

  /** Position `k` holds the first week with exactly this window. */
  predicate FirstSame(c: PublishedWeek, current: seq<PublishedWeek>, k: int) {
    0 <= k < |current| && SameWeek(current[k], c) && forall i :: 0 <= i < k ==> !SameWeek(current[i], c)
  }

  predicate HasWeek(c: PublishedWeek, current: seq<PublishedWeek>) {
    exists i :: 0 <= i < |current| && SameWeek(current[i], c)
  }

  predicate EndedBy(current: seq<PublishedWeek>, t: int) {
    exists i :: 0 <= i < |current| && current[i].end <= t
  }

  predicate EndsAt(current: seq<PublishedWeek>, t: int) {
    exists i :: 0 <= i < |current| && current[i].end == t
  }

  predicate StartsFrom(current: seq<PublishedWeek>, t: int) {
    exists i :: 0 <= i < |current| && current[i].start >= t
  }

  predicate StartsAt(current: seq<PublishedWeek>, t: int) {
    exists i :: 0 <= i < |current| && current[i].start == t
  }

  /** With published weeks before it, one ends where this one starts; with weeks after it, one starts where it ends. */
  predicate NoGap(c: PublishedWeek, current: seq<PublishedWeek>) {
    && (EndedBy(current, c.start) ==> EndsAt(current, c.start))
    && (StartsFrom(current, c.end) ==> StartsAt(current, c.end))
  }

  /** Only the week being replaced overlaps. */
  predicate KeepsApart(c: PublishedWeek, current: seq<PublishedWeek>) {
    forall i :: 0 <= i < |current| && Overlapping(current[i], c) ==> FirstSame(c, current, i)
  }

  predicate IsNew(c: PublishedWeek, current: seq<PublishedWeek>) {
    forall i :: 0 <= i < |current| ==> current[i].runId != c.runId
  }

  predicate Permitted(c: PublishedWeek, current: seq<PublishedWeek>, replace: bool, allowGap: bool) {
    && c.end - c.start == WEEK
    && IsNew(c, current)
    && (replace <==> HasWeek(c, current))
    && KeepsApart(c, current)
    && (allowGap || replace || NoGap(c, current))
  }

  /** A refusal names the first rule that is broken. */
  predicate Justified(why: Refusal, c: PublishedWeek, current: seq<PublishedWeek>, replace: bool, allowGap: bool) {
    match why
    case NotOneWeek => c.end - c.start != WEEK
    case AlreadyPublished => c.end - c.start == WEEK && !IsNew(c, current)
    case WeekIsTaken => c.end - c.start == WEEK && IsNew(c, current) && HasWeek(c, current) && !replace
    case NothingToReplace => c.end - c.start == WEEK && IsNew(c, current) && !HasWeek(c, current) && replace
    case _ =>
      && c.end - c.start == WEEK && IsNew(c, current) && (replace <==> HasWeek(c, current))
      && if why == WeeksOverlap then !KeepsApart(c, current)
         else
           && KeepsApart(c, current) && !allowGap && !replace
           && if why == GapBefore then EndedBy(current, c.start) && !EndsAt(current, c.start)
              else
                && (EndedBy(current, c.start) ==> EndsAt(current, c.start))
                && StartsFrom(current, c.end) && !StartsAt(current, c.end)
  }

  // ----- the rules, over instants

  /** The instant lies in the half-open window. */
  predicate Contains(w: PublishedWeek, t: int) {
    w.start <= t < w.end
  }

  ghost predicate ShareAnInstant(a: PublishedWeek, b: PublishedWeek) {
    exists t :: Contains(a, t) && Contains(b, t)
  }

  /** Windows overlap exactly when some instant lies in both; windows side by side do not. */
  lemma {:induction false} OverlapIsShared(a: PublishedWeek, b: PublishedWeek)
    ensures Overlapping(a, b) <==> ShareAnInstant(a, b)
  {
    if Overlapping(a, b) {
      assert Contains(a, Max(a.start, b.start)) && Contains(b, Max(a.start, b.start));
    }
  }

  /**
   The candidate lasts 168 hours; its run is not published; a week with its window is there exactly
   if one is to be replaced; it shares no instant with any other week; and unless a gap is allowed or
   a week replaced, it joins the weeks before it and the weeks after it.
   */
  ghost predicate RulesHold(c: PublishedWeek, current: seq<PublishedWeek>, replace: bool, allowGap: bool) {
    && c.end - c.start == 168 * 3_600_000_000
    && (forall i :: 0 <= i < |current| ==> current[i].runId != c.runId)
    && (replace <==> exists i :: 0 <= i < |current| && current[i].start == c.start && current[i].end == c.end)
    && (forall i :: 0 <= i < |current| && ShareAnInstant(current[i], c) ==>
          && current[i].start == c.start && current[i].end == c.end
          && forall j :: 0 <= j < i ==> current[j].start != c.start || current[j].end != c.end)
    && (!allowGap && !replace ==>
          && ((exists i :: 0 <= i < |current| && current[i].end <= c.start) ==> exists i :: 0 <= i < |current| && current[i].end == c.start)
          && ((exists i :: 0 <= i < |current| && current[i].start >= c.end) ==> exists i :: 0 <= i < |current| && current[i].start == c.end))
  }

  lemma {:induction false} PermittedMeans(c: PublishedWeek, current: seq<PublishedWeek>, replace: bool, allowGap: bool)
    ensures Permitted(c, current, replace, allowGap) <==> RulesHold(c, current, replace, allowGap)
  {
    forall i | 0 <= i < |current| ensures Overlapping(current[i], c) <==> ShareAnInstant(current[i], c) {
      OverlapIsShared(current[i], c);
    }
  }

  method FindSame(c: PublishedWeek, current: seq<PublishedWeek>) returns (k: Option<nat>)
    ensures k.Some? ==> FirstSame(c, current, k.value)
    ensures k.None? ==> !HasWeek(c, current)
  {
    for i := 0 to |current|
      invariant forall j :: 0 <= j < i ==> !SameWeek(current[j], c)
    {
      if SameWeek(current[i], c) {
        return Some(i);
      }
    }
    return None;
  }

  /** The end of the last week that is over by `t`. */
  method PreviousEnd(current: seq<PublishedWeek>, t: int) returns (end: Option<int>)
    ensures end.Some? <==> EndedBy(current, t)
    ensures end.Some? ==> end.value <= t && (end.value == t <==> EndsAt(current, t))
  {
    end := None;
    for i := 0 to |current|
      invariant end.Some? <==> EndedBy(current[..i], t)
      invariant end.Some? ==> end.value <= t && EndsAt(current[..i], end.value)
      invariant end.Some? ==> forall j :: 0 <= j < i && current[j].end <= t ==> current[j].end <= end.value
    {
      assert current[..i + 1][i] == current[i];
      assert forall j :: 0 <= j < i ==> current[..i + 1][j] == current[..i][j];
      if current[i].end <= t && (end.None? || current[i].end > end.value) {
        end := Some(current[i].end);
      }
    }
    assert current[..|current|] == current;
  }

  /** The start of the first week that begins no earlier than `t`. */
  method FollowingStart(current: seq<PublishedWeek>, t: int) returns (start: Option<int>)
    ensures start.Some? <==> StartsFrom(current, t)
    ensures start.Some? ==> start.value >= t && (start.value == t <==> StartsAt(current, t))
  {
    start := None;
    for i := 0 to |current|
      invariant start.Some? <==> StartsFrom(current[..i], t)
      invariant start.Some? ==> start.value >= t && StartsAt(current[..i], start.value)
      invariant start.Some? ==> forall j :: 0 <= j < i && current[j].start >= t ==> current[j].start >= start.value
    {
      assert current[..i + 1][i] == current[i];
      assert forall j :: 0 <= j < i ==> current[..i + 1][j] == current[..i][j];
      if current[i].start >= t && (start.None? || current[i].start < start.value) {
        start := Some(current[i].start);
      }
    }
    assert current[..|current|] == current;
  }

  /** `check_publication`: the same questions in the same order. */
  method CheckPublication(c: PublishedWeek, current: seq<PublishedWeek>, replace: bool, allowGap: bool) returns (d: Decision)
    ensures d.Allowed? <==> Permitted(c, current, replace, allowGap)
    ensures d.Allowed? <==> RulesHold(c, current, replace, allowGap)
    ensures d == Refused(WeeksOverlap) <==>
      && c.end - c.start == WEEK && IsNew(c, current) && (replace <==> HasWeek(c, current))
      && exists i :: 0 <= i < |current| && ShareAnInstant(current[i], c) && !FirstSame(c, current, i)
    ensures d.Allowed? ==> if replace then d.replaced.Some? && FirstSame(c, current, d.replaced.value) else d.replaced == None
    ensures d.Refused? ==> Justified(d.why, c, current, replace, allowGap)
  {
    PermittedMeans(c, current, replace, allowGap);
    forall i | 0 <= i < |current| ensures Overlapping(current[i], c) <==> ShareAnInstant(current[i], c) {
      OverlapIsShared(current[i], c);
    }
    if c.end - c.start != WEEK {
      return Refused(NotOneWeek);
    }
    for i := 0 to |current|
      invariant forall j :: 0 <= j < i ==> current[j].runId != c.runId
    {
      if current[i].runId == c.runId {
        return Refused(AlreadyPublished);
      }
    }
    var replaced := FindSame(c, current);
    if replaced.Some? && !replace {
      return Refused(WeekIsTaken);
    }
    if replaced.None? && replace {
      return Refused(NothingToReplace);
    }
    for i := 0 to |current|
      invariant forall j :: 0 <= j < i && Overlapping(current[j], c) ==> FirstSame(c, current, j)
    {
      if replaced != Some(i) && Overlapping(current[i], c) {
        return Refused(WeeksOverlap);
      }
    }
    if !allowGap && replaced.None? {
      var previous := PreviousEnd(current, c.start);
      if previous.Some? && c.start - previous.value > 0 {
        return Refused(GapBefore);
      }
      var following := FollowingStart(current, c.end);
      if following.Some? && following.value - c.end > 0 {
        return Refused(GapAfter);
      }
    }
    return Allowed(replaced);
  }
}
