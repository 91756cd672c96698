/** The 168-hour run window and its daily UTC buckets (`src/domain/window.py`). */
module Window {

  const HOUR: int := 3_600_000_000
  const DAY: int := 24 * HOUR
  const WINDOW_HOURS: int := 168

  /** The UTC calendar date of an instant, as a day number. */
  function UtcDate(at: int): int {
    at / DAY
  }

  function UtcMidnight(at: int): int {
    UtcDate(at) * DAY
  }

  datatype DailyBucket = DailyBucket(date: int, start: int, end: int) {
    function CoveredHours(): real {
      (end - start) as real / HOUR as real
    }
  }

  datatype RunWindow = RunWindow(runAt: int, start: int, end: int, buckets: seq<DailyBucket>) {
    predicate Contains(at: int) {
      start <= at < end
    }

    function Dates(): seq<int> {
      seq(|buckets|, i requires 0 <= i < |buckets| => buckets[i].date)
    }
  }

  function Max(a: int, b: int): int {
    if a < b then b else a
  }

  function Min(a: int, b: int): int {
    if b < a then b else a
  }

  /** The part of one UTC date that lies inside the window. */
  function BucketOf(start: int, end: int, date: int): DailyBucket {
    DailyBucket(date, Max(start, date * DAY), Min(end, (date + 1) * DAY))
  }

  /** The window built at `runAt`: one bucket for each date from its first instant to its last. */
  ghost predicate IsRunWindow(w: RunWindow, runAt: int) {
    && w.runAt == w.end == runAt
    && w.start == runAt - WINDOW_HOURS * HOUR
    && |w.buckets| == UtcDate(w.end - 1) - UtcDate(w.start) + 1
    && forall i :: 0 <= i < |w.buckets| ==> w.buckets[i] == BucketOf(w.start, w.end, UtcDate(w.start) + i)
  }

  lemma {:induction false} Floor(at: int)
    ensures UtcDate(at) * DAY <= at < (UtcDate(at) + 1) * DAY
  {
  }

  method BuildRunWindow(runAt: int) returns (w: RunWindow)
    ensures IsRunWindow(w, runAt)
  {
    var end := runAt;
    var start := end - WINDOW_HOURS * HOUR;
    var buckets: seq<DailyBucket> := [];
    var lastInstant := end - 1;
    var day := UtcMidnight(start);
    var finalDay := UtcMidnight(lastInstant);
    Floor(start);
    Floor(lastInstant);
    ghost var first := UtcDate(start);
    ghost var count := UtcDate(lastInstant) - first + 1;
    while day <= finalDay
      invariant day == (first + |buckets|) * DAY
      invariant |buckets| <= count
      invariant forall i :: 0 <= i < |buckets| ==> buckets[i] == BucketOf(start, end, first + i)
      decreases finalDay - day
    {
      var bucketStart := Max(start, day);
      var bucketEnd := Min(end, day + DAY);
      if bucketEnd > bucketStart {
        buckets := buckets + [DailyBucket(UtcDate(day), bucketStart, bucketEnd)];
      }
      day := day + DAY;
    }
    return RunWindow(end, start, end, buckets);
  }

  /** Consecutive, non-empty buckets from `lo` to `hi`, one UTC date each. */
  ghost predicate Tiles(buckets: seq<DailyBucket>, lo: int, hi: int) {
    && (forall i :: 0 <= i < |buckets| ==>
          buckets[i].date * 86_400_000_000 <= buckets[i].start < buckets[i].end <= (buckets[i].date + 1) * 86_400_000_000)
    && (forall i :: 0 < i < |buckets| ==> buckets[i].start == buckets[i - 1].end)
    && (forall i :: 0 < i < |buckets| ==> buckets[i].date == buckets[i - 1].date + 1)
    && (if buckets == [] then lo == hi else buckets[0].start == lo && buckets[|buckets| - 1].end == hi)
  }

  /** The buckets tile the window: seven of them when it ends at midnight, eight otherwise. */
  lemma {:induction false} WindowIsTiled(w: RunWindow, runAt: int)
    requires IsRunWindow(w, runAt)
    ensures Tiles(w.buckets, w.start, w.end)
    ensures |w.buckets| == if runAt % 86_400_000_000 == 0 then 7 else 8
  {
    var first, n := UtcDate(w.start), |w.buckets|;
    SevenDaysBack(runAt);
    forall i | 0 <= i < n
      ensures Placed(w.buckets[i], w.start, w.end, first, first + n - 1) && w.buckets[i].date == first + i
    {
      BucketInside(w.start, w.end, first + i);
    }
    PlacedTiles(w.buckets, w.start, w.end, first);
  }

  /** A bucket starts and ends with its date, except where the window itself starts or ends. */
  predicate Placed(b: DailyBucket, lo: int, hi: int, first: int, last: int) {
    && b.date * DAY <= b.start < b.end <= (b.date + 1) * DAY
    && b.start == (if b.date == first then lo else b.date * DAY)
    && b.end == (if b.date == last then hi else (b.date + 1) * DAY)
  }

  lemma {:induction false} PlacedTiles(buckets: seq<DailyBucket>, lo: int, hi: int, first: int)
    requires buckets != []
    requires forall i :: 0 <= i < |buckets| ==>
               Placed(buckets[i], lo, hi, first, first + |buckets| - 1) && buckets[i].date == first + i
    ensures Tiles(buckets, lo, hi)
  {
  }

  lemma {:induction false} SevenDaysBack(runAt: int)
    ensures UtcDate(runAt - WINDOW_HOURS * HOUR) == UtcDate(runAt) - 7
    ensures UtcDate(runAt - 1) == if runAt % DAY == 0 then UtcDate(runAt) - 1 else UtcDate(runAt)
  {
    Floor(runAt);
    Floor(runAt - 1);
    Floor(runAt - WINDOW_HOURS * HOUR);
  }

  lemma {:induction false} BucketInside(start: int, end: int, date: int)
    requires UtcDate(start) <= date <= UtcDate(end - 1) && start < end
    ensures Placed(BucketOf(start, end, date), start, end, UtcDate(start), UtcDate(end - 1))
  {
    Floor(start);
    Floor(end - 1);
  }

  function TotalLength(buckets: seq<DailyBucket>): int {
    if buckets == [] then 0
    else TotalLength(buckets[..|buckets| - 1]) + (buckets[|buckets| - 1].end - buckets[|buckets| - 1].start)
  }

  lemma {:induction false} TilesLength(buckets: seq<DailyBucket>, lo: int, hi: int)
    requires Tiles(buckets, lo, hi)
    ensures TotalLength(buckets) == hi - lo
  {
    if buckets != [] {
      var init := buckets[..|buckets| - 1];
      TilesLength(init, lo, if init == [] then lo else buckets[|buckets| - 1].start);
    }
  }

  /** The buckets' hours add up to the window's 168. */
  lemma {:induction false} CoversTheWeek(w: RunWindow, runAt: int)
    requires IsRunWindow(w, runAt)
    ensures TotalLength(w.buckets) == 168 * 3_600_000_000
  {
    WindowIsTiled(w, runAt);
    TilesLength(w.buckets, w.start, w.end);
  }

  /** The window is the half-open week before the run. */
  lemma {:induction false} WindowIsTheWeekBefore(w: RunWindow, runAt: int, at: int)
    requires IsRunWindow(w, runAt)
    ensures w.Contains(at) <==> runAt - 168 * 3_600_000_000 <= at < runAt
  {
  }

  /** Every instant of the window lies in exactly one bucket, the one carrying its date. */
  lemma {:induction false} EveryInstantHasItsBucket(w: RunWindow, runAt: int, at: int)
    requires IsRunWindow(w, runAt) && runAt - 168 * 3_600_000_000 <= at < runAt
    ensures var k := UtcDate(at) - UtcDate(w.start);
      && 0 <= k < |w.buckets|
      && w.buckets[k].date == UtcDate(at)
      && w.buckets[k].date * 86_400_000_000 <= at < (w.buckets[k].date + 1) * 86_400_000_000
      && forall i :: 0 <= i < |w.buckets| ==> (w.buckets[i].start <= at < w.buckets[i].end <==> i == k)
  {
    Floor(at);
    Floor(w.start);
    Floor(w.end - 1);
    var first := UtcDate(w.start);
    forall i | 0 <= i < |w.buckets|
      ensures w.buckets[i].start <= at < w.buckets[i].end <==> i == UtcDate(at) - first
    {
      assert w.buckets[i] == BucketOf(w.start, w.end, first + i);
    }
  }
}
