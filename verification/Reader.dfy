/** Reading one schema page by page (`src/es/reader.py:94-216`). */
module Reader {
  import opened Text
  import opened Hashing
  import opened Normalize

  /** `@timestamp`, then the tiebreaker. */
  datatype SortKey = SortKey(at: int, shardDoc: int)

  datatype Hit = Hit(source: Json, sort: Option<SortKey>)

  /** `total` is the number of matches where the response has an exact one. */
  datatype SearchResponse = SearchResponse(timedOut: bool, failedShards: nat, hits: seq<Hit>, total: Option<nat>)

  /** The reply to call `k` with the given `search_after`; None where the call raises. */
  type Server = (nat, Option<SortKey>) -> Option<SearchResponse>

  /** `normalize_row`: None where it raises. */
  type Normalizer = Json -> Option<Row>

  datatype Failure = BadPageSize | NoReply | Incomplete | NoExactTotal | BadDocument | NoSortValues | CountMismatch

  datatype ScanResult = Failed(why: Failure) | Scanned(pages: nat, total: nat)

  // ----- what was read

  function Hits(seen: seq<seq<Hit>>): seq<Hit> {
    if seen == [] then [] else Hits(seen[..|seen| - 1]) + seen[|seen| - 1]
  }

  /** The rows are those of the hits, in order. */
  predicate RowsAre(normalize: Normalizer, hits: seq<Hit>, rows: seq<Row>) {
    |rows| == |hits| && forall i :: 0 <= i < |hits| ==> normalize(hits[i].source) == Some(rows[i])
  }

  /** Where page `k` starts: nowhere yet, or after the last hit of the page before. */
  function AfterPage(seen: seq<seq<Hit>>, k: nat): Option<SortKey>
    requires k <= |seen|
  {
    if k == 0 || seen[k - 1] == [] then None else seen[k - 1][|seen[k - 1]| - 1].sort
  }

  /** Page `k` was answered completely, with these hits. */
  predicate PageWas(server: Server, seen: seq<seq<Hit>>, k: nat)
    requires k < |seen|
  {
    && server(k, AfterPage(seen, k)).Some?
    && var r := server(k, AfterPage(seen, k)).value;
       !r.timedOut && r.failedShards == 0 && r.hits == seen[k]
  }

  ghost predicate PagesWere(server: Server, seen: seq<seq<Hit>>) {
    forall k :: 0 <= k < |seen| ==> PageWas(server, seen, k)
  }

  lemma {:induction false} OnePageMore(server: Server, seen: seq<seq<Hit>>, hits: seq<Hit>)
    requires PagesWere(server, seen) && PageWas(server, seen + [hits], |seen|)
    ensures PagesWere(server, seen + [hits]) && Hits(seen + [hits]) == Hits(seen) + hits
  {
    var all := seen + [hits];
    assert all[..|seen|] == seen;
    forall k | 0 <= k < |all| ensures PageWas(server, all, k) {
      if k < |seen| {
        assert PageWas(server, seen, k) && AfterPage(all, k) == AfterPage(seen, k);
      }
    }
  }

  // ----- a server that answers in one strict total order

  predicate Precedes(a: SortKey, b: SortKey) {
    a.at < b.at || (a.at == b.at && a.shardDoc < b.shardDoc)
  }

  predicate InOrder(docs: seq<Hit>) {
    && (forall i :: 0 <= i < |docs| ==> docs[i].sort.Some?)
    && forall i, j :: 0 <= i < j < |docs| ==> Precedes(docs[i].sort.value, docs[j].sort.value)
  }

  /** `from` documents are not after `after`; the rest are. */
  predicate Splits(docs: seq<Hit>, after: Option<SortKey>, from: nat)
    requires InOrder(docs)
  {
    && from <= |docs|
    && (forall i :: 0 <= i < from ==> after.Some? && !Precedes(after.value, docs[i].sort.value))
    && forall i :: from <= i < |docs| ==> after.None? || Precedes(after.value, docs[i].sort.value)
  }

  function PageFrom(docs: seq<Hit>, from: nat, size: nat): seq<Hit>
    requires from <= |docs|
  {
    if from + size <= |docs| then docs[from..from + size] else docs[from..]
  }

  /** Every reply holds the next documents after `search_after`, and the first their exact number. */
  ghost predicate Serves(server: Server, docs: seq<Hit>, size: nat, calls: nat)
    requires InOrder(docs)
  {
    forall k: nat, after, from: nat :: k < calls && Splits(docs, after, from) ==> Next(server(k, after), docs, from, size, k)
  }

  predicate Next(reply: Option<SearchResponse>, docs: seq<Hit>, from: nat, size: nat, k: nat)
    requires from <= |docs|
  {
    && reply.Some? && !reply.value.timedOut && reply.value.failedShards == 0
    && reply.value.hits == PageFrom(docs, from, size)
    && (k == 0 ==> reply.value.total == Some(|docs|))
  }

  /** All documents can be read, and there are calls enough for all pages. */
  ghost predicate Complete(server: Server, normalize: Normalizer, docs: seq<Hit>, size: nat, calls: nat) {
    && size > 0 && InOrder(docs) && Serves(server, docs, size, calls) && |docs| / size < calls
    && forall i :: 0 <= i < |docs| ==> normalize(docs[i].source).Some?
  }

  /** The documents of the first `pages` pages were read. */
  ghost predicate ReadSoFar(docs: seq<Hit>, size: nat, pages: nat, after: Option<SortKey>, seen: seq<seq<Hit>>, total: nat) {
    && pages * size <= |docs| && InOrder(docs)
    && Hits(seen) == docs[..pages * size]
    && (if pages == 0 then after == None else pages * size > 0 && after == docs[pages * size - 1].sort && total == |docs|)
  }

  lemma {:induction false} SplitsHere(docs: seq<Hit>, size: nat, pages: nat, after: Option<SortKey>, seen: seq<seq<Hit>>, total: nat)
    requires ReadSoFar(docs, size, pages, after, seen, total)
    ensures Splits(docs, after, pages * size)
  {
  }

  lemma {:induction false} PageRead(docs: seq<Hit>, size: nat, pages: nat, after: Option<SortKey>, seen: seq<seq<Hit>>, total: nat,
                                    hits: seq<Hit>, newTotal: nat)
    requires size > 0 && ReadSoFar(docs, size, pages, after, seen, total)
    requires hits == PageFrom(docs, pages * size, size) && newTotal == |docs|
    ensures |hits| < size ==> Hits(seen + [hits]) == docs && pages == |docs| / size
    ensures |hits| >= size ==> ReadSoFar(docs, size, pages + 1, hits[|hits| - 1].sort, seen + [hits], newTotal)
    ensures |hits| >= size ==> pages + 1 <= |docs| / size
  {
    var from := pages * size;
    assert (seen + [hits])[..|seen|] == seen;
    assert (pages + 1) * size == from + size;
    if from + size <= |docs| {
      assert docs[..from] + docs[from..from + size] == docs[..from + size];
      Divides(|docs|, size, pages + 1);
    } else {
      assert docs[..from] + docs[from..] == docs;
      QuotientIs(|docs|, size, pages);
    }
  }

  lemma {:induction false} Scale(a: int, b: int, d: nat)
    requires a <= b
    ensures a * d <= b * d
  {
  }

  lemma {:induction false} Divides(n: nat, d: nat, q: nat)
    requires d > 0 && q * d <= n
    ensures q <= n / d
  {
    var k := n / d;
    assert n < (k + 1) * d;
    if k + 1 <= q {
      Scale(k + 1, q, d);
    }
  }

  lemma {:induction false} QuotientIs(n: nat, d: nat, q: nat)
    requires d > 0 && q * d <= n < q * d + d
    ensures q == n / d
  {
    Divides(n, d, q);
    var k := n / d;
    assert k * d <= n;
    if q + 1 <= k {
      Scale(q + 1, k, d);
    }
  }

  // ----- the loop

  /** The rows of one page are handed to the consumer one by one. */
  method ConsumePage(hits: seq<Hit>, normalize: Normalizer, consumed: seq<Row>, ghost before: seq<Hit>)
      returns (rows: seq<Row>, ok: bool)
    requires RowsAre(normalize, before, consumed)
    ensures ok ==> RowsAre(normalize, before + hits, rows)
    ensures !ok ==> exists i :: 0 <= i < |hits| && normalize(hits[i].source).None?
  {
    rows := consumed;
    for i := 0 to |hits|
      invariant RowsAre(normalize, before + hits[..i], rows)
    {
      var row := normalize(hits[i].source);
      if row.None? {
        return rows, false;
      }
      rows := rows + [row.value];
    }
    assert hits[..|hits|] == hits;
    return rows, true;
  }

  /** The loop between two pages: every page so far was full. */
  ghost predicate Paging(server: Server, normalize: Normalizer, size: nat, after: Option<SortKey>, total: nat, seen: seq<seq<Hit>>, consumed: seq<Row>) {
    && PagesWere(server, seen) && RowsAre(normalize, Hits(seen), consumed)
    && after == AfterPage(seen, |seen|)
    && (forall k :: 0 <= k < |seen| ==> |seen[k]| >= size)
    && (seen != [] ==> server(0, None).Some? && server(0, None).value.total == Some(total))
  }

  /** The loop after the last page. */
  ghost predicate PagedOut(server: Server, normalize: Normalizer, size: nat, total: nat, seen: seq<seq<Hit>>, consumed: seq<Row>) {
    && seen != [] && |seen[|seen| - 1]| < size && (forall k :: 0 <= k < |seen| - 1 ==> |seen[k]| >= size)
    && PagesWere(server, seen) && RowsAre(normalize, Hits(seen), consumed)
    && server(0, None).Some? && server(0, None).value.total == Some(total)
  }

  lemma {:induction false} PagingStep(server: Server, normalize: Normalizer, size: nat, after: Option<SortKey>, total: nat, seen: seq<seq<Hit>>,
                                      consumed: seq<Row>, response: SearchResponse, newTotal: nat, rows: seq<Row>)
    requires size > 0 && Paging(server, normalize, size, after, total, seen, consumed)
    requires server(|seen|, after) == Some(response) && !response.timedOut && response.failedShards == 0
    requires if seen == [] then response.total == Some(newTotal) else newTotal == total
    requires RowsAre(normalize, Hits(seen) + response.hits, rows)
    ensures var now := seen + [response.hits];
      if |response.hits| < size then PagedOut(server, normalize, size, newTotal, now, rows)
      else Paging(server, normalize, size, response.hits[|response.hits| - 1].sort, newTotal, now, rows)
  {
    var now := seen + [response.hits];
    assert AfterPage(now, |seen|) == after;
    OnePageMore(server, seen, response.hits);
    assert AfterPage(now, |now|) == if response.hits == [] then None else response.hits[|response.hits| - 1].sort;
  }

  /** A complete server has been read up to here. */
  ghost predicate OnTrack(server: Server, normalize: Normalizer, docs: seq<Hit>, size: nat, calls: nat,
                          after: Option<SortKey>, seen: seq<seq<Hit>>, total: nat) {
    Complete(server, normalize, docs, size, calls) ==>
      ReadSoFar(docs, size, |seen|, after, seen, total) && |seen| <= |docs| / size
  }

  /** It answers the next call with the next page. */
  lemma {:induction false} ReplyIsNext(server: Server, normalize: Normalizer, docs: seq<Hit>, size: nat, calls: nat,
                                       after: Option<SortKey>, seen: seq<seq<Hit>>, total: nat)
    requires Complete(server, normalize, docs, size, calls) && OnTrack(server, normalize, docs, size, calls, after, seen, total)
    ensures |seen| * size <= |docs| && Next(server(|seen|, after), docs, |seen| * size, size, |seen|)
    ensures forall i :: 0 <= i < |PageFrom(docs, |seen| * size, size)| ==> normalize(PageFrom(docs, |seen| * size, size)[i].source).Some?
  {
    SplitsHere(docs, size, |seen|, after, seen, total);
  }

  lemma {:induction false} TrackStep(server: Server, normalize: Normalizer, docs: seq<Hit>, size: nat, calls: nat,
                                     after: Option<SortKey>, seen: seq<seq<Hit>>, total: nat, response: SearchResponse, newTotal: nat)
    requires size > 0 && OnTrack(server, normalize, docs, size, calls, after, seen, total)
    requires server(|seen|, after) == Some(response)
    requires if seen == [] then response.total == Some(newTotal) else newTotal == total
    ensures |response.hits| >= size ==>
      OnTrack(server, normalize, docs, size, calls, response.hits[|response.hits| - 1].sort, seen + [response.hits], newTotal)
    ensures |response.hits| < size && Complete(server, normalize, docs, size, calls) ==>
      Hits(seen + [response.hits]) == docs && |seen| == |docs| / size && newTotal == |docs|
    ensures |response.hits| >= size && Complete(server, normalize, docs, size, calls) ==> response.hits[|response.hits| - 1].sort.Some?
  {
    if Complete(server, normalize, docs, size, calls) {
      ReplyIsNext(server, normalize, docs, size, calls, after, seen, total);
      PageRead(docs, size, |seen|, after, seen, total, response.hits, newTotal);
    }
  }

  /** How one page ended: with an error, full, or as the last one. */
  datatype PageResult = PageFailed(why: Failure) | FullPage(after: SortKey) | LastPage

  /** One turn of the loop. */
  method ReadPage(server: Server, size: nat, normalize: Normalizer, pages: nat, after: Option<SortKey>, total: nat, consumed: seq<Row>,
                  ghost seen: seq<seq<Hit>>, ghost docs: seq<Hit>, ghost calls: nat)
      returns (result: PageResult, newTotal: nat, rows: seq<Row>, ghost now: seq<seq<Hit>>)
    requires size > 0 && pages == |seen| && Paging(server, normalize, size, after, total, seen, consumed)
    requires OnTrack(server, normalize, docs, size, calls, after, seen, total)
    ensures !result.PageFailed? ==> server(pages, after).Some? && |now| == pages + 1
    ensures result.PageFailed? ==> !Complete(server, normalize, docs, size, calls)
    ensures result.FullPage? ==>
      && Paging(server, normalize, size, Some(result.after), newTotal, now, rows)
      && OnTrack(server, normalize, docs, size, calls, Some(result.after), now, newTotal)
    ensures result.LastPage? ==>
      && PagedOut(server, normalize, size, newTotal, now, rows)
      && (Complete(server, normalize, docs, size, calls) ==> Hits(now) == docs && pages == |docs| / size && newTotal == |docs|)
  {
    newTotal, rows, now := total, consumed, seen;
    if Complete(server, normalize, docs, size, calls) {
      ReplyIsNext(server, normalize, docs, size, calls, after, seen, total);
    }
    var reply := server(pages, after);
    if reply.None? {
      return PageFailed(NoReply), newTotal, rows, now;
    }
    var response := reply.value;
    if response.timedOut || response.failedShards > 0 {
      return PageFailed(Incomplete), newTotal, rows, now;
    }
    if pages == 0 {
      if response.total.None? {
        return PageFailed(NoExactTotal), newTotal, rows, now;
      }
      newTotal := response.total.value;
    }
    var ok;
    rows, ok := ConsumePage(response.hits, normalize, consumed, Hits(seen));
    if !ok {
      return PageFailed(BadDocument), newTotal, rows, now;
    }
    PagingStep(server, normalize, size, after, total, seen, consumed, response, newTotal, rows);
    TrackStep(server, normalize, docs, size, calls, after, seen, total, response, newTotal);
    now := seen + [response.hits];
    if |response.hits| < size {
      return LastPage, newTotal, rows, now;
    }
    var sort := response.hits[|response.hits| - 1].sort;
    if sort.None? {
      return PageFailed(NoSortValues), newTotal, rows, now;
    }
    return FullPage(sort.value), newTotal, rows, now;
  }

  /**
   `calls` bounds the replies a server gives. A normal return has consumed every hit of every page
   once, and as many as the cluster reported; a server that answers in one strict total order is
   read to the end, each document once, in order, in one page more than the full ones.
   */
  method ScanSchema(server: Server, operators: seq<string>, size: int, normalize: Normalizer, ghost calls: nat, ghost docs: seq<Hit>)
      returns (result: ScanResult, consumed: seq<Row>, ghost seen: seq<seq<Hit>>)
    requires forall k, after :: k >= calls ==> server(k, after) == None
    ensures size <= 0 ==> result == Failed(BadPageSize)
    ensures size > 0 && operators == [] ==> result == Scanned(0, 0) && consumed == []
    ensures result.Scanned? && operators != [] ==>
      && size > 0 && result.pages == |seen| && result.total == |consumed|
      && PagedOut(server, normalize, size, result.total, seen, consumed)
    ensures size > 0 && operators != [] && Complete(server, normalize, docs, size, calls) ==>
      result == Scanned(|docs| / size + 1, |docs|) && RowsAre(normalize, docs, consumed)
  {
    consumed, seen := [], [];
    if size <= 0 {
      return Failed(BadPageSize), consumed, seen;
    }
    if operators == [] {
      return Scanned(0, 0), consumed, seen;
    }
    var pages: nat, total: nat, after: Option<SortKey> := 0, 0, None;
    var page := FullPage(SortKey(0, 0));
    while page.FullPage?
      invariant pages == |seen| && pages <= calls
      invariant page.FullPage? ==> Paging(server, normalize, size, after, total, seen, consumed)
      invariant page.FullPage? ==> OnTrack(server, normalize, docs, size, calls, after, seen, total)
      invariant page.LastPage? ==> PagedOut(server, normalize, size, total, seen, consumed)
      invariant page.LastPage? && Complete(server, normalize, docs, size, calls) ==>
        Hits(seen) == docs && pages == |docs| / size + 1 && total == |docs|
      invariant !page.PageFailed?
      decreases calls - pages, page.FullPage?
    {
      page, total, consumed, seen := ReadPage(server, size, normalize, pages, after, total, consumed, seen, docs, calls);
      if page.PageFailed? {
        return Failed(page.why), consumed, seen;
      }
      pages := pages + 1;
      if page.FullPage? {
        after := Some(page.after);
      }
    }
    if |consumed| != total {
      return Failed(CountMismatch), consumed, seen;
    }
    return Scanned(pages, total), consumed, seen;
  }

  /** What was read that way comes in timestamp order, where a row's instant is the one it was sorted by. */
  lemma {:induction false} ReadInTimestampOrder(normalize: Normalizer, docs: seq<Hit>, rows: seq<Row>)
    requires InOrder(docs) && RowsAre(normalize, docs, rows)
    requires forall i :: 0 <= i < |docs| ==> rows[i].at == docs[i].sort.value.at
    ensures forall i, j :: 0 <= i < j < |rows| ==> rows[i].at <= rows[j].at
  {
    forall i, j | 0 <= i < j < |rows| ensures rows[i].at <= rows[j].at {
      assert Precedes(docs[i].sort.value, docs[j].sort.value);
    }
  }
}
