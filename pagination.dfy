/** The paginated read of the census-block table. The remote table is a finite
    sequence of rows in server order; a request for an inclusive row range returns the
    rows of the table in that range, or the error the server reports for it. */
module Pagination {
  import opened Wrappers

  /** Rows per request (the server's default limit). */
  const PageSize: nat := 1000

  /** An inclusive row range, as passed to `.range(from, to)`. */
  datatype Range = Range(lo: nat, hi: nat)

  /** The remote table: its rows in server order, and the error the server reports for
      a request starting at a given offset (offsets absent from the map succeed). */
  datatype Store<R, E> = Store(rows: seq<R>, failures: map<nat, E>)

  /** The server's answer to one range request: the rows from offset `lo` up to and
      including `hi`, cut off at the end of the table. */
  function Page<R, E>(store: Store<R, E>, r: Range): (resp: Result<seq<R>, E>)
    requires r.lo <= r.hi + 1
    ensures resp.Err? <==> r.lo in store.failures
    ensures resp.Ok? ==> |resp.value| <= r.hi + 1 - r.lo
    ensures resp.Ok? && r.hi < |store.rows| ==> resp.value == store.rows[r.lo..r.hi + 1]
    ensures resp.Ok? && r.lo <= |store.rows| <= r.hi ==> resp.value == store.rows[r.lo..]
  {
    if r.lo in store.failures then Err(store.failures[r.lo])
    else
      var n := |store.rows|;
      var lo := if r.lo < n then r.lo else n;
      var hi := if r.hi + 1 < n then r.hi + 1 else n;
      Ok(store.rows[lo..hi])
  }

  /** The range of the `p`-th request: `[p * PageSize, (p + 1) * PageSize - 1]`. */
  function PageRange(p: nat): (r: Range)
    ensures r.lo == p * PageSize && r.hi + 1 - r.lo == PageSize
  {
    Range(p * PageSize, (p + 1) * PageSize - 1)
  }

  /** The first `k` requests, in order. */
  function Ranges(k: nat): seq<Range>
  {
    seq(k, p requires 0 <= p => PageRange(p))
  }

  /** The number of requests against `n` rows when none fails: every page up to and
      including the first one shorter than `PageSize`. */
  function RequestsNeeded(n: nat): nat
  {
    n / PageSize + 1
  }

  /** The `p`-th request fails. */
  predicate Fails<R, E>(store: Store<R, E>, p: nat)
  {
    PageRange(p).lo in store.failures
  }

  /** The first failing request at or after `from` among those the loop needs. */
  function FirstFailure<R, E>(store: Store<R, E>, from: nat): (r: Option<nat>)
    ensures r.Some? ==>
      from <= r.value < RequestsNeeded(|store.rows|) && Fails(store, r.value) &&
      forall q :: from <= q < r.value ==> !Fails(store, q)
    ensures r.None? ==> forall q :: from <= q < RequestsNeeded(|store.rows|) ==> !Fails(store, q)
    decreases RequestsNeeded(|store.rows|) - from
  {
    if from >= RequestsNeeded(|store.rows|) then None
    else if Fails(store, from) then Some(from)
    else FirstFailure(store, from + 1)
  }

  /** How many requests the loop issues: up to and including the first failing one,
      or all it needs when none fails. */
  function RequestCount<R, E>(store: Store<R, E>): nat
  {
    match FirstFailure(store, 0)
    case None => RequestsNeeded(|store.rows|)
    case Some(p) => p + 1
  }

  /** What the loop delivers: the whole table in server order, or the error of the
      first failing request and nothing else. */
  function Fetched<R, E>(store: Store<R, E>): Result<seq<R>, E>
  {
    match FirstFailure(store, 0)
    case None => Ok(store.rows)
    case Some(p) => Err(store.failures[PageRange(p).lo])
  }

  /** The rows the `p`-th request returns when it succeeds. */
  function PageRows<R>(rows: seq<R>, p: nat): seq<R>
  {
    var n := |rows|;
    var lo := if p * PageSize < n then p * PageSize else n;
    var hi := if (p + 1) * PageSize < n then (p + 1) * PageSize else n;
    rows[lo..hi]
  }

  /** The rows of the first `k` requests, concatenated in request order. */
  function Concat<R>(rows: seq<R>, k: nat): seq<R>
  {
    if k == 0 then [] else Concat(rows, k - 1) + PageRows(rows, k - 1)
  }

  /** A request that succeeds returns exactly its page of the table. */
  lemma PageIsPageRows<R, E>(store: Store<R, E>, p: nat)
    requires !Fails(store, p)
    ensures Page(store, PageRange(p)) == Ok(PageRows(store.rows, p))
  {
  }

  /** Every page before the last needed one is full; the last needed one is short. */
  lemma PageLengths<R>(rows: seq<R>, p: nat)
    requires p < RequestsNeeded(|rows|)
    ensures p < RequestsNeeded(|rows|) - 1 ==> |PageRows(rows, p)| == PageSize
    ensures p == RequestsNeeded(|rows|) - 1 ==> |PageRows(rows, p)| < PageSize
  {
  }

  /** The concatenated pages are the prefix of the table they cover. */
  lemma {:induction false} ConcatIsPrefix<R>(rows: seq<R>, k: nat)
    ensures Concat(rows, k) == rows[..if k * PageSize < |rows| then k * PageSize else |rows|]
  {
    if k > 0 {
      ConcatIsPrefix(rows, k - 1);
      var n := |rows|;
      var a := if (k - 1) * PageSize < n then (k - 1) * PageSize else n;
      var b := if k * PageSize < n then k * PageSize else n;
      assert rows[..a] + rows[a..b] == rows[..b];
    }
  }

  /** Concatenating the pages of every needed request rebuilds the whole table. */
  lemma PagesRebuildTable<R>(rows: seq<R>)
    ensures Concat(rows, RequestsNeeded(|rows|)) == rows
  {
    ConcatIsPrefix(rows, RequestsNeeded(|rows|));
  }

  /** `hasMore` after request `p` (`data.length === pageSize`) holds exactly when more requests are needed. */
  lemma FullPageMeansMore(n: nat, p: nat)
    requires p * PageSize <= n
    ensures (p + 1) * PageSize <= n <==> p + 1 < RequestsNeeded(n)
    ensures p < RequestsNeeded(n)
  {
  }

  /** One more request appends its range to the log. */
  lemma RangesStep(k: nat)
    ensures Ranges(k + 1) == Ranges(k) + [PageRange(k)]
  {
  }

  /** A failing request after only successful ones is the first failure. */
  lemma FirstFailureAt<R, E>(store: Store<R, E>, p: nat)
    requires p < RequestsNeeded(|store.rows|) && Fails(store, p)
    requires forall q :: 0 <= q < p ==> !Fails(store, q)
    ensures FirstFailure(store, 0) == Some(p)
  {
  }

  /** When none of the needed requests fails, there is no first failure. */
  lemma NoFailure<R, E>(store: Store<R, E>)
    requires forall q :: 0 <= q < RequestsNeeded(|store.rows|) ==> !Fails(store, q)
    ensures FirstFailure(store, 0) == None
  {
  }

  /** The loop of `fetchAllManzanas` and `fetchGranConcepcionManzanas`: request pages of
      `PageSize` rows in ascending order, append each to the result, stop after the first
      short page, and abort with the error of the first request that fails.
      `log` is the sequence of requested ranges. */
  method FetchPages<R, E>(store: Store<R, E>) returns (result: Result<seq<R>, E>, log: seq<Range>)
    ensures log == Ranges(RequestCount(store))
    ensures result == Fetched(store)
  {
    var allData: seq<R> := [];
    var page: nat := 0;
    var hasMore := true;
    log := [];
    while hasMore
      invariant page <= RequestsNeeded(|store.rows|)
      invariant hasMore ==> page < RequestsNeeded(|store.rows|) && page * PageSize <= |store.rows|
      invariant !hasMore ==> page == RequestsNeeded(|store.rows|)
      invariant allData == Concat(store.rows, page)
      invariant log == Ranges(page)
      invariant forall q :: 0 <= q < page ==> !Fails(store, q)
      decreases RequestsNeeded(|store.rows|) - page
    {
      var range := PageRange(page);
      RangesStep(page);
      log := log + [range];
      var response := Page(store, range);
      if response.Err? {
        FirstFailureAt(store, page);
        result := Err(response.error);
        return;
      }
      var data := response.value;
      PageIsPageRows(store, page);
      FullPageMeansMore(|store.rows|, page);
      allData := allData + data;
      hasMore := |data| == PageSize;
      page := page + 1;
    }
    NoFailure(store);
    PagesRebuildTable(store.rows);
    result := Ok(allData);
  }

  /** 2500 rows: three requests, for rows 0-999, 1000-1999 and 2000-2999, the last one
      answered with its 500 remaining rows. */
  lemma TwoThousandFiveHundredRows<R, E>(store: Store<R, E>)
    requires |store.rows| == 2500 && store.failures == map[]
    ensures RequestCount(store) == 3
    ensures Ranges(3) == [Range(0, 999), Range(1000, 1999), Range(2000, 2999)]
    ensures |PageRows(store.rows, 0)| == 1000 && |PageRows(store.rows, 1)| == 1000
    ensures PageRows(store.rows, 2) == store.rows[2000..]
    ensures Fetched(store) == Ok(store.rows)
  {
    assert FirstFailure(store, 0) == None;
  }

  /** Exactly 1000 rows: a second request follows, and its page is empty. */
  lemma OneThousandRows<R, E>(store: Store<R, E>)
    requires |store.rows| == 1000 && store.failures == map[]
    ensures RequestCount(store) == 2
    ensures Page(store, PageRange(1)) == Ok([])
    ensures Fetched(store) == Ok(store.rows)
  {
    assert FirstFailure(store, 0) == None;
  }

  /** The loop succeeds exactly when none of the requests it needs fails; otherwise it
      returns the error of the first failing one. */
  lemma FetchedOutcome<R, E>(store: Store<R, E>)
    ensures Fetched(store).Ok? <==> forall q :: 0 <= q < RequestsNeeded(|store.rows|) ==> !Fails(store, q)
    ensures Fetched(store).Ok? ==> Fetched(store).value == store.rows
    ensures Fetched(store).Err? ==>
      exists p :: 0 <= p < RequestsNeeded(|store.rows|) && Fails(store, p) &&
        (forall q :: 0 <= q < p ==> !Fails(store, q)) &&
        Fetched(store).error == store.failures[PageRange(p).lo] && RequestCount(store) == p + 1
  {
  }
}
