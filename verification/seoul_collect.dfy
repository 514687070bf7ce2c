/** The metropolitan window loop (CollectSeoulBusStations).  The requests are
    an oracle: `probe` is the answer to the count request for rows 1..1, and
    `pages[i]` the answer to the i-th request of the loop. */
module SeoulCollect {
  import opened OpenApi
  import opened Seoul

  const WindowSize: int := 1000

  /** The test the loop applies to every response: a zero count together with
      an error envelope. */
  predicate IsErrorResponse(page: Fetched<TbisMasterStation>)
  {
    page.response.List_total_count == 0 && page.apiError.Some?
  }

  /** A response the loop appends. */
  predicate WindowSucceeds(page: Fetched<TbisMasterStation>)
  {
    !IsErrorResponse(page) && page.response.Result.code == SuccessCode
  }

  /** A response the loop skips, requesting the same window again. */
  predicate IsSoftFailure(page: Fetched<TbisMasterStation>)
  {
    !IsErrorResponse(page) && page.response.Result.code != SuccessCode
  }

  /** The rows of the responses, one after the other. */
  function RowsOf(pages: seq<Fetched<TbisMasterStation>>): seq<SeoulBusStation>
  {
    if pages == [] then [] else pages[0].response.Row + RowsOf(pages[1..])
  }

  /** The specification of the loop from the window start..end on, with
      `collected` rows so far and `total` the count of the probe. */
  function Loop(total: int, pages: seq<Fetched<TbisMasterStation>>, start: int, end: int,
                collected: seq<SeoulBusStation>): Run<SeoulBusStation>
    decreases |pages|
  {
    if pages == [] then Run(Exhausted(collected), [])
    else
      var page := pages[0];
      var rest :=
        if IsErrorResponse(page) then Run(Failed(collected, page.apiError.value), [])
        else if page.response.Result.code != SuccessCode then Loop(total, pages[1..], start, end, collected)
        else if end > total then Run(Done(collected + page.response.Row), [])
        else Loop(total, pages[1..], start + WindowSize, end + WindowSize, collected + page.response.Row);
      Prepend([(start, end)], rest)
  }

  /** The specification of CollectSeoulBusStations. */
  function Collect(probe: Fetched<TbisMasterStation>, pages: seq<Fetched<TbisMasterStation>>): Run<SeoulBusStation>
  {
    Prepend([(1, 1)],
      if IsErrorResponse(probe) then Run(Failed([], probe.apiError.value), [])
      else Loop(probe.response.List_total_count, pages, 1, WindowSize, []))
  }

  /** CollectSeoulBusStations, the requests made through the oracle. */
  method CollectSeoulBusStations(probe: Fetched<TbisMasterStation>, pages: seq<Fetched<TbisMasterStation>>)
    returns (outcome: Outcome<SeoulBusStation>, requests: seq<(int, int)>)
    ensures Run(outcome, requests) == Collect(probe, pages)
  {
    requests := [(1, 1)];
    if IsErrorResponse(probe) {
      return Failed([], probe.apiError.value), requests;
    }
    var totalCount := probe.response.List_total_count;
    var startIndex := 1;
    var endIndex := WindowSize;
    var stations: seq<SeoulBusStation> := [];
    var i := 0;
    while i < |pages|
      invariant 0 <= i <= |pages|
      invariant Collect(probe, pages) == Prepend(requests, Loop(totalCount, pages[i..], startIndex, endIndex, stations))
    {
      assert pages[i..][1..] == pages[i + 1..];
      var response := pages[i];
      i := i + 1;
      requests := requests + [(startIndex, endIndex)];
      if IsErrorResponse(response) {
        return Failed(stations, response.apiError.value), requests;
      }
      if response.response.Result.code != SuccessCode {
        continue;
      }
      stations := stations + response.response.Row;
      if endIndex > totalCount {
        return Done(stations), requests;
      }
      startIndex := startIndex + WindowSize;
      endIndex := endIndex + WindowSize;
    }
    return Exhausted(stations), requests;
  }

  // ---------------------------------------------------------------------
  // Properties.

  /** The number of windows the loop requests when every window succeeds:
      it stops after the first window whose end exceeds the total. */
  function WindowCount(total: int): (w: int)
    ensures w >= 1
    ensures w * WindowSize > total
    ensures w >= 2 ==> (w - 1) * WindowSize <= total
  {
    (if total < 0 then 0 else total / WindowSize) + 1
  }

  /** The k-th window (from 0): rows 1 + 1000 k .. 1000 + 1000 k. */
  function Window(k: int): (int, int)
  {
    (1 + 1000 * k, 1000 + 1000 * k)
  }

  /** The requests for `m` windows from window `first` on. */
  function WindowRequests(first: int, m: nat): (requests: seq<(int, int)>)
    ensures |requests| == m
    ensures forall j :: 0 <= j < m ==> requests[j] == Window(first + j)
  {
    seq(m, j requires 0 <= j < m => Window(first + j))
  }

  /** The windows requested when every window succeeds cover rows 1 .. total,
      each row in exactly one window; unlike the provincial pages, no final
      partial window is left out. */
  lemma WindowsCoverTotal(total: int, row: int)
    requires 1 <= row <= total
    ensures var k := (row - 1) / WindowSize;
      0 <= k < WindowCount(total) && Window(k).0 <= row <= Window(k).1
    ensures forall k :: 0 <= k < WindowCount(total) && Window(k).0 <= row <= Window(k).1 ==> k == (row - 1) / WindowSize
  {
  }

  lemma RowsOfFirst(pages: seq<Fetched<TbisMasterStation>>, m: nat)
    requires 0 < m <= |pages|
    ensures RowsOf(pages[..m]) == pages[0].response.Row + RowsOf(pages[1..][..m - 1])
  {
    assert pages[..m][1..] == pages[1..][..m - 1];
  }

  lemma {:induction false} RowsOfAppend(a: seq<Fetched<TbisMasterStation>>, b: seq<Fetched<TbisMasterStation>>)
    ensures RowsOf(a + b) == RowsOf(a) + RowsOf(b)
  {
    if a != [] {
      assert (a + b)[1..] == a[1..] + b;
      RowsOfAppend(a[1..], b);
    } else {
      assert a + b == b;
    }
  }

  /** One appended window that does not stop the loop. */
  lemma LoopStep(total: int, pages: seq<Fetched<TbisMasterStation>>, k: int, collected: seq<SeoulBusStation>)
    requires |pages| > 0 && WindowSucceeds(pages[0])
    requires Window(k).1 <= total
    ensures Loop(total, pages, Window(k).0, Window(k).1, collected)
         == Prepend([Window(k)], Loop(total, pages[1..], Window(k + 1).0, Window(k + 1).1, collected + pages[0].response.Row))
  {
  }

  /** Splitting off the first of `m` appended windows. */
  lemma AcceptedRows(pages: seq<Fetched<TbisMasterStation>>, m: nat, collected: seq<SeoulBusStation>)
    requires 0 < m <= |pages|
    ensures pages[1..][m - 1..] == pages[m..]
    ensures (collected + pages[0].response.Row) + RowsOf(pages[1..][..m - 1]) == collected + RowsOf(pages[..m])
  {
    RowsOfFirst(pages, m);
  }

  lemma WindowRequestsCons(first: int, m: nat)
    requires m > 0
    ensures [Window(first)] + WindowRequests(first + 1, m - 1) == WindowRequests(first, m)
  {
  }

  /** `m` appended windows from window k on, the loop not stopping on any of
      them, request windows k .. k + m - 1 and append their rows. */
  lemma {:induction false} LoopAccepts(total: int, pages: seq<Fetched<TbisMasterStation>>, k: int,
                                       collected: seq<SeoulBusStation>, m: nat)
    requires m <= |pages| && forall j :: 0 <= j < m ==> WindowSucceeds(pages[j])
    requires m == 0 || Window(k + m - 1).1 <= total
    ensures Loop(total, pages, Window(k).0, Window(k).1, collected)
         == Prepend(WindowRequests(k, m),
                    Loop(total, pages[m..], Window(k + m).0, Window(k + m).1, collected + RowsOf(pages[..m])))
  {
    if m > 0 {
      var rows := pages[0].response.Row;
      assert WindowSucceeds(pages[0]);
      LoopStep(total, pages, k, collected);
      assert forall j :: 0 <= j < m - 1 ==> WindowSucceeds(pages[1..][j]);
      LoopAccepts(total, pages[1..], k + 1, collected + rows, m - 1);
      AcceptedRows(pages, m, collected);
      var last := Loop(total, pages[m..], Window(k + m).0, Window(k + m).1, collected + RowsOf(pages[..m]));
      WindowRequestsCons(k, m);
      PrependTwice([Window(k)], WindowRequests(k + 1, m - 1), last);
    } else {
      NoWindowAccepted(total, pages, Window(k).0, Window(k).1, collected);
    }
  }

  lemma NoWindowAccepted(total: int, pages: seq<Fetched<TbisMasterStation>>, start: int, end: int,
                         collected: seq<SeoulBusStation>)
    ensures Loop(total, pages, start, end, collected)
         == Prepend([], Loop(total, pages[0..], start, end, collected + RowsOf(pages[..0])))
  {
    assert pages[..0] == [] && pages[0..] == pages;
    assert collected + RowsOf([]) == collected;
    assert [] + Loop(total, pages, start, end, collected).requests
        == Loop(total, pages, start, end, collected).requests;
  }

  /** When no response is an error and every code is the success code, the
      loop requests windows 0 .. WindowCount(N) - 1 after the probe and
      returns their rows in window order. */
  lemma SeoulAllWindowsSucceed(probe: Fetched<TbisMasterStation>, pages: seq<Fetched<TbisMasterStation>>)
    requires !IsErrorResponse(probe)
    requires |pages| >= WindowCount(probe.response.List_total_count)
    requires forall j :: 0 <= j < WindowCount(probe.response.List_total_count) ==> WindowSucceeds(pages[j])
    ensures var w := WindowCount(probe.response.List_total_count);
      var r := Collect(probe, pages);
      && r.outcome == Done(RowsOf(pages[..w]))
      && r.requests == [(1, 1)] + WindowRequests(0, w)
  {
    var total := probe.response.List_total_count;
    var w := WindowCount(total);
    LoopAccepts(total, pages, 0, [], w - 1);
    var rest := pages[w - 1..];
    var before := RowsOf(pages[..w - 1]);
    assert WindowSucceeds(rest[0]);
    assert Window(0) == (1, WindowSize);
    var last := Loop(total, rest, Window(w - 1).0, Window(w - 1).1, before);
    assert last == Prepend([Window(w - 1)], Run(Done(before + rest[0].response.Row), []));
    assert pages[..w] == pages[..w - 1] + [rest[0]];
    RowsOfAppend(pages[..w - 1], [rest[0]]);
    assert RowsOf([rest[0]]) == rest[0].response.Row + RowsOf([]);
    assert WindowRequests(0, w - 1) + [Window(w - 1)] == WindowRequests(0, w);
  }

  /** An error response in window f, after f appended windows, ends the run
      with the rows of those f windows and the error: unlike the provincial
      loop, the rows gathered so far are returned. */
  lemma SeoulFailureKeepsRows(probe: Fetched<TbisMasterStation>, pages: seq<Fetched<TbisMasterStation>>, f: nat)
    requires !IsErrorResponse(probe)
    requires f < |pages| && f < WindowCount(probe.response.List_total_count)
    requires forall j :: 0 <= j < f ==> WindowSucceeds(pages[j])
    requires IsErrorResponse(pages[f])
    ensures Collect(probe, pages).outcome == Failed(RowsOf(pages[..f]), pages[f].apiError.value)
  {
    var total := probe.response.List_total_count;
    assert Window(0) == (1, WindowSize);
    LoopAccepts(total, pages, 0, [], f);
  }

  /** An error response to the probe ends the run right after the probe
      request, with no rows. */
  lemma SeoulProbeErrorFails(probe: Fetched<TbisMasterStation>, pages: seq<Fetched<TbisMasterStation>>)
    ensures IsErrorResponse(probe) ==>
      Collect(probe, pages) == Run(Failed([], probe.apiError.value), [(1, 1)])
  {
  }

  /** A response with another code but no error is skipped: the same window
      is requested again and the indices do not advance. */
  lemma SoftFailureRetries(total: int, pages: seq<Fetched<TbisMasterStation>>, start: int, end: int,
                           collected: seq<SeoulBusStation>)
    requires |pages| > 0 && IsSoftFailure(pages[0])
    ensures Loop(total, pages, start, end, collected)
         == Prepend([(start, end)], Loop(total, pages[1..], start, end, collected))
  {
  }

  /** A skipped response (no error, another code) inserted anywhere in the
      responses changes nothing about how the run ends: the loop asks for the
      same window again. */
  lemma {:induction false} SoftFailureIgnored(total: int, pages: seq<Fetched<TbisMasterStation>>, k: nat,
                                              soft: Fetched<TbisMasterStation>,
                                              start: int, end: int, collected: seq<SeoulBusStation>)
    requires k <= |pages| && IsSoftFailure(soft)
    ensures Loop(total, pages[..k] + [soft] + pages[k..], start, end, collected).outcome
         == Loop(total, pages, start, end, collected).outcome
    decreases k
  {
    var inserted := pages[..k] + [soft] + pages[k..];
    if k == 0 {
      assert inserted[1..] == pages;
    } else {
      assert inserted[0] == pages[0];
      assert inserted[1..] == pages[1..][..k - 1] + [soft] + pages[1..][k - 1..];
      var page := pages[0];
      if !IsErrorResponse(page) {
        if page.response.Result.code != SuccessCode {
          SoftFailureIgnored(total, pages[1..], k - 1, soft, start, end, collected);
        } else if end <= total {
          SoftFailureIgnored(total, pages[1..], k - 1, soft, start + WindowSize, end + WindowSize,
                             collected + page.response.Row);
        }
      }
    }
  }

  /** An error response yields the rows of the windows appended before it. */
  lemma {:induction false} LoopFailureKeepsCollected(total: int, pages: seq<Fetched<TbisMasterStation>>,
                                                     start: int, end: int, collected: seq<SeoulBusStation>)
    ensures Loop(total, pages, start, end, collected).outcome.Failed? ==>
      collected <= Loop(total, pages, start, end, collected).outcome.rows
    decreases |pages|
  {
    if pages != [] && !IsErrorResponse(pages[0]) {
      var page := pages[0];
      if page.response.Result.code != SuccessCode {
        LoopFailureKeepsCollected(total, pages[1..], start, end, collected);
      } else if end <= total {
        var next := collected + page.response.Row;
        LoopFailureKeepsCollected(total, pages[1..], start + WindowSize, end + WindowSize, next);
        assert collected <= next;
      }
    }
  }
}
