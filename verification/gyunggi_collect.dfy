/** The provincial pagination loop (CollectGyunggiBusStations).  The requests
    are an oracle: `probe` is the answer to the size-1 count request and
    `pages[i]` the answer to the i-th request of the loop. */
module GyunggiCollect {
  import opened OpenApi
  import opened GyunggiRecord

  const PageSize: int := 1000

  /** The number of pages the loop requests when every page succeeds and the
      head reports `total` rows: the loop stops once pageIndex * PageSize
      exceeds the total, which happens after page max(1, total div PageSize). */
  function PageCount(total: int): (k: int)
    ensures k >= 1
  {
    if total / PageSize < 1 then 1 else total / PageSize
  }

  /** What the loop reads from a page: its error envelope and its rows, None
      when their extraction panics.  The page's own head is never read. */
  datatype PageView = PageView(apiError: Option<ApiError>, rows: Option<seq<GyunggiBusStation>>)

  function View(page: Fetched<GyunggiResponse>): PageView
  {
    PageView(page.apiError, ExtractRows(page.response))
  }

  function Views(pages: seq<Fetched<GyunggiResponse>>): (views: seq<PageView>)
    ensures |views| == |pages|
    ensures forall j :: 0 <= j < |pages| ==> views[j] == View(pages[j])
  {
    seq(|pages|, j requires 0 <= j < |pages| => View(pages[j]))
  }

  /** A page the loop accepts when the probe's code is the success code. */
  predicate PageSucceeds(view: PageView)
  {
    view.apiError.None? && view.rows.Some?
  }

  /** The rows of the pages, page after page (a page whose rows do not decode
      contributes none). */
  function RowsOf(views: seq<PageView>): seq<GyunggiBusStation>
  {
    if views == [] then []
    else (if views[0].rows.Some? then views[0].rows.value else []) + RowsOf(views[1..])
  }

  /** The specification of the loop from page `pageIndex` on, with `collected`
      rows so far.  `probeHead` is the head the loop checks on every
      iteration: the one extracted again from the count response, not the
      current page's; `total` is the count read from it. */
  function Loop(probeHead: Option<GyunggiHead>, total: int, views: seq<PageView>,
                pageIndex: int, collected: seq<GyunggiBusStation>): Run<GyunggiBusStation>
    decreases |views|
  {
    if views == [] then Run(Exhausted(collected), [])
    else
      var page := views[0];
      var rest :=
        if page.apiError.Some? then Run(Failed([], page.apiError.value), [])
        else if probeHead.None? then Run(Fault, [])
        else if probeHead.value.ResultCode.code != SuccessCode then Loop(probeHead, total, views[1..], pageIndex, collected)
        else if page.rows.None? then Run(Fault, [])
        else if (pageIndex + 1) * PageSize > total then Run(Done(collected + page.rows.value), [])
        else Loop(probeHead, total, views[1..], pageIndex + 1, collected + page.rows.value);
      Prepend([(pageIndex, PageSize)], rest)
  }

  /** The specification of CollectGyunggiBusStations. */
  function Collect(probe: Fetched<GyunggiResponse>, pages: seq<Fetched<GyunggiResponse>>): Run<GyunggiBusStation>
  {
    Prepend([(1, 1)],
      if probe.apiError.Some? then Run(Failed([], probe.apiError.value), [])
      else
        var head := ExtractHead(probe.response);
        if head.None? then Run(Fault, [])
        else Loop(head, head.value.TotalCount, Views(pages), 1, []))
  }

  /** CollectGyunggiBusStations, the requests made through the oracle. */
  method CollectGyunggiBusStations(probe: Fetched<GyunggiResponse>, pages: seq<Fetched<GyunggiResponse>>)
    returns (outcome: Outcome<GyunggiBusStation>, requests: seq<(int, int)>)
    ensures Run(outcome, requests) == Collect(probe, pages)
  {
    requests := [(1, 1)];
    if probe.apiError.Some? {
      return Failed([], probe.apiError.value), requests;
    }
    var headForTotalCount := ExtractHead(probe.response);
    if headForTotalCount.None? {
      return Fault, requests;
    }
    var total := headForTotalCount.value.TotalCount;
    var pageIndex := 1;
    var stations: seq<GyunggiBusStation> := [];
    var i := 0;
    while i < |pages|
      invariant 0 <= i <= |pages|
      invariant Collect(probe, pages) == Prepend(requests, Loop(headForTotalCount, total, Views(pages)[i..], pageIndex, stations))
    {
      assert Views(pages)[i..][1..] == Views(pages)[i + 1..];
      var page := pages[i];
      i := i + 1;
      requests := requests + [(pageIndex, PageSize)];
      if page.apiError.Some? {
        return Failed([], page.apiError.value), requests;
      }
      // The head checked here is the probe's, not the page's.
      var head := ExtractHead(probe.response);
      if head.None? {
        return Fault, requests;
      }
      if head.value.ResultCode.code != SuccessCode {
        continue;
      }
      var rows := ExtractRows(page.response);
      if rows.None? {
        return Fault, requests;
      }
      stations := stations + rows.value;
      pageIndex := pageIndex + 1;
      if pageIndex * PageSize > total {
        return Done(stations), requests;
      }
    }
    return Exhausted(stations), requests;
  }

  /** The requests for `m` full pages from page `first` on. */
  function PageRequests(first: int, m: nat): (requests: seq<(int, int)>)
    ensures |requests| == m
    ensures forall j :: 0 <= j < m ==> requests[j] == (first + j, PageSize)
  {
    seq(m, j requires 0 <= j < m => (first + j, PageSize))
  }

  /** The rows of the first `m` pages are the first page's rows followed by
      those of the next m - 1. */
  lemma RowsOfFirst(views: seq<PageView>, m: nat)
    requires 0 < m <= |views| && views[0].rows.Some?
    ensures RowsOf(views[..m]) == views[0].rows.value + RowsOf(views[1..][..m - 1])
  {
    assert views[..m][1..] == views[1..][..m - 1];
  }

  /** One accepted page that does not stop the loop. */
  lemma LoopStep(head: GyunggiHead, total: int, views: seq<PageView>,
                 pageIndex: int, collected: seq<GyunggiBusStation>)
    requires head.ResultCode.code == SuccessCode
    requires |views| > 0 && PageSucceeds(views[0])
    requires (pageIndex + 1) * PageSize <= total
    ensures Loop(Some(head), total, views, pageIndex, collected)
         == Prepend([(pageIndex, PageSize)],
                    Loop(Some(head), total, views[1..], pageIndex + 1, collected + views[0].rows.value))
  {
  }

  /** Splitting off the first of `m` accepted pages. */
  lemma AcceptedRows(views: seq<PageView>, m: nat, collected: seq<GyunggiBusStation>)
    requires 0 < m <= |views| && views[0].rows.Some?
    ensures views[1..][m - 1..] == views[m..]
    ensures (collected + views[0].rows.value) + RowsOf(views[1..][..m - 1]) == collected + RowsOf(views[..m])
  {
    assert views[..m][1..] == views[1..][..m - 1];
  }

  lemma PageRequestsCons(first: int, m: nat)
    requires m > 0
    ensures [(first, PageSize)] + PageRequests(first + 1, m - 1) == PageRequests(first, m)
  {
  }

  /** `m` accepted pages from page `pageIndex` on, the loop not stopping on any
      of them, request pages pageIndex .. pageIndex + m - 1 and append their rows. */
  lemma {:induction false} LoopAccepts(head: GyunggiHead, total: int, views: seq<PageView>,
                                       pageIndex: int, collected: seq<GyunggiBusStation>, m: nat)
    requires head.ResultCode.code == SuccessCode
    requires m <= |views| && forall j :: 0 <= j < m ==> PageSucceeds(views[j])
    requires m == 0 || (pageIndex + m) * PageSize <= total
    ensures Loop(Some(head), total, views, pageIndex, collected)
         == Prepend(PageRequests(pageIndex, m),
                    Loop(Some(head), total, views[m..], pageIndex + m, collected + RowsOf(views[..m])))
  {
    if m > 0 {
      var rows := views[0].rows.value;
      assert PageSucceeds(views[0]);
      LoopStep(head, total, views, pageIndex, collected);
      assert forall j :: 0 <= j < m - 1 ==> PageSucceeds(views[1..][j]);
      LoopAccepts(head, total, views[1..], pageIndex + 1, collected + rows, m - 1);
      AcceptedRows(views, m, collected);
      var last := Loop(Some(head), total, views[m..], pageIndex + m, collected + RowsOf(views[..m]));
      PageRequestsCons(pageIndex, m);
      PrependTwice([(pageIndex, PageSize)], PageRequests(pageIndex + 1, m - 1), last);
    } else {
      NoPageAccepted(Some(head), total, views, pageIndex, collected);
    }
  }

  lemma NoPageAccepted(probeHead: Option<GyunggiHead>, total: int, views: seq<PageView>,
                       pageIndex: int, collected: seq<GyunggiBusStation>)
    ensures Loop(probeHead, total, views, pageIndex, collected)
         == Prepend(PageRequests(pageIndex, 0), Loop(probeHead, total, views[0..], pageIndex, collected + RowsOf(views[..0])))
  {
    assert views[..0] == [] && views[0..] == views;
    assert collected + RowsOf([]) == collected;
    assert [] + Loop(probeHead, total, views, pageIndex, collected).requests
        == Loop(probeHead, total, views, pageIndex, collected).requests;
  }

  lemma {:induction false} RowsOfAppend(a: seq<PageView>, b: seq<PageView>)
    ensures RowsOf(a + b) == RowsOf(a) + RowsOf(b)
  {
    if a != [] {
      assert (a + b)[1..] == a[1..] + b;
      RowsOfAppend(a[1..], b);
    } else {
      assert a + b == b;
    }
  }

  /** The stop condition holds after page PageCount(total), and not after an
      earlier page. */
  lemma PageCountBounds(total: int)
    ensures (PageCount(total) + 1) * PageSize > total
    ensures PageCount(total) >= 2 ==> PageCount(total) * PageSize <= total
  {
  }

  /** The loop part of GyunggiAllPagesSucceed. */
  lemma LoopAllPagesSucceed(head: GyunggiHead, views: seq<PageView>)
    requires head.ResultCode.code == SuccessCode
    requires |views| >= PageCount(head.TotalCount)
    requires forall j :: 0 <= j < PageCount(head.TotalCount) ==> PageSucceeds(views[j])
    ensures var k := PageCount(head.TotalCount);
      var r := Loop(Some(head), head.TotalCount, views, 1, []);
      && r.outcome == Done(RowsOf(views[..k]))
      && |r.requests| == k
      && forall j :: 0 <= j < k ==> r.requests[j] == (j + 1, PageSize)
  {
    var total := head.TotalCount;
    var k := PageCount(total);
    PageCountBounds(total);
    LoopAccepts(head, total, views, 1, [], k - 1);
    var rest := views[k - 1..];
    var before := RowsOf(views[..k - 1]);
    assert PageSucceeds(rest[0]);
    var last := Loop(Some(head), total, rest, k, before);
    assert last == Prepend([(k, PageSize)], Run(Done(before + rest[0].rows.value), []));
    assert views[..k] == views[..k - 1] + [rest[0]];
    RowsOfAppend(views[..k - 1], [rest[0]]);
    assert RowsOf([rest[0]]) == rest[0].rows.value + RowsOf([]);
  }

  /** When the probe succeeds with total N and every page has no error
      envelope and decodable rows, the loop requests pages
      1 .. max(1, N div 1000) of size 1000 after the size-1 probe, and
      returns the rows of those pages in page order. */
  lemma GyunggiAllPagesSucceed(probe: Fetched<GyunggiResponse>, pages: seq<Fetched<GyunggiResponse>>)
    requires probe.apiError.None? && ExtractHead(probe.response).Some?
    requires ExtractHead(probe.response).value.ResultCode.code == SuccessCode
    requires |pages| >= PageCount(ExtractHead(probe.response).value.TotalCount)
    requires forall j :: 0 <= j < PageCount(ExtractHead(probe.response).value.TotalCount) ==>
      pages[j].apiError.None? && ExtractRows(pages[j].response).Some?
    ensures var k := PageCount(ExtractHead(probe.response).value.TotalCount);
      var r := Collect(probe, pages);
      && r.outcome == Done(RowsOf(Views(pages[..k])))
      && |r.requests| == k + 1
      && r.requests[0] == (1, 1)
      && forall j :: 1 <= j <= k ==> r.requests[j] == (j, PageSize)
  {
    var head := ExtractHead(probe.response).value;
    var views := Views(pages);
    LoopAllPagesSucceed(head, views);
    var k := PageCount(head.TotalCount);
    assert Views(pages[..k]) == views[..k];
  }

  /** The final partial page is never requested: with more than 1000 rows, not
      a multiple of 1000, the requested pages end before the last row. */
  lemma FinalPartialPageSkipped(total: int)
    requires total > PageSize && total % PageSize != 0
    ensures PageCount(total) * PageSize < total
  {
  }

  /** When the probe's code is not the success code, no page is ever appended:
      the loop requests the same page again and again, and ends only on an
      error envelope (with no rows) or when the responses run out. */
  lemma {:induction false} ProbeCodeStalls(head: GyunggiHead, total: int, views: seq<PageView>, pageIndex: int)
    requires head.ResultCode.code != SuccessCode
    ensures var r := Loop(Some(head), total, views, pageIndex, []);
      && (r.outcome == Exhausted([]) || (r.outcome.Failed? && r.outcome.rows == []))
      && (forall j :: 0 <= j < |r.requests| ==> r.requests[j] == (pageIndex, PageSize))
      && ((forall j :: 0 <= j < |views| ==> views[j].apiError.None?) ==>
            r.outcome == Exhausted([]) && |r.requests| == |views|)
    decreases |views|
  {
    if views != [] {
      ProbeCodeStalls(head, total, views[1..], pageIndex);
      if forall j :: 0 <= j < |views| ==> views[j].apiError.None? {
        assert forall j :: 0 <= j < |views[1..]| ==> views[1..][j].apiError.None?;
      }
    }
  }

  /** The same, stated on the whole collection run. */
  lemma GyunggiProbeCodeStalls(probe: Fetched<GyunggiResponse>, pages: seq<Fetched<GyunggiResponse>>)
    requires probe.apiError.None? && ExtractHead(probe.response).Some?
    requires ExtractHead(probe.response).value.ResultCode.code != SuccessCode
    ensures var r := Collect(probe, pages);
      && (r.outcome == Exhausted([]) || (r.outcome.Failed? && r.outcome.rows == []))
      && (forall j :: 1 <= j < |r.requests| ==> r.requests[j] == (1, PageSize))
      && ((forall j :: 0 <= j < |pages| ==> pages[j].apiError.None?) ==>
            r.outcome == Exhausted([]) && |r.requests| == |pages| + 1)
  {
    var head := ExtractHead(probe.response).value;
    ProbeCodeStalls(head, head.TotalCount, Views(pages), 1);
  }

  /** An error envelope met in the loop discards every row collected so far. */
  lemma {:induction false} LoopFailureHasNoRows(probeHead: Option<GyunggiHead>, total: int, views: seq<PageView>,
                                                pageIndex: int, collected: seq<GyunggiBusStation>)
    ensures Loop(probeHead, total, views, pageIndex, collected).outcome.Failed? ==>
      Loop(probeHead, total, views, pageIndex, collected).outcome.rows == []
    decreases |views|
  {
    if views != [] {
      LoopFailureHasNoRows(probeHead, total, views[1..], pageIndex, collected);
      if views[0].rows.Some? {
        LoopFailureHasNoRows(probeHead, total, views[1..], pageIndex + 1, collected + views[0].rows.value);
      }
    }
  }

  /** An error envelope on page f + 1, after f accepted pages, ends the loop
      as Failed with that page's error and none of the rows collected. */
  lemma LoopPageErrorFails(head: GyunggiHead, views: seq<PageView>, f: nat)
    requires head.ResultCode.code == SuccessCode
    requires f < |views| && f < PageCount(head.TotalCount)
    requires forall j :: 0 <= j < f ==> PageSucceeds(views[j])
    requires views[f].apiError.Some?
    ensures var r := Loop(Some(head), head.TotalCount, views, 1, []);
      && r.outcome == Failed([], views[f].apiError.value)
      && r.requests == PageRequests(1, f + 1)
  {
    var total := head.TotalCount;
    PageCountBounds(total);
    LoopAccepts(head, total, views, 1, [], f);
    assert PageRequests(1, f) + [(1 + f, PageSize)] == PageRequests(1, f + 1);
  }

  /** The same on the whole run: after a successful probe, an error envelope
      on a page the loop reaches fails the run, discarding the rows of the
      pages before it. */
  lemma GyunggiPageErrorFails(probe: Fetched<GyunggiResponse>, pages: seq<Fetched<GyunggiResponse>>, f: nat)
    requires probe.apiError.None? && ExtractHead(probe.response).Some?
    requires ExtractHead(probe.response).value.ResultCode.code == SuccessCode
    requires f < |pages| && f < PageCount(ExtractHead(probe.response).value.TotalCount)
    requires forall j :: 0 <= j < f ==> pages[j].apiError.None? && ExtractRows(pages[j].response).Some?
    requires pages[f].apiError.Some?
    ensures Collect(probe, pages).outcome == Failed([], pages[f].apiError.value)
    ensures Collect(probe, pages).requests == [(1, 1)] + PageRequests(1, f + 1)
  {
    LoopPageErrorFails(ExtractHead(probe.response).value, Views(pages), f);
  }

  /** An error envelope, on the probe or on any page, yields no rows at all;
      one on the probe ends the run right after the probe request. */
  lemma GyunggiFailureHasNoRows(probe: Fetched<GyunggiResponse>, pages: seq<Fetched<GyunggiResponse>>)
    ensures Collect(probe, pages).outcome.Failed? ==> Collect(probe, pages).outcome.rows == []
    ensures probe.apiError.Some? ==>
      Collect(probe, pages) == Run(Failed([], probe.apiError.value), [(1, 1)])
  {
    var head := ExtractHead(probe.response);
    if probe.apiError.None? && head.Some? {
      LoopFailureHasNoRows(head, head.value.TotalCount, Views(pages), 1, []);
    }
  }
}
