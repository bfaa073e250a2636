/** test.py: the same paged daily-chart download as
    kiwoom_filter_stock.py, saved differently: every row received is
    written, with no 60-row cut, and only the absence of rows suppresses
    the file. */
module KiwoomTest {
  import opened Basics
  import opened Bars
  import BarPaging

  /** The data file written at the end of get_stock_data. */
  function UncappedFile(rows: seq<Bar>): (file: Option<seq<Bar>>)
    ensures file.Some? <==> rows != []
    ensures file.Some? ==> file.value == rows
  {
    if rows != [] then Some(rows) else None
  }

  /** get_stock_data: download, wait, then save. `None` means the wait has
      not ended; `Some(file)` gives the data file written, if any. */
  method GetStockData(k: BarPaging.BarFetcher, stockCode: string, pages: seq<BarPaging.Page>)
    returns (saved: Option<Option<seq<Bar>>>)
    modifies k
    ensures !k.dataReceived && k.requestingStock == Some(stockCode)
    ensures saved.Some? <==> BarPaging.Gather([], pages).Some?
    ensures saved.Some? ==> saved.value == UncappedFile(BarPaging.Gather([], pages).value)
    ensures saved.Some? ==> k.stockData == BarPaging.Gather([], pages).value
    ensures saved.None? ==> k.stockData == BarPaging.AllRows(pages)
  {
    var complete := k.Download(stockCode, pages);
    if !complete {
      return None;
    }
    saved := Some(UncappedFile(k.stockData));
  }

  /** A completed download is written whole: the file holds every row of
      the responses used, in order; it holds fewer than 60 only when the
      broker stopped offering pages. */
  lemma SavedFileHoldsAllRows(pages: seq<BarPaging.Page>) returns (k: nat)
    requires BarPaging.Gather([], pages).Some?
    ensures 1 <= k <= |pages|
    ensures var rows := BarPaging.AllRows(pages[..k]);
            rows != [] ==> UncappedFile(BarPaging.Gather([], pages).value) == Some(rows)
    ensures |BarPaging.AllRows(pages[..k])| < BarPaging.RowTarget ==> pages[k - 1].prevNext != "2"
  {
    k := BarPaging.GatherStops([], pages);
    assert [] + BarPaging.AllRows(pages[..k]) == BarPaging.AllRows(pages[..k]);
  }

  /** There is no cut at 60: a first page of fewer than 60 rows that offers
      more, followed by a page that overshoots, is saved with every row. */
  lemma Overshoot(first: seq<BarPaging.PageRow>, last: seq<BarPaging.PageRow>, flag: string)
    requires |first| < BarPaging.RowTarget && |first| + |last| > BarPaging.RowTarget
    ensures var pages := [BarPaging.Page(first, "2"), BarPaging.Page(last, flag)];
            && BarPaging.Gather([], pages).Some?
            && UncappedFile(BarPaging.Gather([], pages).value)
               == Some(BarPaging.ToBars(first) + BarPaging.ToBars(last))
            && |BarPaging.Gather([], pages).value| > BarPaging.RowTarget
  {
    var pages := [BarPaging.Page(first, "2"), BarPaging.Page(last, flag)];
    assert pages[1..] == [BarPaging.Page(last, flag)];
    assert [] + BarPaging.ToBars(first) == BarPaging.ToBars(first);
  }
}
