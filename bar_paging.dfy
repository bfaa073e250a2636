/** The paged daily-chart download of kiwoom_filter_stock.py and test.py.
    Both scripts keep the rows received so far in `stock_data`, append each
    response's rows in the order received, ask for the next page while
    fewer than 60 rows are held and the broker's prev_next flag is "2", and
    otherwise raise `data_received`, which ends get_stock_data's wait. The
    broker itself is outside the model: a response is the list of its rows
    and its prev_next flag, and the broker's responses to one download are
    given as a sequence. */
module BarPaging {
  import opened Basics
  import opened Bars
  import Text

  /** The request name both scripts use for the daily-chart request. */
  const DailyChartRequest: string := "주식일봉차트조회"

  /** Rows after which no further page is requested. */
  const RowTarget: nat := 60

  /** One row of a response: the date text and the close and volume fields
      as integers; the broker signs the close by the day's direction. */
  datatype PageRow = PageRow(date: string, close: int, volume: int)

  /** One response: its rows (GetRepeatCnt of them) and its prev_next flag. */
  datatype Page = Page(rows: seq<PageRow>, prevNext: string)

  /** The stored row: the stripped date, the absolute close, the volume. */
  function ToBar(r: PageRow): (b: Bar)
    ensures b.close >= 0 && (b.close == r.close || b.close == -r.close)
    ensures b.volume == r.volume && b.date == Text.Strip(r.date)
  {
    Bar(Text.Strip(r.date), Abs(r.close), r.volume)
  }

  function ToBars(rows: seq<PageRow>): (bars: seq<Bar>)
    ensures |bars| == |rows| && forall i :: 0 <= i < |rows| ==> bars[i] == ToBar(rows[i])
  {
    seq(|rows|, i requires 0 <= i < |rows| => ToBar(rows[i]))
  }

  /** Whether the handler asks for another page once `total` rows are held. */
  predicate WantsMore(total: int, prevNext: string)
  {
    total < RowTarget && prevNext == "2"
  }

  /** Every row of a run of responses, in the order received. */
  function AllRows(pages: seq<Page>): seq<Bar>
  {
    if pages == [] then [] else ToBars(pages[0].rows) + AllRows(pages[1..])
  }

  /** The rows held once the handler stops asking for pages, starting from
      `held`; None when the responses run out while it is still asking
      (get_stock_data would go on waiting). */
  function Gather(held: seq<Bar>, pages: seq<Page>): Option<seq<Bar>>
    decreases |pages|
  {
    if pages == [] then None
    else
      var now := held + ToBars(pages[0].rows);
      if WantsMore(|now|, pages[0].prevNext) then Gather(now, pages[1..]) else Some(now)
  }

  /** When a download completes it has used the first k responses: every
      row of those, in order; every response but the last had prev_next
      "2" and left fewer than 60 rows held; and the last either brought the
      total to 60 or more or had a different flag. There is no truncation,
      so the total can exceed 60 by up to one page. */
  lemma {:induction false} GatherStops(held: seq<Bar>, pages: seq<Page>) returns (k: nat)
    requires Gather(held, pages).Some?
    ensures 1 <= k <= |pages|
    ensures Gather(held, pages).value == held + AllRows(pages[..k])
    ensures forall j :: 0 <= j < k - 1 ==> pages[j].prevNext == "2"
    ensures |held + AllRows(pages[..k - 1])| < RowTarget || k == 1
    ensures !WantsMore(|Gather(held, pages).value|, pages[k - 1].prevNext)
    decreases |pages|
  {
    var now := held + ToBars(pages[0].rows);
    AllRowsPrefix(pages, 1);
    assert AllRows(pages[1..][..0]) == [];
    if WantsMore(|now|, pages[0].prevNext) {
      assert Gather(held, pages) == Gather(now, pages[1..]);
      var k' := GatherStops(now, pages[1..]);
      k := k' + 1;
      var first := ToBars(pages[0].rows);
      AllRowsPrefix(pages, k);
      AllRowsPrefix(pages, k - 1);
      ConcatAssoc(held, first, AllRows(pages[1..][..k']));
      ConcatAssoc(held, first, AllRows(pages[1..][..k' - 1]));
      forall j | 0 <= j < k - 1 ensures pages[j].prevNext == "2" {
        if j > 0 { assert pages[j] == pages[1..][j - 1]; }
      }
    } else {
      k := 1;
    }
  }

  /** The rows of the first i + 1 responses are those of the first i
      followed by those of response i. */
  lemma {:induction false} AllRowsSnoc(pages: seq<Page>, i: nat)
    requires i < |pages|
    ensures AllRows(pages[..i + 1]) == AllRows(pages[..i]) + ToBars(pages[i].rows)
    decreases i
  {
    if i > 0 {
      AllRowsPrefix(pages, i + 1);
      AllRowsPrefix(pages, i);
      AllRowsSnoc(pages[1..], i - 1);
      ConcatAssoc(ToBars(pages[0].rows), AllRows(pages[1..][..i - 1]), ToBars(pages[i].rows));
    } else {
      assert pages[..1] == [pages[0]] && pages[..0] == [];
      assert AllRows(pages[..1]) == ToBars(pages[0].rows) + AllRows([]);
    }
  }

  /** The rows of the first k responses are the first response's rows
      followed by those of the next k - 1. */
  lemma AllRowsPrefix(pages: seq<Page>, k: nat)
    requires 1 <= k <= |pages|
    ensures AllRows(pages[..k]) == ToBars(pages[0].rows) + AllRows(pages[1..][..k - 1])
  {
    assert pages[..k][0] == pages[0];
    assert pages[..k][1..] == pages[1..][..k - 1];
  }

  /** The object that get_stock_data and on_receive_tr_data share. */
  class BarFetcher {
    var stockData: seq<Bar>
    var dataReceived: bool
    var requestingStock: Option<string>

    constructor ()
      ensures stockData == [] && !dataReceived && requestingStock == None
    {
      stockData := [];
      dataReceived := false;
      requestingStock := None;
    }

    /** get_stock_data's reset before its first request
        (kiwoom_filter_stock.py:41-43, test.py:39-41). */
    method BeginFetch(code: string)
      modifies this
      ensures stockData == [] && !dataReceived && requestingStock == Some(code)
    {
      stockData := [];
      requestingStock := Some(code);
      dataReceived := false;
    }

    /** on_receive_tr_data: append the response's rows, then either ask for
        the next page (the result) or raise data_received. A response to
        another request name is ignored. */
    method OnReceiveTrData(rqname: string, page: Page) returns (requestNext: bool)
      modifies this
      ensures requestingStock == old(requestingStock)
      ensures rqname != DailyChartRequest ==>
                stockData == old(stockData) && dataReceived == old(dataReceived) && !requestNext
      ensures rqname == DailyChartRequest ==>
                && stockData == old(stockData) + ToBars(page.rows)
                && requestNext == WantsMore(|stockData|, page.prevNext)
                && dataReceived == (old(dataReceived) || !requestNext)
    {
      requestNext := false;
      if rqname == DailyChartRequest {
        var i := 0;
        while i < |page.rows|
          invariant 0 <= i <= |page.rows|
          invariant stockData == old(stockData) + ToBars(page.rows[..i])
          invariant dataReceived == old(dataReceived) && requestingStock == old(requestingStock)
        {
          stockData := stockData + [ToBar(page.rows[i])];
          i := i + 1;
          assert ToBars(page.rows[..i]) == ToBars(page.rows[..i - 1]) + [ToBar(page.rows[i - 1])];
        }
        assert page.rows[..i] == page.rows;
        if |stockData| >= RowTarget {
          dataReceived := true;
          return;
        }
        if page.prevNext == "2" {
          requestNext := true;
        } else {
          dataReceived := true;
        }
      }
    }

    /** get_stock_data up to the end of its wait: reset, request, then feed
        the broker's responses to the handler while it asks for more. The
        wait ends (`complete`) only if the handler stops asking before the
        responses run out, and otherwise every row received is held; after
        it, data_received is cleared again. */
    method Download(code: string, pages: seq<Page>) returns (complete: bool)
      modifies this
      ensures requestingStock == Some(code) && !dataReceived
      ensures complete <==> Gather([], pages).Some?
      ensures complete ==> stockData == Gather([], pages).value
      ensures !complete ==> stockData == AllRows(pages)
    {
      BeginFetch(code);
      var i := 0;
      var asking := true;
      while asking && i < |pages|
        invariant 0 <= i <= |pages|
        invariant requestingStock == Some(code)
        invariant asking ==> !dataReceived && Gather([], pages) == Gather(stockData, pages[i..])
        invariant asking ==> stockData == AllRows(pages[..i])
        invariant !asking ==> dataReceived && Gather([], pages) == Some(stockData)
        decreases |pages| - i
      {
        assert pages[i..][1..] == pages[i + 1..];
        AllRowsSnoc(pages, i);
        asking := OnReceiveTrData(DailyChartRequest, pages[i]);
        i := i + 1;
      }
      assert asking ==> pages[..i] == pages;
      complete := dataReceived;
      dataReceived := false;
    }
  }
}
