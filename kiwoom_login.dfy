/** kiwoom_login.py: the login window's chart search. A cursor walks the
    fixed list of example codes; for each code a daily-chart request is
    issued, and the reply is run through the 30-row dead-cross check of
    DailyChart, recording the code on a hit and moving on to the next. The
    window also fills its account list from the broker's login info. */
module KiwoomLogin {
  import opened Basics
  import opened DailyChart
  import BarPaging
  import Accounts

  /** One recorded stock: its code, latest close and latest 5- and 20-bar
      means (the line shown in the result box). */
  datatype Hit = Hit(code: string, close: int, ma5: real, ma20: real)

  /** What request_stock_data does next: show the recorded stocks and stop,
      or ask for the daily chart of one code. */
  datatype Request = Report(hits: seq<Hit>) | Fetch(code: string)

  /** How on_receive_tr_data ends: the reply was not a daily chart, the
      handler raised, or it issued the next request. */
  datatype Reply = Ignored | Raised | Next(request: Request)

  /** Where a whole search stands once the responses given run out or it
      stops: reported every code, waiting for a response, or a handler
      raised at `index`. */
  datatype SearchOutcome =
    | Reported(hits: seq<Hit>)
    | Waiting(index: nat, hits: seq<Hit>)
    | Crashed(index: nat, hits: seq<Hit>)

  /** request_stock_data's decision on the cursor. */
  function NextRequest(codes: seq<string>, index: nat, hits: seq<Hit>): (r: Request)
    ensures r.Report? <==> index >= |codes|
    ensures r.Report? ==> r.hits == hits
    ensures r.Fetch? ==> r.code == codes[index]
  {
    if index >= |codes| then Report(hits) else Fetch(codes[index])
  }

  /** A response the handler cannot read: fewer than 30 rows. */
  predicate Short(rows: seq<ChartRow>)
  {
    |rows| < RowCount
  }

  /** The record made for `code` from its response. */
  function HitOf(code: string, rows: seq<ChartRow>): Hit
    requires |rows| >= RowCount
  {
    var s := Evaluate(ChartPrices(rows), ChartVolumes(rows));
    Hit(code, s.lastClose, s.lastMa5, s.lastMa20)
  }

  /** One daily-chart response at cursor `index`: None when the handler
      raises (fewer than 30 rows, or a hit with the cursor past the list),
      otherwise the advanced cursor and the recorded stocks. */
  function ChartStep(codes: seq<string>, index: nat, hits: seq<Hit>, rows: seq<ChartRow>)
    : (r: Option<(nat, seq<Hit>)>)
    ensures r.Some? ==> r.value.0 == index + 1
    ensures r.Some? <==> |rows| >= RowCount && (index < |codes| || !IsHit(rows))
    ensures r.Some? ==> r.value.1 == (if IsHit(rows) then hits + [HitOf(codes[index], rows)] else hits)
  {
    if |rows| < RowCount then None
    else if IsHit(rows) then
      if index < |codes| then Some((index + 1, hits + [HitOf(codes[index], rows)])) else None
    else Some((index + 1, hits))
  }

  /** The stocks recorded from the first n responses, answering codes
      0..n-1: `hit` is the check run on a response (IsHit) and `record` the
      record made on a hit (HitOf). */
  function Hits(codes: seq<string>, responses: seq<seq<ChartRow>>, n: nat,
                hit: seq<ChartRow> --> bool, record: (string, seq<ChartRow>) --> Hit): seq<Hit>
    requires n <= |codes| && n <= |responses|
    requires forall j :: 0 <= j < n ==> hit.requires(responses[j]) && record.requires(codes[j], responses[j])
  {
    if n == 0 then []
    else
      Hits(codes, responses, n - 1, hit, record)
      + (if hit(responses[n - 1]) then [record(codes[n - 1], responses[n - 1])] else [])
  }

  /** A search fed the given responses in order, the k-th answering the
      k-th request: it raises at the first response of fewer than 30 rows;
      otherwise it reports once every code is answered, or waits for the
      next response, having recorded the hits in code order. */
  function SearchSpec(codes: seq<string>, responses: seq<seq<ChartRow>>): SearchOutcome
  {
    var n := Min(|codes|, |responses|);
    var j := FirstStop(responses, n, Short);
    if j < n then Crashed(j, Hits(codes, responses, j, IsHit, HitOf))
    else if |responses| >= |codes| then Reported(Hits(codes, responses, |codes|, IsHit, HitOf))
    else Waiting(|responses|, Hits(codes, responses, |responses|, IsHit, HitOf))
  }

  class ChartSearch {
    var allStockCodes: seq<string>
    var currentStockIndex: nat
    var filteredStocks: seq<Hit>
    var accountItems: seq<string>
    var selectedAccount: string

    /** __init__: the three example codes, an empty result and cursor 0. */
    constructor ()
      ensures allStockCodes == ["005930", "035420", "068270"]
      ensures currentStockIndex == 0 && filteredStocks == []
      ensures accountItems == [] && selectedAccount == ""
    {
      allStockCodes := ["005930", "035420", "068270"];
      currentStockIndex := 0;
      filteredStocks := [];
      accountItems := [];
      selectedAccount := "";
    }

    /** get_account_info: fill the account list and select its first
        entry; when the login info holds no account, leave both alone. */
    method GetAccountInfo(raw: string)
      modifies this
      ensures var accounts := Accounts.AccountList(raw);
              if accounts == [] then accountItems == old(accountItems) && selectedAccount == old(selectedAccount)
              else accountItems == accounts && selectedAccount == accounts[0]
      ensures allStockCodes == old(allStockCodes) && currentStockIndex == old(currentStockIndex)
      ensures filteredStocks == old(filteredStocks)
    {
      var accounts := Accounts.AccountList(raw);
      if accounts != [] {
        accountItems := accounts;
        selectedAccount := accounts[0];
      }
    }

    /** request_stock_data: stop and report at the end of the list,
        otherwise request the code under the cursor. */
    method RequestStockData() returns (req: Request)
      ensures req == NextRequest(allStockCodes, currentStockIndex, filteredStocks)
    {
      if currentStockIndex >= |allStockCodes| {
        return Report(filteredStocks);
      }
      req := Fetch(allStockCodes[currentStockIndex]);
    }

    /** start_search: clear the result, rewind the cursor, and request. */
    method StartSearch() returns (req: Request)
      modifies this
      ensures filteredStocks == [] && currentStockIndex == 0
      ensures allStockCodes == old(allStockCodes)
      ensures accountItems == old(accountItems) && selectedAccount == old(selectedAccount)
      ensures req == NextRequest(allStockCodes, 0, [])
    {
      filteredStocks := [];
      currentStockIndex := 0;
      req := RequestStockData();
    }

    /** on_receive_tr_data for a daily-chart reply: read 30 rows, run the
        check, record a hit, advance the cursor by one and request the
        next code. Any other reply only updates the display. */
    method OnReceiveTrData(rqname: string, rows: seq<ChartRow>) returns (reply: Reply)
      modifies this
      ensures allStockCodes == old(allStockCodes)
      ensures accountItems == old(accountItems) && selectedAccount == old(selectedAccount)
      ensures rqname != BarPaging.DailyChartRequest ==>
                reply == Ignored && currentStockIndex == old(currentStockIndex)
                && filteredStocks == old(filteredStocks)
      ensures rqname == BarPaging.DailyChartRequest ==>
                match ChartStep(allStockCodes, old(currentStockIndex), old(filteredStocks), rows)
                case None =>
                  reply == Raised && currentStockIndex == old(currentStockIndex)
                  && filteredStocks == old(filteredStocks)
                case Some(next) =>
                  currentStockIndex == next.0 && filteredStocks == next.1
                  && reply == Next(NextRequest(allStockCodes, next.0, next.1))
    {
      if rqname != BarPaging.DailyChartRequest {
        return Ignored;
      }
      var columns := ReadRows(rows);
      if columns.None? {
        return Raised;
      }
      var signal := Evaluate(columns.value.prices, columns.value.volumes);
      if signal.hit {
        if currentStockIndex >= |allStockCodes| {
          return Raised;
        }
        var stockCode := allStockCodes[currentStockIndex];
        filteredStocks := filteredStocks + [Hit(stockCode, signal.lastClose, signal.lastMa5, signal.lastMa20)];
      }
      currentStockIndex := currentStockIndex + 1;
      var req := RequestStockData();
      reply := Next(req);
    }

    /** Hand the k-th response of a search to the handler: a full one
        advances the cursor and the recorded stocks by one step, a short
        one crashes the handler and leaves both as they were. */
    method Feed(responses: seq<seq<ChartRow>>, k: nat) returns (crashed: bool)
      requires k < |allStockCodes| && k < |responses| && currentStockIndex == k
      requires forall j :: 0 <= j < k ==> |responses[j]| >= RowCount
      requires filteredStocks == Hits(allStockCodes, responses, k, IsHit, HitOf)
      modifies this
      ensures allStockCodes == old(allStockCodes)
      ensures accountItems == old(accountItems) && selectedAccount == old(selectedAccount)
      ensures crashed == Short(responses[k])
      ensures crashed ==> currentStockIndex == k && filteredStocks == old(filteredStocks)
      ensures !crashed ==> currentStockIndex == k + 1
                           && filteredStocks == Hits(allStockCodes, responses, k + 1, IsHit, HitOf)
      ensures !crashed ==> forall j :: 0 <= j <= k ==> |responses[j]| >= RowCount
    {
      if !Short(responses[k]) {
        HitsStep(allStockCodes, responses, k);
      }
      var reply := OnReceiveTrData(BarPaging.DailyChartRequest, responses[k]);
      crashed := reply.Raised?;
    }

    /** A whole search: start it, then hand the responses to the handler
        one by one while requests are outstanding. */
    method Search(responses: seq<seq<ChartRow>>) returns (outcome: SearchOutcome)
      modifies this
      ensures outcome == SearchSpec(allStockCodes, responses)
      ensures allStockCodes == old(allStockCodes)
      ensures filteredStocks == outcome.hits
      ensures outcome.Reported? ==> currentStockIndex == |allStockCodes|
      ensures !outcome.Reported? ==> currentStockIndex == outcome.index
      ensures accountItems == old(accountItems) && selectedAccount == old(selectedAccount)
    {
      var req := StartSearch();
      var k := 0;
      while k < |allStockCodes| && k < |responses|
        invariant allStockCodes == old(allStockCodes)
        invariant accountItems == old(accountItems) && selectedAccount == old(selectedAccount)
        invariant currentStockIndex == k <= |allStockCodes| && k <= |responses|
        invariant forall j :: 0 <= j < k ==> |responses[j]| >= RowCount
        invariant filteredStocks == Hits(allStockCodes, responses, k, IsHit, HitOf)
      {
        var crashed := Feed(responses, k);
        if crashed {
          SearchCrashes(allStockCodes, responses, k);
          return Crashed(k, filteredStocks);
        }
        k := k + 1;
      }
      SearchRunsOut(allStockCodes, responses, k);
      if k >= |allStockCodes| {
        outcome := Reported(filteredStocks);
      } else {
        outcome := Waiting(k, filteredStocks);
      }
    }
  }

  /** A search whose k-th response is the first short one crashes there. */
  lemma SearchCrashes(codes: seq<string>, responses: seq<seq<ChartRow>>, k: nat)
    requires k < |codes| && k < |responses|
    requires forall j :: 0 <= j < k ==> |responses[j]| >= RowCount
    requires Short(responses[k])
    ensures SearchSpec(codes, responses) == Crashed(k, Hits(codes, responses, k, IsHit, HitOf))
  {
    FirstStopAt(responses, Min(|codes|, |responses|), Short, k);
  }

  /** A search whose responses, up to the end of either list, are all full
      reports or waits, with every hit among them recorded. */
  lemma SearchRunsOut(codes: seq<string>, responses: seq<seq<ChartRow>>, k: nat)
    requires k == Min(|codes|, |responses|)
    requires forall j :: 0 <= j < k ==> |responses[j]| >= RowCount
    ensures k >= |codes| ==> SearchSpec(codes, responses) == Reported(Hits(codes, responses, k, IsHit, HitOf))
    ensures k < |codes| ==> SearchSpec(codes, responses) == Waiting(k, Hits(codes, responses, k, IsHit, HitOf))
  {
    FirstStopNone(responses, k, Short);
  }

  /** A full response to a code inside the list is one more step of the
      recorded stocks. */
  lemma HitsStep(codes: seq<string>, responses: seq<seq<ChartRow>>, k: nat)
    requires k < |codes| && k < |responses|
    requires forall j :: 0 <= j <= k ==> |responses[j]| >= RowCount
    ensures ChartStep(codes, k, Hits(codes, responses, k, IsHit, HitOf), responses[k])
            == Some((k + 1, Hits(codes, responses, k + 1, IsHit, HitOf)))
  {
    var prev := Hits(codes, responses, k, IsHit, HitOf);
    var rows := responses[k];
    if IsHit(rows) {
      assert Hits(codes, responses, k + 1, IsHit, HitOf) == prev + [HitOf(codes[k], rows)];
    } else {
      assert Hits(codes, responses, k + 1, IsHit, HitOf) == prev + [] == prev;
    }
  }

  /** The recorded stocks keep the order of the code list and are exactly
      the codes whose response passes the check: `pos` gives each record's
      position in the list, strictly increasing, and every passing position
      appears in it. */
  lemma {:induction false} HitsInCodeOrder(codes: seq<string>, responses: seq<seq<ChartRow>>, n: nat,
                                           hit: seq<ChartRow> --> bool, record: (string, seq<ChartRow>) --> Hit)
    returns (pos: seq<nat>)
    requires n <= |codes| && n <= |responses|
    requires forall j :: 0 <= j < n ==> hit.requires(responses[j]) && record.requires(codes[j], responses[j])
    ensures |pos| == |Hits(codes, responses, n, hit, record)|
    ensures forall j :: 0 <= j < |pos| ==>
              && pos[j] < n
              && Hits(codes, responses, n, hit, record)[j] == record(codes[pos[j]], responses[pos[j]])
              && hit(responses[pos[j]])
    ensures forall j :: 0 < j < |pos| ==> pos[j - 1] < pos[j]
    ensures forall i :: 0 <= i < n && hit(responses[i]) ==> i in pos
  {
    if n == 0 {
      pos := [];
    } else {
      var prev := Hits(codes, responses, n - 1, hit, record);
      var hits := Hits(codes, responses, n, hit, record);
      var pos' := HitsInCodeOrder(codes, responses, n - 1, hit, record);
      if hit(responses[n - 1]) {
        var h := record(codes[n - 1], responses[n - 1]);
        assert hits == prev + [h];
        pos := pos' + [n - 1];
        forall j | 0 <= j < |pos|
          ensures pos[j] < n && hits[j] == record(codes[pos[j]], responses[pos[j]]) && hit(responses[pos[j]])
        {
          if j < |pos'| {
            assert pos[j] == pos'[j] && hits[j] == prev[j];
          } else {
            assert pos[j] == n - 1 && hits[j] == h;
          }
        }
      } else {
        assert hits == prev;
        pos := pos';
      }
    }
  }

  /** Each record carries its code's latest close and means: the close is
      the newest row's absolute close and the 20-bar mean is the mean of the
      newest 20 absolute closes, and the latest 5-bar mean lies below it. */
  lemma HitFields(code: string, rows: seq<ChartRow>)
    requires |rows| >= RowCount && IsHit(rows)
    ensures var h := HitOf(code, rows);
            && h.code == code
            && h.close == Abs(rows[0].close) && h.close >= 5000
            && h.ma20 * 20.0 == Rolling.Sum(ChartPrices(rows)[0..20]) as real
            && h.ma5 < h.ma20
  {
    EvaluateBySums(ChartPrices(rows), ChartVolumes(rows));
  }
}
