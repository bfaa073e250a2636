/** kiwoom.py: the trading window. It loads the candidate file written by
    the screening pass, drops the stocks already held in the selected
    account, refreshes each remaining candidate's last price against its
    20-bar mean, fills the account list from the login info, and carries
    a chart-search cursor over the candidates that runs the 30-row check
    of DailyChart on each broker response. */
module KiwoomUI {
  import opened Basics
  import opened Text
  import opened DailyChart
  import opened KiwoomFilterStock
  import Bars
  import BarPaging
  import Accounts

  /** The candidate file as load_candidates_list finds it: absent, or
      present with or without a "stocks" entry. */
  datatype CandidateFile = Missing | Present(stocks: Option<seq<Candidate>>)

  /** A last-price string as update_stock_prices reads it: blank (the row
      is skipped), not an integer once commas are removed (int() raises a
      ValueError), or a price. */
  datatype Quote = Blank | Malformed | Price(value: int)

  /** One table row refreshed: its position, the last price and the
      difference from the stored 20-bar mean. */
  datatype RowUpdate = RowUpdate(row: nat, currentPrice: int, diffAmount: real)

  /** The rows one refresh updates, in table order, and whether it ended
      with a ValueError. */
  datatype PriceRefresh = PriceRefresh(updates: seq<RowUpdate>, raised: bool)

  /** What request_stock_data and start_buy_search do next: nothing when
      no candidate is loaded, show the result when the cursor is past the
      list, or ask for the daily chart of the candidate under the cursor. */
  datatype Request = NoCandidates | Report(found: seq<string>) | Fetch(stock: Candidate)

  /** How on_receive_tr_data ends. */
  datatype Reply = Ignored | Raised | Next(request: Request)

  /** Where a whole chart search stands when the responses run out or it
      stops. */
  datatype SearchOutcome = NothingLoaded | Reported | Waiting(index: nat) | Crashed(index: nat)

  /** The list comprehension of load_candidates_list: the candidates whose
      code is not held, in file order. */
  function ExcludeHeld(all: seq<Candidate>, owned: set<string>): (r: seq<Candidate>)
    ensures |r| <= |all|
  {
    if all == [] then []
    else
      var last := all[|all| - 1];
      ExcludeHeld(all[..|all| - 1], owned) + (if last.stockCode in owned then [] else [last])
  }

  /** Excluding from a concatenation excludes from each part: the filter
      never reorders. */
  lemma {:induction false} ExcludeHeldAppend(a: seq<Candidate>, b: seq<Candidate>, owned: set<string>)
    ensures ExcludeHeld(a + b, owned) == ExcludeHeld(a, owned) + ExcludeHeld(b, owned)
  {
    if b != [] {
      var m := |b| - 1;
      assert (a + b)[..|a + b| - 1] == a + b[..m];
      ExcludeHeldAppend(a, b[..m], owned);
    } else {
      assert a + b == a;
    }
  }

  /** The kept candidates are unheld entries of the file in file order:
      `pos` gives each kept entry's position in the file, strictly
      increasing. */
  lemma {:induction false} ExcludeHeldKeepsOrder(all: seq<Candidate>, owned: set<string>) returns (pos: seq<nat>)
    ensures |pos| == |ExcludeHeld(all, owned)|
    ensures forall j :: 0 <= j < |pos| ==>
              pos[j] < |all| && ExcludeHeld(all, owned)[j] == all[pos[j]] && all[pos[j]].stockCode !in owned
    ensures forall j :: 0 < j < |pos| ==> pos[j - 1] < pos[j]
  {
    if all == [] {
      pos := [];
    } else {
      var m := |all| - 1;
      var front := all[..m];
      var pos' := ExcludeHeldKeepsOrder(front, owned);
      var r' := ExcludeHeld(front, owned);
      if all[m].stockCode in owned {
        assert ExcludeHeld(all, owned) == r';
        pos := pos';
        forall j | 0 <= j < |pos|
          ensures pos[j] < |all| && ExcludeHeld(all, owned)[j] == all[pos[j]] && all[pos[j]].stockCode !in owned
        {
          assert front[pos'[j]] == all[pos'[j]];
        }
      } else {
        var r := r' + [all[m]];
        assert ExcludeHeld(all, owned) == r;
        pos := pos' + [m];
        forall j | 0 <= j < |pos|
          ensures pos[j] < |all| && r[j] == all[pos[j]] && all[pos[j]].stockCode !in owned
        {
          if j < |pos'| {
            assert front[pos'[j]] == all[pos'[j]];
            assert r[j] == r'[j];
          }
        }
      }
    }
  }

  /** A candidate is kept exactly when it is in the file and its code is
      not held. */
  lemma {:induction false} ExcludeHeldMembers(all: seq<Candidate>, owned: set<string>, c: Candidate)
    ensures c in ExcludeHeld(all, owned) <==> c in all && c.stockCode !in owned
  {
    if all != [] {
      var m := |all| - 1;
      var front := all[..m];
      ExcludeHeldMembers(front, owned, c);
      assert all == front + [all[m]];
      assert c in all <==> c in front || c == all[m];
    }
  }

  /** Loading twice against the same holdings changes nothing more. */
  lemma {:induction false} ExcludeHeldIdempotent(all: seq<Candidate>, owned: set<string>)
    ensures ExcludeHeld(ExcludeHeld(all, owned), owned) == ExcludeHeld(all, owned)
  {
    if all != [] {
      var m := |all| - 1;
      ExcludeHeldIdempotent(all[..m], owned);
      var front := ExcludeHeld(all[..m], owned);
      var tail := if all[m].stockCode in owned then [] else [all[m]];
      ExcludeHeldAppend(front, tail, owned);
      if tail != [] {
        assert ExcludeHeld(tail, owned) == ExcludeHeld([], owned) + tail by {
          assert tail[..0] == [];
        }
      }
    }
  }

  /** The codes get_holdings reads: every row's code, stripped. */
  function HeldCodes(rows: seq<string>): set<string>
  {
    set i | 0 <= i < |rows| :: Strip(rows[i])
  }

  /** A last-price string read the way update_stock_prices reads it. */
  function ReadQuote(raw: string): (q: Quote)
    ensures q.Blank? <==> Strip(raw) == ""
    ensures q.Price? <==> Strip(raw) != "" && ParseInt(Remove(Strip(raw), ',')).Some?
    ensures q.Price? ==> ParseInt(Remove(Strip(raw), ',')) == Some(q.value)
  {
    var t := Strip(raw);
    if t == "" then Blank
    else match ParseInt(Remove(t, ','))
      case None => Malformed
      case Some(p) => Price(p)
  }

  /** A run of digits with a comma before every group of three counted
      from the right, as a price is displayed. */
  function Grouped(s: string): (r: string)
    ensures s != [] ==> |r| > 0 && r[0] == s[0] && r[|r| - 1] == s[|s| - 1]
    decreases |s|
  {
    if |s| <= 3 then s else Grouped(s[..|s| - 3]) + "," + s[|s| - 3..]
  }

  /** Dropping the separators gives back the digits. */
  lemma {:induction false} GroupedRemove(s: string)
    requires ',' !in s
    ensures Remove(Grouped(s), ',') == s
    decreases |s|
  {
    if |s| <= 3 {
      CommaFree(s);
    } else {
      var head := s[..|s| - 3];
      var tail := s[|s| - 3..];
      assert s == head + tail;
      assert ',' !in head && ',' !in tail;
      GroupedRemove(head);
      CommaFree(tail);
      var g := Grouped(head);
      var rest := "," + tail;
      assert Grouped(s) == g + rest;
      assert Remove(rest, ',') == Remove(tail, ',') by {
        assert rest[0] == ',' && rest[1..] == tail;
      }
      RemoveAppend(g, rest, ',');
    }
  }

  /** Removing a character that does not occur leaves the text unchanged. */
  lemma {:induction false} CommaFree(s: string)
    ensures ',' !in s ==> Remove(s, ',') == s
  {
    if s != [] && ',' !in s {
      CommaFree(s[1..]);
      assert [s[0]] + s[1..] == s;
    }
  }

  /** A price shown with thousands separators reads back as that price. */
  lemma SeparatedPriceReadsBack(n: nat)
    ensures ReadQuote(Grouped(NatToString(n))) == Price(n)
  {
    var s := NatToString(n);
    var g := Grouped(s);
    assert ',' !in s;
    StripNoSpace(g);
    GroupedRemove(s);
    ParseIntToString(n);
  }

  /** update_stock_prices over the table rows in order, with `read`
      standing for how a quote is read (ReadQuote): a blank quote skips the
      row, a malformed one raises and ends the refresh, and a price updates
      the row with its difference from the stored mean. */
  function PriceSpec(stocks: seq<Candidate>, lastPrice: string -> string, read: string -> Quote): PriceRefresh
  {
    if stocks == [] then PriceRefresh([], false)
    else
      var m := |stocks| - 1;
      var prev := PriceSpec(stocks[..m], lastPrice, read);
      if prev.raised then prev
      else
        match read(lastPrice(stocks[m].stockCode))
        case Blank => prev
        case Malformed => PriceRefresh(prev.updates, true)
        case Price(p) => PriceRefresh(prev.updates + [RowUpdate(m, p, p as real - stocks[m].price)], false)
  }

  /** An update that belongs to its row: the row exists, the price is the
      one read from that row's quote, and the difference is taken from that
      row's stored mean. */
  predicate UpdateFits(stocks: seq<Candidate>, lastPrice: string -> string, read: string -> Quote, u: RowUpdate)
  {
    && u.row < |stocks|
    && read(lastPrice(stocks[u.row].stockCode)) == Price(u.currentPrice)
    && u.diffAmount + stocks[u.row].price == u.currentPrice as real
  }

  /** A refresh updates rows in table order, each with the price read from
      its own quote and the difference from its own stored mean. */
  lemma {:induction false} PriceRowsSound(stocks: seq<Candidate>, lastPrice: string -> string, read: string -> Quote)
    ensures forall j :: 0 <= j < |PriceSpec(stocks, lastPrice, read).updates| ==>
              UpdateFits(stocks, lastPrice, read, PriceSpec(stocks, lastPrice, read).updates[j])
    ensures forall j :: 0 < j < |PriceSpec(stocks, lastPrice, read).updates| ==>
              PriceSpec(stocks, lastPrice, read).updates[j - 1].row < PriceSpec(stocks, lastPrice, read).updates[j].row
  {
    if stocks != [] {
      var m := |stocks| - 1;
      var front := stocks[..m];
      PriceRowsSound(front, lastPrice, read);
      var prev := PriceSpec(front, lastPrice, read);
      var r := PriceSpec(stocks, lastPrice, read);
      forall j | 0 <= j < |prev.updates|
        ensures UpdateFits(stocks, lastPrice, read, prev.updates[j]) && prev.updates[j].row < m
      {
        assert UpdateFits(front, lastPrice, read, prev.updates[j]);
        assert stocks[prev.updates[j].row] == front[prev.updates[j].row];
      }
      if prev.raised {
        assert r == prev;
      } else {
        match read(lastPrice(stocks[m].stockCode)) {
          case Blank =>
            assert r == prev;
          case Malformed =>
            assert r.updates == prev.updates;
          case Price(p) =>
            var u := RowUpdate(m, p, p as real - stocks[m].price);
            assert r.updates == prev.updates + [u];
            assert UpdateFits(stocks, lastPrice, read, u);
        }
      }
    }
  }

  /** A refresh that ends without a ValueError updated every row whose
      quote holds a price. */
  lemma {:induction false} PriceRowsComplete(stocks: seq<Candidate>, lastPrice: string -> string, read: string -> Quote)
    ensures var r := PriceSpec(stocks, lastPrice, read);
            !r.raised ==> forall i :: 0 <= i < |stocks| && read(lastPrice(stocks[i].stockCode)).Price? ==>
                            exists j :: 0 <= j < |r.updates| && r.updates[j].row == i
  {
    if stocks != [] {
      var m := |stocks| - 1;
      PriceRowsComplete(stocks[..m], lastPrice, read);
      var prev := PriceSpec(stocks[..m], lastPrice, read);
      var r := PriceSpec(stocks, lastPrice, read);
      if !r.raised {
        assert !prev.raised;
        assert prev.updates <= r.updates;
        forall i | 0 <= i < |stocks| && read(lastPrice(stocks[i].stockCode)).Price?
          ensures exists j :: 0 <= j < |r.updates| && r.updates[j].row == i
        {
          if i == m {
            assert r.updates[|r.updates| - 1].row == i;
          } else {
            assert stocks[i] == stocks[..m][i];
            var j :| 0 <= j < |prev.updates| && prev.updates[j].row == i;
            assert r.updates[j].row == i;
          }
        }
      }
    }
  }

  /** A refresh that raised stopped at a malformed quote, and no row at or
      after it was updated. */
  lemma {:induction false} PriceRaisedAt(stocks: seq<Candidate>, lastPrice: string -> string, read: string -> Quote) returns (i: nat)
    requires PriceSpec(stocks, lastPrice, read).raised
    ensures i < |stocks| && read(lastPrice(stocks[i].stockCode)).Malformed?
    ensures forall j :: 0 <= j < |PriceSpec(stocks, lastPrice, read).updates| ==>
              PriceSpec(stocks, lastPrice, read).updates[j].row < i
  {
    var m := |stocks| - 1;
    var prev := PriceSpec(stocks[..m], lastPrice, read);
    PriceRowsSound(stocks[..m], lastPrice, read);
    if prev.raised {
      i := PriceRaisedAt(stocks[..m], lastPrice, read);
      assert stocks[i] == stocks[..m][i];
    } else {
      i := m;
    }
  }

  class KiwoomWindow {
    var candidatesStocks: seq<Candidate>
    var ownedStocks: set<string>
    var accountItems: seq<string>
    var selectedAccount: string
    var currentStockIndex: nat
    var filteredStocks: seq<string>

    /** __init__ before the first refresh: nothing loaded or held, and no
        account selected. */
    constructor ()
      ensures candidatesStocks == [] && ownedStocks == {}
      ensures accountItems == [] && selectedAccount == ""
      ensures currentStockIndex == 0 && filteredStocks == []
    {
      candidatesStocks := [];
      ownedStocks := {};
      accountItems := [];
      selectedAccount := "";
      currentStockIndex := 0;
      filteredStocks := [];
    }

    /** get_holdings: with no account selected nothing changes; otherwise
        the held codes are replaced wholesale by the codes read. */
    method GetHoldings(rows: seq<string>)
      modifies this
      ensures selectedAccount == "" ==> ownedStocks == old(ownedStocks)
      ensures selectedAccount != "" ==> ownedStocks == HeldCodes(rows)
      ensures candidatesStocks == old(candidatesStocks)
      ensures accountItems == old(accountItems) && selectedAccount == old(selectedAccount)
      ensures currentStockIndex == old(currentStockIndex) && filteredStocks == old(filteredStocks)
    {
      if selectedAccount == "" {
        return;
      }
      ownedStocks := {};
      var i := 0;
      while i < |rows|
        invariant 0 <= i <= |rows|
        invariant ownedStocks == set j | 0 <= j < i :: Strip(rows[j])
        invariant candidatesStocks == old(candidatesStocks)
        invariant accountItems == old(accountItems) && selectedAccount == old(selectedAccount)
        invariant currentStockIndex == old(currentStockIndex) && filteredStocks == old(filteredStocks)
      {
        assert (set j | 0 <= j < i + 1 :: Strip(rows[j])) == (set j | 0 <= j < i :: Strip(rows[j])) + {Strip(rows[i])};
        ownedStocks := ownedStocks + {Strip(rows[i])};
        i := i + 1;
      }
    }

    /** load_candidates_list: a missing file empties the list; otherwise
        the holdings are read and the file's "stocks" (none when the entry
        is absent) are kept minus the held codes. */
    method LoadCandidatesList(file: CandidateFile, holdingRows: seq<string>)
      modifies this
      ensures file.Missing? ==> candidatesStocks == [] && ownedStocks == old(ownedStocks)
      ensures file.Present? ==>
                && (selectedAccount == "" ==> ownedStocks == old(ownedStocks))
                && (selectedAccount != "" ==> ownedStocks == HeldCodes(holdingRows))
                && candidatesStocks == ExcludeHeld(if file.stocks.Some? then file.stocks.value else [], ownedStocks)
      ensures accountItems == old(accountItems) && selectedAccount == old(selectedAccount)
      ensures currentStockIndex == old(currentStockIndex) && filteredStocks == old(filteredStocks)
    {
      match file {
        case Missing =>
          candidatesStocks := [];
        case Present(stocks) =>
          var allStocks := if stocks.Some? then stocks.value else [];
          GetHoldings(holdingRows);
          candidatesStocks := ExcludeHeld(allStocks, ownedStocks);
      }
    }

    /** refresh_candidate_stocks: run the screening pass, then load what
        it wrote. A pass ended by an exception leaves the window as it was. */
    method RefreshCandidateStocks(stockList: seq<string>, files: map<string, seq<Bars.Bar>>,
                                  holdingRows: seq<string>)
      returns (outcome: PassOutcome)
      modifies this
      ensures outcome == FilterSpec(stockList, files)
      ensures outcome.Aborted? ==> candidatesStocks == old(candidatesStocks) && ownedStocks == old(ownedStocks)
      ensures outcome.Written? ==> candidatesStocks == ExcludeHeld(outcome.stocks, ownedStocks)
      ensures outcome.Written? && selectedAccount != "" ==> ownedStocks == HeldCodes(holdingRows)
      ensures outcome.Written? && selectedAccount == "" ==> ownedStocks == old(ownedStocks)
      ensures accountItems == old(accountItems) && selectedAccount == old(selectedAccount)
      ensures currentStockIndex == old(currentStockIndex) && filteredStocks == old(filteredStocks)
    {
      outcome := FilterCandidates(stockList, files);
      if outcome.Written? {
        LoadCandidatesList(Present(Some(outcome.stocks)), holdingRows);
      }
    }

    /** update_stock_prices over the loaded candidates; `lastPrice` is the
        broker's last-price lookup. */
    method UpdateStockPrices(lastPrice: string -> string) returns (refresh: PriceRefresh)
      ensures refresh == PriceSpec(candidatesStocks, lastPrice, ReadQuote)
    {
      var updates: seq<RowUpdate> := [];
      var row := 0;
      while row < |candidatesStocks|
        invariant 0 <= row <= |candidatesStocks|
        invariant PriceSpec(candidatesStocks[..row], lastPrice, ReadQuote) == PriceRefresh(updates, false)
      {
        var stock := candidatesStocks[row];
        // The quote text stripped, its separators removed, read as an int.
        var quote := ReadQuote(lastPrice(stock.stockCode));
        PriceStep(candidatesStocks, lastPrice, ReadQuote, row, updates);
        if quote.Blank? {
          row := row + 1;
          continue;
        }
        if quote.Malformed? {
          PriceAbortPersists(candidatesStocks, lastPrice, ReadQuote, row + 1);
          return PriceRefresh(updates, true);
        }
        var ma20Price := stock.price;
        var diffAmount := quote.value as real - ma20Price;
        updates := updates + [RowUpdate(row, quote.value, diffAmount)];
        row := row + 1;
      }
      assert candidatesStocks[..row] == candidatesStocks;
      refresh := PriceRefresh(updates, false);
    }

    /** get_account_info: fill the account list and select its first
        entry; when the login info holds no account, leave both alone. */
    method GetAccountInfo(raw: string)
      modifies this
      ensures var accounts := Accounts.AccountList(raw);
              if accounts == [] then accountItems == old(accountItems) && selectedAccount == old(selectedAccount)
              else accountItems == accounts && selectedAccount == accounts[0]
      ensures candidatesStocks == old(candidatesStocks) && ownedStocks == old(ownedStocks)
      ensures currentStockIndex == old(currentStockIndex) && filteredStocks == old(filteredStocks)
    {
      var accounts := Accounts.AccountList(raw);
      if accounts != [] {
        accountItems := accounts;
        selectedAccount := accounts[0];
      }
    }

    /** request_stock_data: show the result past the end of the candidate
        list, otherwise request the candidate under the cursor. */
    method RequestStockData() returns (req: Request)
      ensures req == NextRequest(candidatesStocks, currentStockIndex, filteredStocks)
    {
      if currentStockIndex >= |candidatesStocks| {
        return Report(filteredStocks);
      }
      req := Fetch(candidatesStocks[currentStockIndex]);
    }

    /** start_buy_search: clear the result and rewind the cursor; with no
        candidate loaded stop there, otherwise request. */
    method StartBuySearch() returns (req: Request)
      modifies this
      ensures filteredStocks == [] && currentStockIndex == 0
      ensures candidatesStocks == old(candidatesStocks) && ownedStocks == old(ownedStocks)
      ensures accountItems == old(accountItems) && selectedAccount == old(selectedAccount)
      ensures req == if candidatesStocks == [] then NoCandidates else Fetch(candidatesStocks[0])
    {
      filteredStocks := [];
      currentStockIndex := 0;
      if candidatesStocks == [] {
        return NoCandidates;
      }
      req := RequestStockData();
    }

    /** on_receive_tr_data for a daily-chart reply: fewer than 30 rows
        raise at int(""), and a hit raises too, because the code is looked
        up in a list this window never defines; otherwise the cursor moves
        on by one and the next candidate is requested. */
    method OnReceiveTrData(rqname: string, rows: seq<ChartRow>) returns (reply: Reply)
      modifies this
      ensures candidatesStocks == old(candidatesStocks) && ownedStocks == old(ownedStocks)
      ensures accountItems == old(accountItems) && selectedAccount == old(selectedAccount)
      ensures filteredStocks == old(filteredStocks)
      ensures rqname != BarPaging.DailyChartRequest ==>
                reply == Ignored && currentStockIndex == old(currentStockIndex)
      ensures rqname == BarPaging.DailyChartRequest && Halts(rows) ==>
                reply == Raised && currentStockIndex == old(currentStockIndex)
      ensures rqname == BarPaging.DailyChartRequest && !Halts(rows) ==>
                currentStockIndex == old(currentStockIndex) + 1
                && reply == Next(NextRequest(candidatesStocks, currentStockIndex, filteredStocks))
    {
      if rqname != BarPaging.DailyChartRequest {
        return Ignored;
      }
      var columns := ReadRows(rows);
      if columns.None? {
        return Raised;
      }
      var signal := Evaluate(columns.value.prices, columns.value.volumes);
      if signal.hit {
        return Raised;
      }
      currentStockIndex := currentStockIndex + 1;
      var req := RequestStockData();
      reply := Next(req);
    }

    /** A whole chart search: start it, then hand the responses to the
        handler one by one while requests are outstanding. */
    method Search(responses: seq<seq<ChartRow>>) returns (outcome: SearchOutcome)
      modifies this
      ensures outcome == SearchSpec(candidatesStocks, responses)
      ensures candidatesStocks == old(candidatesStocks)
      ensures filteredStocks == []
      ensures outcome.Waiting? ==> currentStockIndex == outcome.index
      ensures outcome.Crashed? ==> currentStockIndex == outcome.index
      ensures outcome.Reported? ==> currentStockIndex == |candidatesStocks|
      ensures outcome.NothingLoaded? ==> currentStockIndex == 0
      ensures ownedStocks == old(ownedStocks)
      ensures accountItems == old(accountItems) && selectedAccount == old(selectedAccount)
    {
      var req := StartBuySearch();
      if req.NoCandidates? {
        return NothingLoaded;
      }
      var k := 0;
      while k < |candidatesStocks| && k < |responses|
        invariant candidatesStocks == old(candidatesStocks) && filteredStocks == []
        invariant ownedStocks == old(ownedStocks)
        invariant accountItems == old(accountItems) && selectedAccount == old(selectedAccount)
        invariant currentStockIndex == k <= |candidatesStocks| && k <= |responses|
        invariant forall j :: 0 <= j < k ==> !Halts(responses[j])
      {
        var reply := OnReceiveTrData(BarPaging.DailyChartRequest, responses[k]);
        if reply.Raised? {
          FirstStopAt(responses, Min(|candidatesStocks|, |responses|), Halts, k);
          return Crashed(k);
        }
        k := k + 1;
      }
      FirstStopNone(responses, Min(|candidatesStocks|, |responses|), Halts);
      if k >= |candidatesStocks| {
        outcome := Reported;
      } else {
        outcome := Waiting(k);
      }
    }
  }

  /** One more row of a refresh that has not raised, by the row's quote: a
      blank quote leaves the refresh as it was, a malformed one raises, and
      a price adds that row's update. */
  lemma PriceStep(stocks: seq<Candidate>, lastPrice: string -> string, read: string -> Quote,
                  m: nat, updates: seq<RowUpdate>)
    requires m < |stocks| && PriceSpec(stocks[..m], lastPrice, read) == PriceRefresh(updates, false)
    ensures read(lastPrice(stocks[m].stockCode)).Blank? ==>
              PriceSpec(stocks[..m + 1], lastPrice, read) == PriceRefresh(updates, false)
    ensures read(lastPrice(stocks[m].stockCode)).Malformed? ==>
              PriceSpec(stocks[..m + 1], lastPrice, read) == PriceRefresh(updates, true)
    ensures read(lastPrice(stocks[m].stockCode)).Price? ==>
              var p := read(lastPrice(stocks[m].stockCode)).value;
              PriceSpec(stocks[..m + 1], lastPrice, read)
              == PriceRefresh(updates + [RowUpdate(m, p, p as real - stocks[m].price)], false)
  {
    assert stocks[..m + 1][..m] == stocks[..m];
  }

  /** Once a refresh has raised, later rows cannot undo it. */
  lemma {:induction false} PriceAbortPersists(stocks: seq<Candidate>, lastPrice: string -> string, read: string -> Quote, k: nat)
    requires k <= |stocks| && PriceSpec(stocks[..k], lastPrice, read).raised
    ensures PriceSpec(stocks, lastPrice, read) == PriceSpec(stocks[..k], lastPrice, read)
    decreases |stocks| - k
  {
    if k < |stocks| {
      assert stocks[..k + 1][..k] == stocks[..k];
      PriceAbortPersists(stocks, lastPrice, read, k + 1);
    } else {
      assert stocks[..k] == stocks;
    }
  }

  /** request_stock_data's decision on the cursor. */
  function NextRequest(stocks: seq<Candidate>, index: nat, found: seq<string>): (r: Request)
    ensures r.Report? <==> index >= |stocks|
    ensures r.Fetch? ==> r.stock == stocks[index]
  {
    if index >= |stocks| then Report(found) else Fetch(stocks[index])
  }

  /** A response that ends the handler with an exception: too few rows,
      or a hit. */
  predicate Halts(rows: seq<ChartRow>)
  {
    |rows| < RowCount || IsHit(rows)
  }

  /** A search fed the given responses in order: nothing happens without
      candidates; otherwise it raises at the first response that is short
      or a hit, and reports once every candidate is answered without one. */
  function SearchSpec(stocks: seq<Candidate>, responses: seq<seq<ChartRow>>): SearchOutcome
  {
    if stocks == [] then NothingLoaded
    else
      var n := Min(|stocks|, |responses|);
      var j := FirstStop(responses, n, Halts);
      if j < n then Crashed(j)
      else if |responses| >= |stocks| then Reported
      else Waiting(|responses|)
  }

  /** A search reports only when every candidate's response was a full
      chart that did not pass the check, so no stock is ever recorded. */
  lemma ReportedMeansNoHit(stocks: seq<Candidate>, responses: seq<seq<ChartRow>>)
    requires SearchSpec(stocks, responses).Reported?
    ensures |responses| >= |stocks|
    ensures forall j :: 0 <= j < |stocks| ==> |responses[j]| >= RowCount && !IsHit(responses[j])
  {
  }
}
