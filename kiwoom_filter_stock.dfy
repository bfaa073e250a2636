/** kiwoom_filter_stock.py: download up to 60 daily bars per stock into a
    data file, then screen every stock of the stock list for a recent
    golden cross (5-bar mean crossing above the 20-bar mean), a rising
    20-bar mean and a price-tiered volume floor. kiwoom.py carries an
    identical copy of filter_candidates (kiwoom.py:388-436), modelled here
    once. */
module KiwoomFilterStock {
  import opened Basics
  import opened Bars
  import opened Rolling
  import BarPaging

  /** An entry of the candidate file: the code and the latest 20-bar mean. */
  datatype Candidate = Candidate(stockCode: string, price: real)

  /** What the loop body does with one stock's data file: a file with no
      rows has no "date" column, so sort_values("date") raises a KeyError
      that the loop does not catch (NoColumns); otherwise the stock is
      skipped or becomes a candidate at the given price. */
  datatype Verdict = NoColumns | Rejected | Accepted(price: real)

  /** The outcome of a screening pass: the candidates written to the
      candidate file, or the pass ended by an uncaught KeyError. */
  datatype PassOutcome = Written(stocks: seq<Candidate>) | Aborted

  /** The loop body of filter_candidates on one data file. */
  function Screen(bars: seq<Bar>): Verdict
  {
    if bars == [] then NoColumns
    else
      var df := SortByDate(bars);
      ScreenFrame(Closes(df), Volumes(df))
  }

  /** The loop body once the file is read and sorted by date, on its close
      and volume columns. */
  function ScreenFrame(closes: seq<int>, volumes: seq<int>): Verdict
    requires 1 <= |closes| == |volumes|
  {
    var n := |closes|;
    var ma5 := Column(closes, 5);
    var ma20 := Column(closes, 20);
    var volMa5 := Column(volumes, 5);
    if !HasGoldenCross(ma5, ma20, Min(16, n)) then Rejected
    else
      // a cross needs 21 bars, so the index -15 below is in range
      CrossNeedsHistory(closes, Min(16, n));
      if AtMost(ma20[n - 1], ma20[n - 15]) then Rejected
      else if 2000 <= closes[n - 1] < 10000 && Below(volMa5[n - 1], 500000.0) then Rejected
      else if closes[n - 1] >= 10000 && Below(volMa5[n - 1], 100000.0) then Rejected
      else Accepted(ma20[n - 1].value)
  }

  /** The loop body of filter_candidates, with its flag loop. */
  method ScreenStock(bars: seq<Bar>) returns (v: Verdict)
    ensures v == Screen(bars)
  {
    if bars == [] {
      return NoColumns;
    }
    var df := SortByDate(bars);
    var closes := Closes(df);
    var n := |closes|;
    var ma5 := Column(closes, 5);
    var ma20 := Column(closes, 20);
    var volMa5 := Column(Volumes(df), 5);
    var goldenCross := FindGoldenCross(ma5, ma20, Min(16, n));
    if !goldenCross {
      return Rejected;
    }
    CrossNeedsHistory(closes, Min(16, n));
    if AtMost(ma20[n - 1], ma20[n - 15]) {
      return Rejected;
    }
    var lastClose := closes[n - 1];
    var avgVolume5 := volMa5[n - 1];
    if 2000 <= lastClose < 10000 && Below(avgVolume5, 500000.0) {
      return Rejected;
    }
    if lastClose >= 10000 && Below(avgVolume5, 100000.0) {
      return Rejected;
    }
    v := Accepted(ma20[n - 1].value);
  }

  /** An upward crossing on day -i, on integer window sums. */
  predicate CrossAtSums(c: seq<int>, i: int)
  {
    var n := |c|;
    1 <= i && i + 20 <= n
    && 4 * WindowSum(c, n - i - 1, 5) < WindowSum(c, n - i - 1, 20)
    && 4 * WindowSum(c, n - i, 5) > WindowSum(c, n - i, 20)
  }

  /** Acceptance stated without averages or NaN, on the date-sorted bars:
      at least 21 bars; an upward 5/20 crossing on one of the last 15 days
      (strict on both days); the last 20-bar sum above the one 14 bars
      earlier unless that one is undefined (fewer than 34 bars); the volume
      floor of the price tier (nothing below a close of 2000, a 5-bar
      volume sum of 2,500,000 up to 10000, of 500,000 from 10000); and the
      price is the mean of the last 20 closes. */
  predicate AcceptsBySums(bars: seq<Bar>, p: real)
  {
    var df := SortByDate(bars);
    AcceptsFrame(Closes(df), Volumes(df), p)
  }

  /** AcceptsBySums on the close and volume columns. */
  predicate AcceptsFrame(c: seq<int>, v: seq<int>, p: real)
    requires |c| == |v|
  {
    var n := |c|;
    n >= 21
    && (exists i :: 1 <= i <= 15 && CrossAtSums(c, i))
    && (n < 34 || WindowSum(c, n - 1, 20) > WindowSum(c, n - 15, 20))
    && !(2000 <= c[n - 1] < 10000 && WindowSum(v, n - 1, 5) < 2500000)
    && !(c[n - 1] >= 10000 && WindowSum(v, n - 1, 5) < 500000)
    && p * 20.0 == WindowSum(c, n - 1, 20) as real
  }

  lemma GoldenCrossBySums(c: seq<int>)
    requires |c| >= 1
    ensures HasGoldenCross(Column(c, 5), Column(c, 20), Min(16, |c|))
            <==> |c| >= 21 && exists i :: 1 <= i <= 15 && CrossAtSums(c, i)
  {
    var n := |c|;
    if HasGoldenCross(Column(c, 5), Column(c, 20), Min(16, n)) {
      CrossNeedsHistory(c, Min(16, n));
      var i :| 1 <= i < Min(16, n) && CrossUpAt(Column(c, 5), Column(c, 20), i);
      CrossUpAtSums(c, i);
      assert CrossAtSums(c, i);
    }
    if n >= 21 && exists i :: 1 <= i <= 15 && CrossAtSums(c, i) {
      var i :| 1 <= i <= 15 && CrossAtSums(c, i);
      CrossUpAtSums(c, i);
      assert CrossUpAt(Column(c, 5), Column(c, 20), i);
    }
  }

  /** The screen accepts exactly the files that AcceptsBySums describes. */
  lemma ScreenAcceptsIff(bars: seq<Bar>, p: real)
    ensures Screen(bars) == Accepted(p) <==> AcceptsBySums(bars, p)
  {
    if bars != [] {
      var df := SortByDate(bars);
      FrameAcceptsIff(Closes(df), Volumes(df), p);
    }
  }

  /** ScreenAcceptsIff on the sorted columns. */
  lemma FrameAcceptsIff(c: seq<int>, v: seq<int>, p: real)
    requires 1 <= |c| == |v|
    ensures ScreenFrame(c, v) == Accepted(p) <==> AcceptsFrame(c, v, p)
  {
    var n := |c|;
    GoldenCrossBySums(c);
    if n >= 21 {
      var ma20 := Column(c, 20);
      var volMa5 := Column(v, 5);
      assert ma20[n - 1].value * 20.0 == WindowSum(c, n - 1, 20) as real;
      assert volMa5[n - 1].value * 5.0 == WindowSum(v, n - 1, 5) as real;
      if n >= 34 {
        assert ma20[n - 15].value * 20.0 == WindowSum(c, n - 15, 20) as real;
        assert AtMost(ma20[n - 1], ma20[n - 15]) <==> WindowSum(c, n - 1, 20) <= WindowSum(c, n - 15, 20);
      } else {
        assert !AtMost(ma20[n - 1], ma20[n - 15]);
      }
    }
  }

  /** A data file of fewer than 21 bars never yields a candidate. */
  lemma ShortSeriesRejected(bars: seq<Bar>)
    requires |bars| < 21
    ensures !Screen(bars).Accepted?
  {
    if Screen(bars).Accepted? {
      ScreenAcceptsIff(bars, Screen(bars).price);
    }
  }

  /** An accepted stock's price is the mean of its last 20 closes in date
      order, and the latest 20-bar mean was not at or below the one 14 bars
      earlier. */
  lemma AcceptedPrice(bars: seq<Bar>)
    requires Screen(bars).Accepted?
    ensures var c := Closes(SortByDate(bars));
            |c| >= 21 && Screen(bars).price == Sum(c[|c| - 20..]) as real / 20.0
  {
    var df := SortByDate(bars);
    var c := Closes(df);
    var n := |c|;
    AcceptedMean(c, Volumes(df));
    assert c[n - 20..n] == c[n - 20..];
    var total := Sum(c[n - 20..]);
    assert RollingMean(c, 20, n - 1) == Some(total as real / 20.0);
  }

  /** An accepted frame has at least 21 bars and is priced at its last
      20-bar mean. */
  lemma AcceptedMean(c: seq<int>, v: seq<int>)
    requires 1 <= |c| == |v| && ScreenFrame(c, v).Accepted?
    ensures |c| >= 21 && Some(ScreenFrame(c, v).price) == RollingMean(c, 20, |c| - 1)
  {
    var n := |c|;
    var ma20 := Column(c, 20);
    assert HasGoldenCross(Column(c, 5), ma20, Min(16, n));
    CrossNeedsHistory(c, Min(16, n));
    assert ScreenFrame(c, v).price == ma20[n - 1].value;
  }

  /** filter_candidates' loop over (a prefix of) the stock list, with the
      loop body `screen`; data files are a map from code to bars, a missing
      key being a missing file (FileNotFoundError, skipped). */
  function Pass(codes: seq<string>, files: map<string, seq<Bar>>, screen: seq<Bar> -> Verdict): PassOutcome
    decreases |codes|
  {
    if codes == [] then Written([])
    else
      match Pass(codes[..|codes| - 1], files, screen)
      case Aborted => Aborted
      case Written(prev) =>
        var code := codes[|codes| - 1];
        if code !in files then Written(prev)
        else
          match screen(files[code])
          case NoColumns => Aborted
          case Rejected => Written(prev)
          case Accepted(p) => Written(prev + [Candidate(code, p)])
  }

  /** filter_candidates with its own loop body. */
  function FilterSpec(codes: seq<string>, files: map<string, seq<Bar>>): PassOutcome
  {
    Pass(codes, files, Screen)
  }

  /** filter_candidates: screen every code of the stock list in order,
      append the accepted ones, and return what is written to the
      candidate file. */
  method FilterCandidates(stockList: seq<string>, files: map<string, seq<Bar>>)
    returns (outcome: PassOutcome)
    ensures outcome == FilterSpec(stockList, files)
  {
    var filteredCandidates: seq<Candidate> := [];
    var k := 0;
    while k < |stockList|
      invariant 0 <= k <= |stockList|
      invariant Pass(stockList[..k], files, Screen) == Written(filteredCandidates)
    {
      var stockCode := stockList[k];
      assert stockList[..k + 1][..k] == stockList[..k];
      k := k + 1;
      if stockCode !in files {
        continue;
      }
      var verdict := ScreenStock(files[stockCode]);
      match verdict {
        case NoColumns =>
          AbortPersists(stockList, files, Screen, k);
          return Aborted;
        case Rejected =>
          continue;
        case Accepted(price) =>
          filteredCandidates := filteredCandidates + [Candidate(stockCode, price)];
      }
    }
    assert stockList[..k] == stockList;
    outcome := Written(filteredCandidates);
  }

  /** Once a prefix of the stock list has aborted the pass, the whole pass
      is aborted. */
  lemma {:induction false} AbortPersists(codes: seq<string>, files: map<string, seq<Bar>>,
                                         screen: seq<Bar> -> Verdict, k: nat)
    requires k <= |codes| && Pass(codes[..k], files, screen) == Aborted
    ensures Pass(codes, files, screen) == Aborted
    decreases |codes| - k
  {
    if k < |codes| {
      assert codes[..k + 1][..k] == codes[..k];
      AbortPersists(codes, files, screen, k + 1);
    } else {
      assert codes[..k] == codes;
    }
  }

  /** A completed pass lists, in the order of the stock list, only codes
      whose data file exists and passes the loop body, each with its price:
      `pos` gives each candidate's position in the stock list and is
      strictly increasing. */
  lemma {:induction false} PassKeepsListOrder(codes: seq<string>, files: map<string, seq<Bar>>,
                                              screen: seq<Bar> -> Verdict)
    returns (pos: seq<nat>)
    requires Pass(codes, files, screen).Written?
    ensures var out := Pass(codes, files, screen).stocks;
            && |pos| == |out|
            && (forall j :: 0 <= j < |pos| ==> pos[j] < |codes|)
            && (forall j :: 0 < j < |pos| ==> pos[j - 1] < pos[j])
            && (forall j :: 0 <= j < |pos| ==>
                  out[j].stockCode == codes[pos[j]] && codes[pos[j]] in files
                  && screen(files[codes[pos[j]]]) == Accepted(out[j].price))
    decreases |codes|
  {
    if codes == [] {
      pos := [];
      return;
    }
    var m := |codes| - 1;
    var front := codes[..m];
    var pos' := PassKeepsListOrder(front, files, screen);
    var prev := Pass(front, files, screen).stocks;
    var code := codes[m];
    var out := Pass(codes, files, screen).stocks;
    var v := if code in files then screen(files[code]) else Rejected;
    if v.Accepted? {
      assert out == prev + [Candidate(code, v.price)];
      pos := pos' + [m];
    } else {
      assert out == prev;
      pos := pos';
    }
    forall j | 0 <= j < |pos'| ensures codes[pos'[j]] == front[pos'[j]] { }
  }

  /** How many entries of the list have a data file the loop body accepts. */
  function AcceptedCount(codes: seq<string>, files: map<string, seq<Bar>>, screen: seq<Bar> -> Verdict): nat
    decreases |codes|
  {
    if codes == [] then 0
    else
      var code := codes[|codes| - 1];
      AcceptedCount(codes[..|codes| - 1], files, screen)
      + (if code in files && screen(files[code]).Accepted? then 1 else 0)
  }

  /** A completed pass misses no accepted stock: there are as many
      candidates as list entries with an accepted data file, and no listed
      code's data file made the loop body raise. */
  lemma {:induction false} PassComplete(codes: seq<string>, files: map<string, seq<Bar>>,
                                        screen: seq<Bar> -> Verdict)
    requires Pass(codes, files, screen).Written?
    ensures |Pass(codes, files, screen).stocks| == AcceptedCount(codes, files, screen)
    ensures forall k :: 0 <= k < |codes| && codes[k] in files ==> screen(files[codes[k]]) != NoColumns
    decreases |codes|
  {
    if codes != [] {
      var m := |codes| - 1;
      var front := codes[..m];
      PassComplete(front, files, screen);
      forall k | 0 <= k < |codes| && codes[k] in files ensures screen(files[codes[k]]) != NoColumns {
        if k < m {
          assert codes[k] == front[k];
        }
      }
    }
  }

  /** filter_candidates keeps the order of the stock list and lists only
      accepted stocks at their screen price; a completed pass saw no empty
      data file and dropped no accepted stock. */
  lemma FilterKeepsListOrder(codes: seq<string>, files: map<string, seq<Bar>>) returns (pos: seq<nat>)
    requires FilterSpec(codes, files).Written?
    ensures var out := FilterSpec(codes, files).stocks;
            && |pos| == |out|
            && (forall j :: 0 <= j < |pos| ==> pos[j] < |codes|)
            && (forall j :: 0 < j < |pos| ==> pos[j - 1] < pos[j])
            && (forall j :: 0 <= j < |pos| ==>
                  out[j].stockCode == codes[pos[j]] && codes[pos[j]] in files
                  && Screen(files[codes[pos[j]]]) == Accepted(out[j].price))
            && |out| == AcceptedCount(codes, files, Screen)
    ensures forall k :: 0 <= k < |codes| && codes[k] in files ==> files[codes[k]] != []
  {
    pos := PassKeepsListOrder(codes, files, Screen);
    PassComplete(codes, files, Screen);
  }

  /** A stock whose data file is missing is never a candidate and never
      stops the pass. */
  lemma MissingFileSkipped(codes: seq<string>, files: map<string, seq<Bar>>, code: string)
    requires code !in files
    ensures FilterSpec(codes + [code], files) == FilterSpec(codes, files)
  {
    assert (codes + [code])[..|codes|] == codes;
  }

  /** The data file written at the end of get_stock_data: the first 60 rows
      received, and only when at least 60 arrived. */
  function CappedFile(rows: seq<Bar>): (file: Option<seq<Bar>>)
    ensures file.Some? <==> |rows| >= BarPaging.RowTarget
    ensures file.Some? ==> |file.value| == 60 && file.value == rows[..60]
  {
    if |rows| >= 60 then Some(rows[..60]) else None
  }

  /** get_stock_data: download, wait, then save. `None` means the wait has
      not ended (the broker's responses ran out while the handler was still
      asking); `Some(file)` gives the data file written, if any. */
  method GetStockData(k: BarPaging.BarFetcher, stockCode: string, pages: seq<BarPaging.Page>)
    returns (saved: Option<Option<seq<Bar>>>)
    modifies k
    ensures !k.dataReceived && k.requestingStock == Some(stockCode)
    ensures saved.Some? <==> BarPaging.Gather([], pages).Some?
    ensures saved.Some? ==> saved.value == CappedFile(BarPaging.Gather([], pages).value)
    ensures saved.Some? ==> k.stockData == BarPaging.Gather([], pages).value
    ensures saved.None? ==> k.stockData == BarPaging.AllRows(pages)
  {
    var complete := k.Download(stockCode, pages);
    if !complete {
      return None;
    }
    saved := Some(CappedFile(k.stockData));
  }
}
