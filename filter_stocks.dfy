/** filter_stocks.py: the Yahoo Finance screener. The listing's numeric
    codes become ".KS" tickers, the tickers are fetched in batches of 20
    with a growing back-off on rate limits, and each stock of a fetched
    batch is kept when a 5/20 golden cross happened within the last 15
    days and the 20-bar mean rose on the last day; the kept stocks carry
    their latest close. */
module FilterStocks {
  import opened Basics
  import opened Text
  import opened Rolling
  import Bars
  import KiwoomFilterStock

  /** Tickers fetched per download. */
  const BatchSize: nat := 20

  /** Downloads tried before giving up, the default of max_retries. */
  const MaxRetries: nat := 3

  /** A downloaded frame grouped by ticker: each ticker's dated days,
      oldest first. */
  type Frame = map<string, seq<Bars.Bar>>

  /** What one yf.download call does: raise a rate-limit error, return a
      frame, or raise any other error (which nothing catches). */
  datatype DownloadAttempt = RateLimited | Fetched(frame: Frame) | Failed

  /** fetch_multiple_stock_data's result: a frame, None, or an exception. */
  datatype FetchResult = Frame(frame: Frame) | NoData | Raised

  /** A kept stock: its ticker and latest close. */
  datatype Pick = Pick(stockCode: string, price: int)

  /** The result of filter_stocks: the picks written to the output file, or
      an exception that ended the run before anything was written. */
  datatype RunOutcome = Saved(stocks: seq<Pick>) | Aborted

  /** The ticker of a listed code: str(code).zfill(6) + ".KS". */
  function Ticker(code: nat): string
  {
    ZFill(NatToString(code), 6) + ".KS"
  }

  function Pow10(k: nat): nat
  {
    if k == 0 then 1 else 10 * Pow10(k - 1)
  }

  lemma {:induction false} NatToStringLength(n: nat, k: nat)
    requires 1 <= k && n < Pow10(k)
    ensures |NatToString(n)| <= k
  {
    if n >= 10 {
      assert k >= 2;
      assert n / 10 < Pow10(k - 1);
      NatToStringLength(n / 10, k - 1);
    }
  }

  /** A ticker is a digit run followed by ".KS"; the digits spell the code,
      and a code below 1,000,000 is written with exactly six digits. */
  lemma TickerShape(code: nat)
    ensures var t := Ticker(code);
            && |t| >= 9 && t[|t| - 3..] == ".KS"
            && IsDigits(t[..|t| - 3]) && DigitsValue(t[..|t| - 3]) == code
            && (code < 1000000 ==> |t| == 9)
  {
    var digits := NatToString(code);
    var padded := ZFill(digits, 6);
    ZFillDigits(digits, 6);
    NatToStringValue(code);
    var t := Ticker(code);
    assert t[..|t| - 3] == padded && t[|t| - 3..] == ".KS";
    if code < 1000000 {
      assert Pow10(6) == 1000000;
      NatToStringLength(code, 6);
    }
  }

  /** get_korea_stock_list: every listed code as a ticker, in listing
      order; an unreadable listing (None) gives no tickers. */
  function KoreaStockList(listing: Option<seq<nat>>): (tickers: seq<string>)
    ensures listing.None? ==> tickers == []
    ensures listing.Some? ==> (|tickers| == |listing.value|
              && forall k :: 0 <= k < |tickers| ==> tickers[k] == Ticker(listing.value[k]))
  {
    if listing.None? then []
    else seq(|listing.value|, k requires 0 <= k < |listing.value| => Ticker(listing.value[k]))
  }

  /** The batching comprehension [xs[i:i + 20] for i in range(0, len(xs), 20)]. */
  function Batches(xs: seq<string>): (bs: seq<seq<string>>)
    ensures |bs| == (|xs| + BatchSize - 1) / BatchSize
  {
    seq((|xs| + BatchSize - 1) / BatchSize,
        k requires 0 <= k < (|xs| + BatchSize - 1) / BatchSize =>
          xs[BatchSize * k..Min(BatchSize * k + BatchSize, |xs|)])
  }

  function Flatten(bs: seq<seq<string>>): seq<string>
  {
    if bs == [] then [] else bs[0] + Flatten(bs[1..])
  }

  /** Batching a list longer than one batch takes its first 20 entries and
      batches the rest. */
  lemma BatchesStep(xs: seq<string>)
    requires |xs| > BatchSize
    ensures Batches(xs) == [xs[..BatchSize]] + Batches(xs[BatchSize..])
  {
    var bs := Batches(xs);
    var rest := Batches(xs[BatchSize..]);
    assert |bs| == |rest| + 1;
    var ys := xs[BatchSize..];
    forall k | 1 <= k < |bs| ensures bs[k] == rest[k - 1] {
      var lo := BatchSize * (k - 1);
      assert BatchSize * k == lo + BatchSize;
      var hi := Min(lo + BatchSize, |ys|);
      assert Min(BatchSize * k + BatchSize, |xs|) == hi + BatchSize;
      assert bs[k] == xs[lo + BatchSize..hi + BatchSize];
      assert rest[k - 1] == ys[lo..hi];
    }
  }

  /** The batches, concatenated, are the list; every batch is nonempty and
      holds at most 20 tickers, and all but the last hold exactly 20. */
  lemma {:induction false} BatchesPartition(xs: seq<string>)
    ensures Flatten(Batches(xs)) == xs
    ensures forall k :: 0 <= k < |Batches(xs)| ==> 0 < |Batches(xs)[k]| <= BatchSize
    ensures forall k :: 0 <= k < |Batches(xs)| - 1 ==> |Batches(xs)[k]| == BatchSize
    decreases |xs|
  {
    var bs := Batches(xs);
    if |xs| > BatchSize {
      BatchesStep(xs);
      BatchesPartition(xs[BatchSize..]);
      assert xs[..BatchSize] + xs[BatchSize..] == xs;
      assert bs[1..] == Batches(xs[BatchSize..]);
    } else if xs != [] {
      assert |bs| == 1 && bs[0] == xs;
      assert bs[1..] == [];
    } else {
      assert bs == [];
    }
  }

  /** How many leading attempts hit the rate limit, counted from k and
      capped at maxRetries. */
  function LimitedRun(download: (seq<string>, nat) -> DownloadAttempt, codes: seq<string>,
                      maxRetries: nat, k: nat): (r: nat)
    requires k <= maxRetries
    ensures k <= r <= maxRetries
    ensures forall j :: k <= j < r ==> download(codes, j).RateLimited?
    ensures r < maxRetries ==> !download(codes, r).RateLimited?
    decreases maxRetries - k
  {
    if k == maxRetries || !download(codes, k).RateLimited? then k
    else LimitedRun(download, codes, maxRetries, k + 1)
  }

  /** fetch_multiple_stock_data: after the rate-limited attempts, the first
      other attempt decides: an empty frame is None, a frame is returned,
      another error propagates; when every allowed attempt was rate limited
      the result is None. */
  function FetchSpec(download: (seq<string>, nat) -> DownloadAttempt, codes: seq<string>,
                     maxRetries: nat): FetchResult
  {
    var r := LimitedRun(download, codes, maxRetries, 0);
    if r == maxRetries then NoData
    else match download(codes, r)
      case Fetched(f) => if EmptyFrame(f) then NoData else Frame(f)
      case _ => Raised
  }

  /** df.empty: no ticker has a single day. */
  predicate EmptyFrame(f: Frame)
  {
    forall c :: c in f ==> f[c] == []
  }

  /** fetch_multiple_stock_data with its retry counter; `download(codes, k)`
      is what the k-th yf.download call does, and `waits` lists the sleeps
      taken, in seconds. */
  method FetchMultipleStockData(download: (seq<string>, nat) -> DownloadAttempt, stockCodes: seq<string>,
                                maxRetries: nat)
    returns (result: FetchResult, waits: seq<nat>)
    ensures result == FetchSpec(download, stockCodes, maxRetries)
    ensures |waits| == LimitedRun(download, stockCodes, maxRetries, 0) <= maxRetries
    ensures forall k :: 0 <= k < |waits| ==> waits[k] == (k + 1) * 10
  {
    waits := [];
    var retries := 0;
    while retries < maxRetries
      invariant retries <= maxRetries && |waits| == retries
      invariant forall j :: 0 <= j < retries ==> download(stockCodes, j).RateLimited?
      invariant LimitedRun(download, stockCodes, maxRetries, 0) == LimitedRun(download, stockCodes, maxRetries, retries)
      invariant forall k :: 0 <= k < |waits| ==> waits[k] == (k + 1) * 10
    {
      match download(stockCodes, retries) {
        case Fetched(df) =>
          if EmptyFrame(df) {
            return NoData, waits;
          }
          return Frame(df), waits;
        case Failed =>
          return Raised, waits;
        case RateLimited =>
          var waitTime := (retries + 1) * 10;
          waits := waits + [waitTime];
          retries := retries + 1;
      }
    }
    result := NoData;
  }

  /** check_conditions on a frame: a ticker missing from the frame (the
      lookup raises and the handler returns None) or with fewer than 20
      days gives None; otherwise the stock is kept when a golden cross is
      found in the last 15 steps and the last 20-bar mean is above the one
      before, at its latest close. */
  function CheckSpec(df: Frame, stockCode: string): Option<Pick>
  {
    if stockCode !in df || |df[stockCode]| < 20 then None
    else
      var closes := Bars.Closes(df[stockCode]);
      var n := |closes|;
      var ma5 := Column(closes, 5);
      var ma20 := Column(closes, 20);
      if !HasGoldenCross(ma5, ma20, 16) then None
      else if AtMost(ma20[n - 1], ma20[n - 2]) then None
      else Some(Pick(stockCode, closes[n - 1]))
  }

  /** check_conditions with its flag loop. The rolling volume mean the
      source also computes is never read and is not modelled. */
  method CheckConditions(df: Frame, stockCode: string) returns (info: Option<Pick>)
    ensures info == CheckSpec(df, stockCode)
  {
    if stockCode !in df || |df[stockCode]| < 20 {
      return None;
    }
    var closes := Bars.Closes(df[stockCode]);
    var n := |closes|;
    var ma5 := Column(closes, 5);
    var ma20 := Column(closes, 20);
    var goldenCross := FindGoldenCross(ma5, ma20, 16);
    if !goldenCross {
      return None;
    }
    if AtMost(ma20[n - 1], ma20[n - 2]) {
      return None;
    }
    info := Some(Pick(stockCode, closes[n - 1]));
  }

  /** check_conditions stated with integer window sums: at least 21 days;
      an upward 5/20 crossing on one of the last 15 days, strict on both
      days; a latest close above the one 20 days earlier, which is what a
      rising 20-bar mean amounts to; and the price is the latest close. */
  lemma CheckAcceptsIff(df: Frame, stockCode: string, p: Pick)
    ensures CheckSpec(df, stockCode) == Some(p) <==>
              && stockCode in df
              && var c := Bars.Closes(df[stockCode]);
              && |c| >= 21
              && (exists i :: 1 <= i <= 15 && KiwoomFilterStock.CrossAtSums(c, i))
              && c[|c| - 1] > c[|c| - 21]
              && p == Pick(stockCode, c[|c| - 1])
  {
    if stockCode in df && |df[stockCode]| >= 20 {
      var c := Bars.Closes(df[stockCode]);
      var n := |c|;
      assert Min(16, n) == 16;
      KiwoomFilterStock.GoldenCrossBySums(c);
      if n >= 21 {
        var ma20 := Column(c, 20);
        assert ma20[n - 1].value * 20.0 == WindowSum(c, n - 1, 20) as real;
        assert ma20[n - 2].value * 20.0 == WindowSum(c, n - 2, 20) as real;
        assert c[n - 20..n] == c[n - 20..n - 1] + [c[n - 1]];
        assert c[n - 21..n - 1] == [c[n - 21]] + c[n - 20..n - 1];
        SumAppend(c[n - 20..n - 1], [c[n - 1]]);
        SumAppend([c[n - 21]], c[n - 20..n - 1]);
      }
    }
  }

  /** The batch loop's test of one ticker on a fetched frame: a ticker
      missing from the frame is skipped, any other is run through
      check_conditions. */
  function Checker(df: Frame): string -> Option<Pick>
  {
    code => if code in df then CheckSpec(df, code) else None
  }

  /** The stocks of one fetched batch that `check` keeps, in batch order;
      the batch loop uses Checker(df). */
  function BatchPicks(batch: seq<string>, check: string -> Option<Pick>): seq<Pick>
  {
    if batch == [] then []
    else
      var code := batch[|batch| - 1];
      BatchPicks(batch[..|batch| - 1], check)
      + (if check(code).Some? then [check(code).value] else [])
  }

  /** The batch loop of filter_stocks over the first batches: a batch whose
      download gives None is skipped, one whose download raises ends the
      run, and `check(df)` is the test of a ticker on a fetched frame
      (Checker in filter_stocks). */
  function RunSpec(batches: seq<seq<string>>, download: (seq<string>, nat) -> DownloadAttempt,
                   check: Frame -> string -> Option<Pick>): RunOutcome
  {
    if batches == [] then Saved([])
    else
      match RunSpec(batches[..|batches| - 1], download, check)
      case Aborted => Aborted
      case Saved(prev) =>
        var batch := batches[|batches| - 1];
        match FetchSpec(download, batch, MaxRetries)
        case Raised => Aborted
        case NoData => Saved(prev)
        case Frame(df) => Saved(prev + BatchPicks(batch, check(df)))
  }

  /** filter_stocks: batch the ticker list, fetch each batch, and keep the
      stocks that pass check_conditions. */
  method FilterStocksRun(stockList: seq<string>, download: (seq<string>, nat) -> DownloadAttempt)
    returns (outcome: RunOutcome)
    ensures outcome == RunSpec(Batches(stockList), download, Checker)
  {
    var stockBatches := Batches(stockList);
    var filteredStocks: seq<Pick> := [];
    var b := 0;
    while b < |stockBatches|
      invariant 0 <= b <= |stockBatches|
      invariant RunSpec(stockBatches[..b], download, Checker) == Saved(filteredStocks)
    {
      var batch := stockBatches[b];
      assert stockBatches[..b + 1][..b] == stockBatches[..b];
      var df, waits := FetchMultipleStockData(download, batch, MaxRetries);
      if df.Raised? {
        RunAbortPersists(stockBatches, download, Checker, b + 1);
        return Aborted;
      }
      if df.Frame? {
        var k := 0;
        var batchPicks: seq<Pick> := [];
        while k < |batch|
          invariant 0 <= k <= |batch|
          invariant BatchPicks(batch[..k], Checker(df.frame)) == batchPicks
        {
          var stockCode := batch[k];
          assert batch[..k + 1][..k] == batch[..k];
          k := k + 1;
          if stockCode !in df.frame {
            continue;
          }
          var stockInfo := CheckConditions(df.frame, stockCode);
          if stockInfo.Some? {
            batchPicks := batchPicks + [stockInfo.value];
          }
        }
        assert batch[..k] == batch;
        filteredStocks := filteredStocks + batchPicks;
      }
      b := b + 1;
    }
    assert stockBatches[..b] == stockBatches;
    outcome := Saved(filteredStocks);
  }

  /** Once a download has raised, later batches cannot undo it. */
  lemma {:induction false} RunAbortPersists(batches: seq<seq<string>>,
                                            download: (seq<string>, nat) -> DownloadAttempt,
                                            check: Frame -> string -> Option<Pick>, k: nat)
    requires k <= |batches| && RunSpec(batches[..k], download, check) == Aborted
    ensures RunSpec(batches, download, check) == Aborted
    decreases |batches| - k
  {
    if k < |batches| {
      assert batches[..k + 1][..k] == batches[..k];
      RunAbortPersists(batches, download, check, k + 1);
    } else {
      assert batches[..k] == batches;
    }
  }

  /** The picks of a batch are exactly the tickers of that batch that
      check_conditions keeps on the batch's frame, in batch order: `pos`
      gives each pick's position in the batch, strictly increasing, and
      every kept position appears in it. */
  lemma {:induction false} BatchPicksInOrder(batch: seq<string>, check: string -> Option<Pick>)
    returns (pos: seq<nat>)
    ensures |pos| == |BatchPicks(batch, check)|
    ensures forall j :: 0 <= j < |pos| ==>
              pos[j] < |batch| && check(batch[pos[j]]) == Some(BatchPicks(batch, check)[j])
    ensures forall j :: 0 < j < |pos| ==> pos[j - 1] < pos[j]
    ensures forall i :: 0 <= i < |batch| && check(batch[i]).Some? ==> i in pos
  {
    if batch == [] {
      pos := [];
    } else {
      var m := |batch| - 1;
      var init := batch[..m];
      var pos' := BatchPicksInOrder(init, check);
      var prev := BatchPicks(init, check);
      var picks := BatchPicks(batch, check);
      forall i | 0 <= i < m ensures batch[i] == init[i] { }
      if check(batch[m]).Some? {
        pos := pos' + [m];
        assert picks == prev + [check(batch[m]).value];
        forall j | 0 <= j < |pos| ensures pos[j] < |batch| && check(batch[pos[j]]) == Some(picks[j]) {
          if j < |pos'| {
            assert pos[j] == pos'[j] && picks[j] == prev[j];
          }
        }
        forall j | 0 < j < |pos| ensures pos[j - 1] < pos[j] {
          assert pos[j - 1] == pos'[j - 1];
        }
        forall i | 0 <= i < |batch| && check(batch[i]).Some? ensures i in pos {
          if i < m {
            assert i in pos';
          } else {
            assert pos[|pos'|] == i;
          }
        }
      } else {
        pos := pos';
        assert picks == prev;
      }
    }
  }

  /** Ticker i of batch b is kept by the run: the batch's download gives a
      frame and check_conditions keeps the ticker on it. */
  predicate Kept(batches: seq<seq<string>>, download: (seq<string>, nat) -> DownloadAttempt,
              check: Frame -> string -> Option<Pick>, b: nat, i: nat)
  {
    && b < |batches| && i < |batches[b]|
    && FetchSpec(download, batches[b], MaxRetries).Frame?
    && check(FetchSpec(download, batches[b], MaxRetries).frame)(batches[b][i]).Some?
  }

  /** What check_conditions returns for a kept ticker. */
  function KeptPick(batches: seq<seq<string>>, download: (seq<string>, nat) -> DownloadAttempt,
              check: Frame -> string -> Option<Pick>, b: nat, i: nat): Pick
    requires Kept(batches, download, check, b, i)
  {
    check(FetchSpec(download, batches[b], MaxRetries).frame)(batches[b][i]).value
  }

  /** Batch-major order of (batch, position) pairs. */
  predicate Before(p: (nat, nat), q: (nat, nat))
  {
    p.0 < q.0 || (p.0 == q.0 && p.1 < q.1)
  }

  /** The picks a run saves are exactly the kept tickers, batch by batch
      and in batch order within each: `pos` gives each pick's batch and
      position, strictly increasing, and every kept ticker appears in it. */
  lemma {:induction false} RunPicksInOrder(batches: seq<seq<string>>,
                                           download: (seq<string>, nat) -> DownloadAttempt,
                                           check: Frame -> string -> Option<Pick>)
    returns (pos: seq<(nat, nat)>)
    requires RunSpec(batches, download, check).Saved?
    ensures |pos| == |RunSpec(batches, download, check).stocks|
    ensures forall j :: 0 <= j < |pos| ==>
              Kept(batches, download, check, pos[j].0, pos[j].1)
              && RunSpec(batches, download, check).stocks[j] == KeptPick(batches, download, check, pos[j].0, pos[j].1)
    ensures forall j :: 0 < j < |pos| ==> Before(pos[j - 1], pos[j])
    ensures forall b: nat, i: nat :: Kept(batches, download, check, b, i) ==> (b, i) in pos
  {
    if batches == [] {
      pos := [];
    } else {
      var m := |batches| - 1;
      var prefix := batches[..m];
      var pos' := RunPicksInOrder(prefix, download, check);
      var prev := RunSpec(prefix, download, check).stocks;
      KeptPrefix(batches, download, check, m);
      var batch := batches[m];
      var fetched := FetchSpec(download, batch, MaxRetries);
      if fetched.Frame? {
        var df := fetched.frame;
        var q := BatchPicksInOrder(batch, check(df));
        pos := pos' + Tagged(m, q);
        forall j | 0 <= j < |pos'| ensures pos'[j].0 < m {
          assert Kept(prefix, download, check, pos'[j].0, pos'[j].1);
        }
        AppendTagged(pos', m, q);
        var picks := RunSpec(batches, download, check).stocks;
        assert picks == prev + BatchPicks(batch, check(df));
        forall j | 0 <= j < |pos'|
          ensures Kept(batches, download, check, pos[j].0, pos[j].1)
          ensures picks[j] == KeptPick(batches, download, check, pos[j].0, pos[j].1)
        {
          assert picks[j] == prev[j];
        }
        forall k | 0 <= k < |q|
          ensures Kept(batches, download, check, m, q[k])
          ensures picks[|pos'| + k] == KeptPick(batches, download, check, m, q[k])
        {
          assert picks[|pos'| + k] == BatchPicks(batch, check(df))[k];
        }
        forall j | |pos'| <= j < |pos|
          ensures Kept(batches, download, check, pos[j].0, pos[j].1)
          ensures picks[j] == KeptPick(batches, download, check, pos[j].0, pos[j].1)
        {
          assert pos[j] == (m, q[j - |pos'|]);
        }
        forall b: nat, i: nat | Kept(batches, download, check, b, i) ensures (b, i) in pos {
          if b == m {
            assert i in q;
          } else {
            assert (b, i) in pos';
          }
        }
      } else {
        pos := pos';
      }
    }
  }

  /** The positions q of one batch, tagged with its number m. */
  function Tagged(m: nat, q: seq<nat>): (t: seq<(nat, nat)>)
    ensures |t| == |q| && forall k :: 0 <= k < |q| ==> t[k] == (m, q[k])
  {
    seq(|q|, k requires 0 <= k < |q| => (m, q[k]))
  }

  /** Appending the increasing positions of batch m to batch-major
      positions of earlier batches keeps batch-major order, and every
      position of q appears tagged with m. */
  lemma AppendTagged(pos: seq<(nat, nat)>, m: nat, q: seq<nat>)
    requires forall j :: 0 <= j < |pos| ==> pos[j].0 < m
    requires forall j :: 0 < j < |pos| ==> Before(pos[j - 1], pos[j])
    requires forall k :: 0 < k < |q| ==> q[k - 1] < q[k]
    ensures forall j :: 0 <= j < |pos| ==> (pos + Tagged(m, q))[j] == pos[j]
    ensures forall k :: 0 <= k < |q| ==> (pos + Tagged(m, q))[|pos| + k] == (m, q[k])
    ensures forall j :: 0 < j < |pos| + |q| ==> Before((pos + Tagged(m, q))[j - 1], (pos + Tagged(m, q))[j])
    ensures forall i :: i in q ==> (m, i) in pos + Tagged(m, q)
  {
    var all := pos + Tagged(m, q);
    forall j | 0 < j < |all| ensures Before(all[j - 1], all[j]) {
      if j > |pos| {
        assert all[j - 1] == (m, q[j - 1 - |pos|]) && all[j] == (m, q[j - |pos|]);
      }
    }
    forall i | i in q ensures (m, i) in all {
      var k :| 0 <= k < |q| && q[k] == i;
      assert all[|pos| + k] == (m, i);
    }
  }

  /** The kept tickers of the first m batches are those of the whole run
      that lie in them. */
  lemma KeptPrefix(batches: seq<seq<string>>, download: (seq<string>, nat) -> DownloadAttempt,
                   check: Frame -> string -> Option<Pick>, m: nat)
    requires m <= |batches|
    ensures forall b: nat, i: nat :: b < m ==>
              (Kept(batches[..m], download, check, b, i) <==> Kept(batches, download, check, b, i))
    ensures forall b: nat, i: nat :: Kept(batches[..m], download, check, b, i) ==>
              b < m && KeptPick(batches[..m], download, check, b, i) == KeptPick(batches, download, check, b, i)
  {
  }

  /** A pick carries the ticker's latest close, not a moving average. */
  lemma PickPrice(df: Frame, stockCode: string)
    requires CheckSpec(df, stockCode).Some?
    ensures stockCode in df && |df[stockCode]| >= 21
    ensures CheckSpec(df, stockCode).value == Pick(stockCode, df[stockCode][|df[stockCode]| - 1].close)
  {
    CheckAcceptsIff(df, stockCode, CheckSpec(df, stockCode).value);
  }
}
