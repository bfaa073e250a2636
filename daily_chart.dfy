/** The daily-chart check that kiwoom.py and kiwoom_login.py run on each
    broker response: read 30 rows (newest first), put the closes oldest
    first, take numpy 'valid' 5- and 20-bar moving averages and the 30-bar
    mean volume, and record the stock when the latest close is at least
    5000, the mean volume at least 100000, the 5-bar mean two bars back
    exceeds the previous 20-bar mean, the latest 5-bar mean is below the
    latest 20-bar mean, and the 20-bar mean rose on the last bar. */
module DailyChart {
  import opened Basics
  import opened Rolling

  /** Rows the handler reads from every response. */
  const RowCount: nat := 30

  /** One row of a response: the close as the broker signs it, the volume. */
  datatype ChartRow = ChartRow(close: int, volume: int)

  /** The closes and volumes read from a response, newest first. */
  datatype Columns = Columns(prices: seq<int>, volumes: seq<int>)

  /** What the handler computes from 30 rows. */
  datatype Signal = Signal(lastClose: int, lastMa5: real, lastMa20: real, hit: bool)

  /** The 30 absolute closes of a response of at least 30 rows, newest first. */
  function ChartPrices(rows: seq<ChartRow>): seq<int>
    requires |rows| >= RowCount
  {
    seq(RowCount, i requires 0 <= i < RowCount => Abs(rows[i].close))
  }

  /** The 30 volumes of a response of at least 30 rows, newest first. */
  function ChartVolumes(rows: seq<ChartRow>): seq<int>
    requires |rows| >= RowCount
  {
    seq(RowCount, i requires 0 <= i < RowCount => rows[i].volume)
  }

  /** The `for i in range(30)` loop. A row past the end of the response
      reads as "" and int("") raises, so a response of fewer than 30 rows
      ends the handler (None); otherwise exactly 30 absolute closes and 30
      volumes are read, so the handler's `len(prices) < 20` branch is never
      taken. */
  method ReadRows(rows: seq<ChartRow>) returns (r: Option<Columns>)
    ensures r.None? <==> |rows| < RowCount
    ensures r.Some? ==> |r.value.prices| == RowCount && |r.value.volumes| == RowCount
    ensures r.Some? ==> forall i :: 0 <= i < RowCount ==>
              r.value.prices[i] == Abs(rows[i].close) && r.value.volumes[i] == rows[i].volume
    ensures r.Some? ==> r.value == Columns(ChartPrices(rows), ChartVolumes(rows))
  {
    var prices: seq<int> := [];
    var volumes: seq<int> := [];
    var i := 0;
    while i < RowCount
      invariant 0 <= i <= RowCount && i <= |rows|
      invariant |prices| == i && |volumes| == i
      invariant forall j :: 0 <= j < i ==> prices[j] == Abs(rows[j].close) && volumes[j] == rows[j].volume
    {
      if i >= |rows| {
        return None;
      }
      prices := prices + [Abs(rows[i].close)];
      volumes := volumes + [rows[i].volume];
      i := i + 1;
    }
    r := Some(Columns(prices, volumes));
  }

  /** list.reverse(). */
  function Reverse(s: seq<int>): (r: seq<int>)
    ensures |r| == |s| && forall i :: 0 <= i < |s| ==> r[i] == s[|s| - 1 - i]
  {
    seq(|s|, i requires 0 <= i < |s| => s[|s| - 1 - i])
  }

  /** The computation after the read, on the newest-first columns. */
  function Evaluate(prices: seq<int>, volumes: seq<int>): Signal
    requires |prices| == RowCount && |volumes| == RowCount
  {
    var p := Reverse(prices);
    var v := Reverse(volumes);
    var ma5 := Convolve(p, MeanKernel(5));
    var ma20 := Convolve(p, MeanKernel(20));
    var avgVolume30 := Sum(v) as real / 30.0;
    var lastMa5 := ma5[|ma5| - 1];
    var lastMa20 := ma20[|ma20| - 1];
    var prevMa20 := ma20[|ma20| - 2];
    var prevPrevMa5 := ma5[|ma5| - 3];
    var hit := p[|p| - 1] >= 5000 && avgVolume30 >= 100000.0
               && (prevPrevMa5 > prevMa20 && lastMa5 < lastMa20)
               && lastMa20 > prevMa20;
    Signal(p[|p| - 1], lastMa5, lastMa20, hit)
  }

  lemma {:induction false} SumReverse(s: seq<int>)
    ensures Sum(Reverse(s)) == Sum(s)
  {
    if s != [] {
      SumReverse(s[1..]);
      assert Reverse(s) == Reverse(s[1..]) + [s[0]];
      SumAppend(Reverse(s[1..]), [s[0]]);
    }
  }

  /** A window of the reversed list is the reversed mirror window. */
  lemma SumReverseWindow(s: seq<int>, a: int, b: int)
    requires 0 <= a <= b <= |s|
    ensures Sum(Reverse(s)[a..b]) == Sum(s[|s| - b..|s| - a])
  {
    assert Reverse(s)[a..b] == Reverse(s[|s| - b..|s| - a]);
    SumReverse(s[|s| - b..|s| - a]);
  }

  /** The four means the check compares, on the newest-first closes: the
      latest 5- and 20-bar means are those of closes 0..4 and 0..19, the
      previous 20-bar mean that of closes 1..20, and the 5-bar mean two
      bars back that of closes 2..6. */
  lemma ChartMeans(prices: seq<int>)
    requires |prices| == RowCount
    ensures var ma5 := Convolve(Reverse(prices), MeanKernel(5));
            && ma5[25] * 5.0 == Sum(prices[0..5]) as real
            && ma5[23] * 5.0 == Sum(prices[2..7]) as real
    ensures var ma20 := Convolve(Reverse(prices), MeanKernel(20));
            && ma20[10] * 20.0 == Sum(prices[0..20]) as real
            && ma20[9] * 20.0 == Sum(prices[1..21]) as real
  {
    var p := Reverse(prices);
    ConvolveMean(p, 5, 25);
    ConvolveMean(p, 5, 23);
    ConvolveMean(p, 20, 10);
    ConvolveMean(p, 20, 9);
    SumReverseWindow(prices, 25, 30);
    SumReverseWindow(prices, 23, 28);
    SumReverseWindow(prices, 10, 30);
    SumReverseWindow(prices, 9, 29);
  }

  /** Comparing a 5-bar mean with a 20-bar mean is comparing four times
      the 5-bar sum with the 20-bar sum. */
  lemma ScaledCompare(x: real, y: real, a: int, b: int)
    requires x * 5.0 == a as real && y * 20.0 == b as real
    ensures x < y <==> 4 * a < b
    ensures x > y <==> 4 * a > b
  {
    assert x == a as real / 5.0;
    assert y == b as real / 20.0;
  }

  /** The two 20-bar windows differ only in their end closes. */
  lemma ShiftedWindow(prices: seq<int>)
    requires |prices| == RowCount
    ensures Sum(prices[0..20]) - Sum(prices[1..21]) == prices[0] - prices[20]
  {
    assert prices[0..20] == [prices[0]] + prices[1..20];
    assert prices[1..21] == prices[1..20] + [prices[20]];
    SumAppend([prices[0]], prices[1..20]);
    SumAppend(prices[1..20], [prices[20]]);
  }

  /** The check stated on the rows as the broker sends them (newest first)
      with integer sums only: the newest close is at least 5000; the 30
      volumes sum to at least 3,000,000; four times the sum of closes 2..6
      exceeds the sum of closes 1..20; four times the sum of closes 0..4 is
      below the sum of closes 0..19; and the newest close exceeds close 20,
      which is what a rising 20-bar mean amounts to. */
  lemma EvaluateBySums(prices: seq<int>, volumes: seq<int>)
    requires |prices| == RowCount && |volumes| == RowCount
    ensures var s := Evaluate(prices, volumes);
            && s.lastClose == prices[0]
            && s.lastMa5 * 5.0 == Sum(prices[0..5]) as real
            && s.lastMa20 * 20.0 == Sum(prices[0..20]) as real
            && (s.hit <==>
                  && prices[0] >= 5000
                  && Sum(volumes) >= 3000000
                  && 4 * Sum(prices[2..7]) > Sum(prices[1..21])
                  && 4 * Sum(prices[0..5]) < Sum(prices[0..20])
                  && prices[0] > prices[20])
  {
    var p := Reverse(prices);
    var ma5 := Convolve(p, MeanKernel(5));
    var ma20 := Convolve(p, MeanKernel(20));
    ChartMeans(prices);
    ScaledCompare(ma5[23], ma20[9], Sum(prices[2..7]), Sum(prices[1..21]));
    ScaledCompare(ma5[25], ma20[10], Sum(prices[0..5]), Sum(prices[0..20]));
    ShiftedWindow(prices);
    SumReverse(volumes);
  }

  /** Whether a response of at least 30 rows passes the check. */
  predicate IsHit(rows: seq<ChartRow>)
    requires |rows| >= RowCount
  {
    Evaluate(ChartPrices(rows), ChartVolumes(rows)).hit
  }

  /** The first of the first n responses on which `stop` holds, or n. */
  function FirstStop(responses: seq<seq<ChartRow>>, n: nat, stop: seq<ChartRow> -> bool): (j: nat)
    requires n <= |responses|
    ensures j <= n
    ensures forall i :: 0 <= i < j ==> !stop(responses[i])
    ensures j < n ==> stop(responses[j])
  {
    if n == 0 then 0
    else if FirstStop(responses, n - 1, stop) < n - 1 then FirstStop(responses, n - 1, stop)
    else if stop(responses[n - 1]) then n - 1
    else n
  }

  /** The response after a run of non-stopping ones is the first stop. */
  lemma {:induction false} FirstStopAt(responses: seq<seq<ChartRow>>, n: nat, stop: seq<ChartRow> -> bool, k: nat)
    requires k < n <= |responses|
    requires forall j :: 0 <= j < k ==> !stop(responses[j])
    requires stop(responses[k])
    ensures FirstStop(responses, n, stop) == k
  {
    if n - 1 > k {
      FirstStopAt(responses, n - 1, stop, k);
    } else {
      FirstStopNone(responses, n - 1, stop);
    }
  }

  /** With no stop among the first n responses, FirstStop is n. */
  lemma {:induction false} FirstStopNone(responses: seq<seq<ChartRow>>, n: nat, stop: seq<ChartRow> -> bool)
    requires n <= |responses|
    requires forall j :: 0 <= j < n ==> !stop(responses[j])
    ensures FirstStop(responses, n, stop) == n
  {
    if n > 0 {
      FirstStopNone(responses, n - 1, stop);
    }
  }
}
