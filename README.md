# Kiwoom daily-bar stock screening, modelled in Dafny

The repository screens Korean stocks on daily bars. Its core has five parts:

- **kiwoom_filter_stock.py** downloads daily bars per stock from the Kiwoom broker API. The bars arrive as pages with a `prev_next` continuation flag. Every row of every page received is kept, and no further page is requested once 60 or more rows are held, so the download can end with more than 60. A data file is written only when at least 60 rows arrived, and it holds exactly the first 60. `filter_candidates` then keeps a stock when three things hold:
  - a 5/20 golden cross happened within the last 15 bars;
  - the 20-bar mean is above its value 14 bars earlier;
  - a volume floor, tiered by price, is met.

  Each candidate is emitted with its latest 20-bar mean.
- **test.py** runs the same paged download but saves every row it received.
- **kiwoom.py** is the trading window. It has five jobs:
  - load the candidate file without the stocks already held;
  - replace the held-code set from the holdings response;
  - refresh last prices, which arrive as comma-grouped strings, against each candidate's mean;
  - split the broker's `;`-separated account string;
  - run a chart-search cursor that applies a 30-row "dead-cross" check to each broker response.
- **kiwoom_login.py** is the login window. It runs the same 30-row check over a fixed list of codes and records the hits.
- **filter_stocks.py** is a Yahoo Finance variant with four pieces:
  - tickers are formatted as `zfill(6) + ".KS"`;
  - tickers are fetched in batches of 20;
  - rate limits are retried with a growing wait;
  - `check_conditions` is a golden-cross and one-day-rise test that emits the latest close.

Modelling conventions:

- **Data.** Closes and volumes are unbounded integers.
- **Moving averages.** Rolling means are exact reals. A pandas NaN (a window that is not yet full) is `None`, and every comparison with it is false.
- **Integer restatements.** Each screening rule is also proved equivalent to a statement about integer window sums. For example, `ma5 < ma20` holds exactly when 4·sum5 < sum20.
- **Broker inputs.** Broker responses, downloads and file contents are inputs: pages of rows, a function from attempt number to download result, or a map of data files.
- **Errors.** Exceptions the source does not catch are modelled as explicit outcomes such as `Aborted`, `Raised` and `Crashed`.

Modules:

| module | Dafny file | models |
|---|---|---|
| `Basics` | basics.dfy | Option, `abs`, `min`, `max`, and regrouping of concatenation |
| `Text` | text.dfy | Python's `str.strip`, `split`, `replace(",", "")`, `int()`, `str()` and `zfill` |
| `Rolling` | rolling.dfy | pandas rolling means, the golden-cross search loop, numpy's `'valid'` convolution |
| `Bars` | bars.dfy | bar records and `sort_values("date")` |
| `BarPaging` | bar_paging.dfy | the paged download object shared by kiwoom_filter_stock.py and test.py |
| `KiwoomFilterStock` | kiwoom_filter_stock.dfy | kiwoom_filter_stock.py: `filter_candidates`, which is also the copy in kiwoom.py:388-436, and `get_stock_data` |
| `KiwoomTest` | kiwoom_test.dfy | test.py: `get_stock_data`, which saves without a cut |
| `Accounts` | accounts.dfy | the account-string split used by both windows |
| `DailyChart` | daily_chart.dfy | the 30-row dead-cross check used by both windows |
| `KiwoomUI` | kiwoom_ui.dfy | kiwoom.py: the trading window, `KiwoomWindow` |
| `KiwoomLogin` | kiwoom_login.dfy | kiwoom_login.py: the login window, `ChartSearch` |
| `FilterStocks` | filter_stocks.dfy | filter_stocks.py: the Yahoo Finance screener |

## Model

| member | source | states |
|---|---|---|
| Rolling.RollingMean | kiwoom_filter_stock.py:102-104 | The rolling mean at bar i is defined exactly when i ≥ w−1, and then it times w is the sum of the last w values. |
| Rolling.FindGoldenCross | kiwoom_filter_stock.py:107-111 | The flag loop with `break` returns true iff there is an i in [1, bound) where the short mean is strictly below the long one at −i−1 and strictly above it at −i. A NaN on either day never counts. |
| Rolling.CrossUpAtSums | kiwoom_filter_stock.py:109 | A crossing at step i is the same as 4·sum5 < sum20 on day −i−1 and 4·sum5 > sum20 on day −i, with both windows full. |
| Rolling.CrossNeedsHistory | kiwoom_filter_stock.py:102-111 | Any golden cross needs at least 21 bars, because the 20-bar mean is undefined on the first 19. |
| Rolling.ConvolveMean | kiwoom_login.py:258-259 | Entry k of `np.convolve(a, ones(w)/w, 'valid')` is the mean of a[k..k+w−1]. It equals the pandas rolling mean ending at k+w−1, and there are n−w+1 entries. |
| Bars.SortByDate | kiwoom_filter_stock.py:101 | `sort_values("date")` returns a permutation of the bars: the same multiset, the same length. |
| Bars.SortByDateSorted | kiwoom_filter_stock.py:101 | The sorted bars are in lexicographic date order, which is chronological for YYYYMMDD dates. |
| Bars.SortByDateKeepsSorted | kiwoom_filter_stock.py:101 | Bars already in date order are left as they are. |
| Bars.SortByDateIdempotent | kiwoom_filter_stock.py:101 | Sorting again changes nothing. |
| KiwoomFilterStock.Screen | kiwoom_filter_stock.py:101-129 | The loop body on one data file: an empty file has no "date" column (KeyError); otherwise the bars are sorted by date and judged by `ScreenFrame`. |
| KiwoomFilterStock.ScreenFrame | kiwoom_filter_stock.py:102-129 | On the sorted close and volume columns: reject without a golden cross in the last min(16, n) − 1 steps, reject when ma20[−1] ≤ ma20[−15], reject on the tiered 5-bar volume floor, else accept at ma20[−1]. |
| KiwoomFilterStock.ScreenStock | kiwoom_filter_stock.py:101-129 | The loop body on one data file equals `Screen`: an empty file raises KeyError, otherwise the file is rejected or accepted at a price. |
| KiwoomFilterStock.GoldenCrossBySums | kiwoom_filter_stock.py:106-111 | A cross with lookback min(16, n) exists iff n ≥ 21 and some i in 1..15 has 4·sum5 < sum20 on day −i−1 and 4·sum5 > sum20 on day −i. |
| KiwoomFilterStock.ScreenAcceptsIff | kiwoom_filter_stock.py:101-129 | A stock is accepted at price p iff all of these hold: n ≥ 21; a strict upward cross within 15 bars; sum20 above the sum20 of 14 bars earlier, or fewer than 34 bars so that this test is NaN and passes; the tiered volume floor (5-bar sum ≥ 2,500,000 for 2000 ≤ close < 10000, ≥ 500,000 from 10000, nothing below 2000); and p·20 equal to the last 20-bar sum. |
| KiwoomFilterStock.ShortSeriesRejected | kiwoom_filter_stock.py:102-111 | Fewer than 21 bars never yields a candidate. |
| KiwoomFilterStock.AcceptedPrice | kiwoom_filter_stock.py:129 | An accepted price is the mean of the last 20 closes after sorting by date. |
| KiwoomFilterStock.FilterCandidates | kiwoom_filter_stock.py:92-136 | The append loop with `continue` produces exactly `FilterSpec`: missing files are skipped, an empty file aborts the pass, and accepted stocks are appended in list order. |
| KiwoomFilterStock.AbortPersists | kiwoom_filter_stock.py:97-132 | Once an uncaught KeyError ends the pass, later codes cannot bring it back. |
| KiwoomFilterStock.PassKeepsListOrder | kiwoom_filter_stock.py:96-132 | For any loop body, written candidates come at strictly increasing positions of the stock list, and each has a data file that the body accepts at that price. |
| KiwoomFilterStock.PassComplete | kiwoom_filter_stock.py:96-132 | A completed pass writes exactly as many candidates as there are accepted files, and none of its files was empty. |
| KiwoomFilterStock.FilterKeepsListOrder | kiwoom.py:388-436 | filter_candidates, including the identical kiwoom.py copy, keeps stock-list order, lists only accepted stocks at their screen price, drops none, and completes only when no listed file is empty. |
| KiwoomFilterStock.MissingFileSkipped | kiwoom_filter_stock.py:131-132 | A code with no data file leaves the outcome unchanged and raises nothing. |
| KiwoomFilterStock.CappedFile | kiwoom_filter_stock.py:59-62 | A file is written iff at least 60 rows arrived, and it holds exactly the first 60. |
| KiwoomFilterStock.GetStockData | kiwoom_filter_stock.py:37-62 | After the wait, `data_received` is false again, the rows held are the `Gather` result (or every row of the pages given, when they run out first), and the saved file is `CappedFile` of the gathered rows. |
| BarPaging.ToBar | kiwoom_filter_stock.py:71-75 | A stored row has the stripped date, the absolute close and the volume. |
| BarPaging.BarFetcher.constructor | kiwoom_filter_stock.py:17-20 | A new fetcher has no rows, is not done, and has no requested stock. |
| BarPaging.BarFetcher.BeginFetch | test.py:39-41 | A fetch starts with `stock_data` empty and `data_received` false. |
| BarPaging.BarFetcher.OnReceiveTrData | kiwoom_filter_stock.py:64-84 | Another request name changes nothing. Otherwise the rows are appended in order and another page is requested iff fewer than 60 rows are held and `prev_next == "2"`. When no further page is requested, `data_received` becomes true. |
| BarPaging.BarFetcher.Download | kiwoom_filter_stock.py:52-56 | The wait ends iff the pages given complete the download, and then the rows held are the `Gather` result. Otherwise they are every row of every page given, in order. |
| BarPaging.Gather | kiwoom_filter_stock.py:52-84 | The rows held when the handler stops asking: each page's rows are appended, and another page is wanted iff fewer than 60 rows are held and `prev_next == "2"`. None when the pages run out first. |
| BarPaging.GatherStops | test.py:79-85 | A completed download used the first k pages and every earlier page offered more. The total before the last page was below 60, unless only one page was used, and after the last page no more is wanted. |
| KiwoomTest.UncappedFile | test.py:57-61 | A file is written iff any row arrived, and it holds all of them. |
| KiwoomTest.GetStockData | test.py:35-61 | After the wait, `data_received` is false again, the rows held are the `Gather` result (or every row of the pages given, when they run out first), and the saved file is `UncappedFile` of the gathered rows. |
| KiwoomTest.SavedFileHoldsAllRows | test.py:57-85 | The file holds every row of the pages used, in order. It holds fewer than 60 only when the broker stopped offering pages. |
| KiwoomTest.Overshoot | test.py:80-85 | With no cut, a short first page that offers more, followed by a large page, is saved with more than 60 rows. |
| Text.Strip | kiwoom_login.py:241 | The result of `str.strip` is no longer than the text and neither starts nor ends with whitespace. |
| Text.StripTrims | kiwoom_login.py:241 | The stripped text is the slice of the original between the leading and the trailing whitespace, and everything cut is whitespace. |
| Text.JoinSplit | kiwoom.py:291 | Joining the pieces of `split(sep)` with sep gives back the text. |
| Text.ParseInt | kiwoom_login.py:244-245 | `int()` on a broker field: the stripped text with an optional sign and decimal digits gives its value; anything else is a ValueError (None). |
| Text.ParseIntAccepts | kiwoom_login.py:244 | `int()` succeeds iff the stripped text is an optional sign followed by one or more digits. |
| Text.ParseIntToString | kiwoom.py:113 | `int(str(i)) == i`. |
| Text.ZFill | filter_stocks.py:16 | `zfill(width)`: left-pads with '0' to the width, keeping a leading sign in front; the result has length max(len, width). |
| Text.ZFillDigits | filter_stocks.py:16 | Zero-padding keeps a digit run's value and ends with the original digits. |
| Accounts.AccountList | kiwoom_login.py:189 | `account_list.strip().split(';')[:-1]`: the pieces of the stripped text between ';', without the last. |
| Accounts.AccountListRoundTrip | kiwoom.py:291 | Re-terminating the accounts and adding the dropped last piece gives back the stripped text. No account contains ';', the number of accounts equals the number of ';', and there are no accounts iff there is no ';' (so an empty input has none). |
| Accounts.AccountListTerminated | kiwoom_login.py:189 | For the broker's ';'-terminated text, the accounts each followed by ';' are exactly the stripped text. |
| DailyChart.ReadRows | kiwoom_login.py:236-253 | The 30-row read fails (int("") raises) iff fewer than 30 rows came. Otherwise it returns exactly 30 absolute closes and 30 volumes, so the `< 20` branch is unreachable. |
| DailyChart.SumReverse | kiwoom_login.py:256-262 | Reversing the volumes does not change their sum, so their mean is unchanged. |
| DailyChart.ChartMeans | kiwoom_login.py:258-269 | On the newest-first rows, ma5[−1], ma5[−3], ma20[−1] and ma20[−2] are the means of closes 0..4, 2..6, 0..19 and 1..20. |
| DailyChart.Evaluate | kiwoom_login.py:256-276 | After the read: reverse both columns, take the 5- and 20-bar `'valid'` convolutions, and call a hit when the close is ≥ 5000, the 30-bar mean volume ≥ 100,000, ma5[−3] > ma20[−2] with ma5[−1] < ma20[−1], and ma20[−1] > ma20[−2]. |
| DailyChart.EvaluateBySums | kiwoom_login.py:255-276 | A hit holds iff all of these hold: close ≥ 5000; the 30-bar volume sum ≥ 3,000,000; 4·sum(closes 2..6) > sum(closes 1..20); 4·sum(closes 0..4) < sum(closes 0..19); and close 0 > close 20, which is what ma20 rising amounts to. |
| KiwoomLogin.NextRequest | kiwoom_login.py:100-104 | The search reports iff the index is at or past the end of the code list; otherwise it requests the code at the index. |
| KiwoomLogin.ChartStep | kiwoom_login.py:240-282 | A readable response advances the index by exactly 1. The recorded stocks gain exactly the code's record on a hit and are unchanged otherwise. The handler raises on fewer than 30 rows, or on a hit with the index past the list. |
| KiwoomLogin.ChartSearch.constructor | kiwoom_login.py:45-53 | The three example codes, an empty result and index 0. |
| KiwoomLogin.ChartSearch.GetAccountInfo | kiwoom_login.py:186-197 | With at least one account, the list is replaced and the first account selected; otherwise both are unchanged. |
| KiwoomLogin.ChartSearch.RequestStockData | kiwoom_login.py:98-108 | The request is `NextRequest` of the current state. |
| KiwoomLogin.ChartSearch.StartSearch | kiwoom_login.py:90-96 | Resets `filtered_stocks` to empty and the index to 0, then requests the first code. |
| KiwoomLogin.ChartSearch.OnReceiveTrData | kiwoom_login.py:220-282 | A chart response updates the state exactly as `ChartStep` says, leaving it unchanged when the handler raises, and issues the next request. Other responses change nothing. |
| KiwoomLogin.ChartSearch.Search | kiwoom_login.py:90-108 | Feeding the responses in order gives `SearchSpec`: a crash at the first response with fewer than 30 rows, otherwise a report once every code is answered or a wait for the next response, with the index equal to the number of responses answered. The code list, the account list and the selected account are unchanged. |
| KiwoomLogin.HitsInCodeOrder | kiwoom_login.py:276-282 | Recorded stocks keep code-list order, each is a hit for its own response, and every hit is recorded. The lemma holds for any check and any record-maker. |
| KiwoomLogin.HitFields | kiwoom_login.py:271-278 | A record carries the code, the newest absolute close (≥ 5000), the mean of the newest 20 closes, and a 5-bar mean below it. |
| KiwoomUI.ExcludeHeld | kiwoom.py:89 | The list comprehension: the file's candidates whose code is not held, in file order, never more than the file holds. |
| KiwoomUI.HeldCodes | kiwoom.py:139-144 | The held-code set after `clear()` and the read loop: every holdings row's code, stripped. |
| KiwoomUI.ExcludeHeldKeepsOrder | kiwoom.py:89 | Each kept candidate is the file entry at its position, its code is not held, and the positions strictly increase, so the file order is kept. |
| KiwoomUI.ExcludeHeldMembers | kiwoom.py:89 | A candidate is kept iff it is in the file and its code is not held. |
| KiwoomUI.ExcludeHeldAppend | kiwoom.py:89 | Excluding from a concatenation excludes from each part in turn, so the filter never reorders. |
| KiwoomUI.ExcludeHeldIdempotent | kiwoom.py:78-89 | Excluding twice against the same holdings gives the same list. |
| KiwoomUI.KiwoomWindow.constructor | kiwoom.py:26-27 | Starts with no candidates, no held codes and no account. |
| KiwoomUI.KiwoomWindow.GetHoldings | kiwoom.py:133-144 | With no account selected, nothing changes. Otherwise the held codes are replaced by exactly the stripped codes read. |
| KiwoomUI.KiwoomWindow.LoadCandidatesList | kiwoom.py:78-101 | A missing file empties the list. Otherwise the list is the file's "stocks" (empty when the key is absent) minus the held codes. |
| KiwoomUI.KiwoomWindow.RefreshCandidateStocks | kiwoom.py:127-130 | Runs the screening pass, then loads its output minus the held codes. A pass that raised leaves the list and the holdings unchanged. After a written pass the holdings are re-read when an account is selected and unchanged otherwise. The account list, the selection, the search result and the index never change. |
| KiwoomUI.ReadQuote | kiwoom.py:110-113 | A quote is blank iff it strips to ""; it is a price iff `int()` accepts it after commas are removed. |
| KiwoomUI.SeparatedPriceReadsBack | kiwoom.py:113 | A price written with thousands separators reads back as that price. |
| KiwoomUI.GroupedRemove | kiwoom.py:113 | Removing the commas of a grouped digit run gives back the digits. |
| KiwoomUI.KiwoomWindow.UpdateStockPrices | kiwoom.py:104-125 | The refresh loop produces exactly `PriceSpec` with quotes read by `ReadQuote`: blank quotes are skipped, a malformed one raises and ends the refresh, and each updated row gets diff = current − stored mean. |
| KiwoomUI.PriceRowsSound | kiwoom.py:106-119 | Updated rows are in table order, and each carries its own quote's price and current − its own stored mean. This holds for any way of reading a quote. |
| KiwoomUI.PriceRowsComplete | kiwoom.py:106-113 | A refresh that did not raise updated every row whose quote holds a price, for any way of reading a quote. |
| KiwoomUI.PriceRaisedAt | kiwoom.py:110-113 | A refresh that raised stopped at a malformed quote, and no row at or after it was updated, for any way of reading a quote. |
| KiwoomUI.PriceAbortPersists | kiwoom.py:113 | After a ValueError, later rows are not refreshed. |
| KiwoomUI.KiwoomWindow.GetAccountInfo | kiwoom.py:288-299 | With at least one account, the list is replaced and the first account selected; otherwise both are unchanged. |
| KiwoomUI.NextRequest | kiwoom.py:200-206 | The search reports iff the index is at or past the end of the candidate list; otherwise it requests the candidate at the index. |
| KiwoomUI.KiwoomWindow.RequestStockData | kiwoom.py:200-210 | The request is `NextRequest` of the current state. |
| KiwoomUI.KiwoomWindow.StartBuySearch | kiwoom.py:188-198 | Resets the result and the index, then stops if no candidate is loaded and otherwise requests the first one. |
| KiwoomUI.KiwoomWindow.OnReceiveTrData | kiwoom.py:307-369 | A response with fewer than 30 rows, or a hit, raises and leaves the state unchanged. Any other chart response advances the index by exactly 1 and requests the next candidate. |
| KiwoomUI.KiwoomWindow.Search | kiwoom.py:322-369 | Feeding the responses in order gives `SearchSpec`: a crash at the first short or hit response, otherwise a report after the last candidate, with nothing ever recorded. The candidate list, the held codes, the account list and the selected account are unchanged, and with no candidate loaded the index is 0. |
| KiwoomUI.ReportedMeansNoHit | kiwoom.py:363-369 | A search reports only if every candidate's response was a full chart with no hit. |
| FilterStocks.Ticker | filter_stocks.py:16 | `str(code).zfill(6) + ".KS"`. |
| FilterStocks.TickerShape | filter_stocks.py:16 | A ticker is a digit run followed by ".KS", and the digits spell the code. A code below 1,000,000 gives exactly six digits. |
| FilterStocks.KoreaStockList | filter_stocks.py:9-20 | Every listed code becomes a ticker in listing order, and a failed listing gives no tickers. |
| FilterStocks.Batches | filter_stocks.py:79-80 | `[xs[i:i + 20] for i in range(0, len(xs), 20)]`: ⌈n/20⌉ slices, the k-th from 20k up to 20k + 20 or the end. |
| FilterStocks.BatchesPartition | filter_stocks.py:79-80 | The batches concatenate to the list. Each batch is nonempty with at most 20 tickers, and all but the last have exactly 20. |
| FilterStocks.LimitedRun | filter_stocks.py:27-39 | The retry count stays within `max_retries`, every counted attempt was rate limited, and a count below the cap stops at an attempt that was not. |
| FilterStocks.FetchMultipleStockData | filter_stocks.py:25-41 | The result is `FetchSpec`, and the waits taken are (k+1)·10 seconds for the k-th retry, at most `max_retries` of them. An empty frame and exhausted retries both give None, and any other error propagates. |
| FilterStocks.CheckConditions | filter_stocks.py:43-72 | The flag loop gives `CheckSpec`. A ticker absent from the frame, or with fewer than 20 days, gives None. |
| FilterStocks.CheckSpec | filter_stocks.py:43-72 | `check_conditions`: a ticker missing from the frame (the lookup raises, caught as None) or with fewer than 20 days gives None; otherwise the stock is kept at its latest close when the flag loop finds a golden cross in i ∈ 1..15 and ma20[−1] > ma20[−2]. |
| FilterStocks.CheckAcceptsIff | filter_stocks.py:47-69 | A stock is kept iff n ≥ 21, there is a strict 5/20 upward cross in i ∈ 1..15, and the last close exceeds the close 20 days earlier (that is, ma20[−1] > ma20[−2]). The price is the last close. |
| FilterStocks.PickPrice | filter_stocks.py:69 | A pick's price is the latest close, not a moving average. |
| FilterStocks.FilterStocksRun | filter_stocks.py:74-104 | The nested batch loop gives `RunSpec`: a batch whose fetch gives None is skipped, a raising download aborts the run, and picks are appended batch by batch. |
| FilterStocks.RunAbortPersists | filter_stocks.py:83-87 | An exception from a download ends the whole run. |
| FilterStocks.BatchPicksInOrder | filter_stocks.py:89-95 | A batch's picks are exactly the tickers the check keeps, in batch order: each pick is what the check returns for its ticker, and every kept ticker is picked. |
| FilterStocks.RunPicksInOrder | filter_stocks.py:83-95 | A saved run's picks are exactly the kept tickers: a ticker of a batch whose fetch gave a frame, present in that frame and kept by `check_conditions`. They are ordered batch by batch and by position within each batch, and each carries what `check_conditions` returned. |

## Left out

- The PyQt windows, widgets, labels, tables and timers are left out; they are display only.
- Result texts, `round(..., 2)`, the `.2f` formatting and the percentage difference are display and are not modelled. A login-window hit is kept as a record of code, close and means, not as the formatted line.
- The broker binding is an input, not a model. `CommConnect`, `dynamicCall`, `SetInputValue`, `GetCommData`, the `processEvents` busy-waits and the login event are foreign calls. Responses are sequences of pages or rows, with fields given as already-read values.
- JSON reads and writes, `yf.download`, `pd.read_html` and `time.sleep` are I/O. Their contents are parameters (a file map, a download function, a listing) and their effects are outcomes (the file that would be written, the waits that would be slept). Malformed JSON and missing JSON keys other than "stocks" are not modelled.
- The `ThreadPoolExecutor` in filter_stocks.py is never used; the loop is modelled as sequential.
- Floating point: every mean is an exact rational. Rounding in pandas, numpy and yfinance, and NaN days inside a yfinance frame, are not modelled. yfinance closes are taken as integers.
- Text.ParseIntAccepts: `ParseInt` reads only ASCII digits with an optional sign. Python's `int()` also accepts underscores between digits and non-ASCII decimal digits.
- Text.Strip: strips the Latin-1 whitespace characters only, not the rest of Unicode whitespace.
- Bars.SortByDate: a stable insertion sort. pandas' default quicksort does not promise to keep the order of bars with equal dates.
- KiwoomUI.KiwoomWindow.UpdateStockPrices: the percentage difference divides by the stored mean and raises when that mean is 0. This ZeroDivisionError is not modelled.
- Wiring crashes outside the screening logic are not modelled:
  - `pd` is not imported in kiwoom.py, so its filter_candidates copy raises NameError on the first data file it opens. The copy is modelled by the screening logic it spells out.
  - `QMessageBox` is not imported in kiwoom.py, and its logout handler uses it.
  - The login window builds its layout on an undefined `search_tab` and calls `load_candidate_stocks`, which it never defines.
  - kiwoom.py never connects its `on_receive_tr_data` handler.
  - The stock passed to `SetInputValue` in kiwoom.py is a whole candidate record, not a code string.
- kiwoom.py's `process_daily_chart_data` reads and reverses 20 closes and decides nothing, so it is not modelled.
- The holdings-display branch of both `on_receive_tr_data` handlers, `select_account`, `kiwoom_login` and `kiwoom_logout` only write text to the display, so they are not modelled.
