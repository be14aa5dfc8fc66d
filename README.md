# Portfolio ledger model

A Dafny model of the ledger logic of a small cryptocurrency portfolio tool.
The tool keeps one SQLite table, `investments`, with one row per buy or sell
(`coin_id`, `currency`, `amount`, an integer `sell` flag, and a `date`). It
adds single rows, values the net holdings of a (coin, currency) pair at a
given price, bulk-imports rows from a CSV file, exports the table to CSV,
and draws a running position per coin.

Modules, one per component of `main_2.py` and `visualize.py`:

- `Wrappers`: `Option`, for the partial text-to-number conversions.
- `Ledger`: the row and `Investment` types, the row factory (`sell` integer
  to bool by truthiness), `CREATE TABLE IF NOT EXISTS`, and the class `Store`.
  `Store` holds whether the table exists and its rows as a `seq` in store order.
  Its methods only append.
- `Holdings`: the `WHERE coin_id=? AND currency=? AND sell=?` selection, the
  sums, net holdings (buys minus sells) and the valuation at a price given as
  a parameter. Lemmas show the net is a row-by-row sum and additive over
  concatenation, how an added row moves it, and that foreign rows and rows
  whose `sell` is neither 0 nor 1 contribute nothing.
- `ImportExport`: record parsing, the validating loop (`CollectRows`, proved
  against the reference functions `ValidRows` and `Skips`), the import command
  with its four outcomes, and the export table. Python's `float(...)` and
  `int(...)` on text are passed in as partial functions `toReal` and `toInt`.
- `Visualize`: the signed amount, `unique()` in first-appearance order, the
  per-coin filter and the running totals. `SeriesEndIsNetHoldings` ties the end
  of a coin's series to the holdings computation when every `sell` is 0 or 1.
  `SellTwoDisagreement` shows the two computations part on `sell == 2`.

The model follows the code on these points, where one might expect otherwise:

- The chart's running totals are in table order, not sorted by date
  (`visualize.py:22-24`).
- Import keeps any integer `sell` value in SQLite's 64-bit INTEGER range, not only 0 and 1 (`main_2.py:108`). For a batch holding a value outside that range, `executemany` raises at that row (`main_2.py:117`), before the commit at `main_2.py:118`, so nothing is committed.
- Import never checks the sign of `amount` (`main_2.py:108`).
- The first CSV record is skipped unread as the header, whatever it holds
  (`main_2.py:96`).

## Model

| member | source | states |
|---|---|---|
| `Ledger.IntOfBool` | main_2.py:70 | `int(sell)` of the flag is 0 or 1, and 1 exactly for a sell |
| `Ledger.NewRow` | main_2.py:69-70 | the inserted row carries the given coin, currency, amount and date, and a `sell` of 0 or 1 that is 1 exactly for a sell, so it always binds |
| `Ledger.ToInvestment` | main_2.py:32-39 | the row factory keeps coin, currency, amount and date, and reads `sell` as true exactly when the stored integer is non-zero |
| `Ledger.SellFlagRoundTrip` | main_2.py:37 | a flag stored by add and read back through the row factory is the same flag |
| `Ledger.CreateIfNotExists` | main_2.py:9-17 | after the schema statement the table exists; an existing table is unchanged; a missing one is created empty |
| `Ledger.CreateIfNotExistsIdempotent` | main_2.py:10 | running the schema statement twice is the same as running it once |
| `Ledger.Store.Connect` | main_2.py:142 | opening a database gives back its table as it was, present or absent |
| `Ledger.Store.EnsureSchema` | main_2.py:145 | the table exists afterwards, the state is `CreateIfNotExists` of the old one, and no row changes |
| `Ledger.Store.Add` | main_2.py:68-72 | the rows become the old rows followed by exactly one new row whose `sell` is `int(sell)` |
| `Ledger.Store.AppendMany` | main_2.py:116-118 | when every `sell` of the batch fits a signed 64-bit INTEGER the rows become the old rows followed by the batch, in batch order; otherwise it reports failure and the rows are unchanged |
| `Holdings.Query` | main_2.py:81-83 | the selection holds a row exactly when the ledger holds it and it matches coin, currency and sell value |
| `Holdings.Total` | main_2.py:84-85 | the amount sum of rows with non-negative amounts is non-negative |
| `Holdings.NetHoldings` | main_2.py:84-86 | buys minus sells; with no sell rows and non-negative amounts the net is non-negative |
| `Holdings.QueryNoMatch` | main_2.py:81-83 | when no row has the requested sell value the selection is empty |
| `Holdings.InvestmentValue` | main_2.py:79-87 | the reported net is buys minus sells for the pair, and the value is net times the price |
| `Holdings.QueryAppend` | main_2.py:81-83 | the selection of a concatenation is the concatenation of the selections, so store order is kept |
| `Holdings.TotalAppend` | main_2.py:84-85 | the amount sum of a concatenation is the sum of the parts |
| `Holdings.NetIsSumOfContributions` | main_2.py:84-86 | the net equals the row-by-row sum: plus amount for a matching buy, minus amount for a matching sell, zero otherwise |
| `Holdings.NetAppend` | main_2.py:84-86 | the net of a concatenation is the sum of the nets of the parts |
| `Holdings.IgnoredRow` | main_2.py:81-86 | a row of another coin or currency, or with a `sell` other than 0 and 1, changes no net holdings wherever it stands |
| `Holdings.AddMovesNet` | main_2.py:68-86 | adding an investment moves its own pair's net by plus the amount for a buy and minus it for a sell, and leaves every other pair as it was |
| `Holdings.ValuationExample` | main_2.py:84-87 | buys of 2 and 1 and a sell of 0.5 at price 50000 give net 2.5 and value 125000 |
| `ImportExport.ParseRecord` | main_2.py:103-110 | a record is accepted exactly when it has five fields and both the amount and the sell field convert; otherwise the skip names the reason |
| `ImportExport.ValidRowsAppend` | main_2.py:102-110 | batch and diagnostics of concatenated records are the concatenations, so input order is kept |
| `ImportExport.EveryRecordAccountedFor` | main_2.py:102-110 | the batch and the diagnostics together hold exactly one entry per data record |
| `ImportExport.ValidRowsAreParsedRecords` | main_2.py:106-108 | a row is in the batch exactly when some data record converts to it |
| `ImportExport.NoValidRowsIffAllSkipped` | main_2.py:112-114 | the batch is empty exactly when every data record is skipped |
| `ImportExport.WrongFieldCountSkipped` | main_2.py:103-105 | a record without five fields is never stored, is reported, and the records after it are still processed |
| `ImportExport.ConversionFailureSkipped` | main_2.py:107-110 | a five-field record whose amount or sell does not convert is reported and skipped, and processing continues |
| `ImportExport.ConvertedRecordStored` | main_2.py:106-108 | a converting record is stored in place with the converted amount (no sign check), the converted sell (not clamped) and the raw date |
| `ImportExport.ThreeRecordExample` | main_2.py:102-110 | three records whose second has a bad amount give two rows in order and one diagnostic |
| `ImportExport.SellBeyondIntegerRange` | main_2.py:108-117 | a converting record whose sell is 2^63 is in the batch but cannot be bound |
| `ImportExport.CollectRows` | main_2.py:101-110 | the loop builds exactly the batch `ValidRows` and the diagnostics `Skips` of the data records |
| `ImportExport.ImportInvestments` | main_2.py:92-119 | an empty file writes nothing; otherwise the header is dropped; if no row survives nothing is written; if a `sell` of the batch does not fit a 64-bit INTEGER the command fails and nothing is written; otherwise the ledger becomes old rows plus the batch and the reported count is the batch length |
| `ImportExport.ExportTable` | main_2.py:129-130 | the file is the header `coin_id,currency,amount,sell,date` followed by one record per ledger row in store order |
| `ImportExport.ExportedRowsAreLedger` | main_2.py:125-131 | the data records of the file are exactly the ledger rows, in store order, one fewer than the records of the file |
| `ImportExport.ExportInvestments` | main_2.py:124-131 | the written file is the export table of the store's rows and the reported count is the number of rows, header excluded |
| `ImportExport.ExportAsWritten` | main_2.py:124-131 | with the row factory installed, only the header is written, and the run completes only on an empty ledger |
| `ImportExport.ExportAsWrittenLosesRows` | main_2.py:126-130 | on any non-empty ledger the as-written export raises with no data row written, where the intended file holds every row |
| `Visualize.SignedAmount` | visualize.py:18 | for `sell` 0 or 1 the signed amount is the row's holdings contribution; any other `sell` counts as a buy |
| `Visualize.FirstIndex` | visualize.py:22 | the index returned is the first occurrence of the value |
| `Visualize.CoinIds` | visualize.py:22 | `unique()` of the coin column holds every coin of the table exactly once and no other |
| `Visualize.Distinct` | visualize.py:22 | holds each value of the column exactly once and nothing else |
| `Visualize.DistinctInFirstAppearanceOrder` | visualize.py:22 | the distinct values are ordered by their first occurrence |
| `Visualize.CoinRows` | visualize.py:23 | the mask keeps a row exactly when it has the coin, whatever its currency |
| `Visualize.CoinRowsAppend` | visualize.py:23 | the mask of a concatenation is the concatenation of the masks, so table order is kept |
| `Visualize.RunningTotals` | visualize.py:24 | one point per row, with that row's date; point i is the start value plus the signed sum of the first i+1 rows |
| `Visualize.CoinSeries` | visualize.py:23-24 | a coin's line is labelled with the coin and has one point per row of that coin |
| `Visualize.Plot` | visualize.py:22-24 | one line per distinct coin, the k-th being the series of the k-th coin of `unique()` |
| `Visualize.PlotHasCoin` | visualize.py:22 | there is a series for a coin exactly when the table has a row of it |
| `Visualize.PlotCoinsDistinct` | visualize.py:22 | no coin has two series |
| `Visualize.PlotInFirstAppearanceOrder` | visualize.py:22 | the series are ordered by each coin's first row in the table |
| `Visualize.CoinSeriesContents` | visualize.py:23-24 | a coin's series has one point per row of that coin, across currencies and in table order, with its date; point i is the signed sum of the coin's first i+1 rows |
| `Visualize.CoinContributionIsSignedSum` | visualize.py:18 | when every `sell` is 0 or 1, the holdings contributions of a coin's rows add up to the signed sum of those rows |
| `Visualize.NetOverCurrenciesIsCoinContribution` | main_2.py:84-86 | net holdings summed over distinct currencies equal the contributions of the coin's rows in those currencies |
| `Visualize.CoinCurrenciesCovered` | visualize.py:23 | every currency of a coin's rows is among the coin's distinct currencies |
| `Visualize.CoinSeriesEnd` | visualize.py:24 | the last point of a non-empty series is the signed sum of all that coin's rows |
| `Visualize.SignedSumIsNetOverCurrencies` | visualize.py:18-24 | when every `sell` is 0 or 1, a coin's signed sum is its net holdings added up over its distinct currencies |
| `Visualize.SeriesEndIsNetHoldings` | visualize.py:24 | when every `sell` is 0 or 1, a coin's last point is its net holdings per currency, added up over its currencies |
| `Visualize.SellTwoDisagreement` | visualize.py:18 | a lone row with `sell == 2` plots as a buy of its amount while its pair's net holdings are zero |

## Findings

| source | as written | input that shows it | evidently intended | confidence | as-written member | corrected member |
|---|---|---|---|---|---|---|
| main_2.py:126-130 | with the row factory of main_2.py:143 installed, `fetchall()` returns `Investment` objects; `csv.writer.writerows` needs iterable rows and raises on the first one, after the header is written | a ledger with one row: the file holds only the header and no count is reported | the header followed by every row, and the count of rows reported | high, not executed | `ImportExport.ExportAsWrittenLosesRows` | `ImportExport.ExportInvestments` |

## Left out

- Price lookup (`get_coin_price`, `main.py`, `get_price.py`): HTTP and JSON lookup; the price is a parameter of `Holdings.InvestmentValue`.
- The click command surface, the printed status lines, the cursor (main_2.py:144) and the `cli()` dispatch (main_2.py:146): the diagnostics are kept as `Skip` values and `ImportOutcome`, not as text. The row factory assignment (main_2.py:143) is modelled only through `ImportExport.ExportAsWritten`.
- SQLite itself, `commit`, and opening and closing files; the store is a sequence of rows. Of SQLite's errors only the 64-bit INTEGER overflow on binding `sell` is modelled, as a failed batch.
- CSV tokenising and quoting: files are sequences of records, each a sequence of fields.
- csv.writer's text formatting of the fields: `ImportExport.ExportTable` writes each row as its raw tuple.
- Python's `float()` and `int()` text grammars: they are the parameters `toReal` and `toInt`. A NaN or infinite float has no `real` counterpart.
- Floating-point rounding: amounts are `real`.
- `datetime.now()`: the date is the `now` parameter of `Ledger.Store.Add`, and dates are opaque strings.
- `Ledger.ToInvestment`: the `strptime` date parsing of main_2.py:38 is not modelled. That parse can fail on imported dates, and on a stored `now` with zero microseconds. Then `fetchall()` raises at main_2.py:82-83 and main_2.py:126, so `Holdings.InvestmentValue` and `ImportExport.ExportAsWritten` describe only ledgers whose dates all parse. On other ledgers the value command reports nothing, and the export raises before the file is opened, so not even the header is written.
- `Ledger.Store.Add`, `Ledger.Store.AppendMany`, `ImportExport.ImportInvestments`: they require the table to exist. main_2.py:145 creates it before any command runs; the missing-table error is not modelled.
- An export followed by an import: no round trip is claimed, because of the finding above and the text formatting left out.
- pandas and matplotlib in visualize.py: `pd.to_datetime` and the figure calls; the model yields the plotted series as values.
- `Investment.compute_value` (main_2.py:28-29): no command calls it.
