# kraken-ohlc in Dafny

A model of the core of kraken-ohlc, a tool that downloads the trade history of Kraken
pairs and turns it into OHLCV (open, high, low, close, volume) bars at a chosen
frequency. The model covers five parts of the tool:

- **Boundary test for request dates.** It decides whether a requested start or end date is correct: for a fixed frequency, whether it lies on a bucket boundary; for `1W-MON`, only the weekday is tested (Monday for a start, Sunday for an end).
- **Edge trimming.** It drops the first bar when the start date is not correct and the last bar when the end date is not, then reports the range that remains, or that no data is left. Whether a bar is partial is not tested; the corrected trim `Ohlc.TrimKeepsExactlyCompleteRows` keeps exactly the complete bars.
- **Resampling.** It puts trades into left-closed, left-labelled buckets counted from the epoch and reduces each bucket to one bar.
- **Trade-record shaping.** It converts request dates to UTC timestamps, shapes the exchange's raw trade records into trade rows, and cuts a download at the end date.
- **File paths and configuration.** It builds the cache file names. It also validates the configuration in order and chooses the pairs to download, through a `Config` object whose fields the methods update.

Time is counted in integer seconds since 1970-01-01 00:00 UTC. The fourteen frequencies
(`1T` … `3D`, `1W-MON`) form an enumeration, each with its period in seconds. Weekdays
follow pandas' `dayofweek`, where Monday is 0.

Modules, one per file:

- `Results`: `Option` and `Result`.
- `Sequences`: an order-preserving `Filter`.
- `Strings`: `str.replace` and Python's `in` on strings.
- `Calendar`: Python's naive `datetime`, its lexicographic order, and its UTC microsecond count.
- `Frequencies`: periods, anchors and bucket starts.
- `Trades`: `krakenohlc/trades.py`.
- `Ohlc`: `krakenohlc/ohlc.py`.
- `Paths`: `define_filepath` in `krakenohlc/io.py`.
- `Configuration`: the `Config` class in `krakenohlc/config.py`.

Some consequences of the code, proved in the model:

- Trimming is not idempotent. The trim decisions depend only on the dates and the frequency, never on the rows, so a second pass drops rows again (`Ohlc.AdjustedTwice`).
- Trades at 00:00:30, 00:01:15 and 00:02:45 give three 1-minute bars, labelled 00:00, 00:01 and 00:02 (`Ohlc.ThreeTradesAtOneMinute`).
- On the weekly frequency, trimming does not guarantee complete bars (see Findings).
- Every validation error of `__check_configuration` starts with the `Configuration file incorrectly formatted:` prefix, except the missing-section `AttributeError`. That one and the no-tradable-pairs error carry no prefix, and the pair-not-available error begins with the pair's name (`Configuration.MessagePrefix`).

## Model

| member | source | states |
|---|---|---|
| Calendar.UnixMicrosStrictlyMonotone | krakenohlc/trades.py:14 | a chronologically earlier valid datetime has a strictly smaller UTC microsecond count |
| Calendar.DayOfWeekOfDatetime | krakenohlc/ohlc.py:21 | the epoch-day weekday (Monday 0, 1970-01-01 a Thursday) agrees with the calendar weekday of the date |
| Trades.TruncateMicros | krakenohlc/trades.py:14 | `int()` of a microsecond count divided by 10^6 cuts toward zero: bounds from below for non-negative and from above for negative counts |
| Trades.DatetimeAsUtcUnix | krakenohlc/trades.py:7-14 | a whole-second datetime read as UTC gives days since 1970-01-01 × 86400 + hours × 3600 + minutes × 60 + seconds |
| Trades.DatetimeAsUtcUnixMonotone | krakenohlc/trades.py:14 | a later datetime never maps to a smaller timestamp |
| Trades.DatetimeAsUtcUnixStrict | krakenohlc/trades.py:14 | on whole-second datetimes a later datetime maps to a strictly larger timestamp |
| Trades.DatetimeAsUtcUnixExample | krakenohlc/trades.py:14 | 2021-03-28 00:00:00 maps to 1616889600 |
| Trades.FirstSix | krakenohlc/trades.py:28 | every record is cut to its first six fields, same number of records |
| Trades.ConvertColumn | krakenohlc/trades.py:40-43 | a column converts to one value per row, each the conversion of that row's field, or fails on the first field that does not convert |
| Trades.TradesAsDataframe | krakenohlc/trades.py:17-45 | succeeds iff every record has six fields with numeric price, volume and time; then one trade per record in the same order, with fields in the order price, volume, time, buy/sell, market/limit, miscellaneous |
| Trades.ExtraFieldsIgnored | krakenohlc/trades.py:25-28 | fields after the sixth (the trade id) never change the result |
| Trades.DownloadTrades | krakenohlc/trades.py:64-65 | succeeds iff shaping succeeds; keeps every shaped trade strictly before the end date and nothing else; the kept trades are the order-preserving `Filter` of the shaped ones, so their order and multiplicities are kept (`Sequences.FilterConcat`, `Sequences.FilterMultiplicity`) |
| Trades.BeforeWholeSecondEnd | krakenohlc/trades.py:65 | for a whole-second end date a trade is kept iff its time is below the end's UTC timestamp; a trade at the end is dropped |
| Trades.DownloadOfOrderedIsPrefix | krakenohlc/trades.py:65 | for time-ordered trades the cut keeps a prefix in order and everything dropped is at or after the end |
| Sequences.Filter | krakenohlc/trades.py:65 | the kept elements satisfy the predicate, come from the input, and every satisfying input element is kept |
| Sequences.FilterConcat | krakenohlc/trades.py:65 | filtering a concatenation concatenates the filtered parts, so no kept element moves past another |
| Sequences.FilterMultiplicity | krakenohlc/trades.py:65 | every kept value occurs as often as in the input and every dropped value not at all |
| Sequences.FilterOfPrefixClosed | krakenohlc/trades.py:65 | filtering with a predicate that holds on a prefix gives that prefix |
| Strings.ReplaceCharAt | krakenohlc/io.py:25-26 | replacing one character by another keeps the length and changes exactly the matching positions |
| Strings.ReplaceAbsent | krakenohlc/io.py:24 | `str.replace` of a substring that does not occur changes nothing |
| Frequencies.Period | krakenohlc/ohlc.py:74-76 | every frequency has a positive bucket width |
| Frequencies.BucketStart | krakenohlc/ohlc.py:74-76 | the bucket start of `t` is a boundary with start ≤ t < start + period (left-closed buckets from the epoch origin) |
| Frequencies.BucketStartUnique | krakenohlc/ohlc.py:74-76 | a boundary `b` with b ≤ t < b + period is the bucket start of `t` |
| Frequencies.BoundaryIsOwnBucketStart | krakenohlc/ohlc.py:74-76 | a time is a boundary iff it is its own bucket start |
| Frequencies.BucketStartMonotone | krakenohlc/ohlc.py:74-76 | a later trade never falls in an earlier bucket |
| Frequencies.BoundariesApart | krakenohlc/ohlc.py:74-76 | distinct boundaries are at least one period apart |
| Frequencies.NextBoundary | krakenohlc/ohlc.py:74-76 | a boundary plus one period is a boundary |
| Frequencies.WeeklyBucketStartsMondayMidnight | krakenohlc/ohlc.py:74-76 | a `1W-MON` bucket starts on a Monday at 00:00 |
| Ohlc.RoundHalfEven | krakenohlc/ohlc.py:18 | `Timestamp.round` gives a multiple of the period at most half a period away, equal to the input iff the input is a multiple |
| Ohlc.CheckTradesOhlcStartEndDates | krakenohlc/ohlc.py:5-22 | for every fixed frequency a date is correct, start or end alike, iff it is a multiple of the period from the epoch, i.e. iff it is a boundary |
| Ohlc.WeeklyCheckIgnoresTimeOfDay | krakenohlc/ohlc.py:19-21 | for `1W-MON` a start date is correct iff it is a Monday and an end date iff it is a Sunday; the time of day is ignored |
| Ohlc.NotEnoughDataExample | krakenohlc/ohlc.py:57 | the notice for an emptied frame reads "GRTETH 1W-MON: Not enough data." |
| Ohlc.CheckDatetime | krakenohlc/ohlc.py:5-22 | on a calendar date: for a fixed frequency a date with a fraction of a second is never correct, and a whole-second one is correct iff its UTC second passes the test on seconds; for the weekly frequency the calendar weekday (Monday for a start, Sunday for an end) decides |
| Ohlc.Adjusted | krakenohlc/ohlc.py:43-53 | the trimmed frame is the contiguous slice of the input starting after the dropped first row, of length max(0, n − dropStart − dropEnd); both dates correct returns the frame unchanged |
| Ohlc.AdjustOhlcFrequencyDates | krakenohlc/ohlc.py:25-63 | returns the trimmed frame; no notice iff both dates are correct; after a trim "Not enough data" iff the frame is empty, else "Data truncated" naming the first and last remaining labels |
| Ohlc.AdjustedTwice | krakenohlc/ohlc.py:44-53 | a second trim drops the same number of rows again, so a trim that changed a non-empty frame is not idempotent |
| Ohlc.HighPrice | krakenohlc/ohlc.py:76 | the high bounds every price of the bucket and is one of them |
| Ohlc.LowPrice | krakenohlc/ohlc.py:76 | the low bounds every price of the bucket from below and is one of them |
| Ohlc.Aggregate | krakenohlc/ohlc.py:76 | a bucket has prices iff it has trades; open is the first and close the last price, low ≤ open, close ≤ high, high and low attained |
| Ohlc.Slots | krakenohlc/ohlc.py:74-76 | the bucket labels from a boundary up to a last time: none iff the last time is before the first label, which otherwise comes first |
| Ohlc.SlotsWithin | krakenohlc/ohlc.py:74-76 | every label is a boundary between the first and the last bucket |
| Ohlc.SlotsSpaced | krakenohlc/ohlc.py:74-76 | consecutive labels are one period apart |
| Ohlc.SlotsEnd | krakenohlc/ohlc.py:74-76 | when the last bucket is a boundary it is the last label |
| Ohlc.SlotsCover | krakenohlc/ohlc.py:74-76 | every boundary between the first and the last bucket is a label |
| Ohlc.Rows | krakenohlc/ohlc.py:74-76 | one row per label, in order, each carrying its label |
| Ohlc.RowsAt | krakenohlc/ohlc.py:76 | the row of each label holds the aggregate of that label's bucket |
| Ohlc.TradesToOhlc | krakenohlc/ohlc.py:66-79 | no bars iff no trades; bars run from the first trade's bucket to the last trade's, one period apart, each labelled by a boundary |
| Ohlc.ResampledBars | krakenohlc/ohlc.py:74-76 | each bar holds the aggregate of the bucket it labels |
| Ohlc.TradeInOneBucket | krakenohlc/ohlc.py:74-76 | a trade in the bucket labelled by a boundary `b` has `b` as its bucket start |
| Ohlc.BucketMembers | krakenohlc/ohlc.py:74-76 | a trade is in the bucket labelled `b` iff b ≤ time < b + period |
| Ohlc.SpacedIncreasing | krakenohlc/ohlc.py:74-76 | bars one period apart have strictly increasing labels |
| Ohlc.ResampledLabels | krakenohlc/ohlc.py:66-79 | a bar of the resample of ordered, non-empty trades is labelled `b` iff `b` is a boundary from the first trade's bucket to the last trade's |
| Ohlc.TradeHasABar | krakenohlc/ohlc.py:74-76 | every trade lies in the bucket of some bar, the one labelled by its bucket start |
| Ohlc.TradeInNoOtherBar | krakenohlc/ohlc.py:74-76 | a trade lies in the bucket of no bar other than the one labelled by its bucket start |
| Ohlc.EveryTradeHasItsBar | krakenohlc/ohlc.py:74-76 | each trade falls in exactly one bar, the one labelled by its bucket start |
| Ohlc.RowsVolumes | krakenohlc/ohlc.py:74-76 | the rows' volumes sum to the summed volumes of their labels' buckets |
| Ohlc.LabelsOfNoTrades | krakenohlc/ohlc.py:76 | buckets of no trades have zero volume whatever the labels |
| Ohlc.BucketVolumeWithOneMore | krakenohlc/ohlc.py:76 | one more trade adds its volume to the bucket of its own bucket start and to no other |
| Ohlc.LabelsOfOneMoreTrade | krakenohlc/ohlc.py:76 | one more trade adds its volume to the buckets of a run of boundaries iff its bucket start is among them |
| Ohlc.LabelsVolumeOfTrades | krakenohlc/ohlc.py:76 | the buckets of boundaries covering every trade's bucket sum to the trades' volume |
| Ohlc.VolumeConservation | krakenohlc/ohlc.py:74-76 | the bars' volumes add up to the total traded volume |
| Ohlc.SingleTradeBar | krakenohlc/ohlc.py:76 | a bucket with one trade has open = high = low = close = its price and its volume |
| Ohlc.SlotsOfThree | krakenohlc/ohlc.py:74-76 | a first bucket and a last bucket two periods later give three labels |
| Ohlc.ExampleLayout | krakenohlc/ohlc.py:74-76 | trades at 30 s, 75 s and 165 s are time-ordered and give the 1-minute rows labelled 0, 60 and 120 |
| Ohlc.ThreeTradesAtOneMinute | krakenohlc/ohlc.py:74-76 | those three bars carry prices 10, 12 and 9 and volumes 1, 2 and 3 |
| Ohlc.SpacedBounds | krakenohlc/ohlc.py:74-76 | in evenly spaced bars every label lies between the first and the last |
| Ohlc.ResampledRowsOfRange | krakenohlc/ohlc.py:74-76 | the bars of trades inside [start, end) start no earlier than start's bucket and end before `end` |
| Ohlc.FixedAdjustedRowsAreComplete | krakenohlc/ohlc.py:43-53 | for fixed frequencies every row kept by the trim covers a whole period inside [start, end) |
| Ohlc.FixedAdjustedResampledRowsAreComplete | krakenohlc/ohlc.py:43-53 | the same for the bars resampled from trades inside [start, end) |
| Ohlc.TrimIncompleteRows | krakenohlc/ohlc.py:43-53 | the corrected trim drops at most the first and the last row and keeps only input rows |
| Ohlc.TrimSlice | krakenohlc/ohlc.py:43-53 | the corrected trim is a contiguous slice of the frame |
| Ohlc.TrimWindow | krakenohlc/ohlc.py:43-53 | a row lies inside the corrected trim's slice iff it is complete |
| Ohlc.TrimKeepsExactlyCompleteRows | krakenohlc/ohlc.py:25-63 | the corrected trim keeps a row iff the row covers a whole period inside [start, end), for every frequency |
| Ohlc.TrimKeepsExactlyCompleteResampledRows | krakenohlc/ohlc.py:25-63 | the same for the bars resampled from trades inside [start, end) |
| Ohlc.WeeklyCheckKeepsIncompleteRow | krakenohlc/ohlc.py:19-21 | a Monday 15:00 start to a Sunday end passes the weekly test, yet the one kept bar starts before the start |
| Ohlc.WeeklyCheckDropsCompleteWeek | krakenohlc/ohlc.py:19-21 | Monday 00:00 to the next Monday 00:00 fails the end test and the trim drops a complete week |
| Ohlc.UnalignedStartDropsCompleteRow | krakenohlc/ohlc.py:47-48 | with an unaligned start and the first trade in a later bucket, the trim drops a complete bar |
| Paths.DateSegment | krakenohlc/io.py:25-26 | same length; each space becomes "T", each colon "-", everything else unchanged; no space or colon remains |
| Paths.DefineFilepath | krakenohlc/io.py:6-31 | the path starts with `folder/pair_start_end` and ends with ".csv"; it has no frequency segment iff the mapped frequency is empty, and otherwise "_" plus the segment before ".csv" |
| Paths.FrequencySegmentOfToken | krakenohlc/io.py:24 | the fourteen tokens map to 1M, 3M, 5M, 15M, 30M, 1H … 12H, 1D, 3D, 1W |
| Paths.FrequencySegmentInjective | krakenohlc/io.py:24 | distinct frequencies get distinct file segments |
| Paths.DistinctFrequenciesDistinctPaths | krakenohlc/io.py:24-31 | distinct frequencies never share a file |
| Paths.ExampleStartSegment | tests/test_io.py:7-15 | "2020-03-28 00:00:00" becomes "2020-03-28T00-00-00" |
| Paths.ExampleEndSegment | tests/test_io.py:7-15 | "2021-05-04 15:00:00" becomes "2021-05-04T15-00-00" |
| Paths.OhlcFilepathExample | tests/test_io.py:7-15 | ("ohlc", "AAVEXBT", …, "4H") gives "ohlc/AAVEXBT_2020-03-28T00-00-00_2021-05-04T15-00-00_4H.csv" |
| Paths.TradeHistoryFilepathExample | tests/test_io.py:16-22 | without a frequency the trade-history path has no suffix |
| Configuration.MessagePrefix | krakenohlc/config.py:76-128 | every validation error starts with the configuration-format prefix; the missing-section crash and the no-tradable-pairs error do not |
| Configuration.ClampToNow | krakenohlc/config.py:102-103 | an end date before now is unchanged and an end date at or after now becomes now |
| Configuration.Checks | krakenohlc/config.py:76-128 | the reference list of the eight checks in the order config.py runs them (its contract states only their number; the entries are its body) |
| Configuration.FirstError | krakenohlc/config.py:76-128 | no error iff every check passes; otherwise the error of the first failing check |
| Configuration.FirstErrorAt | krakenohlc/config.py:76-128 | a failing check preceded only by passing ones is the one reported |
| Configuration.FirstErrorOfEight | krakenohlc/config.py:76-128 | of the eight checks, the reported error is that of the first one failing, in order |
| Configuration.StartNotInPastRejected | krakenohlc/config.py:86-95 | a start date not before now is reported, ahead of every later check, as "Download start date incorrectly formatted: … The start date must be in the past." |
| Configuration.SaveFalseLikeMissing | krakenohlc/config.py:116-120 | `save_trade_history_as_csv: False` is rejected exactly like an absent value |
| Configuration.AssociatedModeStillNeedsCustomPairs | krakenohlc/config.py:121-128 | associated mode enabled with quote assets still fails without custom pairs |
| Configuration.PassedChecksReadyForPairs | krakenohlc/config.py:76-128 | settings that pass every check have parsed dates (start before now), the pair section, quote assets when enabled, and custom pairs |
| Configuration.PairNotAvailableExample | tests/test_config.py:183-195 | the error for pair "FAKE" reads "FAKE pair not available on Kraken." |
| Configuration.Matching | krakenohlc/config.py:143 | the pairs kept are exactly the exchange's pairs containing the asset's altname, as the order-preserving `Filter` of the exchange list |
| Configuration.MatchingMultiplicity | krakenohlc/config.py:143 | each matching pair occurs among the matches as often as in the exchange list, every other pair not at all |
| Configuration.AccumulatedMembers | krakenohlc/config.py:141-143 | a pair is gathered iff it is an exchange pair containing some quote asset's altname |
| Configuration.AccumulatedGrows | krakenohlc/config.py:141-147 | the gathered list never shrinks, so once the first quote asset matched, no later emptiness error can occur |
| Configuration.AccumulatedStep | krakenohlc/config.py:141-143 | one more quote asset appends its matching pairs to the gathered list; after the first asset the list is its matches |
| Configuration.EmptyOnlyAtFirst | krakenohlc/config.py:141-147 | once the first asset matched something the gathered list is never empty again, so the emptiness error can only name the first asset |
| Configuration.WithoutExcluded | krakenohlc/config.py:149-159 | the kept pairs are exactly those containing no excluded base asset, as the order-preserving `Filter` of the gathered list |
| Configuration.WithoutExcludedMultiplicity | krakenohlc/config.py:149-159 | each pair without an excluded base asset is kept as often as it was gathered, every other pair not at all |
| Configuration.AssociatedSelectionMembers | krakenohlc/config.py:137-159 | in associated mode a pair is chosen iff it is an exchange pair containing a quote asset's altname and, when exclusions are given, no excluded base asset |
| Configuration.FirstMissing | krakenohlc/config.py:161-163 | none iff every requested pair is listed; otherwise the first unlisted one |
| Configuration.Config.constructor | krakenohlc/config.py:38-59 | the object holds the settings as read, with no pairs yet |
| Configuration.Config.CheckConfiguration | krakenohlc/config.py:65-128 | the error is that of the first failing check in order; the dates are parsed in place and the end date is clamped to now; on success start is before now and end is the parsed end date when that is before now, now otherwise; the other fields are unchanged |
| Configuration.Config.GetConfigurationPairs | krakenohlc/config.py:130-164 | associated mode: error iff the first quote asset matches nothing, else the gathered pairs minus the excluded ones; custom mode: error naming the first unlisted pair, else the requested list; the settings are unchanged |
| Configuration.Config.GatherAssociatedPairs | krakenohlc/config.py:139-159 | error iff the first quote asset's altname matches no pair, with no pairs left; otherwise the pairs gathered over all quote assets, minus those of excluded base assets; the settings are unchanged |
| Configuration.RequestedPairsCheck | krakenohlc/config.py:160-163 | the error names the first requested pair the exchange does not list, and there is none when all are listed |

## Left out

- `pandas_to_kraken_ohlc_frequencies` (krakenohlc/config.py:6, 34): its body is not part of the model, so the frequency list is kept as read.
- The quote-volume argument of `trades_to_ohlc` and the sixth argument of `define_filepath`, which callers pass: neither exists in the definitions modelled, so no behaviour is given to them.
- Reading the configuration file: `open`, YAML parsing and the file-not-found and format errors (krakenohlc/config.py:45-48, 60-63). The constructor takes the parsed settings. A date the YAML loader gives as a `datetime` (unquoted) is not modelled; dates are text or absent.
- The exchange client (`KrakenApi`): the pair list and the altname lookup are parameters of `GetConfigurationPairs`, and `DownloadTrades` takes the fetched records.
- `datetime.now` is the parameter `now`. `strptime` is the abstract partial function `parse`, and its exact accepted format is not modelled.
- Float coercion of price and volume and the microsecond rounding of trade times (krakenohlc/trades.py:40-43) are the abstract conversions `numeric` and `seconds`, with integer results.
- `Trades.TradesAsDataframe`: records with fewer than six fields are rejected. When no record has six fields pandas rejects the frame too (a column-count error), so the model differs only when short records are mixed with full ones, which pandas pads with missing values.
- Ohlc.CheckTradesOhlcStartEndDates and Ohlc.Adjusted take dates in whole seconds. pandas compares a date with its rounding to the microsecond, so an end date clamped to `now` with a fraction of a second is never correct for a fixed frequency (`Ohlc.CheckDatetime`) and the source drops the last row, while the test on the whole second may pass and keep it. The trim is not restated on calendar dates.
- `Ohlc.TradesToOhlc` requires time-ordered trades, which is how the exchange returns them; pandas would also bin unordered rows. Empty buckets between trades are rows with no prices and a volume of 0, which is what the `ohlc` and `sum` aggregations give.
- `Ohlc.NoticeText`: the rendering of a bar label as pandas prints a Timestamp is the parameter `labelText`; the notices are returned instead of printed.
- The `print` of the chosen pairs (krakenohlc/config.py:165) is output only and is not modelled.
- The `AttributeError` raised by `.get` on an absent `download_all_associated_pairs` section is the error `NoAssociatedPairsSection`.
- The code does not check that the start date precedes the end date, and neither does the model.
- `read_csv`, `create_data_directory`, the orchestration in krakenohlc/krakenohlc.py and `__main__.py` are file and console glue and are not modelled.
- The message assertions of tests/test_config.py:106-170 and the boundary expectations of tests/test_ohlc.py:51-123 disagree with the code; the model follows the code.

## Findings

| source | as written | input that shows it | evidently intended | confidence | as-written member | corrected member |
|---|---|---|---|---|---|---|
| krakenohlc/ohlc.py:19-21 | for `1W-MON` a start date counts as correct whenever it falls on a Monday, and an end date whenever it falls on a Sunday, whatever the time of day | start 2021-03-29 15:00 (Monday), end 2021-04-04 00:00 (Sunday), one trade on 2021-03-29 16:00: the bar of week 2021-03-29 is kept although it started before the start date and ends after the end date; start 2021-03-29 00:00, end 2021-04-05 00:00: the complete week is dropped | keep a row exactly when its bucket lies inside [start, end) | not executed; medium | Ohlc.WeeklyCheckKeepsIncompleteRow | Ohlc.TrimKeepsExactlyCompleteResampledRows |
| krakenohlc/ohlc.py:47-48 | an unaligned start drops the first row even when no trade fell in the partial first bucket, so the first row is a later, complete one | frequency 1T, start 30 s, end 600 s, one trade at 310 s: the only bar (300 s to 360 s) is complete but dropped | drop the first row only when it starts before the start date | not executed; low | Ohlc.UnalignedStartDropsCompleteRow | Ohlc.TrimIncompleteRows |
