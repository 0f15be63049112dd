/** Trade history: UTC epoch conversion of request dates, shaping of the exchange's raw
    trade records into trade rows, and the end-date cut of a download. */
module Trades {
  import opened Results
  import opened Calendar
  import opened Sequences

  /** Integer division by 10^6 rounding toward zero, as Python's `int` on a float. */
  function TruncateMicros(m: int): (r: int)
    ensures m >= 0 ==> r * 1000000 <= m < r * 1000000 + 1000000
    ensures m < 0 ==> r * 1000000 - 1000000 < m <= r * 1000000
  {
    if m >= 0 || m % 1000000 == 0 then m / 1000000 else m / 1000000 + 1
  }

  /** `int(date.replace(tzinfo=timezone.utc).timestamp())`: the date read as UTC, in whole
      seconds since the epoch, the fraction cut off toward zero. */
  function DatetimeAsUtcUnix(date: Datetime): (r: int)
    requires Valid(date)
    ensures date.microsecond == 0 ==> r == EpochDays(date) * 86400 + SecondOfDay(date)
  {
    TruncateMicros(UnixMicros(date))
  }

  lemma TruncateMicrosMonotone(m: int, n: int)
    requires m <= n
    ensures TruncateMicros(m) <= TruncateMicros(n)
  {
  }

  /** A later datetime never maps to a smaller timestamp. */
  lemma DatetimeAsUtcUnixMonotone(a: Datetime, b: Datetime)
    requires Valid(a) && Valid(b)
    requires Before(a, b)
    ensures DatetimeAsUtcUnix(a) <= DatetimeAsUtcUnix(b)
  {
    UnixMicrosStrictlyMonotone(a, b);
    TruncateMicrosMonotone(UnixMicros(a), UnixMicros(b));
  }

  /** On whole-second datetimes the conversion is strictly increasing, hence injective. */
  lemma DatetimeAsUtcUnixStrict(a: Datetime, b: Datetime)
    requires Valid(a) && Valid(b) && a.microsecond == 0 && b.microsecond == 0
    requires Before(a, b)
    ensures DatetimeAsUtcUnix(a) < DatetimeAsUtcUnix(b)
  {
    UnixMicrosStrictlyMonotone(a, b);
  }

  /** 2021-03-28 00:00:00 is 1616889600. */
  lemma DatetimeAsUtcUnixExample(d: Datetime)
    requires d == Datetime(2021, 3, 28, 0, 0, 0, 0)
    ensures DatetimeAsUtcUnix(d) == 1616889600
  {
    EpochDaysExample(d);
  }

  lemma EpochDaysExample(d: Datetime)
    requires d == Datetime(2021, 3, 28, 0, 0, 0, 0)
    ensures EpochDays(d) == 18714 && SecondOfDay(d) == 0
  {
    assert DaysBeforeYear(2021) == 737790;
  }

  /** A field of a raw trade record as the exchange returns it. */
  datatype Field = Number(number: int) | Text(text: string)

  /** One row of the trade frame: price, volume, time (seconds since the epoch), buy/sell,
      market/limit, miscellaneous. */
  datatype Trade = Trade(price: int, volume: int, time: int, side: Field, kind: Field, misc: Field)

  datatype TradeError =
    | TooFewFields                           // a record has fewer than six fields
    | NotNumeric(column: string, value: Field) // a column could not be converted

  const TradeColumns: nat := 6

  /** `[i[:6] for i in trades]`: each record cut to its first six fields. */
  function FirstSix(records: seq<seq<Field>>): (rows: seq<seq<Field>>)
    ensures |rows| == |records|
    ensures forall i :: 0 <= i < |rows| ==>
      |rows[i]| == Min(TradeColumns, |records[i]|) && rows[i] == records[i][..|rows[i]|]
  {
    seq(|records|, i requires 0 <= i < |records| => records[i][..Min(TradeColumns, |records[i]|)])
  }

  function Min(a: int, b: int): int {
    if a <= b then a else b
  }

  /** Converting column `col` of every row with `conv` (pandas `astype` / `to_datetime`):
      the converted values, or the first value that does not convert. */
  function ConvertColumn(rows: seq<seq<Field>>, col: nat, conv: Field -> Option<int>): (r: Result<seq<int>, Field>)
    requires forall i :: 0 <= i < |rows| ==> col < |rows[i]|
    ensures r.Success? ==> |r.value| == |rows|
    ensures r.Success? ==> forall i :: 0 <= i < |rows| ==> conv(rows[i][col]) == Some(r.value[i])
    ensures r.Failure? ==> exists i :: (0 <= i < |rows| && rows[i][col] == r.error &&
      conv(rows[i][col]).None? && forall j :: 0 <= j < i ==> conv(rows[j][col]).Some?)
  {
    if rows == [] then Success([])
    else match conv(rows[0][col])
      case None => Failure(rows[0][col])
      case Some(v) =>
        match ConvertColumn(rows[1..], col, conv)
        case Failure(bad) =>
          var i :| 0 <= i < |rows[1..]| && rows[1..][i][col] == bad && conv(rows[1..][i][col]).None? &&
            forall j :: 0 <= j < i ==> conv(rows[1..][j][col]).Some?;
          assert rows[i + 1][col] == bad && forall j :: 0 <= j < i + 1 ==> conv(rows[j][col]).Some?;
          Failure(bad)
        case Success(vs) => Success([v] + vs)
  }

  /** A record the frame builder accepts: six fields or more, with a numeric price, volume
      and time. */
  predicate WellFormed(record: seq<Field>, numeric: Field -> Option<int>, seconds: Field -> Option<int>) {
    |record| >= TradeColumns && numeric(record[0]).Some? && numeric(record[1]).Some? && seconds(record[2]).Some?
  }

  /** `trades_as_dataframe`: keep the first six fields of each record, convert price and
      volume with `numeric` (Python's `float`) and time with `seconds` (pandas' epoch-seconds
      conversion), in that column order. */
  function TradesAsDataframe(records: seq<seq<Field>>, numeric: Field -> Option<int>,
                             seconds: Field -> Option<int>): (r: Result<seq<Trade>, TradeError>)
    ensures r.Success? <==> forall i :: 0 <= i < |records| ==> WellFormed(records[i], numeric, seconds)
    ensures r.Success? ==> |r.value| == |records|
    ensures r.Success? ==> forall i :: 0 <= i < |records| ==>
      && numeric(records[i][0]) == Some(r.value[i].price)
      && numeric(records[i][1]) == Some(r.value[i].volume)
      && seconds(records[i][2]) == Some(r.value[i].time)
      && r.value[i].side == records[i][3]
      && r.value[i].kind == records[i][4]
      && r.value[i].misc == records[i][5]
  {
    var rows := FirstSix(records);
    if exists i :: 0 <= i < |rows| && |rows[i]| < TradeColumns then Failure(TooFewFields)
    else match ConvertColumn(rows, 0, numeric)
      case Failure(v) => Failure(NotNumeric("price", v))
      case Success(prices) =>
        match ConvertColumn(rows, 1, numeric)
        case Failure(v) => Failure(NotNumeric("volume", v))
        case Success(volumes) =>
          match ConvertColumn(rows, 2, seconds)
          case Failure(v) => Failure(NotNumeric("time", v))
          case Success(times) =>
            Success(seq(|rows|, i requires 0 <= i < |rows| =>
              Trade(prices[i], volumes[i], times[i], rows[i][3], rows[i][4], rows[i][5])))
  }

  /** Fields after the sixth (the trade id of newer API versions) never matter. */
  lemma ExtraFieldsIgnored(records: seq<seq<Field>>, numeric: Field -> Option<int>, seconds: Field -> Option<int>)
    ensures TradesAsDataframe(FirstSix(records), numeric, seconds) == TradesAsDataframe(records, numeric, seconds)
  {
    var rows := FirstSix(records);
    assert forall i :: 0 <= i < |rows| ==> rows[i][..Min(TradeColumns, |rows[i]|)] == rows[i];
    assert FirstSix(rows) == rows;
  }

  /** The row mask `df_trades.index < end_datetime`: the trade's instant is strictly before
      the end date, compared to the microsecond. */
  predicate BeforeEnd(t: Trade, end: Datetime)
    requires 1 <= end.month <= 12
  {
    t.time * 1000000 < UnixMicros(end)
  }

  /** `download_trades` after the exchange call: shape the fetched records, then keep the
      trades strictly before the end date, in their order. */
  function DownloadTrades(fetched: seq<seq<Field>>, end: Datetime, numeric: Field -> Option<int>,
                          seconds: Field -> Option<int>): (r: Result<seq<Trade>, TradeError>)
    requires Valid(end)
    ensures r.Success? <==> TradesAsDataframe(fetched, numeric, seconds).Success?
    ensures r.Success? ==> forall i :: 0 <= i < |r.value| ==>
      BeforeEnd(r.value[i], end) && r.value[i] in TradesAsDataframe(fetched, numeric, seconds).value
    ensures r.Success? ==> forall t :: t in TradesAsDataframe(fetched, numeric, seconds).value && BeforeEnd(t, end) ==>
      t in r.value
    ensures r.Success? ==> r.value == Filter(TradesAsDataframe(fetched, numeric, seconds).value, (t: Trade) => BeforeEnd(t, end))
  {
    match TradesAsDataframe(fetched, numeric, seconds)
    case Failure(e) => Failure(e)
    case Success(trades) =>
      Success(Filter(trades, (t: Trade) => BeforeEnd(t, end)))
  }

  /** On a whole-second end date, the cut keeps exactly the trades before its UTC timestamp;
      a trade at the end itself is dropped. */
  lemma BeforeWholeSecondEnd(t: Trade, end: Datetime)
    requires Valid(end) && end.microsecond == 0
    ensures BeforeEnd(t, end) <==> t.time < DatetimeAsUtcUnix(end)
  {
  }

  predicate TimeOrdered(trades: seq<Trade>) {
    forall i, j :: 0 <= i < j < |trades| ==> trades[i].time <= trades[j].time
  }

  /** For a time-ordered download the cut is a prefix: everything dropped is at or after the end. */
  lemma DownloadOfOrderedIsPrefix(fetched: seq<seq<Field>>, end: Datetime, numeric: Field -> Option<int>,
                                  seconds: Field -> Option<int>)
    requires Valid(end)
    requires TradesAsDataframe(fetched, numeric, seconds).Success?
    requires TimeOrdered(TradesAsDataframe(fetched, numeric, seconds).value)
    ensures var all := TradesAsDataframe(fetched, numeric, seconds).value;
      var kept := DownloadTrades(fetched, end, numeric, seconds).value;
      |kept| <= |all| && kept == all[..|kept|] && forall j :: |kept| <= j < |all| ==> !BeforeEnd(all[j], end)
  {
    var all := TradesAsDataframe(fetched, numeric, seconds).value;
    FilterOfPrefixClosed(all, (t: Trade) => BeforeEnd(t, end));
  }
}
