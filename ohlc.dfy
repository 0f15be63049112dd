/** OHLC bars: the boundary test on requested dates, the trimming of the edge bars it
    drives, and the resampling of trades into left-closed, left-labelled buckets. */
module Ohlc {
  import opened Results
  import opened Sequences
  import opened Calendar
  import opened Frequencies
  import opened Trades

  // ---------------------------------------------------------------------------
  // Boundary test

  /** pandas' `Timestamp.round` to a multiple of `p`: to the nearest multiple, a tie going
      to the even multiple. */
  function RoundHalfEven(t: int, p: int): (r: int)
    requires p > 0
    ensures r % p == 0
    ensures 2 * (t - r) <= p && 2 * (r - t) <= p
    ensures r == t <==> t % p == 0
  {
    var q, rem := t / p, t % p;
    assert t == q * p + rem && 0 <= rem < p;
    assert (q + 1) * p == q * p + p;
    MultipleDivMod(q, p);
    MultipleDivMod(q + 1, p);
    if 2 * rem < p then q * p
    else if 2 * rem > p then (q + 1) * p
    else if q % 2 == 0 then q * p
    else (q + 1) * p
  }

  /** `date.round(frequency)`: `None` stands for the `ValueError` pandas raises for a
      frequency that is not a fixed span (the weekly one). */
  function RoundToFrequency(date: int, f: Frequency): Option<int> {
    if IsFixed(f) then Some(RoundHalfEven(date, Period(f))) else None
  }

  /** `check_trades_ohlc_start_end_dates`: whether `date` is a correct start date (`start`)
      or end date for `f`. A date that rounds to itself is correct; when rounding fails the
      weekday decides: Monday for a start date, Sunday for an end date. */
  function CheckTradesOhlcStartEndDates(date: int, start: bool, f: Frequency): (correct: bool)
    ensures IsFixed(f) ==> (correct <==> date % Period(f) == 0)
    ensures IsFixed(f) ==> (correct <==> OnBoundary(date, f))
  {
    match RoundToFrequency(date, f)
    case Some(rounded) => date == rounded
    case None => DayOfWeek(date) == (if start then 0 else 6)
  }

  /** The boundary test on the calendar date itself, at the microsecond resolution pandas
      compares at: for a fixed frequency the date is correct when its UTC microsecond count
      rounds to itself on the period in microseconds, so a date with a fraction of a second
      (an end date clamped to now) is never correct; for the weekly frequency the calendar
      weekday decides. On whole-second dates it agrees with the test on seconds. */
  function CheckDatetime(date: Datetime, start: bool, f: Frequency): (correct: bool)
    requires Valid(date)
    ensures IsFixed(f) && date.microsecond != 0 ==> !correct
    ensures IsFixed(f) && date.microsecond == 0 ==>
      (correct <==> CheckTradesOhlcStartEndDates(DatetimeAsUtcUnix(date), start, f))
    ensures !IsFixed(f) ==> (correct <==> (Ordinal(date) + 6) % 7 == (if start then 0 else 6))
    ensures !IsFixed(f) && date.microsecond == 0 ==>
      (correct <==> CheckTradesOhlcStartEndDates(DatetimeAsUtcUnix(date), start, f))
  {
    var seconds := EpochDays(date) * 86400 + SecondOfDay(date);
    DayOfWeekOfDatetime(date);
    if IsFixed(f) then
      ScaledMultiple(seconds, date.microsecond, Period(f));
      RoundHalfEven(UnixMicros(date), Period(f) * 1000000) == UnixMicros(date)
    else
      DayOfWeek(seconds) == (if start then 0 else 6)
  }

  /** A count of seconds and microseconds is a multiple of `p` seconds exactly when it has
      no microseconds and the seconds are a multiple of `p`. */
  lemma ScaledMultiple(s: int, u: int, p: int)
    requires p > 0 && 0 <= u < 1000000
    ensures (s * 1000000 + u) % (p * 1000000) == 0 <==> u == 0 && s % p == 0
  {
    var m, q := s * 1000000 + u, p * 1000000;
    if m % q == 0 {
      var k := m / q;
      assert m == k * q;
      assert u == (k * p - s) * 1000000;
      if k * p - s >= 1 {
        MulAtLeast(k * p - s, 1000000);
      } else if k * p - s <= -1 {
        MulAtLeast(s - k * p, 1000000);
      }
      assert s == k * p;
      MultipleDivMod(k, p);
    }
    if u == 0 && s % p == 0 {
      var k := s / p;
      assert s == k * p;
      assert m == k * q;
      MultipleDivMod(k, q);
    }
  }

  /** For the weekly frequency only the weekday counts, so the time of day is ignored. */
  lemma WeeklyCheckIgnoresTimeOfDay(date: int, other: int, start: bool)
    requires date / 86400 == other / 86400
    ensures CheckTradesOhlcStartEndDates(date, start, WeekMonday) ==
            CheckTradesOhlcStartEndDates(other, start, WeekMonday)
    ensures CheckTradesOhlcStartEndDates(date, start, WeekMonday) <==>
            DayOfWeek(date) == (if start then 0 else 6)
  {
  }

  // ---------------------------------------------------------------------------
  // Bars

  datatype Prices = Prices(open: int, high: int, low: int, close: int)

  /** One row of the OHLCV frame, labelled by the start of its bucket. A bucket without
      trades has no prices (pandas' NaN row) and a volume of 0 (an empty sum). */
  datatype Bar = Bar(time: int, prices: Option<Prices>, volume: int)

  /** What `adjust_ohlc_frequency_dates` prints after a trim. */
  datatype Notice =
    | NotEnoughData(pair: string, frequency: string)
    | DataTruncated(pair: string, frequency: string, first: int, last: int)

  /** The printed line, given the rendering of a bar label (`str` of a pandas Timestamp). */
  function NoticeText(n: Notice, labelText: int -> string): string {
    match n
    case NotEnoughData(pair, frequency) => pair + " " + frequency + ": Not enough data."
    case DataTruncated(pair, frequency, first, last) =>
      pair + " " + frequency + ": Data truncated from " + labelText(first) + " to " + labelText(last) + "."
  }

  lemma NotEnoughDataExample(labelText: int -> string)
    ensures NoticeText(NotEnoughData("GRTETH", Token(WeekMonday)), labelText) == "GRTETH 1W-MON: Not enough data."
  {
  }

  // ---------------------------------------------------------------------------
  // Edge trimming

  /** Python's `df[1:]`. */
  function DropFirst<T>(s: seq<T>): seq<T> {
    if s == [] then [] else s[1..]
  }

  /** Python's `df[:-1]`. */
  function DropLast<T>(s: seq<T>): seq<T> {
    if s == [] then [] else s[..|s| - 1]
  }

  function Max0(x: int): nat {
    if x < 0 then 0 else x
  }

  function DropCount(correct: bool): nat {
    if correct then 0 else 1
  }

  /** The frame `adjust_ohlc_frequency_dates` returns: the first row dropped unless the start
      date is correct, then the last row dropped unless the end date is correct. The result
      is a contiguous run of the input; its length depends only on the two tests and |df|. */
  function Adjusted(startDatetime: int, endDatetime: int, f: Frequency, df: seq<Bar>): (r: seq<Bar>)
    ensures var ds := DropCount(CheckTradesOhlcStartEndDates(startDatetime, true, f));
      var de := DropCount(CheckTradesOhlcStartEndDates(endDatetime, false, f));
      && |r| == Max0(|df| - ds - de)
      && (|df| <= ds ==> r == [])
      && (|df| > ds ==> r == df[ds..ds + |r|])
    ensures CheckTradesOhlcStartEndDates(startDatetime, true, f) && CheckTradesOhlcStartEndDates(endDatetime, false, f)
      ==> r == df
  {
    var afterStart := if CheckTradesOhlcStartEndDates(startDatetime, true, f) then df else DropFirst(df);
    if CheckTradesOhlcStartEndDates(endDatetime, false, f) then afterStart else DropLast(afterStart)
  }

  /** `adjust_ohlc_frequency_dates`: trims the frame step by step and reports what it did. */
  method AdjustOhlcFrequencyDates(startDatetime: int, endDatetime: int, frequency: Frequency,
                                  df: seq<Bar>, pair: string)
    returns (adjusted: seq<Bar>, notice: Option<Notice>)
    ensures adjusted == Adjusted(startDatetime, endDatetime, frequency, df)
    ensures notice.None? <==>
      CheckTradesOhlcStartEndDates(startDatetime, true, frequency) && CheckTradesOhlcStartEndDates(endDatetime, false, frequency)
    ensures notice.Some? ==> (notice.value.NotEnoughData? <==> adjusted == [])
    ensures notice.Some? && adjusted == [] ==> notice.value == NotEnoughData(pair, Token(frequency))
    ensures notice.Some? && adjusted != [] ==>
      notice.value == DataTruncated(pair, Token(frequency), adjusted[0].time, adjusted[|adjusted| - 1].time)
  {
    adjusted := df;
    var correctStartDate := CheckTradesOhlcStartEndDates(startDatetime, true, frequency);
    if !correctStartDate {
      adjusted := DropFirst(adjusted);
    }
    var correctEndDate := CheckTradesOhlcStartEndDates(endDatetime, false, frequency);
    if !correctEndDate {
      adjusted := DropLast(adjusted);
    }
    notice := None;
    if !correctStartDate || !correctEndDate {
      if adjusted == [] {
        notice := Some(NotEnoughData(pair, Token(frequency)));
      } else {
        notice := Some(DataTruncated(pair, Token(frequency), adjusted[0].time, adjusted[|adjusted| - 1].time));
      }
    }
  }

  /** The trim decisions ignore the rows, so a second pass with a failing test drops rows
      again: trimming is not idempotent. */
  lemma AdjustedTwice(startDatetime: int, endDatetime: int, f: Frequency, df: seq<Bar>)
    ensures var ds := DropCount(CheckTradesOhlcStartEndDates(startDatetime, true, f));
      var de := DropCount(CheckTradesOhlcStartEndDates(endDatetime, false, f));
      |Adjusted(startDatetime, endDatetime, f, Adjusted(startDatetime, endDatetime, f, df))| == Max0(|df| - 2 * (ds + de))
    ensures var once := Adjusted(startDatetime, endDatetime, f, df);
      once != [] && !(CheckTradesOhlcStartEndDates(startDatetime, true, f) && CheckTradesOhlcStartEndDates(endDatetime, false, f))
      ==> Adjusted(startDatetime, endDatetime, f, once) != once
  {
  }

  // ---------------------------------------------------------------------------
  // Resampling

  /** The trades of bucket `slot`, in their order. */
  function Bucket(trades: seq<Trade>, f: Frequency, slot: int): seq<Trade> {
    Filter(trades, (x: Trade) => BucketStart(x.time, f) == slot)
  }

  function TotalVolume(trades: seq<Trade>): int {
    if trades == [] then 0 else trades[0].volume + TotalVolume(trades[1..])
  }

  function HighPrice(trades: seq<Trade>): (h: int)
    requires trades != []
    ensures forall i :: 0 <= i < |trades| ==> trades[i].price <= h
    ensures exists i :: 0 <= i < |trades| && trades[i].price == h
  {
    if |trades| == 1 then trades[0].price
    else
      var rest := HighPrice(trades[1..]);
      if trades[0].price >= rest then trades[0].price else rest
  }

  function LowPrice(trades: seq<Trade>): (l: int)
    requires trades != []
    ensures forall i :: 0 <= i < |trades| ==> l <= trades[i].price
    ensures exists i :: 0 <= i < |trades| && trades[i].price == l
  {
    if |trades| == 1 then trades[0].price
    else
      var rest := LowPrice(trades[1..]);
      if trades[0].price <= rest then trades[0].price else rest
  }

  /** pandas' "ohlc" aggregation of one bucket. */
  function Aggregate(bucket: seq<Trade>): (p: Option<Prices>)
    ensures p.None? <==> bucket == []
    ensures p.Some? ==> p.value.open == bucket[0].price && p.value.close == bucket[|bucket| - 1].price
    ensures p.Some? ==> forall i :: 0 <= i < |bucket| ==> p.value.low <= bucket[i].price <= p.value.high
    ensures p.Some? ==> exists i :: 0 <= i < |bucket| && bucket[i].price == p.value.high
    ensures p.Some? ==> exists i :: 0 <= i < |bucket| && bucket[i].price == p.value.low
    ensures p.Some? ==> p.value.low <= p.value.open <= p.value.high && p.value.low <= p.value.close <= p.value.high
  {
    if bucket == [] then None
    else Some(Prices(bucket[0].price, HighPrice(bucket), LowPrice(bucket), bucket[|bucket| - 1].price))
  }

  /** The row of bucket `slot`: its prices aggregated and its volumes summed. */
  function BarAt(trades: seq<Trade>, f: Frequency, slot: int): Bar {
    var bucket := Bucket(trades, f, slot);
    Bar(slot, Aggregate(bucket), TotalVolume(bucket))
  }

  /** The labels of a resample: every boundary of `f` from `slot` up to `last`. */
  function Slots(slot: int, last: int, f: Frequency): (labels: seq<int>)
    requires OnBoundary(slot, f)
    ensures labels == [] <==> last < slot
    ensures labels != [] ==> labels[0] == slot
    decreases last - slot
  {
    if last < slot then []
    else
      NextBoundary(slot, f);
      [slot] + Slots(slot + Period(f), last, f)
  }

  lemma SlotsUnfold(slot: int, last: int, f: Frequency)
    requires OnBoundary(slot, f) && slot <= last
    ensures OnBoundary(slot + Period(f), f)
    ensures Slots(slot, last, f) == [slot] + Slots(slot + Period(f), last, f)
  {
    NextBoundary(slot, f);
  }

  /** Every label is a boundary between `slot` and `last`. */
  lemma {:induction false} SlotsWithin(slot: int, last: int, f: Frequency)
    requires OnBoundary(slot, f)
    ensures var labels := Slots(slot, last, f);
      forall i :: 0 <= i < |labels| ==> slot <= labels[i] <= last && OnBoundary(labels[i], f)
    decreases last - slot
  {
    if slot <= last {
      SlotsUnfold(slot, last, f);
      SlotsWithin(slot + Period(f), last, f);
      var labels, rest := Slots(slot, last, f), Slots(slot + Period(f), last, f);
      forall i | 0 <= i < |labels|
        ensures slot <= labels[i] <= last && OnBoundary(labels[i], f)
      {
        if i > 0 {
          assert labels[i] == rest[i - 1];
        }
      }
    }
  }

  /** Consecutive labels one period apart. */
  predicate Evenly(labels: seq<int>, p: int) {
    forall k :: 0 <= k < |labels| - 1 ==> labels[k + 1] == labels[k] + p
  }

  lemma {:induction false} SlotsSpaced(slot: int, last: int, f: Frequency)
    requires OnBoundary(slot, f)
    ensures Evenly(Slots(slot, last, f), Period(f))
    decreases last - slot
  {
    if slot <= last {
      SlotsUnfold(slot, last, f);
      SlotsSpaced(slot + Period(f), last, f);
      var labels, rest := Slots(slot, last, f), Slots(slot + Period(f), last, f);
      forall k | 0 <= k < |labels| - 1
        ensures labels[k + 1] == labels[k] + Period(f)
      {
        assert labels[k + 1] == rest[k];
        if k > 0 {
          assert labels[k] == rest[k - 1];
        }
      }
    }
  }

  /** When `last` is a boundary, it is the final label. */
  lemma {:induction false} SlotsEnd(slot: int, last: int, f: Frequency)
    requires OnBoundary(slot, f) && OnBoundary(last, f) && slot <= last
    ensures var labels := Slots(slot, last, f);
      labels != [] && labels[|labels| - 1] == last
    decreases last - slot
  {
    SlotsUnfold(slot, last, f);
    var labels, rest := Slots(slot, last, f), Slots(slot + Period(f), last, f);
    if slot < last {
      BoundariesApart(slot, last, f);
      SlotsEnd(slot + Period(f), last, f);
      assert labels[|labels| - 1] == rest[|rest| - 1];
    }
  }

  /** Every boundary from `slot` to `last` is a label; `i` is its index. */
  lemma {:induction false} SlotsCover(slot: int, last: int, f: Frequency, b: int) returns (i: nat)
    requires OnBoundary(slot, f) && OnBoundary(b, f) && slot <= b <= last
    ensures i < |Slots(slot, last, f)| && Slots(slot, last, f)[i] == b
    decreases last - slot
  {
    SlotsUnfold(slot, last, f);
    var labels, rest := Slots(slot, last, f), Slots(slot + Period(f), last, f);
    if b == slot {
      i := 0;
    } else {
      BoundariesApart(slot, b, f);
      var k := SlotsCover(slot + Period(f), last, f, b);
      assert labels[k + 1] == rest[k];
      i := k + 1;
    }
  }

  /** One row per label, holding the aggregate of that label's bucket. */
  function Rows(trades: seq<Trade>, f: Frequency, labels: seq<int>): (rows: seq<Bar>)
    ensures |rows| == |labels|
    ensures forall i :: 0 <= i < |rows| ==> rows[i].time == labels[i]
  {
    if labels == [] then [] else [BarAt(trades, f, labels[0])] + Rows(trades, f, labels[1..])
  }

  lemma RowsCons(trades: seq<Trade>, f: Frequency, b: int, labels: seq<int>)
    ensures Rows(trades, f, [b] + labels) == [BarAt(trades, f, b)] + Rows(trades, f, labels)
  {
    assert ([b] + labels)[1..] == labels;
  }

  /** The row of each label is the bar of its bucket. */
  lemma {:induction false} RowsAt(trades: seq<Trade>, f: Frequency, labels: seq<int>)
    ensures forall i :: 0 <= i < |labels| ==> Rows(trades, f, labels)[i] == BarAt(trades, f, labels[i])
  {
    if labels != [] {
      RowsAt(trades, f, labels[1..]);
      var rows, rest := Rows(trades, f, labels), Rows(trades, f, labels[1..]);
      forall i | 0 <= i < |labels|
        ensures rows[i] == BarAt(trades, f, labels[i])
      {
        if i > 0 {
          assert rows[i] == rest[i - 1];
          assert labels[1..][i - 1] == labels[i];
        }
      }
    }
  }

  predicate Spaced(bars: seq<Bar>, p: int) {
    forall k :: 0 <= k < |bars| - 1 ==> bars[k + 1].time == bars[k].time + p
  }

  /** `trades_to_ohlc`: resample time-ordered trades into buckets of `f`, closed on the left,
      labelled by their left edge, counted from the epoch (from Monday 00:00 for the weekly
      frequency); one row for every bucket from the first trade's to the last trade's. */
  function TradesToOhlc(trades: seq<Trade>, f: Frequency): (bars: seq<Bar>)
    requires TimeOrdered(trades)
    ensures bars == [] <==> trades == []
    ensures bars != [] ==> bars[0].time == BucketStart(trades[0].time, f)
    ensures bars != [] ==> bars[|bars| - 1].time == BucketStart(trades[|trades| - 1].time, f)
    ensures forall i :: 0 <= i < |bars| ==> OnBoundary(bars[i].time, f)
    ensures Spaced(bars, Period(f))
  {
    if trades == [] then []
    else
      var first, last := BucketStart(trades[0].time, f), BucketStart(trades[|trades| - 1].time, f);
      BucketStartMonotone(trades[0].time, trades[|trades| - 1].time, f);
      SlotsWithin(first, last, f);
      SlotsSpaced(first, last, f);
      SlotsEnd(first, last, f);
      Rows(trades, f, Slots(first, last, f))
  }

  /** The resampled rows of non-empty trades are the rows of the labels from the first
      trade's bucket to the last trade's (an unfolding step for the proofs below). */
  lemma ResampledRows(trades: seq<Trade>, f: Frequency)
    requires TimeOrdered(trades) && trades != []
    ensures var first, last := BucketStart(trades[0].time, f), BucketStart(trades[|trades| - 1].time, f);
      TradesToOhlc(trades, f) == Rows(trades, f, Slots(first, last, f))
  {
  }

  /** A bar of the resample is labelled `b` exactly when `b` is a boundary from the first
      trade's bucket to the last trade's: no bucket in that range is skipped, none outside
      it is added. */
  lemma ResampledLabels(trades: seq<Trade>, f: Frequency, b: int)
    requires TimeOrdered(trades) && trades != []
    ensures var bars := TradesToOhlc(trades, f);
      var first, last := BucketStart(trades[0].time, f), BucketStart(trades[|trades| - 1].time, f);
      (exists i :: 0 <= i < |bars| && bars[i].time == b) <==> OnBoundary(b, f) && first <= b <= last
  {
    var bars := TradesToOhlc(trades, f);
    var first, last := BucketStart(trades[0].time, f), BucketStart(trades[|trades| - 1].time, f);
    ResampledRows(trades, f);
    var labels := Slots(first, last, f);
    assert bars == Rows(trades, f, labels);
    SlotsWithin(first, last, f);
    if OnBoundary(b, f) && first <= b <= last {
      var i := SlotsCover(first, last, f, b);
      assert bars[i].time == labels[i];
    }
  }

  /** Each resampled row holds the aggregate of the bucket it labels. */
  lemma ResampledBars(trades: seq<Trade>, f: Frequency)
    requires TimeOrdered(trades)
    ensures var bars := TradesToOhlc(trades, f);
      forall i :: 0 <= i < |bars| ==> bars[i] == BarAt(trades, f, bars[i].time)
  {
    if trades != [] {
      var first, last := BucketStart(trades[0].time, f), BucketStart(trades[|trades| - 1].time, f);
      ResampledRows(trades, f);
      RowsAt(trades, f, Slots(first, last, f));
    }
  }

  // ---------------------------------------------------------------------------
  // Properties of the resampling

  /** A trade belongs to bucket `slot` exactly when its time falls in the bucket's window. */
  lemma BucketMembers(trades: seq<Trade>, f: Frequency, slot: int, x: Trade)
    requires OnBoundary(slot, f)
    ensures x in Bucket(trades, f, slot) <==> x in trades && slot <= x.time < slot + Period(f)
  {
    var bucket := Bucket(trades, f, slot);
    if x in bucket {
      var i :| 0 <= i < |bucket| && bucket[i] == x;
      assert BucketStart(bucket[i].time, f) == slot;
    }
    if x in trades && slot <= x.time < slot + Period(f) {
      BucketStartUnique(x.time, slot, f);
      var i :| 0 <= i < |trades| && trades[i] == x;
      assert BucketStart(trades[i].time, f) == slot;
    }
  }

  /** Rows one period apart have strictly increasing labels. */
  lemma {:induction false} SpacedIncreasing(bars: seq<Bar>, p: int, i: int, j: int)
    requires p > 0 && Spaced(bars, p)
    requires 0 <= i < j < |bars|
    ensures bars[i].time + p <= bars[j].time
    decreases j - i
  {
    if i + 1 < j {
      SpacedIncreasing(bars, p, i, j - 1);
    }
  }

  /** A trade lies only in the bucket labelled by its own bucket start. */
  lemma TradeInOneBucket(trades: seq<Trade>, f: Frequency, slot: int, x: Trade)
    requires OnBoundary(slot, f) && x in Bucket(trades, f, slot)
    ensures slot == BucketStart(x.time, f)
  {
    BucketMembers(trades, f, slot, x);
    BucketStartUnique(x.time, slot, f);
  }

  /** Every trade lands in exactly one row: the row labelled with its bucket, whose bucket
      holds it. */
  lemma EveryTradeHasItsBar(trades: seq<Trade>, f: Frequency, j: int)
    requires TimeOrdered(trades) && 0 <= j < |trades|
    ensures var bars := TradesToOhlc(trades, f);
      exists i :: 0 <= i < |bars| && bars[i].time == BucketStart(trades[j].time, f)
                               && trades[j] in Bucket(trades, f, bars[i].time)
    ensures var bars := TradesToOhlc(trades, f);
      forall i :: 0 <= i < |bars| && trades[j] in Bucket(trades, f, bars[i].time)
        ==> bars[i].time == BucketStart(trades[j].time, f)
  {
    var i := TradeHasABar(trades, f, j);
    TradeInNoOtherBar(trades, f, j);
  }

  /** The bar labelled by a trade's bucket start exists and holds the trade. */
  lemma TradeHasABar(trades: seq<Trade>, f: Frequency, j: int) returns (i: nat)
    requires TimeOrdered(trades) && 0 <= j < |trades|
    ensures var bars := TradesToOhlc(trades, f);
      i < |bars| && bars[i].time == BucketStart(trades[j].time, f) && trades[j] in Bucket(trades, f, bars[i].time)
  {
    var n := |trades|;
    var first, last := BucketStart(trades[0].time, f), BucketStart(trades[n - 1].time, f);
    var x := trades[j];
    var b := BucketStart(x.time, f);
    BucketStartMonotone(trades[0].time, x.time, f);
    BucketStartMonotone(x.time, trades[n - 1].time, f);
    var labels := Slots(first, last, f);
    var bars := TradesToOhlc(trades, f);
    ResampledRows(trades, f);
    assert bars == Rows(trades, f, labels);
    i := SlotsCover(first, last, f, b);
    assert bars[i].time == labels[i] == b;
    assert x in Bucket(trades, f, b) by {
      assert x in trades;
      BucketMembers(trades, f, b, x);
    }
  }

  /** No other bar holds the trade. */
  lemma TradeInNoOtherBar(trades: seq<Trade>, f: Frequency, j: int)
    requires TimeOrdered(trades) && 0 <= j < |trades|
    ensures var bars := TradesToOhlc(trades, f);
      forall i :: 0 <= i < |bars| && trades[j] in Bucket(trades, f, bars[i].time)
        ==> bars[i].time == BucketStart(trades[j].time, f)
  {
    var bars := TradesToOhlc(trades, f);
    forall k | 0 <= k < |bars| && trades[j] in Bucket(trades, f, bars[k].time)
      ensures bars[k].time == BucketStart(trades[j].time, f)
    {
      TradeInOneBucket(trades, f, bars[k].time, trades[j]);
    }
  }

  function SumVolumes(bars: seq<Bar>): int {
    if bars == [] then 0 else bars[0].volume + SumVolumes(bars[1..])
  }

  lemma SumVolumesCons(bar: Bar, rows: seq<Bar>)
    ensures SumVolumes([bar] + rows) == bar.volume + SumVolumes(rows)
  {
    assert ([bar] + rows)[1..] == rows;
  }

  /** The traded volume of the buckets of `labels`. */
  function LabelsVolume(trades: seq<Trade>, f: Frequency, labels: seq<int>): int {
    if labels == [] then 0 else TotalVolume(Bucket(trades, f, labels[0])) + LabelsVolume(trades, f, labels[1..])
  }

  lemma LabelsVolumeCons(trades: seq<Trade>, f: Frequency, b: int, labels: seq<int>)
    ensures LabelsVolume(trades, f, [b] + labels) == TotalVolume(Bucket(trades, f, b)) + LabelsVolume(trades, f, labels)
  {
    assert ([b] + labels)[1..] == labels;
  }

  /** The rows' volumes add up to the volume of the buckets they label. */
  lemma {:induction false} RowsVolumes(trades: seq<Trade>, f: Frequency, labels: seq<int>)
    ensures SumVolumes(Rows(trades, f, labels)) == LabelsVolume(trades, f, labels)
  {
    if labels != [] {
      assert labels == [labels[0]] + labels[1..];
      RowsCons(trades, f, labels[0], labels[1..]);
      SumVolumesCons(BarAt(trades, f, labels[0]), Rows(trades, f, labels[1..]));
      RowsVolumes(trades, f, labels[1..]);
    }
  }

  lemma {:induction false} LabelsOfNoTrades(f: Frequency, labels: seq<int>)
    ensures LabelsVolume([], f, labels) == 0
  {
    if labels != [] {
      assert Bucket([], f, labels[0]) == [];
      LabelsOfNoTrades(f, labels[1..]);
    }
  }

  /** One more trade adds its volume to its own bucket and to no other. */
  lemma BucketCons(x: Trade, rest: seq<Trade>, f: Frequency, slot: int)
    ensures Bucket([x] + rest, f, slot) == (if BucketStart(x.time, f) == slot then [x] else []) + Bucket(rest, f, slot)
  {
    assert ([x] + rest)[1..] == rest;
  }

  lemma BucketVolumeWithOneMore(x: Trade, rest: seq<Trade>, f: Frequency, slot: int)
    ensures TotalVolume(Bucket([x] + rest, f, slot)) ==
      TotalVolume(Bucket(rest, f, slot)) + (if BucketStart(x.time, f) == slot then x.volume else 0)
  {
    var added := if BucketStart(x.time, f) == slot then [x] else [];
    var bucket := Bucket(rest, f, slot);
    BucketCons(x, rest, f, slot);
    if added == [] {
      assert added + bucket == bucket;
    } else {
      assert (added + bucket)[1..] == bucket;
    }
  }

  /** One more trade adds its volume to the buckets from `slot` to `last` when its own
      bucket is among them. */
  lemma {:induction false} LabelsOfOneMoreTrade(x: Trade, rest: seq<Trade>, f: Frequency, slot: int, last: int)
    requires OnBoundary(slot, f)
    ensures LabelsVolume([x] + rest, f, Slots(slot, last, f)) ==
      LabelsVolume(rest, f, Slots(slot, last, f)) + (if slot <= BucketStart(x.time, f) <= last then x.volume else 0)
    decreases last - slot
  {
    if slot <= last {
      SlotsUnfold(slot, last, f);
      var later := Slots(slot + Period(f), last, f);
      LabelsVolumeCons([x] + rest, f, slot, later);
      LabelsVolumeCons(rest, f, slot, later);
      BucketVolumeWithOneMore(x, rest, f, slot);
      LabelsOfOneMoreTrade(x, rest, f, slot + Period(f), last);
      var b := BucketStart(x.time, f);
      if slot < b {
        BoundariesApart(slot, b, f);
        assert slot + Period(f) <= b;
      } else {
        assert !(slot + Period(f) <= b);
      }
    }
  }

  lemma {:induction false} LabelsVolumeOfTrades(trades: seq<Trade>, f: Frequency, slot: int, last: int)
    requires OnBoundary(slot, f)
    requires forall i :: 0 <= i < |trades| ==> slot <= BucketStart(trades[i].time, f) <= last
    ensures LabelsVolume(trades, f, Slots(slot, last, f)) == TotalVolume(trades)
    decreases |trades|
  {
    if trades == [] {
      LabelsOfNoTrades(f, Slots(slot, last, f));
    } else {
      assert trades == [trades[0]] + trades[1..];
      LabelsVolumeOfTrades(trades[1..], f, slot, last);
      LabelsOfOneMoreTrade(trades[0], trades[1..], f, slot, last);
    }
  }

  /** Resampling loses no volume: the rows' volumes add up to the trades' volumes. */
  lemma VolumeConservation(trades: seq<Trade>, f: Frequency)
    requires TimeOrdered(trades)
    ensures SumVolumes(TradesToOhlc(trades, f)) == TotalVolume(trades)
  {
    if trades != [] {
      var n := |trades|;
      var first, last := BucketStart(trades[0].time, f), BucketStart(trades[n - 1].time, f);
      forall i | 0 <= i < n
        ensures first <= BucketStart(trades[i].time, f) <= last
      {
        BucketStartMonotone(trades[0].time, trades[i].time, f);
        BucketStartMonotone(trades[i].time, trades[n - 1].time, f);
      }
      LabelsVolumeOfTrades(trades, f, first, last);
      RowsVolumes(trades, f, Slots(first, last, f));
      ResampledRows(trades, f);
    }
  }

  function ExampleTrades(side: Field, kind: Field, misc: Field): seq<Trade> {
    [Trade(10, 1, 30, side, kind, misc), Trade(12, 2, 75, side, kind, misc), Trade(9, 3, 165, side, kind, misc)]
  }

  lemma ExampleBucketStarts(trades: seq<Trade>, side: Field, kind: Field, misc: Field)
    requires trades == ExampleTrades(side, kind, misc)
    ensures BucketStart(trades[0].time, Minute1) == 0
    ensures BucketStart(trades[1].time, Minute1) == 60
    ensures BucketStart(trades[2].time, Minute1) == 120
  {
    BucketStartUnique(30, 0, Minute1);
    BucketStartUnique(75, 60, Minute1);
    BucketStartUnique(165, 120, Minute1);
  }

  lemma ExampleBuckets(trades: seq<Trade>, side: Field, kind: Field, misc: Field)
    requires trades == ExampleTrades(side, kind, misc)
    ensures Bucket(trades, Minute1, 0) == [trades[0]]
    ensures Bucket(trades, Minute1, 60) == [trades[1]]
    ensures Bucket(trades, Minute1, 120) == [trades[2]]
  {
    ExampleBucketStarts(trades, side, kind, misc);
    assert trades == [trades[0]] + ([trades[1]] + ([trades[2]] + []));
    forall slot | slot in {0, 60, 120}
      ensures Bucket(trades, Minute1, slot) ==
        (if slot == 0 then [trades[0]] else []) + (if slot == 60 then [trades[1]] else []) + (if slot == 120 then [trades[2]] else [])
    {
      BucketCons(trades[0], [trades[1]] + ([trades[2]] + []), Minute1, slot);
      BucketCons(trades[1], [trades[2]] + [], Minute1, slot);
      BucketCons(trades[2], [], Minute1, slot);
    }
  }

  lemma SingleTradeBar(trades: seq<Trade>, f: Frequency, slot: int, x: Trade)
    requires Bucket(trades, f, slot) == [x]
    ensures BarAt(trades, f, slot) == Bar(slot, Some(Prices(x.price, x.price, x.price, x.price)), x.volume)
  {
    var bucket := [x];
    assert bucket[1..] == [];
    assert HighPrice(bucket) == x.price && LowPrice(bucket) == x.price;
    assert TotalVolume(bucket) == x.volume + TotalVolume([]);
  }

  /** Three consecutive boundaries give three labels. */
  lemma SlotsOfThree(a: int, f: Frequency)
    requires OnBoundary(a, f)
    ensures Slots(a, a + 2 * Period(f), f) == [a, a + Period(f), a + 2 * Period(f)]
  {
    var p := Period(f);
    var b := a + p;
    var c := b + p;
    SlotsUnfold(a, c, f);
    SlotsUnfold(b, c, f);
    SlotsUnfold(c, c, f);
    assert Slots(c + p, c, f) == [];
    assert Slots(a, c, f) == [a] + ([b] + ([c] + []));
  }

  lemma ExampleOrdered(trades: seq<Trade>, side: Field, kind: Field, misc: Field)
    requires trades == ExampleTrades(side, kind, misc)
    ensures TimeOrdered(trades)
  {
    forall i, j | 0 <= i < j < |trades|
      ensures trades[i].time <= trades[j].time
    {
      assert trades[0].time == 30 && trades[1].time == 75 && trades[2].time == 165;
      assert i == 0 || i == 1;
      assert j == 1 || j == 2;
    }
  }

  lemma ExampleLayout(trades: seq<Trade>, side: Field, kind: Field, misc: Field)
    requires trades == ExampleTrades(side, kind, misc)
    ensures TimeOrdered(trades)
    ensures TradesToOhlc(trades, Minute1) == Rows(trades, Minute1, [0, 60, 120])
  {
    ExampleOrdered(trades, side, kind, misc);
    ExampleBucketStarts(trades, side, kind, misc);
    var first, last := BucketStart(trades[0].time, Minute1), BucketStart(trades[|trades| - 1].time, Minute1);
    assert first == 0 && last == first + 2 * Period(Minute1);
    SlotsOfThree(first, Minute1);
    var labels := Slots(first, last, Minute1);
    assert labels == [0, 60, 120];
    ResampledRows(trades, Minute1);
  }

  /** Trades at 00:00:30, 00:01:15 and 00:02:45 resampled by the minute give three rows,
      labelled 00:00, 00:01 and 00:02, one trade each. */
  lemma ThreeTradesAtOneMinute(side: Field, kind: Field, misc: Field)
    ensures TimeOrdered(ExampleTrades(side, kind, misc))
    ensures var bars := TradesToOhlc(ExampleTrades(side, kind, misc), Minute1);
      && |bars| == 3
      && bars[0] == Bar(0, Some(Prices(10, 10, 10, 10)), 1)
      && bars[1] == Bar(60, Some(Prices(12, 12, 12, 12)), 2)
      && bars[2] == Bar(120, Some(Prices(9, 9, 9, 9)), 3)
  {
    var trades := ExampleTrades(side, kind, misc);
    ExampleLayout(trades, side, kind, misc);
    ExampleBuckets(trades, side, kind, misc);
    SingleTradeBar(trades, Minute1, 0, trades[0]);
    SingleTradeBar(trades, Minute1, 60, trades[1]);
    SingleTradeBar(trades, Minute1, 120, trades[2]);
    RowsAt(trades, Minute1, [0, 60, 120]);
  }

  // ---------------------------------------------------------------------------
  // Completeness of the kept rows

  /** The row's whole bucket window lies inside the requested range [start, end). */
  predicate Complete(b: Bar, f: Frequency, start: int, end: int) {
    start <= b.time && b.time + Period(f) <= end
  }

  predicate Within(trades: seq<Trade>, start: int, end: int) {
    forall i :: 0 <= i < |trades| ==> start <= trades[i].time < end
  }

  /** In rows one period apart, every label lies between the first and the last, every
      label after the first is a period past it, and every label before the last a period
      short of it. */
  lemma SpacedBounds(bars: seq<Bar>, p: int)
    requires p > 0 && Spaced(bars, p) && bars != []
    ensures forall i :: 0 <= i < |bars| ==> bars[0].time <= bars[i].time <= bars[|bars| - 1].time
    ensures forall i :: 1 <= i < |bars| ==> bars[0].time + p <= bars[i].time
    ensures forall i :: 0 <= i < |bars| - 1 ==> bars[i].time + p <= bars[|bars| - 1].time
  {
    var n := |bars|;
    forall i | 0 <= i < n
      ensures bars[0].time <= bars[i].time <= bars[n - 1].time
      ensures 1 <= i ==> bars[0].time + p <= bars[i].time
      ensures i < n - 1 ==> bars[i].time + p <= bars[n - 1].time
    {
      if 0 < i {
        SpacedIncreasing(bars, p, 0, i);
      }
      if i < n - 1 {
        SpacedIncreasing(bars, p, i, n - 1);
      }
    }
  }

  /** Rows one period apart on bucket boundaries, the first no earlier than the bucket of
      `start` and the last starting before `end`: the shape of the rows of trades inside
      [start, end). */
  predicate RowsOfRange(bars: seq<Bar>, f: Frequency, start: int, end: int) {
    && bars != []
    && Spaced(bars, Period(f))
    && (forall i :: 0 <= i < |bars| ==> OnBoundary(bars[i].time, f))
    && BucketStart(start, f) <= bars[0].time
    && bars[|bars| - 1].time < end
  }

  lemma ResampledRowsOfRange(trades: seq<Trade>, f: Frequency, start: int, end: int)
    requires TimeOrdered(trades) && Within(trades, start, end) && trades != []
    ensures RowsOfRange(TradesToOhlc(trades, f), f, start, end)
  {
    BucketStartMonotone(start, trades[0].time, f);
  }

  /** For a fixed frequency the rows `adjust_ohlc_frequency_dates` keeps out of rows of
      [start, end) are complete. */
  lemma FixedAdjustedRowsAreComplete(bars: seq<Bar>, f: Frequency, start: int, end: int)
    requires IsFixed(f) && RowsOfRange(bars, f, start, end)
    ensures forall b :: b in Adjusted(start, end, f, bars) ==> Complete(b, f, start, end)
  {
    var r := Adjusted(start, end, f, bars);
    var n := |bars|;
    var ds := DropCount(CheckTradesOhlcStartEndDates(start, true, f));
    var de := DropCount(CheckTradesOhlcStartEndDates(end, false, f));
    SpacedBounds(bars, Period(f));
    forall b | b in r
      ensures Complete(b, f, start, end)
    {
      var k :| 0 <= k < |r| && r[k] == b;
      assert bars[ds + k] == b;
      if ds == 0 {
        BoundaryIsOwnBucketStart(start, f);
      }
      if de == 0 {
        BoundariesApart(b.time, end, f);
      }
    }
  }

  /** For a fixed frequency and trades inside [start, end), every row kept is complete. */
  lemma FixedAdjustedResampledRowsAreComplete(trades: seq<Trade>, f: Frequency, start: int, end: int)
    requires IsFixed(f) && TimeOrdered(trades) && Within(trades, start, end)
    ensures forall b :: b in Adjusted(start, end, f, TradesToOhlc(trades, f)) ==> Complete(b, f, start, end)
  {
    if trades != [] {
      ResampledRowsOfRange(trades, f, start, end);
      FixedAdjustedRowsAreComplete(TradesToOhlc(trades, f), f, start, end);
    }
  }

  /** Drops the first row when its bucket starts before `start` and then the last row when
      its bucket ends after `end`, judging each row by its own window. */
  function TrimIncompleteRows(start: int, end: int, f: Frequency, df: seq<Bar>): (r: seq<Bar>)
    ensures |r| <= |df| <= |r| + 2
    ensures forall i :: 0 <= i < |r| ==> r[i] in df
  {
    var afterStart := if df != [] && df[0].time < start then df[1..] else df;
    if afterStart != [] && end < afterStart[|afterStart| - 1].time + Period(f) then
      afterStart[..|afterStart| - 1]
    else
      afterStart
  }

  /** Index of the first row the corrected trim keeps. */
  function TrimLow(start: int, df: seq<Bar>): nat {
    if df != [] && df[0].time < start then 1 else 0
  }

  /** Index past the last row the corrected trim keeps. */
  function TrimHigh(start: int, end: int, f: Frequency, df: seq<Bar>): nat {
    if TrimLow(start, df) < |df| && end < df[|df| - 1].time + Period(f) then |df| - 1 else |df|
  }

  lemma TrimSlice(start: int, end: int, f: Frequency, df: seq<Bar>)
    ensures TrimLow(start, df) <= TrimHigh(start, end, f, df) <= |df| || df == []
    ensures df != [] ==> TrimIncompleteRows(start, end, f, df) == df[TrimLow(start, df)..TrimHigh(start, end, f, df)]
  {
  }

  lemma TrimWindow(bars: seq<Bar>, f: Frequency, start: int, end: int)
    requires RowsOfRange(bars, f, start, end)
    ensures forall i :: 0 <= i < |bars| ==>
      (TrimLow(start, bars) <= i < TrimHigh(start, end, f, bars) <==> Complete(bars[i], f, start, end))
  {
    SpacedBounds(bars, Period(f));
  }

  /** A slice whose index window matches completeness holds exactly the complete rows. */
  lemma CompleteSlice(bars: seq<Bar>, lo: int, hi: int, f: Frequency, start: int, end: int)
    requires 0 <= lo <= hi <= |bars|
    requires forall i :: 0 <= i < |bars| ==> (lo <= i < hi <==> Complete(bars[i], f, start, end))
    ensures forall b :: b in bars[lo..hi] <==> b in bars && Complete(b, f, start, end)
  {
    var r := bars[lo..hi];
    forall b | b in r
      ensures b in bars && Complete(b, f, start, end)
    {
      var k :| 0 <= k < |r| && r[k] == b;
      assert bars[lo + k] == b;
    }
    forall b | b in bars && Complete(b, f, start, end)
      ensures b in r
    {
      var i :| 0 <= i < |bars| && bars[i] == b;
      assert r[i - lo] == b;
    }
  }

  /** Out of rows of [start, end) the corrected trim keeps exactly the complete ones. */
  lemma TrimKeepsExactlyCompleteRows(bars: seq<Bar>, f: Frequency, start: int, end: int)
    requires RowsOfRange(bars, f, start, end)
    ensures forall b :: b in TrimIncompleteRows(start, end, f, bars) <==> b in bars && Complete(b, f, start, end)
  {
    var lo, hi := TrimLow(start, bars), TrimHigh(start, end, f, bars);
    TrimSlice(start, end, f, bars);
    TrimWindow(bars, f, start, end);
    CompleteSlice(bars, lo, hi, f, start, end);
  }

  /** For trades inside [start, end), the corrected trim keeps exactly the complete rows,
      for every frequency. */
  lemma TrimKeepsExactlyCompleteResampledRows(trades: seq<Trade>, f: Frequency, start: int, end: int)
    requires TimeOrdered(trades) && Within(trades, start, end)
    ensures var bars := TradesToOhlc(trades, f);
      forall b :: b in TrimIncompleteRows(start, end, f, bars) <==> b in bars && Complete(b, f, start, end)
  {
    if trades != [] {
      ResampledRowsOfRange(trades, f, start, end);
      TrimKeepsExactlyCompleteRows(TradesToOhlc(trades, f), f, start, end);
    }
  }

  /** As written, a start on Monday afternoon and an end on Sunday for the weekly frequency
      pass the weekday test, and the one row kept covers the week from Monday 00:00 to the
      next Monday, outside the requested range at both ends. */
  lemma WeeklyCheckKeepsIncompleteRow(side: Field, kind: Field, misc: Field)
    ensures var start, end := 1617030000, 1617494400;
      var trades := [Trade(10, 1, 1617033600, side, kind, misc)];
      var bars := TradesToOhlc(trades, WeekMonday);
      && Within(trades, start, end)
      && CheckTradesOhlcStartEndDates(start, true, WeekMonday)
      && CheckTradesOhlcStartEndDates(end, false, WeekMonday)
      && Adjusted(start, end, WeekMonday, bars) == bars
      && |bars| == 1 && bars[0].time == 1616976000
      && !Complete(bars[0], WeekMonday, start, end)
      && TrimIncompleteRows(start, end, WeekMonday, bars) == []
  {
    BucketStartUnique(1617033600, 1616976000, WeekMonday);
  }

  /** As written, an end on Monday 00:00 fails the weekday test for the weekly frequency, so
      the complete week before it is dropped; the corrected trim keeps it. */
  lemma WeeklyCheckDropsCompleteWeek(side: Field, kind: Field, misc: Field)
    ensures var start, end := 1616976000, 1617580800;
      var trades := [Trade(10, 1, 1617033600, side, kind, misc)];
      var bars := TradesToOhlc(trades, WeekMonday);
      && Within(trades, start, end)
      && !CheckTradesOhlcStartEndDates(end, false, WeekMonday)
      && |bars| == 1 && Complete(bars[0], WeekMonday, start, end)
      && Adjusted(start, end, WeekMonday, bars) == []
      && TrimIncompleteRows(start, end, WeekMonday, bars) == bars
  {
    BucketStartUnique(1617033600, 1616976000, WeekMonday);
  }

  /** As written, an unaligned start drops the first row even when no trade falls in the
      start's partial bucket: with minutes, a start at 00:00:30 and one trade at 00:05:10,
      the complete row 00:05 is dropped; the corrected trim keeps it. */
  lemma UnalignedStartDropsCompleteRow(side: Field, kind: Field, misc: Field)
    ensures var start, end := 30, 600;
      var trades := [Trade(10, 1, 310, side, kind, misc)];
      var bars := TradesToOhlc(trades, Minute1);
      && Within(trades, start, end)
      && |bars| == 1 && bars[0].time == 300 && Complete(bars[0], Minute1, start, end)
      && Adjusted(start, end, Minute1, bars) == []
      && TrimIncompleteRows(start, end, Minute1, bars) == bars
  {
    BucketStartUnique(310, 300, Minute1);
  }
}
