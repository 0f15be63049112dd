/** File names for the saved trade history and OHLC data (krakenohlc/io.py). Dates arrive
    as the text `str(datetime)` gives, "YYYY-MM-DD HH:MM:SS", with ".ffffff" when the time
    has microseconds. */
module Paths {
  import opened Strings
  import opened Frequencies

  /** The frequency as it appears in a file name: every "T" becomes "M", then "1W-MON"
      becomes "1W". */
  function FrequencySegment(frequency: string): string {
    ReplaceAll(ReplaceAll(frequency, "T", "M"), "1W-MON", "1W")
  }

  /** A date as it appears in a file name: the space becomes "T" and every colon "-". */
  function DateSegment(date: string): (r: string)
    ensures |r| == |date|
    ensures forall i :: 0 <= i < |r| ==>
      r[i] == (if date[i] == ' ' then 'T' else if date[i] == ':' then '-' else date[i])
    ensures forall i :: 0 <= i < |r| ==> r[i] != ' ' && r[i] != ':'
  {
    var spaced := ReplaceAll(date, " ", "T");
    ReplaceCharAt(date, ' ', 'T');
    ReplaceCharAt(spaced, ':', '-');
    ReplaceAll(spaced, ":", "-")
  }

  /** `define_filepath`: "folder/pair_start_end_frequency.csv", or "folder/pair_start_end.csv"
      when the frequency segment is empty. */
  function DefineFilepath(folder: string, pair: string, startDatetime: string, endDatetime: string,
                          frequency: string): (path: string)
    ensures StartsWith(path, folder + "/" + pair + "_" + DateSegment(startDatetime) + "_" + DateSegment(endDatetime))
    ensures |path| >= 4 && path[|path| - 4..] == ".csv"
    ensures var stem := folder + "/" + pair + "_" + DateSegment(startDatetime) + "_" + DateSegment(endDatetime);
      FrequencySegment(frequency) == [] <==> |path| == |stem| + 4
    ensures var stem := folder + "/" + pair + "_" + DateSegment(startDatetime) + "_" + DateSegment(endDatetime);
      FrequencySegment(frequency) != [] ==>
        && |path| == |stem| + 1 + |FrequencySegment(frequency)| + 4
        && path[|stem|] == '_'
        && path[|stem| + 1..|path| - 4] == FrequencySegment(frequency)
  {
    var segment := FrequencySegment(frequency);
    var stem := folder + "/" + pair + "_" + DateSegment(startDatetime) + "_" + DateSegment(endDatetime);
    if segment != [] then stem + "_" + segment + ".csv" else stem + ".csv"
  }

  /** The segment each frequency token of the tool is saved under. */
  function FileToken(f: Frequency): string {
    match f
    case Minute1 => "1M"
    case Minute3 => "3M"
    case Minute5 => "5M"
    case Minute15 => "15M"
    case Minute30 => "30M"
    case Hour1 => "1H"
    case Hour2 => "2H"
    case Hour4 => "4H"
    case Hour6 => "6H"
    case Hour8 => "8H"
    case Hour12 => "12H"
    case Day1 => "1D"
    case Day3 => "3D"
    case WeekMonday => "1W"
  }

  lemma FrequencySegmentOfToken(f: Frequency)
    ensures FrequencySegment(Token(f)) == FileToken(f)
  {
    var t := Token(f);
    ReplaceCharAt(t, 'T', 'M');
    var m := ReplaceAll(t, "T", "M");
    if f == WeekMonday {
      assert m == t;
      assert StartsWith(m, "1W-MON") && m[6..] == [];
    } else {
      ShortAbsent(m, "1W-MON");
      ReplaceAbsent(m, "1W-MON", "1W");
      assert m == FileToken(f);
    }
  }

  /** Different frequencies are saved under different segments, so files never collide. */
  lemma FrequencySegmentInjective(f: Frequency, g: Frequency)
    ensures FrequencySegment(Token(f)) == FrequencySegment(Token(g)) ==> f == g
  {
    FrequencySegmentOfToken(f);
    FrequencySegmentOfToken(g);
  }

  /** OHLC files of one pair and date range but different frequencies have different paths. */
  lemma DistinctFrequenciesDistinctPaths(folder: string, pair: string, startDatetime: string,
                                         endDatetime: string, f: Frequency, g: Frequency)
    requires f != g
    ensures DefineFilepath(folder, pair, startDatetime, endDatetime, Token(f)) !=
            DefineFilepath(folder, pair, startDatetime, endDatetime, Token(g))
  {
    FrequencySegmentInjective(f, g);
    FrequencySegmentOfToken(f);
    FrequencySegmentOfToken(g);
  }

  lemma ExampleStartSegment(start: string)
    requires start == "2020-03-28 00:00:00"
    ensures DateSegment(start) == "2020-03-28T00-00-00"
  {
  }

  lemma ExampleEndSegment(end: string)
    requires end == "2021-05-04 15:00:00"
    ensures DateSegment(end) == "2021-05-04T15-00-00"
  {
  }

  /** The OHLC file name of tests/test_io.py,
      "ohlc/AAVEXBT_2020-03-28T00-00-00_2021-05-04T15-00-00_4H.csv", written in its parts. */
  lemma OhlcFilepathExample(start: string, end: string)
    requires start == "2020-03-28 00:00:00" && end == "2021-05-04 15:00:00"
    ensures DefineFilepath("ohlc", "AAVEXBT", start, end, Token(Hour4))
            == "ohlc" + "/" + "AAVEXBT" + "_" + "2020-03-28T00-00-00" + "_" + "2021-05-04T15-00-00" + "_" + "4H" + ".csv"
  {
    ExampleStartSegment(start);
    ExampleEndSegment(end);
    FrequencySegmentOfToken(Hour4);
  }

  /** The trade history file name of tests/test_io.py,
      "trade_history/AAVEXBT_2020-03-28T00-00-00_2021-05-04T15-00-00.csv": no frequency, no
      frequency segment. */
  lemma TradeHistoryFilepathExample(start: string, end: string)
    requires start == "2020-03-28 00:00:00" && end == "2021-05-04 15:00:00"
    ensures DefineFilepath("trade_history", "AAVEXBT", start, end, "")
            == "trade_history" + "/" + "AAVEXBT" + "_" + "2020-03-28T00-00-00" + "_" + "2021-05-04T15-00-00" + ".csv"
  {
    ExampleStartSegment(start);
    ExampleEndSegment(end);
    assert FrequencySegment("") == "";
  }
}
