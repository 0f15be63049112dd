/** The configuration object (krakenohlc/config.py): the values read from the configuration
    file, their validation, and the choice of the pairs to download. The parsed file, the
    current time, the date parser and the exchange's pair list and asset altnames are
    inputs. */
module Configuration {
  import opened Results
  import opened Calendar
  import opened Sequences
  import opened Strings

  const ErrorPrefix: string := "Configuration file incorrectly formatted:"

  /** A date setting: absent from the file, the text the file gives, or the parsed value. */
  datatype DateValue = Unset | Raw(text: string) | Parsed(moment: Datetime)

  /** The `download_all_associated_pairs` mapping; each key may be absent. */
  datatype AssociatedPairs = AssociatedPairs(enabled: Option<bool>, quoteAssets: Option<seq<string>>,
                                             excludedBaseAssets: Option<seq<string>>)

  /** The settings as the configuration file gives them; each key may be absent. */
  datatype Settings = Settings(
    startDatetime: DateValue,
    endDatetime: DateValue,
    saveTradeHistoryAsCsv: Option<bool>,
    volumeInQuoteAsset: Option<bool>,
    downloadAllAssociatedPairs: Option<AssociatedPairs>,
    downloadCustomPairs: Option<seq<string>>,
    ohlcFrequencies: Option<seq<string>>)

  datatype ConfigError =
    | MissingStartDate
    | MissingEndDate
    | StartDateIncorrect(detail: string)
    | EndDateIncorrect(detail: string)
    | MissingFrequencies
    | MissingVolumeInQuoteAsset
    | MissingSaveTradeHistory
      /** `.get` on an absent `download_all_associated_pairs`: Python's AttributeError. */
    | NoAssociatedPairsSection
    | MissingQuoteAssets
    | MissingPairs
    | NoTradablePairs(quoteAsset: string)
    | PairNotAvailable(pair: string)

  /** The text of the exception each error is raised with. */
  function Message(e: ConfigError): string {
    match e
    case MissingStartDate => ErrorPrefix + " Please provide a trades download start date."
    case MissingEndDate => ErrorPrefix + " Please provide a trades download end date."
    case StartDateIncorrect(detail) => ErrorPrefix + " Download start date incorrectly formatted: " + detail
    case EndDateIncorrect(detail) => ErrorPrefix + " Download end date incorrectly formatted: " + detail
    case MissingFrequencies => ErrorPrefix + " Please provide ohlc frequencies."
    case MissingVolumeInQuoteAsset => ErrorPrefix + " Please provide volume_in_quote_asset value (True or False)."
    case MissingSaveTradeHistory => ErrorPrefix + " Please provide save_trade_history value (True or False)."
    case NoAssociatedPairsSection => "'NoneType' object has no attribute 'get'"
    case MissingQuoteAssets => ErrorPrefix + " Please provide quotes assets to download."
    case MissingPairs => ErrorPrefix + " Please provide pairs to download option."
    case NoTradablePairs(quoteAsset) => "No tradable pairs available on Kraken for " + quoteAsset + "."
    case PairNotAvailable(pair) => pair + " pair not available on Kraken."
  }

  /** The validation errors carry the configuration-format prefix; the crash on a missing
      section and the error about a quote asset without pairs do not. */
  lemma MessagePrefix(e: ConfigError)
    ensures !(e.NoAssociatedPairsSection? || e.NoTradablePairs? || e.PairNotAvailable?) ==>
      StartsWith(Message(e), ErrorPrefix)
    ensures e.NoAssociatedPairsSection? || e.NoTradablePairs? ==> !StartsWith(Message(e), ErrorPrefix)
  {
    match e
    case StartDateIncorrect(detail) => PrefixedBy(ErrorPrefix, " Download start date incorrectly formatted: ", detail);
    case EndDateIncorrect(detail) => PrefixedBy(ErrorPrefix, " Download end date incorrectly formatted: ", detail);
    case NoTradablePairs(q) =>
      var head := "No tradable pairs available on Kraken for ";
      assert (head + q + ".")[0] == head[0];
      DifferentFirstCharacter(Message(e), ErrorPrefix);
    case NoAssociatedPairsSection => DifferentFirstCharacter(Message(e), ErrorPrefix);
    case PairNotAvailable(_) =>
    case MissingStartDate => PrefixedBy(ErrorPrefix, " Please provide a trades download start date.", "");
    case MissingEndDate => PrefixedBy(ErrorPrefix, " Please provide a trades download end date.", "");
    case MissingFrequencies => PrefixedBy(ErrorPrefix, " Please provide ohlc frequencies.", "");
    case MissingVolumeInQuoteAsset =>
      PrefixedBy(ErrorPrefix, " Please provide volume_in_quote_asset value (True or False).", "");
    case MissingSaveTradeHistory =>
      PrefixedBy(ErrorPrefix, " Please provide save_trade_history value (True or False).", "");
    case MissingQuoteAssets => PrefixedBy(ErrorPrefix, " Please provide quotes assets to download.", "");
    case MissingPairs => PrefixedBy(ErrorPrefix, " Please provide pairs to download option.", "");
  }

  lemma PrefixedBy(p: string, a: string, b: string)
    ensures StartsWith(p + a + b, p)
  {
    assert (p + a + b)[..|p|] == p;
  }

  lemma DifferentFirstCharacter(s: string, p: string)
    requires |s| > 0 && |p| > 0 && s[0] != p[0]
    ensures !StartsWith(s, p)
  {
    if |p| <= |s| {
      assert s[..|p|][0] == s[0];
    }
  }

  /** The detail raised when the start date is not in the past; it surfaces inside the
      "incorrectly formatted" message because it is raised in the same `try`. */
  const StartNotInPast: string := ErrorPrefix + " The start date must be in the past."

  // ---------------------------------------------------------------------------
  // The checks, each on its own

  /** Python truthiness of a date setting: absent or empty text counts as missing. */
  predicate DateMissing(v: DateValue) {
    v.Unset? || v == Raw("")
  }

  predicate Unparsed(s: Settings) {
    !s.startDatetime.Parsed? && !s.endDatetime.Parsed?
  }

  /** An end date at or after now is replaced by now. */
  function ClampToNow(d: Datetime, now: Datetime): (r: Datetime)
    ensures r == now || Before(r, now)
    ensures Before(d, now) ==> r == d
    ensures !Before(d, now) ==> r == now
  {
    if Before(d, now) then d else now
  }

  predicate Enabled(a: AssociatedPairs) {
    a.enabled == Some(true)
  }

  /** Python truthiness of an optional list. */
  predicate NonEmpty(l: Option<seq<string>>) {
    l.Some? && l.value != []
  }

  function StartDateCheck(start: DateValue, now: Datetime, parse: string -> Result<Datetime, string>): Option<ConfigError>
    requires !start.Parsed?
  {
    if DateMissing(start) then None
    else match parse(start.text)
      case Failure(e) => Some(StartDateIncorrect(e))
      case Success(d) => if Before(d, now) then None else Some(StartDateIncorrect(StartNotInPast))
  }

  function EndDateCheck(end: DateValue, parse: string -> Result<Datetime, string>): Option<ConfigError>
    requires !end.Parsed?
  {
    if DateMissing(end) then None
    else match parse(end.text)
      case Failure(e) => Some(EndDateIncorrect(e))
      case Success(_) => None
  }

  /** The last check: the `if` on associated pairs and the `elif` on custom pairs. */
  function PairOptionsCheck(associated: Option<AssociatedPairs>, custom: Option<seq<string>>): Option<ConfigError> {
    if associated.None? then Some(NoAssociatedPairsSection)
    else if Enabled(associated.value) && !NonEmpty(associated.value.quoteAssets) then Some(MissingQuoteAssets)
    else if !NonEmpty(custom) then Some(MissingPairs)
    else None
  }

  /** The eight checks in the order `__check_configuration` runs them, each evaluated
      independently: `None` when it passes. */
  function Checks(s: Settings, now: Datetime, parse: string -> Result<Datetime, string>): (r: seq<Option<ConfigError>>)
    requires Unparsed(s)
    ensures |r| == 8
  {
    [ if DateMissing(s.startDatetime) then Some(MissingStartDate) else None,
      if DateMissing(s.endDatetime) then Some(MissingEndDate) else None,
      StartDateCheck(s.startDatetime, now, parse),
      EndDateCheck(s.endDatetime, parse),
      if s.ohlcFrequencies.None? then Some(MissingFrequencies) else None,
      if s.volumeInQuoteAsset.None? then Some(MissingVolumeInQuoteAsset) else None,
      if s.saveTradeHistoryAsCsv != Some(true) then Some(MissingSaveTradeHistory) else None,
      PairOptionsCheck(s.downloadAllAssociatedPairs, s.downloadCustomPairs) ]
  }

  /** The error of the first failing check. */
  function FirstError(checks: seq<Option<ConfigError>>): (r: Option<ConfigError>)
    ensures r.None? <==> forall i :: 0 <= i < |checks| ==> checks[i].None?
    ensures r.Some? ==> exists k :: 0 <= k < |checks| && checks[k] == r && forall j :: 0 <= j < k ==> checks[j].None?
  {
    if checks == [] then None
    else if checks[0].Some? then checks[0]
    else
      var rest := FirstError(checks[1..]);
      assert rest.Some? ==> exists k :: 1 <= k < |checks| && checks[k] == rest && forall j :: 0 <= j < k ==> checks[j].None? by {
        if rest.Some? {
          var k :| 0 <= k < |checks[1..]| && checks[1..][k] == rest && forall j :: 0 <= j < k ==> checks[1..][j].None?;
          assert checks[k + 1] == rest;
          assert forall j :: 0 <= j < k + 1 ==> checks[j].None? by {
            forall j | 0 <= j < k + 1
              ensures checks[j].None?
            {
              if j > 0 {
                assert checks[j] == checks[1..][j - 1];
              }
            }
          }
        }
      }
      rest
  }

  /** A failing check preceded only by passing ones is the one reported. */
  lemma FirstErrorAt(checks: seq<Option<ConfigError>>, k: nat)
    requires k < |checks| && checks[k].Some?
    requires forall j :: 0 <= j < k ==> checks[j].None?
    ensures FirstError(checks) == checks[k]
  {
    var r := FirstError(checks);
    var m :| 0 <= m < |checks| && checks[m] == r && forall j :: 0 <= j < m ==> checks[j].None?;
  }

  /** Of eight checks, the first failing one is reported. */
  lemma FirstErrorOfEight(c: seq<Option<ConfigError>>)
    requires |c| == 8
    ensures FirstError(c) == (if c[0].Some? then c[0] else if c[1].Some? then c[1] else if c[2].Some? then c[2]
                              else if c[3].Some? then c[3] else if c[4].Some? then c[4] else if c[5].Some? then c[5]
                              else if c[6].Some? then c[6] else c[7])
  {
    if c[0].Some? { FirstErrorAt(c, 0); }
    else if c[1].Some? { FirstErrorAt(c, 1); }
    else if c[2].Some? { FirstErrorAt(c, 2); }
    else if c[3].Some? { FirstErrorAt(c, 3); }
    else if c[4].Some? { FirstErrorAt(c, 4); }
    else if c[5].Some? { FirstErrorAt(c, 5); }
    else if c[6].Some? { FirstErrorAt(c, 6); }
    else if c[7].Some? { FirstErrorAt(c, 7); }
  }

  /** The order matters: a start date in the future is reported as such even when every
      later setting is missing too. */
  lemma StartNotInPastRejected(s: Settings, now: Datetime, parse: string -> Result<Datetime, string>, d: Datetime)
    requires Unparsed(s) && !DateMissing(s.startDatetime) && !DateMissing(s.endDatetime)
    requires parse(s.startDatetime.text) == Success(d) && !Before(d, now)
    ensures FirstError(Checks(s, now, parse)) == Some(StartDateIncorrect(StartNotInPast))
    ensures Message(StartDateIncorrect(StartNotInPast)) ==
      ErrorPrefix + " Download start date incorrectly formatted: " + ErrorPrefix + " The start date must be in the past."
  {
    var c := Checks(s, now, parse);
    assert c[0].None? && c[1].None? && c[2] == Some(StartDateIncorrect(StartNotInPast));
  }

  /** `save_trade_history_as_csv: False` is rejected exactly like an absent value. */
  lemma SaveFalseLikeMissing(s: Settings, now: Datetime, parse: string -> Result<Datetime, string>)
    requires Unparsed(s)
    ensures FirstError(Checks(s.(saveTradeHistoryAsCsv := Some(false)), now, parse)) ==
            FirstError(Checks(s.(saveTradeHistoryAsCsv := None), now, parse))
  {
    assert Checks(s.(saveTradeHistoryAsCsv := Some(false)), now, parse) ==
           Checks(s.(saveTradeHistoryAsCsv := None), now, parse);
  }

  /** Because of the `elif`, enabling associated pairs with quote assets still requires a
      non-empty custom pair list. */
  lemma AssociatedModeStillNeedsCustomPairs(s: Settings, now: Datetime, parse: string -> Result<Datetime, string>)
    requires Unparsed(s)
    requires forall i :: 0 <= i < 7 ==> Checks(s, now, parse)[i].None?
    requires s.downloadAllAssociatedPairs.Some? && Enabled(s.downloadAllAssociatedPairs.value)
    requires NonEmpty(s.downloadAllAssociatedPairs.value.quoteAssets)
    requires !NonEmpty(s.downloadCustomPairs)
    ensures FirstError(Checks(s, now, parse)) == Some(MissingPairs)
  {
    var c := Checks(s, now, parse);
    assert c[7] == Some(MissingPairs);
    FirstErrorAt(c, 7);
  }

  /** Settings that pass every check give what choosing the pairs relies on. */
  lemma PassedChecksReadyForPairs(s: Settings, now: Datetime, parse: string -> Result<Datetime, string>)
    requires Unparsed(s) && FirstError(Checks(s, now, parse)).None?
    ensures s.startDatetime.Raw? && s.endDatetime.Raw?
    ensures s.downloadAllAssociatedPairs.Some?
    ensures Enabled(s.downloadAllAssociatedPairs.value) ==> NonEmpty(s.downloadAllAssociatedPairs.value.quoteAssets)
    ensures NonEmpty(s.downloadCustomPairs)
    ensures parse(s.startDatetime.text).Success? && Before(parse(s.startDatetime.text).value, now)
    ensures parse(s.endDatetime.text).Success?
  {
    var c := Checks(s, now, parse);
    assert c[0].None? && c[1].None? && c[2].None? && c[3].None? && c[7].None?;
  }

  // ---------------------------------------------------------------------------
  // Pair selection, as functions

  /** The message of tests/test_config.py for a requested pair the exchange does not list. */
  lemma PairNotAvailableExample(pair: string)
    requires pair == "FAKE"
    ensures Message(PairNotAvailable(pair)) == "FAKE pair not available on Kraken."
  {
    assert Message(PairNotAvailable(pair)) == pair + " pair not available on Kraken.";
  }

  /** `[pair for pair in asset_pairs if asset in pair]`. */
  function Matching(assetPairs: seq<string>, asset: string): (r: seq<string>)
    ensures forall i :: 0 <= i < |r| ==> Contains(r[i], asset) && r[i] in assetPairs
    ensures forall p :: p in assetPairs && Contains(p, asset) ==> p in r
    ensures r == Filter(assetPairs, (p: string) => Contains(p, asset))
  {
    var r := Filter(assetPairs, (p: string) => Contains(p, asset));
    assert forall p :: p in assetPairs && Contains(p, asset) ==> p in r by {
      forall p | p in assetPairs && Contains(p, asset)
        ensures p in r
      {
        var i :| 0 <= i < |assetPairs| && assetPairs[i] == p;
      }
    }
    r
  }

  /** Every matching pair occurs among the matches as often as in the exchange list. */
  lemma MatchingMultiplicity(assetPairs: seq<string>, asset: string)
    ensures forall x :: multiset(Matching(assetPairs, asset))[x] == (if Contains(x, asset) then multiset(assetPairs)[x] else 0)
  {
    FilterMultiplicity(assetPairs, (p: string) => Contains(p, asset));
  }

  /** The pairs gathered over the quote assets in order: for each, the exchange pairs whose
      name contains the asset's altname. */
  function Accumulated(assetPairs: seq<string>, altname: string -> string, quotes: seq<string>): seq<string>
    decreases |quotes|
  {
    if quotes == [] then []
    else Accumulated(assetPairs, altname, quotes[..|quotes| - 1]) + Matching(assetPairs, altname(quotes[|quotes| - 1]))
  }

  /** A pair is gathered exactly when it is an exchange pair containing the altname of some
      quote asset. */
  lemma {:induction false} AccumulatedMembers(assetPairs: seq<string>, altname: string -> string, quotes: seq<string>, p: string)
    ensures p in Accumulated(assetPairs, altname, quotes) <==>
      p in assetPairs && exists j :: 0 <= j < |quotes| && Contains(p, altname(quotes[j]))
    decreases |quotes|
  {
    if quotes != [] {
      var n := |quotes|;
      var init := quotes[..n - 1];
      AccumulatedMembers(assetPairs, altname, init, p);
      var m := Matching(assetPairs, altname(quotes[n - 1]));
      if p in m {
        var i :| 0 <= i < |m| && m[i] == p;
      }
      if exists j :: 0 <= j < n && Contains(p, altname(quotes[j])) {
        var j :| 0 <= j < n && Contains(p, altname(quotes[j]));
        if j < n - 1 {
          assert init[j] == quotes[j];
        }
      }
      assert forall j :: 0 <= j < n - 1 ==> init[j] == quotes[j];
    }
  }

  /** What is gathered over a longer run of quote assets extends what is gathered over a
      shorter one, so the list never shrinks. */
  lemma {:induction false} AccumulatedGrows(assetPairs: seq<string>, altname: string -> string, quotes: seq<string>, k: nat)
    requires 1 <= k <= |quotes|
    ensures |Accumulated(assetPairs, altname, quotes[..k])| >= |Matching(assetPairs, altname(quotes[0]))|
    decreases k
  {
    if k == 1 {
      assert quotes[..1][..0] == [];
    } else {
      assert quotes[..k][..k - 1] == quotes[..k - 1];
      AccumulatedGrows(assetPairs, altname, quotes, k - 1);
    }
  }

  /** One more quote asset appends its matching pairs to what is gathered. */
  lemma AccumulatedStep(assetPairs: seq<string>, altname: string -> string, quotes: seq<string>, i: nat)
    requires i < |quotes|
    ensures Accumulated(assetPairs, altname, quotes[..i + 1]) ==
      Accumulated(assetPairs, altname, quotes[..i]) + Matching(assetPairs, altname(quotes[i]))
    ensures i == 0 ==> Accumulated(assetPairs, altname, quotes[..1]) == Matching(assetPairs, altname(quotes[0]))
  {
    assert quotes[..i + 1][..i] == quotes[..i];
  }

  /** Once the first quote asset matched something, the gathered list is never empty again:
      an empty list can only follow the first asset. */
  lemma EmptyOnlyAtFirst(assetPairs: seq<string>, altname: string -> string, quotes: seq<string>, i: nat)
    requires i < |quotes|
    requires i > 0 ==> Matching(assetPairs, altname(quotes[0])) != []
    requires Accumulated(assetPairs, altname, quotes[..i + 1]) == []
    ensures i == 0 && Matching(assetPairs, altname(quotes[0])) == []
  {
    AccumulatedGrows(assetPairs, altname, quotes, i + 1);
  }

  /** `any(base_asset in pair for base_asset in excluded)`. */
  predicate Excluded(pair: string, bases: seq<string>) {
    exists i :: 0 <= i < |bases| && Contains(pair, bases[i])
  }

  /** Keeps, in order, the pairs that contain none of the excluded base assets. */
  function WithoutExcluded(pairs: seq<string>, bases: seq<string>): (r: seq<string>)
    ensures |r| <= |pairs|
    ensures forall i :: 0 <= i < |r| ==> r[i] in pairs && !Excluded(r[i], bases)
    ensures forall p :: p in pairs && !Excluded(p, bases) ==> p in r
    ensures r == Filter(pairs, (p: string) => !Excluded(p, bases))
  {
    var r := Filter(pairs, (p: string) => !Excluded(p, bases));
    assert forall p :: p in pairs && !Excluded(p, bases) ==> p in r by {
      forall p | p in pairs && !Excluded(p, bases)
        ensures p in r
      {
        var i :| 0 <= i < |pairs| && pairs[i] == p;
      }
    }
    r
  }

  /** Every kept pair occurs after exclusion as often as it was gathered. */
  lemma WithoutExcludedMultiplicity(pairs: seq<string>, bases: seq<string>)
    ensures forall x :: multiset(WithoutExcluded(pairs, bases))[x] == (if Excluded(x, bases) then 0 else multiset(pairs)[x])
  {
    FilterMultiplicity(pairs, (p: string) => !Excluded(p, bases));
  }

  /** The pairs chosen in associated mode when no error is raised. */
  function AssociatedSelection(assetPairs: seq<string>, altname: string -> string, quotes: seq<string>,
                               excluded: Option<seq<string>>): seq<string>
  {
    var gathered := Accumulated(assetPairs, altname, quotes);
    if NonEmpty(excluded) then WithoutExcluded(gathered, excluded.value) else gathered
  }

  /** In associated mode a pair is chosen exactly when it is an exchange pair containing a
      quote asset's altname and, when exclusions are given, none of the excluded base assets. */
  lemma AssociatedSelectionMembers(assetPairs: seq<string>, altname: string -> string, quotes: seq<string>,
                                   excluded: Option<seq<string>>, p: string)
    ensures p in AssociatedSelection(assetPairs, altname, quotes, excluded) <==>
      && p in assetPairs
      && (exists j :: 0 <= j < |quotes| && Contains(p, altname(quotes[j])))
      && !(NonEmpty(excluded) && Excluded(p, excluded.value))
  {
    AccumulatedMembers(assetPairs, altname, quotes, p);
    var gathered := Accumulated(assetPairs, altname, quotes);
    if NonEmpty(excluded) {
      var r := WithoutExcluded(gathered, excluded.value);
      if p in r {
        var i :| 0 <= i < |r| && r[i] == p;
      }
    }
  }

  /** The first requested pair that the exchange does not list. */
  function FirstMissing(custom: seq<string>, assetPairs: seq<string>): (r: Option<nat>)
    ensures r.None? <==> forall i :: 0 <= i < |custom| ==> custom[i] in assetPairs
    ensures r.Some? ==> r.value < |custom| && custom[r.value] !in assetPairs
    ensures r.Some? ==> forall j :: 0 <= j < r.value ==> custom[j] in assetPairs
  {
    if custom == [] then None
    else if custom[0] !in assetPairs then Some(0)
    else match FirstMissing(custom[1..], assetPairs)
      case None => None
      case Some(k) => Some(k + 1)
  }

  /** The start date after the checks: parsed once both dates are present and it parses. */
  function CheckedStart(s: Settings, parse: string -> Result<Datetime, string>): DateValue
    requires Unparsed(s)
  {
    if !DateMissing(s.startDatetime) && !DateMissing(s.endDatetime) && parse(s.startDatetime.text).Success?
    then Parsed(parse(s.startDatetime.text).value)
    else s.startDatetime
  }

  /** The end date after the checks: parsed and clamped to now once the start date has
      passed its check and the end date parses. */
  function CheckedEnd(s: Settings, now: Datetime, parse: string -> Result<Datetime, string>): DateValue
    requires Unparsed(s)
  {
    if !DateMissing(s.startDatetime) && !DateMissing(s.endDatetime)
       && StartDateCheck(s.startDatetime, now, parse).None? && parse(s.endDatetime.text).Success?
    then Parsed(ClampToNow(parse(s.endDatetime.text).value, now))
    else s.endDatetime
  }

  // ---------------------------------------------------------------------------
  // The configuration object

  class Config {
    var startDatetime: DateValue
    var endDatetime: DateValue
    var saveTradeHistoryAsCsv: Option<bool>
    var volumeInQuoteAsset: Option<bool>
    var downloadAllAssociatedPairs: Option<AssociatedPairs>
    var downloadCustomPairs: Option<seq<string>>
    var ohlcFrequencies: Option<seq<string>>
    var pairs: seq<string>

    /** The settings the object holds. */
    function Snapshot(): Settings
      reads this`startDatetime, this`endDatetime, this`saveTradeHistoryAsCsv, this`volumeInQuoteAsset,
            this`downloadAllAssociatedPairs, this`downloadCustomPairs, this`ohlcFrequencies
    {
      Settings(startDatetime, endDatetime, saveTradeHistoryAsCsv, volumeInQuoteAsset,
               downloadAllAssociatedPairs, downloadCustomPairs, ohlcFrequencies)
    }

    /** `__read_configuration_file`, given the parsed file. */
    constructor (settings: Settings)
      ensures Snapshot() == settings && pairs == []
    {
      startDatetime := settings.startDatetime;
      endDatetime := settings.endDatetime;
      saveTradeHistoryAsCsv := settings.saveTradeHistoryAsCsv;
      volumeInQuoteAsset := settings.volumeInQuoteAsset;
      downloadAllAssociatedPairs := settings.downloadAllAssociatedPairs;
      downloadCustomPairs := settings.downloadCustomPairs;
      ohlcFrequencies := settings.ohlcFrequencies;
      pairs := [];
    }

    /** `__check_configuration`: runs the checks in order, stopping at the first failure;
        parses the dates in place, replacing an end date at or after now by now. */
    method CheckConfiguration(now: Datetime, parse: string -> Result<Datetime, string>) returns (error: Option<ConfigError>)
      requires Unparsed(Snapshot())
      modifies this
      ensures error == FirstError(Checks(old(Snapshot()), now, parse))
      ensures Snapshot() == old(Snapshot()).(startDatetime := CheckedStart(old(Snapshot()), parse),
                                             endDatetime := CheckedEnd(old(Snapshot()), now, parse))
      ensures pairs == old(pairs)
      ensures error.None? ==> startDatetime.Parsed? && Before(startDatetime.moment, now)
      ensures error.None? ==> endDatetime.Parsed? && (endDatetime.moment == now || Before(endDatetime.moment, now))
      ensures error.None? ==> (parse(old(endDatetime.text)).Success? &&
        var given := parse(old(endDatetime.text)).value;
        endDatetime.moment == (if Before(given, now) then given else now))
    {
      ghost var c := Checks(Snapshot(), now, parse);
      FirstErrorOfEight(c);
      if DateMissing(startDatetime) {
        return Some(MissingStartDate);
      }
      if DateMissing(endDatetime) {
        return Some(MissingEndDate);
      }
      match parse(startDatetime.text) {
        case Failure(e) =>
          return Some(StartDateIncorrect(e));
        case Success(d) =>
          startDatetime := Parsed(d);
          if !Before(d, now) {
            return Some(StartDateIncorrect(StartNotInPast));
          }
      }
      match parse(endDatetime.text) {
        case Failure(e) =>
          return Some(EndDateIncorrect(e));
        case Success(d) =>
          endDatetime := Parsed(ClampToNow(d, now));
      }
      if ohlcFrequencies.None? {
        return Some(MissingFrequencies);
      }
      if volumeInQuoteAsset.None? {
        return Some(MissingVolumeInQuoteAsset);
      }
      if saveTradeHistoryAsCsv != Some(true) {
        return Some(MissingSaveTradeHistory);
      }
      if downloadAllAssociatedPairs.None? {
        return Some(NoAssociatedPairsSection);
      }
      if Enabled(downloadAllAssociatedPairs.value) && !NonEmpty(downloadAllAssociatedPairs.value.quoteAssets) {
        return Some(MissingQuoteAssets);
      } else if !NonEmpty(downloadCustomPairs) {
        return Some(MissingPairs);
      }
      return None;
    }

    /** `__get_configuration_pairs`: in associated mode gathers, quote asset by quote asset,
        the exchange pairs containing its altname, failing as soon as nothing has been
        gathered, then drops the pairs containing an excluded base asset; otherwise checks
        that every requested pair is listed and takes the requested list. */
    method GetConfigurationPairs(assetPairs: seq<string>, altname: string -> string) returns (error: Option<ConfigError>)
      requires downloadAllAssociatedPairs.Some?
      requires Enabled(downloadAllAssociatedPairs.value) ==> downloadAllAssociatedPairs.value.quoteAssets.Some?
      requires !Enabled(downloadAllAssociatedPairs.value) ==> downloadCustomPairs.Some?
      modifies this
      ensures Snapshot() == old(Snapshot())
      ensures var a := downloadAllAssociatedPairs.value;
        Enabled(a) ==> error == (if a.quoteAssets.value != [] && Matching(assetPairs, altname(a.quoteAssets.value[0])) == []
                                 then Some(NoTradablePairs(a.quoteAssets.value[0])) else None)
      ensures var a := downloadAllAssociatedPairs.value;
        Enabled(a) ==> pairs == (if error.None? then AssociatedSelection(assetPairs, altname, a.quoteAssets.value, a.excludedBaseAssets)
                                 else [])
      ensures var a := downloadAllAssociatedPairs.value;
        !Enabled(a) ==> error == (match FirstMissing(downloadCustomPairs.value, assetPairs)
                                  case Some(k) => Some(PairNotAvailable(downloadCustomPairs.value[k]))
                                  case None => None)
      ensures !Enabled(downloadAllAssociatedPairs.value) ==> pairs == (if error.None? then downloadCustomPairs.value else old(pairs))
    {
      var associated := downloadAllAssociatedPairs.value;
      if Enabled(associated) {
        error := GatherAssociatedPairs(assetPairs, altname, associated);
      } else {
        error := RequestedPairsCheck(downloadCustomPairs.value, assetPairs);
        if error.None? {
          pairs := downloadCustomPairs.value;
        }
      }
    }

    /** The associated-mode branch of `__get_configuration_pairs`. */
    method GatherAssociatedPairs(assetPairs: seq<string>, altname: string -> string, associated: AssociatedPairs)
      returns (error: Option<ConfigError>)
      requires associated.quoteAssets.Some?
      modifies this
      ensures Snapshot() == old(Snapshot())
      ensures var quotes := associated.quoteAssets.value;
        error == (if quotes != [] && Matching(assetPairs, altname(quotes[0])) == []
                  then Some(NoTradablePairs(quotes[0])) else None)
      ensures pairs == (if error.None?
                        then AssociatedSelection(assetPairs, altname, associated.quoteAssets.value, associated.excludedBaseAssets)
                        else [])
    {
      pairs := [];
      var quotes := associated.quoteAssets.value;
      var i := 0;
      while i < |quotes|
        invariant 0 <= i <= |quotes|
        invariant pairs == Accumulated(assetPairs, altname, quotes[..i])
        invariant i > 0 ==> Matching(assetPairs, altname(quotes[0])) != []
        invariant Snapshot() == old(Snapshot())
      {
        AccumulatedStep(assetPairs, altname, quotes, i);
        pairs := pairs + Matching(assetPairs, altname(quotes[i]));
        if pairs == [] {
          EmptyOnlyAtFirst(assetPairs, altname, quotes, i);
          return Some(NoTradablePairs(quotes[i]));
        }
        i := i + 1;
      }
      assert quotes[..i] == quotes;
      if NonEmpty(associated.excludedBaseAssets) {
        pairs := WithoutExcluded(pairs, associated.excludedBaseAssets.value);
      }
      return None;
    }
  }

  /** The custom-mode loop of `__get_configuration_pairs`: the first requested pair the
      exchange does not list is an error. */
  method RequestedPairsCheck(custom: seq<string>, assetPairs: seq<string>) returns (error: Option<ConfigError>)
    ensures error == (match FirstMissing(custom, assetPairs)
                      case Some(k) => Some(PairNotAvailable(custom[k]))
                      case None => None)
  {
    var i := 0;
    while i < |custom|
      invariant 0 <= i <= |custom|
      invariant forall j :: 0 <= j < i ==> custom[j] in assetPairs
    {
      if custom[i] !in assetPairs {
        return Some(PairNotAvailable(custom[i]));
      }
      i := i + 1;
    }
    return None;
  }
}
