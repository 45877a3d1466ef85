/**
 * `Plugin.get_items`: the choice between the currency converter and the
 * unit converter, and the items shown for each kind of outcome.
 */
module Dispatch {
  import opened Wrappers
  import opened Text
  import opened Formatting
  import opened Currency
  import opened Units

  /** A result item: text, subtext, and icon file ("" for the default icon). */
  datatype Item = Item(text: string, subtext: string, icon: string)

  /** What `get_items` does: return a list of items, or let an exception through. */
  datatype Outcome = Items(items: seq<Item>) | Raised(error: CurrencyError)

  /** The currency route: both tokens normalise to codes of the table as it is before the call. */
  predicate CurrencyRoute(currencyAliases: map<string, string>, table: map<string, real>,
                          fromToken: string, toToken: string)
  {
    NormalizeCurrency(currencyAliases, table, fromToken).Some? &&
    NormalizeCurrency(currencyAliases, table, toToken).Some?
  }

  /**
   * The item for a finished conversion: the formatted result, "Converted
   * from" and the formatted original, and the icon of its dimensionality.
   */
  function ResultItem(settings: Settings, env: Env, result: ConversionResult): (item: Item)
    ensures item.text == FormattedResult(settings, env, result)
    ensures |item.subtext| > 15 && item.subtext[..15] == "Converted from " &&
      item.subtext[15..] == FormattedFrom(settings, env, result)
    ensures item.icon == Icon(result.dimensionality) && item.icon[|item.icon| - 4..] == ".svg"
  {
    var from := FormattedFrom(settings, env, result);
    assert ("Converted from " + from)[15..] == from;
    Item(FormattedResult(settings, env, result), "Converted from " + from, Icon(result.dimensionality))
  }

  /**
   * The item for units that cannot be converted into each other: it names
   * the amount and both units, carries the registry's message, and has the
   * default icon.
   */
  function UnableItem(env: Env, amount: real, fromToken: string, toToken: string, message: string): (item: Item)
    ensures |item.text| >= 18 + |toToken| && item.text[..18] == "Unable to convert " &&
      item.text[|item.text| - |toToken|..] == toToken
    ensures |item.text| == 18 + |env.repr(amount)| + 1 + |fromToken| + 4 + |toToken|
    ensures item.text[18..18 + |env.repr(amount)|] == env.repr(amount)
    ensures item.text[19 + |env.repr(amount)|..19 + |env.repr(amount)| + |fromToken|] == fromToken
    ensures item.subtext == message && item.icon == ""
  {
    var text := "Unable to convert " + env.repr(amount) + " " + fromToken + " to " + toToken;
    assert text[..18] == "Unable to convert ";
    assert text[|text| - |toToken|..] == toToken;
    assert text[18..18 + |env.repr(amount)|] == env.repr(amount);
    assert text[19 + |env.repr(amount)|..19 + |env.repr(amount)| + |fromToken|] == fromToken;
    Item(text, message, "")
  }

  /**
   * The items for a currency conversion: one result item on success, none
   * for an unknown currency, and any other failure escapes.
   */
  function CurrencyOutcome(settings: Settings, env: Env, r: Result<ConversionResult, CurrencyError>): (o: Outcome)
    ensures o.Items? <==> r.Success? || r.error.UnknownCurrency?
    ensures o.Raised? ==> r.Failure? && o.error == r.error
    ensures r.Success? ==> o == Items([ResultItem(settings, env, r.value)])
    ensures r.Failure? && r.error.UnknownCurrency? ==> o == Items([])
  {
    match r
    case Success(result) => Items([ResultItem(settings, env, result)])
    case Failure(UnknownCurrency(_)) => Items([])
    case Failure(e) => Raised(e)
  }

  /**
   * The items for a unit conversion, which never escape: one result item on
   * success, one "Unable to convert" item for a dimensionality error, and
   * none for an undefined unit.
   */
  function UnitOutcome(settings: Settings, env: Env, amount: real, fromToken: string, toToken: string,
                       r: Result<ConversionResult, UnitError>): (o: Outcome)
    ensures o.Items? && |o.items| <= 1
    ensures |o.items| == 0 <==> r.Failure? && r.error.UndefinedUnit?
    ensures r.Success? ==> o.items == [ResultItem(settings, env, r.value)]
    ensures r.Failure? && r.error.Dimensionality? ==>
      o.items == [UnableItem(env, amount, fromToken, toToken, r.error.message)]
  {
    match r
    case Success(result) => Items([ResultItem(settings, env, result)])
    case Failure(Dimensionality(message)) => Items([UnableItem(env, amount, fromToken, toToken, message)])
    case Failure(UndefinedUnit(_)) => Items([])
  }

  /** `get_items` as a function of the converter state before the call. */
  function ItemsFor(settings: Settings, env: Env, units: UnitConverter, currencyAliases: map<string, string>,
                    rates: Rates, amount: real, fromToken: string, toToken: string,
                    now: int, feed: Feed, fetchedAt: int): (Outcome, Rates)
  {
    if CurrencyRoute(currencyAliases, rates.table, fromToken, toToken) then
      var (r, rates') := Step(currencyAliases, rates, amount, fromToken, toToken, now, feed, fetchedAt);
      (CurrencyOutcome(settings, env, r), rates')
    else
      (UnitOutcome(settings, env, amount, fromToken, toToken, units.ConvertUnits(amount, fromToken, toToken)), rates)
  }

  /**
   * The currency converter runs exactly when both tokens normalise to
   * currencies; otherwise the unit converter runs and the rate state is
   * untouched.
   */
  lemma Routing(settings: Settings, env: Env, units: UnitConverter, currencyAliases: map<string, string>,
                rates: Rates, amount: real, fromToken: string, toToken: string,
                now: int, feed: Feed, fetchedAt: int)
    ensures var (o, rates') := ItemsFor(settings, env, units, currencyAliases, rates, amount, fromToken, toToken,
                                         now, feed, fetchedAt);
      var step := Step(currencyAliases, rates, amount, fromToken, toToken, now, feed, fetchedAt);
      (NormalizeCurrency(currencyAliases, rates.table, fromToken).Some? &&
       NormalizeCurrency(currencyAliases, rates.table, toToken).Some? ==>
        o == CurrencyOutcome(settings, env, step.0) && rates' == step.1) &&
      (NormalizeCurrency(currencyAliases, rates.table, fromToken).None? ||
       NormalizeCurrency(currencyAliases, rates.table, toToken).None? ==>
        rates' == rates &&
        o == UnitOutcome(settings, env, amount, fromToken, toToken, units.ConvertUnits(amount, fromToken, toToken)))
  {
  }

  /** `get_items` returns at most one item, and the unit route never raises. */
  lemma AtMostOneItem(settings: Settings, env: Env, units: UnitConverter, currencyAliases: map<string, string>,
                      rates: Rates, amount: real, fromToken: string, toToken: string,
                      now: int, feed: Feed, fetchedAt: int)
    ensures var (o, _) := ItemsFor(settings, env, units, currencyAliases, rates, amount, fromToken, toToken,
                                   now, feed, fetchedAt);
      (o.Items? ==> |o.items| <= 1) &&
      (!CurrencyRoute(currencyAliases, rates.table, fromToken, toToken) ==> o.Items?)
  {
  }

  /**
   * How failures surface: an undefined unit or an unknown currency shows
   * nothing, incompatible units show one "Unable to convert" item carrying
   * the registry's message, and the other currency failures (the feed
   * cannot be read, a zero rate) escape as exceptions.
   */
  lemma ErrorOutcomes(settings: Settings, env: Env, units: UnitConverter, currencyAliases: map<string, string>,
                      rates: Rates, amount: real, fromToken: string, toToken: string,
                      now: int, feed: Feed, fetchedAt: int)
    ensures var (o, _) := ItemsFor(settings, env, units, currencyAliases, rates, amount, fromToken, toToken,
                                   now, feed, fetchedAt);
      var step := Step(currencyAliases, rates, amount, fromToken, toToken, now, feed, fetchedAt);
      var u := units.ConvertUnits(amount, fromToken, toToken);
      (CurrencyRoute(currencyAliases, rates.table, fromToken, toToken) ==>
        (step.0.Failure? && step.0.error.UnknownCurrency? ==> o == Items([])) &&
        (step.0.Failure? && !step.0.error.UnknownCurrency? ==> o == Raised(step.0.error)) &&
        (step.0.Success? ==> o == Items([ResultItem(settings, env, step.0.value)]))) &&
      (!CurrencyRoute(currencyAliases, rates.table, fromToken, toToken) ==>
        (u.Failure? && u.error.UndefinedUnit? ==> o == Items([])) &&
        (u.Failure? && u.error.Dimensionality? ==>
          o == Items([UnableItem(env, amount, fromToken, toToken, u.error.message)])) &&
        (u.Success? ==> o == Items([ResultItem(settings, env, u.value)])))
  {
  }

  /**
   * The route is chosen on the table before the lazy refresh: when the
   * refreshed table no longer knows the from-code, the call shows nothing,
   * yet keeps the new table.
   */
  lemma RouteBeforeRefresh(settings: Settings, env: Env, units: UnitConverter, currencyAliases: map<string, string>,
                           rates: Rates, amount: real, fromToken: string, toToken: string,
                           now: int, entries: seq<(string, real)>, fetchedAt: int)
    requires CurrencyRoute(currencyAliases, rates.table, fromToken, toToken)
    requires Stale(rates.lastUpdate, now)
    requires NormalizeCurrency(currencyAliases, CubeTable(entries), fromToken).None?
    ensures ItemsFor(settings, env, units, currencyAliases, rates, amount, fromToken, toToken,
                     now, Cube(entries), fetchedAt) == (Items([]), Rates(CubeTable(entries), fetchedAt))
  {
  }

  /**
   * The item for a currency result: the converted amount followed by the
   * display name of the code itself (an all-capitals code is never
   * pluralised), "Converted from" the original amount and code, and the
   * currency icon.
   */
  lemma CurrencyItemShape(settings: Settings, env: Env, result: ConversionResult)
    requires IsUpper(result.fromUnit) && IsUpper(result.toUnit)
    requires result.dimensionality == "currency"
    ensures var item := ResultItem(settings, env, result);
      item.text == FormatFloatAsWritten(settings, env, result.toAmount) + " " +
        GetOr(settings.displayNames, result.toUnit, result.toUnit) &&
      item.subtext == "Converted from " + FormatFloatAsWritten(settings, env, result.fromAmount) + " " +
        GetOr(settings.displayNames, result.fromUnit, result.fromUnit) &&
      item.icon == "currency.svg"
  {
    var f := result.fromUnit;
    CodeShown(settings, env, result.fromAmount, f);
    Prefixed("Converted from ", FormatFloatAsWritten(settings, env, result.fromAmount),
             GetOr(settings.displayNames, f, f));
    CurrencyIcon(result.dimensionality);
  }

  lemma CodeShown(settings: Settings, env: Env, amount: real, code: string)
    requires IsUpper(code)
    ensures DisplayUnitName(settings, env, amount, code) == GetOr(settings.displayNames, code, code)
  {
  }

  lemma Prefixed(p: string, a: string, b: string)
    ensures p + (a + " " + b) == p + a + " " + b
  {
  }

  /** A currency conversion whose codes contain letters yields such a result. */
  lemma CurrencyResultCodes(currencyAliases: map<string, string>, table: map<string, real>,
                            amount: real, fromToken: string, toToken: string)
    requires ConvertWith(currencyAliases, table, amount, fromToken, toToken).Success?
    requires HasLetter(GetOr(currencyAliases, fromToken, fromToken))
    requires HasLetter(GetOr(currencyAliases, toToken, toToken))
    ensures var result := ConvertWith(currencyAliases, table, amount, fromToken, toToken).value;
      IsUpper(result.fromUnit) && IsUpper(result.toUnit) && result.dimensionality == "currency" &&
      result.fromAmount == amount
  {
    NormalizedIsUpper(currencyAliases, table, fromToken);
    NormalizedIsUpper(currencyAliases, table, toToken);
  }

  class Plugin {
    const units: UnitConverter
    const currency: CurrencyConverter
    const settings: Settings
    const env: Env

    constructor (units: UnitConverter, currency: CurrencyConverter, settings: Settings, env: Env)
      ensures this.units == units && this.currency == currency && this.settings == settings && this.env == env
    {
      this.units := units;
      this.currency := currency;
      this.settings := settings;
      this.env := env;
    }

    /**
     * `initialize`: both converters take the configured aliases; the
     * currency converter reads the feed, and a failed read fails the plugin.
     */
    static method Initialize(aliases: map<string, string>, registry: Registry, settings: Settings, env: Env,
                             now: int, feed: Feed) returns (r: Result<Plugin, CurrencyError>)
      ensures r.Failure? <==> feed.ReadFails?
      ensures r.Success? ==>
        fresh(r.value) && fresh(r.value.currency) &&
        r.value.units == UnitConverter(aliases, registry) && r.value.currency.aliases == aliases &&
        r.value.currency.State() == Rates(Fetched(feed).value, now) &&
        r.value.settings == settings && r.value.env == env
    {
      var c := CurrencyConverter.Create(aliases, now, feed);
      if c.Failure? {
        return Failure(c.error);
      }
      var p := new Plugin(UnitConverter(aliases, registry), c.value, settings, env);
      return Success(p);
    }

    /** `get_items`. */
    method GetItems(amount: real, fromToken: string, toToken: string, now: int, feed: Feed, fetchedAt: int)
      returns (o: Outcome)
      modifies currency
      ensures (o, currency.State()) ==
        ItemsFor(settings, env, units, currency.aliases, old(currency.State()), amount, fromToken, toToken,
                 now, feed, fetchedAt)
    {
      var fromCode := currency.Normalize(fromToken);
      var toCode := currency.Normalize(toToken);
      if fromCode.Some? && toCode.Some? {
        var r := currency.ConvertCurrency(amount, fromToken, toToken, now, feed, fetchedAt);
        o := CurrencyOutcome(settings, env, r);
      } else {
        var r := units.ConvertUnits(amount, fromToken, toToken);
        o := UnitOutcome(settings, env, amount, fromToken, toToken, r);
      }
    }
  }
}
