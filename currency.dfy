/**
 * `CurrencyConverter`: a table of exchange rates against the euro, read from
 * the daily reference-rate feed and read again, lazily, once a whole day has
 * passed since the last read; currency codes are normalised through the
 * alias table and upper-casing, and an amount is converted with the two
 * rates.
 */
module Currency {
  import opened Wrappers
  import opened Text
  import opened Formatting

  /** The feed's base currency; the feed itself does not list it. */
  const Base: string := "EUR"

  /** Clock readings are microseconds; `timedelta.days` counts whole days of this length. */
  const Day: int := 86_400_000_000

  /**
   * What a read of the feed yields: a read that raises (the network or the
   * XML parser fails, or the document's last element has no child, so that
   * `root[-1][0]` raises), or the cube's (currency, rate) entries in
   * document order. Indexing an element never gives `None`, so the
   * "no cube" branch of `_get_currencies` cannot be taken.
   */
  datatype Feed = ReadFails | Cube(entries: seq<(string, real)>)

  datatype CurrencyError = UnknownCurrency(currency: string) | FeedUnavailable | ZeroDivision

  /** The converter's mutable state: `currencies` and `last_update`. */
  datatype Rates = Rates(table: map<string, real>, lastUpdate: int)

  /** The dictionary comprehension over the cube: a later entry for a code wins. */
  function FeedTable(entries: seq<(string, real)>): map<string, real>
  {
    if entries == [] then map[]
    else
      var last := entries[|entries| - 1];
      FeedTable(entries[..|entries| - 1])[last.0 := last.1]
  }

  /** The table read from a cube: its entries, then EUR at rate 1. */
  function CubeTable(entries: seq<(string, real)>): map<string, real>
  {
    FeedTable(entries)[Base := 1.0]
  }

  /** The comprehension has a key for exactly the codes the cube lists. */
  lemma {:induction false} FeedTableKeys(entries: seq<(string, real)>, k: string)
    ensures k in FeedTable(entries) <==> exists i :: 0 <= i < |entries| && entries[i].0 == k
  {
    if entries != [] {
      var init := entries[..|entries| - 1];
      FeedTableKeys(init, k);
      if k in FeedTable(init) {
        var i :| 0 <= i < |init| && init[i].0 == k;
        assert entries[i].0 == k;
      }
      if exists i :: 0 <= i < |entries| && entries[i].0 == k {
        var i :| 0 <= i < |entries| && entries[i].0 == k;
        if i < |init| { assert init[i].0 == k; }
      }
    }
  }

  /** The rate kept for a code is that of the code's last entry. */
  lemma {:induction false} FeedTableLastWins(entries: seq<(string, real)>, i: nat)
    requires i < |entries|
    requires forall j :: i < j < |entries| ==> entries[j].0 != entries[i].0
    ensures entries[i].0 in FeedTable(entries) && FeedTable(entries)[entries[i].0] == entries[i].1
  {
    if i < |entries| - 1 {
      var init := entries[..|entries| - 1];
      assert init[i] == entries[i];
      FeedTableLastWins(init, i);
    }
  }

  /**
   * A table read from a cube rates EUR at exactly 1, whatever the cube says
   * about EUR; every other code has the rate of its last entry in the cube,
   * and there are no other codes.
   */
  lemma CubeTableRates(entries: seq<(string, real)>)
    ensures Base in CubeTable(entries) && CubeTable(entries)[Base] == 1.0
    ensures forall i :: (0 <= i < |entries| && entries[i].0 != Base &&
      (forall j :: i < j < |entries| ==> entries[j].0 != entries[i].0)) ==>
      entries[i].0 in CubeTable(entries) && CubeTable(entries)[entries[i].0] == entries[i].1
    ensures forall k :: k in CubeTable(entries) ==>
      k == Base || exists i :: 0 <= i < |entries| && entries[i].0 == k
  {
    forall i | 0 <= i < |entries| && entries[i].0 != Base &&
      (forall j :: i < j < |entries| ==> entries[j].0 != entries[i].0)
      ensures entries[i].0 in CubeTable(entries) && CubeTable(entries)[entries[i].0] == entries[i].1
    {
      FeedTableLastWins(entries, i);
    }
    forall k | k in CubeTable(entries)
      ensures k == Base || exists i :: 0 <= i < |entries| && entries[i].0 == k
    {
      FeedTableKeys(entries, k);
    }
  }

  /** The dictionary construction of `_get_currencies`, entry by entry. */
  method BuildTable(entries: seq<(string, real)>) returns (table: map<string, real>)
    ensures table == CubeTable(entries)
  {
    table := map[];
    for i := 0 to |entries|
      invariant table == FeedTable(entries[..i])
    {
      assert entries[..i + 1][..i] == entries[..i];
      table := table[entries[i].0 := entries[i].1];
    }
    assert entries[..|entries|] == entries;
    table := table[Base := 1.0];
  }

  /** The table a read of the feed yields, or the failure it raises. */
  function Fetched(feed: Feed): (r: Result<map<string, real>, CurrencyError>)
    ensures r.Failure? <==> feed.ReadFails?
    ensures r.Failure? ==> r.error == FeedUnavailable
    ensures r.Success? ==> Base in r.value && r.value[Base] == 1.0
    ensures feed.Cube? ==> r == Success(CubeTable(feed.entries))
  {
    match feed
    case ReadFails => Failure(FeedUnavailable)
    case Cube(entries) => Success(CubeTable(entries))
  }

  /** `_get_currencies`, given what the read of the feed returned. */
  method FetchCurrencies(feed: Feed) returns (r: Result<map<string, real>, CurrencyError>)
    ensures r == Fetched(feed)
  {
    match feed {
      case ReadFails =>
        r := Failure(FeedUnavailable);
      case Cube(entries) =>
        var table := BuildTable(entries);
        r := Success(table);
    }
  }

  /**
   * `normalize_currency`: the alias for the token (or the token), upper-cased,
   * when that is a code of the table; nothing otherwise.
   */
  function NormalizeCurrency(aliases: map<string, string>, table: map<string, real>, token: string): (r: Option<string>)
    ensures r.Some? ==> r.value in table && r.value == Upper(GetOr(aliases, token, token))
    ensures r.None? ==> Upper(GetOr(aliases, token, token)) !in table
  {
    var code := Upper(GetOr(aliases, token, token));
    if code in table then Some(code) else None
  }

  /** A normalised code that is not itself an alias normalises to itself. */
  lemma NormalizeIdempotent(aliases: map<string, string>, table: map<string, real>, token: string)
    requires NormalizeCurrency(aliases, table, token).Some?
    requires NormalizeCurrency(aliases, table, token).value !in aliases
    ensures var code := NormalizeCurrency(aliases, table, token).value;
      NormalizeCurrency(aliases, table, code) == Some(code)
  {
    UpperIdempotent(GetOr(aliases, token, token));
  }

  /** A normalised code with a letter in it is all capitals, so it is never pluralised. */
  lemma NormalizedIsUpper(aliases: map<string, string>, table: map<string, real>, token: string)
    requires NormalizeCurrency(aliases, table, token).Some?
    requires HasLetter(GetOr(aliases, token, token))
    ensures IsUpper(NormalizeCurrency(aliases, table, token).value)
  {
    UpperIsUpper(GetOr(aliases, token, token));
  }

  /** Whether at least one whole day has passed: `(now - last_update).days >= 1`. */
  predicate Stale(lastUpdate: int, now: int)
  {
    (now - lastUpdate) / Day >= 1
  }

  lemma StaleAfterADay(lastUpdate: int, now: int)
    ensures Stale(lastUpdate, now) <==> now - lastUpdate >= Day
  {
    var e := now - lastUpdate;
    assert e == (e / Day) * Day + e % Day;
    if e >= Day {
      assert e / Day >= 1;
    }
  }

  /** The conversion proper, on a given table: normalisation, errors, and the cross rate. */
  function ConvertWith(aliases: map<string, string>, table: map<string, real>, amount: real,
                       fromToken: string, toToken: string): (r: Result<ConversionResult, CurrencyError>)
    ensures var f := NormalizeCurrency(aliases, table, fromToken);
      var t := NormalizeCurrency(aliases, table, toToken);
      r.Success? <==> f.Some? && t.Some? && table[f.value] != 0.0
    ensures r.Success? ==>
      var f := NormalizeCurrency(aliases, table, fromToken).value;
      var t := NormalizeCurrency(aliases, table, toToken).value;
      r.value.fromAmount == amount && r.value.fromUnit == f && r.value.toUnit == t &&
      r.value.dimensionality == "currency" && r.value.toAmount * table[f] == amount * table[t]
  {
    match NormalizeCurrency(aliases, table, fromToken)
    case None => Failure(UnknownCurrency(fromToken))
    case Some(f) =>
      match NormalizeCurrency(aliases, table, toToken)
      case None => Failure(UnknownCurrency(toToken))
      case Some(t) =>
        if table[f] == 0.0 then Failure(ZeroDivision)
        else Success(ConversionResult(amount, f, CrossRate(amount, table[f], table[t]), t, "currency"))
  }

  /** `amount * to_rate / from_rate`, both rates against the euro. */
  function CrossRate(amount: real, fromRate: real, toRate: real): (r: real)
    requires fromRate != 0.0
    ensures r * fromRate == amount * toRate
  {
    amount * toRate / fromRate
  }

  /**
   * The unknown-currency error names the from-token whenever that one is
   * unknown, and the to-token only when the from-token is known.
   */
  lemma UnknownCurrencyReported(aliases: map<string, string>, table: map<string, real>, amount: real,
                                fromToken: string, toToken: string)
    ensures var r := ConvertWith(aliases, table, amount, fromToken, toToken);
      var f := NormalizeCurrency(aliases, table, fromToken);
      var t := NormalizeCurrency(aliases, table, toToken);
      (f.None? ==> r == Failure(UnknownCurrency(fromToken))) &&
      (f.Some? && t.None? ==> r == Failure(UnknownCurrency(toToken))) &&
      ((r.Failure? && r.error.UnknownCurrency?) <==> (f.None? || t.None?))
  {
  }

  /**
   * On success the result is `amount * rate(to) / rate(from)` between the
   * two normalised codes, with dimensionality "currency"; the only other
   * failure is a zero from-rate.
   */
  lemma ConvertSucceeds(aliases: map<string, string>, table: map<string, real>, amount: real,
                        fromToken: string, toToken: string)
    requires NormalizeCurrency(aliases, table, fromToken).Some?
    requires NormalizeCurrency(aliases, table, toToken).Some?
    ensures var f := NormalizeCurrency(aliases, table, fromToken).value;
      var t := NormalizeCurrency(aliases, table, toToken).value;
      var r := ConvertWith(aliases, table, amount, fromToken, toToken);
      (table[f] == 0.0 <==> r == Failure(ZeroDivision)) &&
      (table[f] != 0.0 ==> r == Success(ConversionResult(amount, f, amount * table[t] / table[f], t, "currency")))
  {
  }

  /** Two tokens with the same code convert an amount to itself. */
  lemma ConvertToSameCode(aliases: map<string, string>, table: map<string, real>, amount: real,
                          fromToken: string, toToken: string)
    requires NormalizeCurrency(aliases, table, fromToken).Some?
    requires NormalizeCurrency(aliases, table, toToken) == NormalizeCurrency(aliases, table, fromToken)
    requires table[NormalizeCurrency(aliases, table, fromToken).value] != 0.0
    ensures ConvertWith(aliases, table, amount, fromToken, toToken).Success?
    ensures ConvertWith(aliases, table, amount, fromToken, toToken).value.toAmount == amount
  {
    var c := NormalizeCurrency(aliases, table, fromToken).value;
    CancelRate(amount, table[c]);
  }

  lemma CancelRate(a: real, rate: real)
    requires rate != 0.0
    ensures a * rate / rate == a
  {
  }

  /** Converting there and back with the same two tokens gives the amount back. */
  lemma ConvertRoundTrip(aliases: map<string, string>, table: map<string, real>, amount: real,
                         fromToken: string, toToken: string)
    requires NormalizeCurrency(aliases, table, fromToken).Some?
    requires NormalizeCurrency(aliases, table, toToken).Some?
    requires table[NormalizeCurrency(aliases, table, fromToken).value] != 0.0
    requires table[NormalizeCurrency(aliases, table, toToken).value] != 0.0
    ensures var there := ConvertWith(aliases, table, amount, fromToken, toToken);
      there.Success? &&
      var back := ConvertWith(aliases, table, there.value.toAmount, toToken, fromToken);
      back.Success? && back.value.toAmount == amount
  {
    var rf := table[NormalizeCurrency(aliases, table, fromToken).value];
    var rt := table[NormalizeCurrency(aliases, table, toToken).value];
    CrossRateInverse(amount, rf, rt);
  }

  lemma CrossRateInverse(a: real, rf: real, rt: real)
    requires rf != 0.0 && rt != 0.0
    ensures (a * rt / rf) * rf / rt == a
  {
    assert (a * rt / rf) * rf == a * rt;
  }

  /**
   * One call of `convert_currency` on the state `rates`: a stale table is
   * read again first (a failed read raises and changes nothing), then the
   * conversion runs on the resulting table. `now` is the clock reading at
   * the start of the call and `fetchedAt` the one taken after the read.
   */
  function Step(aliases: map<string, string>, rates: Rates, amount: real, fromToken: string, toToken: string,
                now: int, feed: Feed, fetchedAt: int): (Result<ConversionResult, CurrencyError>, Rates)
  {
    if Stale(rates.lastUpdate, now) then
      match Fetched(feed)
      case Failure(e) => (Failure(e), rates)
      case Success(table) => (ConvertWith(aliases, table, amount, fromToken, toToken), Rates(table, fetchedAt))
    else
      (ConvertWith(aliases, rates.table, amount, fromToken, toToken), rates)
  }

  /**
   * The table and the time of the last update change only once a whole day
   * has passed; within the day the conversion runs on the state as it was.
   */
  lemma StepRefreshesOnlyWhenStale(aliases: map<string, string>, rates: Rates, amount: real,
                                   fromToken: string, toToken: string, now: int, feed: Feed, fetchedAt: int)
    ensures var (r, rates') := Step(aliases, rates, amount, fromToken, toToken, now, feed, fetchedAt);
      (rates' != rates ==> Stale(rates.lastUpdate, now)) &&
      (!Stale(rates.lastUpdate, now) ==>
        rates' == rates && r == ConvertWith(aliases, rates.table, amount, fromToken, toToken))
  {
  }

  /**
   * After a whole day the feed is read: a failed read raises and keeps the
   * old state, a successful one replaces the table wholesale, records the
   * time after the read, and rates EUR at 1.
   */
  lemma StepRefreshes(aliases: map<string, string>, rates: Rates, amount: real,
                      fromToken: string, toToken: string, now: int, feed: Feed, fetchedAt: int)
    requires Stale(rates.lastUpdate, now)
    ensures var (r, rates') := Step(aliases, rates, amount, fromToken, toToken, now, feed, fetchedAt);
      (feed.ReadFails? ==> r == Failure(FeedUnavailable) && rates' == rates) &&
      (feed.Cube? ==>
        rates' == Rates(CubeTable(feed.entries), fetchedAt) &&
        r == ConvertWith(aliases, rates'.table, amount, fromToken, toToken) &&
        Base in rates'.table && rates'.table[Base] == 1.0)
  {
  }

  /** Every table the converter has held rates EUR at exactly 1. */
  predicate EuroBased(rates: Rates)
  {
    Base in rates.table && rates.table[Base] == 1.0
  }

  /** A conversion keeps the table euro-based, whether or not it reads the feed. */
  lemma StepKeepsEuroBased(aliases: map<string, string>, rates: Rates, amount: real,
                           fromToken: string, toToken: string, now: int, feed: Feed, fetchedAt: int)
    requires EuroBased(rates)
    ensures EuroBased(Step(aliases, rates, amount, fromToken, toToken, now, feed, fetchedAt).1)
  {
  }

  class CurrencyConverter {
    const aliases: map<string, string>
    var currencies: map<string, real>
    var lastUpdate: int

    function State(): Rates
      reads this
    {
      Rates(currencies, lastUpdate)
    }

    constructor (aliases: map<string, string>, now: int, table: map<string, real>)
      ensures this.aliases == aliases && State() == Rates(table, now)
    {
      this.aliases := aliases;
      currencies := table;
      lastUpdate := now;
    }

    /**
     * `__init__`: `last_update` is the clock reading taken before the first
     * read of the feed; a failed read makes construction fail.
     */
    static method Create(aliases: map<string, string>, now: int, feed: Feed)
      returns (r: Result<CurrencyConverter, CurrencyError>)
      ensures r.Failure? <==> feed.ReadFails?
      ensures r.Failure? ==> r.error == FeedUnavailable
      ensures r.Success? ==>
        fresh(r.value) && r.value.aliases == aliases && r.value.State() == Rates(Fetched(feed).value, now) &&
        EuroBased(r.value.State())
    {
      var fetched := FetchCurrencies(feed);
      if fetched.Failure? {
        return Failure(fetched.error);
      }
      var c := new CurrencyConverter(aliases, now, fetched.value);
      return Success(c);
    }

    /** `normalize_currency` on the current table. */
    function Normalize(token: string): (r: Option<string>)
      reads this
      ensures r.Some? ==> r.value in currencies && r.value == Upper(GetOr(aliases, token, token))
      ensures r.None? ==> Upper(GetOr(aliases, token, token)) !in currencies
    {
      NormalizeCurrency(aliases, currencies, token)
    }

    /** `convert_currency`. */
    method ConvertCurrency(amount: real, fromToken: string, toToken: string, now: int, feed: Feed, fetchedAt: int)
      returns (r: Result<ConversionResult, CurrencyError>)
      modifies this
      ensures (r, State()) == Step(aliases, old(State()), amount, fromToken, toToken, now, feed, fetchedAt)
    {
      if (now - lastUpdate) / Day >= 1 {
        var fetched := FetchCurrencies(feed);
        if fetched.Failure? {
          return Failure(fetched.error);
        }
        currencies := fetched.value;
        lastUpdate := fetchedAt;
      }
      var fromCode := Normalize(fromToken);
      var toCode := Normalize(toToken);
      if fromCode.None? {
        return Failure(UnknownCurrency(fromToken));
      }
      if toCode.None? {
        return Failure(UnknownCurrency(toToken));
      }
      var fromRate := currencies[fromCode.value];
      var toRate := currencies[toCode.value];
      if fromRate == 0.0 {
        return Failure(ZeroDivision);
      }
      r := Success(ConversionResult(amount, fromCode.value, CrossRate(amount, fromRate, toRate), toCode.value, "currency"));
    }
  }
}
