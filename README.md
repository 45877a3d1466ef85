# Unit converter for Albert — a Dafny model

The Albert launcher extension converts queries such as `10 km to mi` or
`5 usd to eur`. It has two sources of conversions. The first is a unit registry
(pint). The second is a currency table built from the European Central Bank's
daily reference rates against the euro. This project models the logic that
decides between the two and the logic that turns every result into text.

- **Currency** (`currency.dfy`): the `CurrencyConverter` class holds the rate table and
  the time of the last read. The table is built from the feed's cube: later
  entries win, and EUR is set to 1. Codes are normalised with the alias table
  and then upper-cased. The table is read again lazily once a whole day has
  passed, and the cross rate is `amount * to_rate / from_rate`.
- **Units** (`units.dfy`): unit names are resolved in a fixed order: alias first, then
  the exact spelling, then the lower-cased spelling. The conversion goes
  through the registry, which is a parameter.
- **Formatting** (`formatting.dfy`, `numerals.dfy`, `text.dfy`): this covers
  - pluralisation, except for all-capital units;
  - display names;
  - rounding with a second, finer precision for values that would round to zero;
  - fixed-point printing with trailing zeros and the point stripped;
  - the icon file name.
- **Dispatch** (`dispatch.dfy`): `Plugin.get_items`. The currency route is taken when both
  tokens normalise on the table as it is *before* the call. Each error
  becomes no item, an "Unable to convert" item, or an escaping exception.

The foreign functions are fields of `Formatting.Env`. They are inflect's
`plural`, Python's `round(x, n)` and `str(float)`. The feed read is the
`Currency.Feed` parameter, and the clock readings are integer microseconds.
`Numerals.RoundTo` is a concrete half-to-even `round` on reals. The
finding below uses it.

## Model

| member | source | states |
|---|---|---|
| Formatting.SettingsOf | __init__.py:96-98 | display names default to an empty table, precision to 3, zero precision to 12 |
| Formatting.PluralizeUnit | __init__.py:100-113 | a unit whose letters are all capitals (and that has one) is returned unchanged; any other unit gets the engine's plural |
| Formatting.DisplayUnitName | __init__.py:115-126 | with amount 1 or an all-capital unit, the display-name entry for the unit itself is used; otherwise the entry for its plural; and the form itself when there is no entry |
| Formatting.UsedPrecisionChoice | __init__.py:142-147 | the zero precision replaces the precision only when the first rounding gives 0, the zero precision is positive and `abs(num) > 10**-zero_precision` |
| Formatting.ZeroPrecisionKeepsValue | __init__.py:143-147 | with rounding to nearest, whenever the second rounding is taken it is used and gives a nonzero value, so the threshold test selects only values that the zero precision keeps |
| Formatting.FormatFloatAsWritten | __init__.py:128-149 | precision -1 gives `str(num)`; otherwise the result is the value rounded to the chosen precision, printed with six decimals and stripped; it never ends in a point, nor in a zero after a fractional part |
| Formatting.FormatFloat | __init__.py:128-149 | the same, with the rounded value printed to as many places as it was rounded to, and at least six |
| Formatting.FormatFloatAgrees | __init__.py:142-149 | with at most six places used, the corrected and the as-written formatter give the same text |
| Formatting.RoundedNonzeroIsVisible | __init__.py:142-149 | with half-even rounding, a value that does not round to zero is printed with a nonzero digit by the corrected formatter |
| Formatting.ZeroPrecisionHiddenAsWritten | __init__.py:142-149 | as written, with the defaults 3 and 12, `1e-10` is re-rounded to `1e-10` and printed as `"0"` |
| Formatting.StripZerosKeepsNonzero | __init__.py:149 | stripping trailing zeros and the point keeps every nonzero digit |
| Text.StripZerosShape | __init__.py:149 | on a string with at most one point, the stripped string is a prefix of it, has no trailing point, and has no trailing zero after a point |
| Text.StripTrailing | __init__.py:149 | `rstrip(c)` returns a prefix that does not end in `c`, and only `c`s were removed |
| Text.UpperIsUpper | __init__.py:111 | an upper-cased string passes `isupper()` exactly when it contains a letter |
| Text.KeepWordChars | __init__.py:173 | deleting non-word characters keeps only word characters and leaves an all-word string unchanged |
| Text.KeepWordCharsAppend | __init__.py:173 | deleting non-word characters distributes over concatenation |
| Numerals.Numeral | __init__.py:149 | the fixed-point numeral is non-empty, has at most one point, and shows a nonzero digit when the scaled value is nonzero |
| Numerals.ValueOfPadDigits | __init__.py:149 | the zero-padded fraction digits denote the scaled value modulo `10 ** d` |
| Numerals.ValueOfDigits | __init__.py:149 | the integer digits denote the integer part |
| Numerals.FractionDigits | __init__.py:149 | the fraction part has exactly the requested number of digits and shows a nonzero digit when its value is nonzero |
| Formatting.Icon | __init__.py:167-174 | the icon name is the dimensionality's word characters followed by `.svg`; it is that dimensionality plus `.svg` when the dimensionality has only word characters |
| Formatting.IconOfBracketed | __init__.py:172-174 | a bracketed dimensionality such as `[length]` gives `length.svg` |
| Formatting.FormattedResult | __init__.py:151-157 | the result text is the converted amount as the code prints it (six decimals, as written), one space, and the unit name shown for that amount |
| Formatting.FormattedFrom | __init__.py:159-165 | the subtext's amount part is the original amount as the code prints it, one space, and its unit name |
| Formatting.CurrencyIcon | __init__.py:174 | the currency dimensionality gives `currency.svg` |
| Text.KeepBetween | __init__.py:173 | deleting non-word characters around a word, such as the brackets of `[length]`, leaves the word |
| Units.UnitConverter.GetUnit | __init__.py:190-211 | resolution succeeds exactly when the aliased name or its lower-cased form is registered, and prefers the exact spelling; otherwise it fails with an undefined-unit error for the lower-cased name |
| Units.UnitConverter.AliasBeforeCase | __init__.py:206-211 | aliases are looked up with the token as typed: a token that is not an alias key resolves under its own spelling, even when its lower-cased form is an alias for a registered unit |
| Units.UnitConverter.GetUnitRegistered | __init__.py:206-211 | a resolved unit is a unit of the registry |
| Units.UnitConverter.ConvertUnits | __init__.py:213-238 | the from-name's error comes first, then the to-name's; with both resolved, it succeeds exactly when the registry converts, and an incompatibility becomes a dimensionality error with the registry's message; on success the from-amount and from-unit are the input and the resolved unit, and the result is what the registry's conversion returned |
| Currency.FeedTableKeys | __init__.py:279-282 | the comprehension has a key for exactly the codes the cube lists |
| Currency.FeedTableLastWins | __init__.py:279-282 | the rate kept for a code is that of its last entry |
| Currency.CubeTableRates | __init__.py:279-284 | EUR is rated exactly 1; every other listed code keeps its last rate; there are no other codes |
| Currency.BuildTable | __init__.py:279-285 | the loop builds exactly the cube's table with EUR added |
| Currency.Fetched | __init__.py:265-285 | a read fails exactly when it raises; a cube gives its table; every table a read returns rates EUR at exactly 1 |
| Currency.FetchCurrencies | __init__.py:265-285 | `_get_currencies` returns exactly `Fetched` of the feed |
| Currency.NormalizeCurrency | __init__.py:287-298 | the result is the upper-cased alias (or token) when that is a code of the table, and nothing exactly when it is not |
| Currency.NormalizeIdempotent | __init__.py:297-298 | a normalised code that is not itself an alias key normalises to itself |
| Currency.NormalizedIsUpper | __init__.py:297-298 | a normalised code with a letter passes `isupper()`, so it is never pluralised |
| Currency.StaleAfterADay | __init__.py:318 | `(now - last_update).days >= 1` holds exactly when at least 86 400 s have passed |
| Currency.UnknownCurrencyReported | __init__.py:322-328 | an unknown from-token is reported first; the to-token is reported only when the from-token is known; these are the only unknown-currency failures |
| Currency.ConvertSucceeds | __init__.py:329-337 | with both codes known, a zero from-rate is the only failure; otherwise the result is `amount * rate(to) / rate(from)` with dimensionality `currency` |
| Currency.ConvertToSameCode | __init__.py:329-331 | two tokens with the same code, with a nonzero rate, convert an amount to itself |
| Currency.ConvertRoundTrip | __init__.py:329-331 | with both rates nonzero, converting there and back with the same tokens gives the amount back |
| Currency.StepRefreshesOnlyWhenStale | __init__.py:317-320 | inside a day the state is untouched and the conversion uses it |
| Currency.StepRefreshes | __init__.py:317-320 | after a day, a failed read raises and keeps the state; a successful read replaces the table with the cube's, records the time after the read, rates EUR at 1, and converts on the new table |
| Currency.StepKeepsEuroBased | __init__.py:317-320 | a table rating EUR at 1 still does so after any conversion, whether or not the feed is read again |
| Currency.ConvertWith | __init__.py:321-338 | the conversion succeeds exactly when both codes are known and the from-rate is nonzero; then the result holds the input amount, both codes and dimensionality `currency`, and `to_amount * rate(from) == amount * rate(to)` |
| Currency.CrossRate | __init__.py:331 | the cross rate `r` satisfies `r * from_rate == amount * to_rate` |
| Currency.CurrencyConverter.constructor | __init__.py:257-263 | the new converter holds the aliases, the table and the time given |
| Currency.CurrencyConverter.Create | __init__.py:257-263 | construction fails exactly when the first read fails; otherwise the table rates EUR at 1 and `last_update` is the time taken before the read |
| Currency.CurrencyConverter.Normalize | __init__.py:287-298 | normalisation on the converter's current table |
| Currency.CurrencyConverter.ConvertCurrency | __init__.py:300-338 | the result and the new state are those of one `Step` from the old state |
| Dispatch.Routing | __init__.py:427-434 | the currency converter runs exactly when both tokens normalise; otherwise the unit converter runs and the rate state is unchanged |
| Dispatch.AtMostOneItem | __init__.py:435-456 | at most one item is returned; in the model, whose registry fails only with the two errors `get_items` catches, the unit route never raises |
| Dispatch.ResultItem | __init__.py:436-442 | a result item's text is the formatted result, its subtext is "Converted from " and the formatted original, and its icon is the dimensionality's `.svg` file |
| Dispatch.UnableItem | __init__.py:446-448 | the "Unable to convert" item starts with that phrase, then shows the amount, the source unit after it and the target unit at the end, carries the error message and has the default icon |
| Dispatch.CurrencyOutcome | __init__.py:443-456 | a currency result gives one item, an unknown currency gives none, and every other failure escapes unchanged |
| Dispatch.UnitOutcome | __init__.py:443-452 | a unit result never escapes: one result item, one "Unable to convert" item for incompatible units, none exactly for an undefined unit |
| Dispatch.ErrorOutcomes | __init__.py:443-456 | an undefined unit or an unknown currency gives no item; incompatible units give one "Unable to convert" item with the registry's message; other currency failures escape; a success gives the result item |
| Dispatch.RouteBeforeRefresh | __init__.py:427-434 | the route is chosen on the table before the lazy refresh; when the refreshed table lacks the from-code, nothing is shown but the new table is kept |
| Dispatch.CurrencyItemShape | __init__.py:151-174 | a currency result's item shows each amount as the code prints it (six decimals) with the display name of the bare code, and the `currency.svg` icon |
| Dispatch.CurrencyResultCodes | __init__.py:297-298 | a successful currency conversion of codes with letters has all-capital codes, dimensionality `currency` and the input amount |
| Dispatch.Plugin.constructor | __init__.py:342-345 | the plugin holds the two converters and the formatting settings given |
| Dispatch.Plugin.Initialize | __init__.py:342-345 | both converters take the configured aliases; initialisation fails exactly when the first feed read fails |
| Dispatch.Plugin.GetItems | __init__.py:413-456 | the outcome and the new rate state are `ItemsFor` of the old state; item amounts are printed as the code prints them |

## Left out

- The query syntax (the regular expression in `handleQuery`) and `handleQuery`'s catch-all logging: these are text parsing and I/O around `get_items`.
- `create_item`'s check that the icon file exists, the clipboard action and the item identifiers: these are launcher API calls. Items are modelled as (text, subtext, icon) triples.
- pint's unit names, dimensionalities and conversion factors: the registry is a parameter (`Units.Registry`).
- Dispatch.AtMostOneItem: pint's other exceptions (for example an offset-unit calculus error from `Quantity.to`) are not modelled. `get_items` lets them escape, but the model's registry can fail only with an undefined unit or a dimensionality error.
- The contents of pint's error messages are a parameter too.
- inflect's plural rules, `str(float)` and the platform `round`: these are foreign functions (`Formatting.Env`).
- Floating point is modelled on exact reals. So the model does not capture binary rounding of decimal constants or of the cross-rate product, nor overflow.
- Fetching and parsing the ECB XML (`urlopen`, `ElementTree`) is left out. A read is modelled as its outcome: it raises, or it yields the cube's entries. It raises when the network or the XML parser fails, and also when the document's last element has no child, because `root[-1][0]` raises rather than giving `None`. So the "no cube" branch at lines 276-278 can never be taken, and it is not modelled. A cube with no entries gives the table `{"EUR": 1}`. An entry whose rate is not a float is not modelled.
- Logging (`albert.info`, `albert.warning`) is left out.
- `load_config`'s comment stripping and JSON parsing: the configuration is given as values (`Formatting.SettingsOf`, alias tables).
- Formatting.SettingsOf: takes the precisions as integers, so the `int(...)` conversion at lines 97-98 is not modelled. That conversion truncates a configured `2.5` to 2, or raises on a non-numeric string.
- `ConversionResult.__repr__`, `id`, `name`, `description`, `synopsis`, `defaultTrigger`: these are constant metadata or debugging text.
- Case conversion, `isupper()` and `\w` are modelled on ASCII only. Unicode letters (for example `µ`) and special casings are not modelled.
- Currency.CurrencyConverter.ConvertCurrency: the exception type raised when the feed cannot be read again is reduced to one `FeedUnavailable` error.
- Formatting.FormatFloatAsWritten: reals have no signed zero. When Python's `round` returns `-0.0`, the source prints `-0` and the model prints `0`.

## Findings

| source | as written | input that shows it | evidently intended | confidence | as-written member | corrected member |
|---|---|---|---|---|---|---|
| __init__.py:142-149 | the value re-rounded to `rounding_precision_zero` places is printed with `f"{rounded:f}"`, which keeps only six decimals | `1e-10` with the default precisions 3 and 12: re-rounded to `1e-10`, printed `0.000000`, shown as `0` | the digits kept by the zero precision are shown (`0.0000000001`) | not executed | Formatting.ZeroPrecisionHiddenAsWritten | Formatting.RoundedNonzeroIsVisible |

The corrected `Formatting.FormatFloat` prints as many places as the value was
rounded to, and at least six. `Formatting.FormatFloatAgrees` shows that it
agrees with the code as written whenever at most six places are used. The
displayed items (`Formatting.FormattedResult`, `Formatting.FormattedFrom`, and
so `Dispatch.Plugin.GetItems`) keep the code's behaviour and use
`Formatting.FormatFloatAsWritten`. Substituting `FormatFloat` there is the
proposed fix.
