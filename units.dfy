/**
 * `UnitConverter`: unit names resolved against the unit registry (alias
 * first, then the exact spelling, then the lower-cased spelling) and the
 * registry's own conversion. The registry is a parameter: which names it
 * knows, the canonical name of each unit, and its conversion function.
 */
module Units {
  import opened Wrappers
  import opened Text
  import opened Formatting

  /** What the registry's `Quantity.to` returns: the converted quantity or a dimensionality error. */
  datatype Conversion = Converted(magnitude: real, units: string, dimensionality: string)
                      | Incompatible(message: string)

  /**
   * The unit registry: each name it accepts, mapped to the canonical name
   * of its unit (`str` of the unit), and the conversion between canonical
   * units.
   */
  datatype Registry = Registry(units: map<string, string>, convert: (real, string, string) -> Conversion)

  datatype UnitError = UndefinedUnit(name: string) | Dimensionality(message: string)

  datatype UnitConverter = UnitConverter(aliases: map<string, string>, registry: Registry)
  {
    /**
     * `_get_unit`: the alias for the token (or the token) if the registry
     * knows that spelling, else its lower-cased spelling, else an undefined
     * unit error for the lower-cased spelling.
     */
    function GetUnit(token: string): (r: Result<string, UnitError>)
      ensures var name := GetOr(aliases, token, token);
        (r.Success? <==> name in registry.units || Lower(name) in registry.units) &&
        (name in registry.units ==> r == Success(registry.units[name])) &&
        (name !in registry.units && Lower(name) in registry.units ==> r == Success(registry.units[Lower(name)])) &&
        (r.Failure? ==> r.error == UndefinedUnit(Lower(name)))
    {
      var name := GetOr(aliases, token, token);
      if name in registry.units then Success(registry.units[name])
      else if Lower(name) in registry.units then Success(registry.units[Lower(name)])
      else Failure(UndefinedUnit(Lower(name)))
    }

    /**
     * Aliases are looked up with the token as typed, before any case
     * fallback: a token that is not an alias key resolves under its own
     * spelling, even when its lower-cased spelling is an alias for a
     * registered unit.
     */
    lemma AliasBeforeCase(token: string)
      requires token !in aliases
      ensures GetUnit(token).Success? <==> token in registry.units || Lower(token) in registry.units
      ensures (Lower(token) in aliases && aliases[Lower(token)] in registry.units &&
               token !in registry.units && Lower(token) !in registry.units) ==>
              GetUnit(token).Failure?
    {
    }

    /** Resolution always yields a unit of the registry. */
    lemma GetUnitRegistered(token: string)
      requires GetUnit(token).Success?
      ensures GetUnit(token).value in registry.units.Values
    {
    }

    /**
     * `convert_units`: both names are resolved (the from-name first), then
     * the registry converts; its dimensionality error is passed on.
     */
    function ConvertUnits(amount: real, fromToken: string, toToken: string): (r: Result<ConversionResult, UnitError>)
      ensures GetUnit(fromToken).Failure? ==> r == Failure(GetUnit(fromToken).error)
      ensures GetUnit(fromToken).Success? && GetUnit(toToken).Failure? ==> r == Failure(GetUnit(toToken).error)
      ensures GetUnit(fromToken).Success? && GetUnit(toToken).Success? ==>
        var c := registry.convert(amount, GetUnit(fromToken).value, GetUnit(toToken).value);
        (r.Success? <==> c.Converted?) &&
        (c.Incompatible? ==> r == Failure(Dimensionality(c.message)))
      ensures r.Success? ==>
        GetUnit(fromToken).Success? && GetUnit(toToken).Success? &&
        r.value.fromAmount == amount && r.value.fromUnit == GetUnit(fromToken).value &&
        registry.convert(amount, GetUnit(fromToken).value, GetUnit(toToken).value) ==
          Converted(r.value.toAmount, r.value.toUnit, r.value.dimensionality)
    {
      match GetUnit(fromToken)
      case Failure(e) => Failure(e)
      case Success(f) =>
        match GetUnit(toToken)
        case Failure(e) => Failure(e)
        case Success(t) =>
          match registry.convert(amount, f, t)
          case Converted(m, u, d) => Success(ConversionResult(amount, f, m, u, d))
          case Incompatible(msg) => Failure(Dimensionality(msg))
    }
  }
}
