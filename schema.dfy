/**
 * A symbol schema: two disjoint sets of symbols, required and optional, and
 * their union, with a two-sided membership check of provided symbol sets.
 */
module Schema {
  import opened Wrappers
  import opened Symbols

  /**
   * The three sets a schema holds. `symbols` is derived (the union of the other
   * two) and stored alongside them; all three are fixed once built.
   */
  datatype SymbolSchema = SymbolSchema(
    requiredSymbols: set<Symbol>,
    optionalSymbols: set<Symbol>,
    symbols: set<Symbol>)
  {
    /** What construction guarantees: the two sets are disjoint and `symbols` is their union. */
    predicate Valid() {
      && requiredSymbols !! optionalSymbols
      && symbols == requiredSymbols + optionalSymbols
    }
  }

  /**
   * Builds a schema. An iterable argument is represented by its element set,
   * since the source copies it into a set (order and duplicates collapse).
   * A symbol listed as both required and optional is a programming error.
   */
  function NewSchema(required: set<Symbol>, optional: set<Symbol>): (r: Result<SymbolSchema, Error>)
    ensures r.Ok? <==> required !! optional
    ensures r.Ok? ==> && r.value.Valid()
                      && r.value.requiredSymbols == required
                      && r.value.optionalSymbols == optional
                      && r.value.symbols == required + optional
    ensures r.Err? ==> && r.error.Bug?
                       && r.error.overlap != {}
                       && (forall x :: x in r.error.overlap <==> x in required && x in optional)
  {
    var schema := SymbolSchema(required, optional, required + optional);
    var overlap := required * optional;
    if overlap != {} then Err(Bug(overlap))
    else
      assert forall x :: x in required ==> x !in optional by {
        forall x | x in required ensures x !in optional { assert x !in overlap; }
      }
      Ok(schema)
  }

  /**
   * The membership contract stated element by element: every required symbol
   * is provided, and every provided symbol is required or optional.
   */
  ghost predicate Conforms(s: SymbolSchema, provided: set<Symbol>) {
    && (forall x :: x in s.requiredSymbols ==> x in provided)
    && (forall x :: x in provided ==> x in s.requiredSymbols || x in s.optionalSymbols)
  }

  /**
   * Checks a provided symbol set. Both differences are always computed, so a
   * failure reports every missing and every unexpected symbol at once.
   */
  function Validate(s: SymbolSchema, provided: set<Symbol>): (r: Outcome<Error>)
    requires s.Valid()
    ensures r.Pass? <==> Conforms(s, provided)
    ensures r.Fail? ==> && r.error.InvalidSymbols?
                        && (forall x :: x in r.error.missing <==> x in s.requiredSymbols && x !in provided)
                        && (forall x :: x in r.error.unexpected <==>
                              x in provided && x !in s.requiredSymbols && x !in s.optionalSymbols)
  {
    var missing := s.requiredSymbols - provided;
    var unexpected := provided - s.symbols;
    if missing == {} && unexpected == {} then Pass
    else Fail(InvalidSymbols(missing, unexpected))
  }

  /** The iterable and varargs overloads: validate the elements of a sequence. */
  function ValidateAll(s: SymbolSchema, provided: seq<Symbol>): (r: Outcome<Error>)
    requires s.Valid()
    ensures r.Pass? <==> && (forall x :: x in s.requiredSymbols ==> x in provided)
                         && (forall i :: 0 <= i < |provided| ==> provided[i] in s.symbols)
    ensures r.Fail? ==> && r.error.InvalidSymbols?
                        && (forall x :: x in r.error.missing <==> x in s.requiredSymbols && x !in provided)
                        && (forall x :: x in r.error.unexpected <==> x in provided && x !in s.symbols)
  {
    Validate(s, Elements(provided))
  }

  /** The symbol-map overload: validate the symbols a map holds values for. */
  function ValidateMap(s: SymbolSchema, m: SymbolMap): (r: Outcome<Error>)
    requires s.Valid()
    ensures r.Pass? <==> && (forall x :: x in s.requiredSymbols ==> exists i :: 0 <= i < |m| && m[i].0 == x)
                         && (forall i :: 0 <= i < |m| ==> m[i].0 in s.symbols)
    ensures r.Fail? ==> && r.error.InvalidSymbols?
                        && (forall x :: x in r.error.missing <==>
                              x in s.requiredSymbols && !(exists i :: 0 <= i < |m| && m[i].0 == x))
                        && (forall x :: x in r.error.unexpected <==>
                              (exists i :: 0 <= i < |m| && m[i].0 == x) && x !in s.symbols)
  {
    Validate(s, KeysOf(m))
  }

  /** Order and repetition of the provided symbols do not matter. */
  lemma ValidateAllIgnoresOrder(s: SymbolSchema, a: seq<Symbol>, b: seq<Symbol>)
    requires s.Valid()
    requires forall x :: x in a <==> x in b
    ensures ValidateAll(s, a) == ValidateAll(s, b)
  {
    assert Elements(a) == Elements(b);
  }

  /**
   * Extends the optional set. The new schema is built through the constructor,
   * so adding a symbol that is already required fails with a `Bug`.
   */
  function WithOptional(s: SymbolSchema, newOptional: seq<Symbol>): (r: Result<SymbolSchema, Error>)
    requires s.Valid()
    ensures r.Ok? <==> forall i :: 0 <= i < |newOptional| ==> newOptional[i] !in s.requiredSymbols
    ensures r.Ok? ==> && r.value.Valid()
                      && r.value.requiredSymbols == s.requiredSymbols
                      && r.value.optionalSymbols == s.optionalSymbols + Elements(newOptional)
    ensures r.Err? ==> r.error.Bug? && r.error.overlap <= Elements(newOptional)
  {
    NewSchema(s.requiredSymbols, Elements(newOptional) + s.optionalSymbols)
  }

  /** Extending with no symbols gives back an equal schema. */
  lemma WithOptionalNothing(s: SymbolSchema)
    requires s.Valid()
    ensures WithOptional(s, []) == Ok(s)
  {
    assert Elements<Symbol>([]) + s.optionalSymbols == s.optionalSymbols;
    assert SymbolSchema(s.requiredSymbols, s.optionalSymbols, s.requiredSymbols + s.optionalSymbols) == s;
  }

  /** Whatever a schema accepts, any successful extension of it accepts too. */
  lemma WithOptionalKeepsAccepted(s: SymbolSchema, newOptional: seq<Symbol>, provided: set<Symbol>)
    requires s.Valid()
    requires Validate(s, provided).Pass?
    requires WithOptional(s, newOptional).Ok?
    ensures Validate(WithOptional(s, newOptional).value, provided).Pass?
  {
  }
}
