/** The element selection the four atom-view stores share: a store holds the
    symbol of a table element, starts at the default element, and
    `selectElement` ignores every symbol the table does not contain. */
module Selection {
  import opened Elements

  /** `DEFAULT_ELEMENT.symbol`. */
  const DefaultSymbol: string := DefaultElement.symbol

  lemma DefaultSymbolIsHydrogen()
    ensures DefaultSymbol == "H" && IsKnownSymbol(DefaultSymbol)
  {
    DefaultIsHydrogen();
    KnownSymbols();
  }

  /** The symbol a store holds after `selectElement(symbol)`: the requested one
      when the table has it, else the current one. A store that starts on a
      table element therefore never holds anything else. */
  function Select(current: string, symbol: string): (r: string)
    ensures r == symbol || r == current
    ensures r == symbol <==> IsKnownSymbol(symbol) || symbol == current
    ensures IsKnownSymbol(current) ==> IsKnownSymbol(r)
  {
    if IsKnownSymbol(symbol) then symbol else current
  }

  /** Whether `selectElement(symbol)` hands the store a new state object: only for
      a table symbol other than the current one. Otherwise the state object stays
      the very same one and nothing is published. */
  predicate Publishes(current: string, symbol: string) {
    IsKnownSymbol(symbol) && symbol != current
  }

  /** Selecting twice in a row is selecting once, and the repeat publishes nothing. */
  lemma SelectIdempotent(current: string, symbol: string)
    ensures Select(Select(current, symbol), symbol) == Select(current, symbol)
    ensures !Publishes(Select(current, symbol), symbol)
  {
  }

  /** Only the last of two selections of table symbols matters. */
  lemma SelectLastWins(current: string, a: string, b: string)
    requires IsKnownSymbol(b)
    ensures Select(Select(current, a), b) == b
  {
  }

  /** The store test: from the default, `C` is taken and `Unobtanium` ignored. */
  lemma SelectionScenario()
    ensures Select(DefaultSymbol, "C") == "C" && Publishes(DefaultSymbol, "C")
    ensures Select(DefaultSymbol, "Unobtanium") == "H" && !Publishes(DefaultSymbol, "Unobtanium")
  {
    DefaultSymbolIsHydrogen();
    KnownSymbols();
  }
}
