/** The element table of the atomic visualizers (the first twenty elements with
    their derived particle counts) and the greedy shell-filling rule that lays
    electrons out over the capacities 2, 8, 18, 32, 32, 18, 8. */
module Elements {
  import opened Wrappers
  import opened Numbers

  datatype ElementInfo = ElementInfo(
    symbol: string, name: string, atomicNumber: int, atomicMass: real, category: string)

  datatype ElementDetails = ElementDetails(
    symbol: string, name: string, atomicNumber: int, atomicMass: real, category: string,
    protons: int, neutrons: int, electrons: int)

  const RawElements: seq<ElementInfo> := [
    ElementInfo("H", "Hydrogen", 1, 1.008, "Nonmetal"),
    ElementInfo("He", "Helium", 2, 4.0026, "Noble gas"),
    ElementInfo("Li", "Lithium", 3, 6.94, "Alkali metal"),
    ElementInfo("Be", "Beryllium", 4, 9.0122, "Alkaline earth metal"),
    ElementInfo("B", "Boron", 5, 10.81, "Metalloid"),
    ElementInfo("C", "Carbon", 6, 12.011, "Nonmetal"),
    ElementInfo("N", "Nitrogen", 7, 14.007, "Nonmetal"),
    ElementInfo("O", "Oxygen", 8, 15.999, "Nonmetal"),
    ElementInfo("F", "Fluorine", 9, 18.998, "Halogen"),
    ElementInfo("Ne", "Neon", 10, 20.18, "Noble gas"),
    ElementInfo("Na", "Sodium", 11, 22.99, "Alkali metal"),
    ElementInfo("Mg", "Magnesium", 12, 24.305, "Alkaline earth metal"),
    ElementInfo("Al", "Aluminium", 13, 26.982, "Post-transition metal"),
    ElementInfo("Si", "Silicon", 14, 28.085, "Metalloid"),
    ElementInfo("P", "Phosphorus", 15, 30.974, "Nonmetal"),
    ElementInfo("S", "Sulfur", 16, 32.06, "Nonmetal"),
    ElementInfo("Cl", "Chlorine", 17, 35.45, "Halogen"),
    ElementInfo("Ar", "Argon", 18, 39.948, "Noble gas"),
    ElementInfo("K", "Potassium", 19, 39.098, "Alkali metal"),
    ElementInfo("Ca", "Calcium", 20, 40.078, "Alkaline earth metal")
  ]

  /** The derived record of one table row: as many protons and electrons as the
      atomic number, and the rounded mass minus the atomic number as neutrons,
      never fewer than zero. */
  function Details(e: ElementInfo): (d: ElementDetails)
    ensures d.symbol == e.symbol && d.name == e.name && d.category == e.category
    ensures d.atomicNumber == e.atomicNumber && d.atomicMass == e.atomicMass
    ensures d.protons == d.electrons == e.atomicNumber
    ensures d.neutrons >= 0 && d.neutrons >= Round(e.atomicMass) - e.atomicNumber
    ensures d.neutrons == 0 || d.neutrons == Round(e.atomicMass) - e.atomicNumber
  {
    ElementDetails(e.symbol, e.name, e.atomicNumber, e.atomicMass, e.category,
                   e.atomicNumber, Max(0, Round(e.atomicMass) - e.atomicNumber), e.atomicNumber)
  }

  /** `RAW_ELEMENTS.map(...)`: the derived record of every row, in table order. */
  function DeriveAll(rows: seq<ElementInfo>): (r: seq<ElementDetails>)
    ensures |r| == |rows| && forall i :: 0 <= i < |rows| ==> r[i] == Details(rows[i])
  {
    if |rows| == 0 then [] else DeriveAll(rows[..|rows| - 1]) + [Details(rows[|rows| - 1])]
  }

  const Elements: seq<ElementDetails> := DeriveAll(RawElements)

  const DefaultElement: ElementDetails := Elements[0]

  const ShellCapacities: seq<nat> := [2, 8, 18, 32, 32, 18, 8]

  /** The raw rows are numbered 1 to 20 and carry distinct symbols. */
  lemma RawTableShape()
    ensures |RawElements| == 20
    ensures forall i :: 0 <= i < |RawElements| ==> RawElements[i].atomicNumber == i + 1
    ensures forall i, j :: 0 <= i < j < |RawElements| ==> RawElements[i].symbol != RawElements[j].symbol
    ensures forall i :: 0 <= i < |RawElements| ==> 1 <= |RawElements[i].symbol| <= 2
  {
  }

  /** The table holds twenty elements with atomic numbers 1 to 20 in order. */
  lemma TableNumbers()
    ensures |Elements| == 20
    ensures forall i :: 0 <= i < |Elements| ==> Elements[i].atomicNumber == i + 1
  {
    RawTableShape();
  }

  /** No two elements of the table share a symbol. */
  lemma TableSymbolsDistinct()
    ensures forall i, j :: 0 <= i < j < |Elements| ==> Elements[i].symbol != Elements[j].symbol
  {
    RawTableShape();
    forall i, j | 0 <= i < j < |Elements| ensures Elements[i].symbol != Elements[j].symbol {
      assert Elements[i].symbol == RawElements[i].symbol && Elements[j].symbol == RawElements[j].symbol;
    }
  }

  /** The default element is hydrogen, with one proton, no neutron and one electron. */
  lemma DefaultIsHydrogen()
    ensures DefaultElement.symbol == "H" && DefaultElement.name == "Hydrogen"
    ensures DefaultElement.protons == 1 && DefaultElement.neutrons == 0 && DefaultElement.electrons == 1
  {
    assert DefaultElement == Details(RawElements[0]);
  }

  const TableNeutrons: seq<int> := [0, 2, 4, 5, 6, 6, 7, 8, 10, 10, 12, 12, 14, 14, 16, 16, 18, 22, 20, 20]

  lemma RawNeutrons()
    ensures forall i :: 0 <= i < |RawElements| ==>
              Max(0, Round(RawElements[i].atomicMass) - RawElements[i].atomicNumber) == TableNeutrons[i]
  {
  }

  /** The neutron counts the rounding rule gives for the table, hydrogen first;
      potassium (39.098) gets fewer neutrons than argon (39.948). */
  lemma NeutronCounts()
    ensures forall i :: 0 <= i < |Elements| ==> Elements[i].neutrons == TableNeutrons[i]
    ensures Elements[18].neutrons < Elements[17].neutrons
  {
    RawNeutrons();
    forall i | 0 <= i < |Elements| ensures Elements[i].neutrons == TableNeutrons[i] {
      assert Elements[i] == Details(RawElements[i]);
    }
  }

  /** `ELEMENTS.find(e => e.symbol === symbol)` over any list. */
  function FindBySymbol(es: seq<ElementDetails>, symbol: string): Option<ElementDetails> {
    if es == [] then None
    else if es[0].symbol == symbol then Some(es[0])
    else FindBySymbol(es[1..], symbol)
  }

  /** `find` yields the first entry with that symbol, and nothing exactly when no
      entry has it. */
  lemma {:induction false} FindBySymbolFindsFirst(es: seq<ElementDetails>, symbol: string)
    ensures FindBySymbol(es, symbol).None? <==> forall i :: 0 <= i < |es| ==> es[i].symbol != symbol
    ensures FindBySymbol(es, symbol).Some? ==>
              exists i :: && 0 <= i < |es| && es[i] == FindBySymbol(es, symbol).value
                          && es[i].symbol == symbol
                          && forall j :: 0 <= j < i ==> es[j].symbol != symbol
  {
    if es != [] && es[0].symbol != symbol {
      FindBySymbolFindsFirst(es[1..], symbol);
      var r := FindBySymbol(es, symbol);
      assert forall i :: 1 <= i < |es| ==> es[i] == es[1..][i - 1];
      if r.Some? {
        var k :| 0 <= k < |es[1..]| && es[1..][k] == r.value && es[1..][k].symbol == symbol
                 && forall j :: 0 <= j < k ==> es[1..][j].symbol != symbol;
        assert es[k + 1] == r.value;
      }
    }
  }

  function GetElementBySymbol(symbol: string): Option<ElementDetails> {
    FindBySymbol(Elements, symbol)
  }

  /** The test every store's `selectElement` applies before changing anything. */
  predicate IsKnownSymbol(symbol: string) {
    GetElementBySymbol(symbol).Some?
  }

  /** Looking up the symbol of a table entry finds that very entry, and a symbol
      outside the table finds nothing. */
  lemma GetElementBySymbolFinds(symbol: string)
    ensures GetElementBySymbol(symbol).Some? <==> exists i :: 0 <= i < |Elements| && Elements[i].symbol == symbol
    ensures forall i :: 0 <= i < |Elements| && Elements[i].symbol == symbol ==>
              GetElementBySymbol(symbol) == Some(Elements[i])
  {
    TableSymbolsDistinct();
    FindBySymbolFindsFirst(Elements, symbol);
    var r := GetElementBySymbol(symbol);
    if r.Some? {
      var k :| 0 <= k < |Elements| && Elements[k] == r.value && Elements[k].symbol == symbol
               && forall j :: 0 <= j < k ==> Elements[j].symbol != symbol;
      forall i | 0 <= i < |Elements| && Elements[i].symbol == symbol ensures r == Some(Elements[i]) {
        assert i == k;
      }
    }
  }

  /** Three symbols of the table and their lookups; a symbol outside the table
      finds nothing, which is what leaves a store unchanged. */
  lemma KnownSymbols()
    ensures IsKnownSymbol("H") && IsKnownSymbol("C") && IsKnownSymbol("Ca")
    ensures !IsKnownSymbol("Unobtanium")
    ensures GetElementBySymbol("C").Some? && GetElementBySymbol("C").value.electrons == 6
  {
    assert Elements[0] == Details(RawElements[0]);
    assert Elements[5] == Details(RawElements[5]);
    assert Elements[19] == Details(RawElements[19]);
    GetElementBySymbolFinds("H");
    GetElementBySymbolFinds("C");
    GetElementBySymbolFinds("Ca");
    GetElementBySymbolFinds("Unobtanium");
    RawTableShape();
    forall i | 0 <= i < |Elements| ensures Elements[i].symbol != "Unobtanium" {
      assert Elements[i] == Details(RawElements[i]);
      assert |Elements[i].symbol| <= 2;
    }
  }

  function Sum(s: seq<nat>): nat {
    if s == [] then 0 else s[0] + Sum(s[1..])
  }

  /** What one shell of capacity `capacity` takes when `remaining` electrons are
      still to be placed: nothing once none remain, else as many as fit. */
  function Take(remaining: int, capacity: nat): (n: nat)
    ensures n <= capacity
    ensures remaining <= 0 ==> n == 0
    ensures remaining > 0 ==> n == remaining || n == capacity
    ensures n <= remaining || remaining <= 0
  {
    if remaining <= 0 then 0 else Min(remaining, capacity)
  }

  /** The greedy filling of the shells `caps` with `remaining` electrons, shell by
      shell, innermost first. */
  function Fill(remaining: int, caps: seq<nat>): (r: seq<nat>)
    ensures |r| == |caps|
  {
    if caps == [] then [] else [Take(remaining, caps[0])] + Fill(remaining - Take(remaining, caps[0]), caps[1..])
  }

  /** The distribution `distributeElectrons` returns. */
  function ShellDistribution(total: int): seq<nat> {
    Fill(total, ShellCapacities)
  }

  /** The electrons still to be placed once the first `i` shells of `caps` are filled. */
  function Left(total: int, caps: seq<nat>, i: nat): int
    requires i <= |caps|
  {
    if i == 0 then total else Left(total, caps, i - 1) - Take(Left(total, caps, i - 1), caps[i - 1])
  }

  /** The counts of the first `i` shells of `caps`, in the order the loop pushes them. */
  function Filled(total: int, caps: seq<nat>, i: nat): seq<nat>
    requires i <= |caps|
  {
    if i == 0 then [] else Filled(total, caps, i - 1) + [Take(Left(total, caps, i - 1), caps[i - 1])]
  }

  /** Filling shell after shell from the inside and filling recursively agree. */
  lemma {:induction false} FilledThenFill(total: int, caps: seq<nat>, i: nat)
    requires i <= |caps|
    ensures Filled(total, caps, i) + Fill(Left(total, caps, i), caps[i..]) == Fill(total, caps)
  {
    if i == 0 {
      assert caps[0..] == caps;
    } else {
      FilledThenFill(total, caps, i - 1);
      var r := Left(total, caps, i - 1);
      assert caps[i - 1..][1..] == caps[i..];
      assert Fill(r, caps[i - 1..]) == [Take(r, caps[i - 1])] + Fill(Left(total, caps, i), caps[i..]);
    }
  }

  lemma FilledIsFill(total: int, caps: seq<nat>)
    ensures Filled(total, caps, |caps|) == Fill(total, caps)
  {
    FilledThenFill(total, caps, |caps|);
    assert caps[|caps|..] == [];
  }

  /** `distributeElectrons`: walks the capacities once, pushing for each shell
      either zero (nothing remains) or as many electrons as fit. */
  method DistributeElectrons(totalElectrons: int) returns (result: seq<nat>)
    ensures result == ShellDistribution(totalElectrons)
    ensures |result| == |ShellCapacities|
    ensures forall i :: 0 <= i < |result| ==> result[i] <= ShellCapacities[i]
  {
    result := [];
    var remaining := totalElectrons;
    for i := 0 to |ShellCapacities|
      invariant result == Filled(totalElectrons, ShellCapacities, i)
      invariant remaining == Left(totalElectrons, ShellCapacities, i)
    {
      var capacity := ShellCapacities[i];
      if remaining <= 0 {
        result := result + [0];
        continue;
      }
      var electronsInShell := Min(remaining, capacity);
      result := result + [electronsInShell];
      remaining := remaining - electronsInShell;
    }
    FilledIsFill(totalElectrons, ShellCapacities);
    FillBounded(totalElectrons, ShellCapacities);
  }

  /** No shell receives more electrons than it holds. */
  lemma {:induction false} FillBounded(remaining: int, caps: seq<nat>)
    ensures forall i :: 0 <= i < |caps| ==> Fill(remaining, caps)[i] <= caps[i]
  {
    if caps != [] {
      FillBounded(remaining - Take(remaining, caps[0]), caps[1..]);
    }
  }

  /** Closed form of the greedy rule: shell i holds what is left after the shells
      before it are full, cut to the range from zero to its capacity. */
  lemma {:induction false} FillClosedForm(remaining: int, caps: seq<nat>, i: nat)
    requires i < |caps|
    ensures Fill(remaining, caps)[i] == Max(0, Min(remaining - Sum(caps[..i]), caps[i]))
  {
    if i > 0 {
      assert caps[1..][..i - 1] == caps[..i][1..];
      var take := Take(remaining, caps[0]);
      FillClosedForm(remaining - take, caps[1..], i - 1);
      if 0 < remaining && take < caps[0] {
        // Everything went into the first shell; the later ones are empty either way.
        assert remaining - Sum(caps[..i]) <= 0;
      }
    }
  }

  /** The shells hold all the electrons there are, up to the total capacity: the
      rest is dropped. */
  lemma {:induction false} FillSum(remaining: int, caps: seq<nat>)
    ensures Sum(Fill(remaining, caps)) == Max(0, Min(remaining, Sum(caps)))
  {
    if caps != [] {
      FillSum(remaining - Take(remaining, caps[0]), caps[1..]);
    }
  }

  /** Fill order: a shell left below its capacity is followed by empty shells only. */
  lemma {:induction false} FillOrder(remaining: int, caps: seq<nat>, i: nat, j: nat)
    requires i < j < |caps|
    requires Fill(remaining, caps)[i] < caps[i]
    ensures Fill(remaining, caps)[j] == 0
  {
    if i > 0 {
      FillOrder(remaining - Take(remaining, caps[0]), caps[1..], i - 1, j - 1);
    } else {
      FillEmpty(remaining - Fill(remaining, caps)[0], caps[1..], j - 1);
    }
  }

  /** No electrons to place: every shell is empty. */
  lemma {:induction false} FillEmpty(remaining: int, caps: seq<nat>, j: nat)
    requires remaining <= 0 && j < |caps|
    ensures Fill(remaining, caps)[j] == 0
  {
    if j > 0 {
      FillEmpty(remaining, caps[1..], j - 1);
    }
  }

  /** The properties of `distributeElectrons` over the real capacity table: seven
      entries, each within its shell's capacity, summing to the total or to 118
      when the total exceeds what the shells hold, and filled in order. */
  lemma ShellDistributionFacts(total: int)
    ensures |ShellDistribution(total)| == 7
    ensures forall i :: 0 <= i < 7 ==> ShellDistribution(total)[i] <= ShellCapacities[i]
    ensures Sum(ShellDistribution(total)) == Max(0, Min(total, 118))
    ensures total <= 0 ==> forall i :: 0 <= i < 7 ==> ShellDistribution(total)[i] == 0
    ensures forall i, j :: 0 <= i < j < 7 && ShellDistribution(total)[i] < ShellCapacities[i] ==>
              ShellDistribution(total)[j] == 0
  {
    assert Sum(ShellCapacities) == 118;
    FillBounded(total, ShellCapacities);
    FillSum(total, ShellCapacities);
    forall i | 0 <= i < 7 && total <= 0 ensures ShellDistribution(total)[i] == 0 {
      FillEmpty(total, ShellCapacities, i);
    }
    forall i, j | 0 <= i < j < 7 && ShellDistribution(total)[i] < ShellCapacities[i]
      ensures ShellDistribution(total)[j] == 0
    {
      FillOrder(total, ShellCapacities, i, j);
    }
  }

  datatype ElectronShell = ElectronShell(
    index: nat, capacity: nat, electrons: nat, occupancyRatio: real, radius: real)

  /** `SHELL_CAPACITIES[index] ?? SHELL_CAPACITIES[last]`. */
  function ShellCapacity(index: nat): nat {
    if index < |ShellCapacities| then ShellCapacities[index] else ShellCapacities[|ShellCapacities| - 1]
  }

  /** One shell as `buildElectronShells` describes it: the fraction of its places
      that are taken (none when it has no places) and a radius that grows by 1.05
      per shell and by up to 0.35 with the occupancy. */
  function Shell(index: nat, count: nat, nucleusRadius: real): (s: ElectronShell)
    ensures s.index == index && s.capacity == ShellCapacity(index) && s.electrons == count
    ensures s.capacity > 0 && count <= s.capacity ==> 0.0 <= s.occupancyRatio <= 1.0
    ensures s.capacity > 0 ==> s.occupancyRatio == count as real / s.capacity as real
    ensures nucleusRadius + 1.4 + 1.05 * index as real <= s.radius
    ensures count <= s.capacity ==> s.radius <= nucleusRadius + 1.4 + 1.05 * index as real + 0.35
  {
    var capacity := ShellCapacity(index);
    var occupancyRatio := if capacity != 0 then count as real / capacity as real else 0.0;
    ElectronShell(index, capacity, count, occupancyRatio,
                  nucleusRadius + 1.4 + index as real * 1.05 + occupancyRatio * 0.35)
  }

  /** The shells numbered from `start` for the electron counts `counts`. */
  function ShellsFrom(counts: seq<nat>, start: nat, nucleusRadius: real): (shells: seq<ElectronShell>)
    ensures |shells| == |counts|
    ensures forall i :: 0 <= i < |counts| ==> shells[i] == Shell(start + i, counts[i], nucleusRadius)
  {
    if counts == [] then [] else [Shell(start, counts[0], nucleusRadius)] + ShellsFrom(counts[1..], start + 1, nucleusRadius)
  }

  /** `buildElectronShells`: one shell per entry of the distribution, carrying its
      index, its capacity and its electrons, with an occupancy between 0 and 1
      and radii that grow strictly from the innermost shell outwards. */
  function BuildElectronShells(totalElectrons: int, nucleusRadius: real): (shells: seq<ElectronShell>)
    ensures |shells| == 7
    ensures forall i :: 0 <= i < 7 ==>
              && shells[i].index == i
              && shells[i].capacity == ShellCapacities[i]
              && shells[i].electrons == ShellDistribution(totalElectrons)[i]
              && 0.0 <= shells[i].occupancyRatio <= 1.0
              && shells[i].occupancyRatio == shells[i].electrons as real / shells[i].capacity as real
    ensures forall i, j :: 0 <= i < j < 7 ==> shells[i].radius < shells[j].radius
  {
    ShellsFromDistribution(totalElectrons, nucleusRadius);
    ShellsFrom(ShellDistribution(totalElectrons), 0, nucleusRadius)
  }

  lemma ShellsFromDistribution(totalElectrons: int, nucleusRadius: real)
    ensures var shells := ShellsFrom(ShellDistribution(totalElectrons), 0, nucleusRadius);
      && |shells| == 7
      && (forall i :: 0 <= i < 7 ==>
            && shells[i].index == i
            && shells[i].capacity == ShellCapacities[i]
            && shells[i].electrons == ShellDistribution(totalElectrons)[i]
            && 0.0 <= shells[i].occupancyRatio <= 1.0
            && shells[i].occupancyRatio == shells[i].electrons as real / shells[i].capacity as real)
      && (forall i, j :: 0 <= i < j < 7 ==> shells[i].radius < shells[j].radius)
  {
    var distribution := ShellDistribution(totalElectrons);
    var shells := ShellsFrom(distribution, 0, nucleusRadius);
    FillBounded(totalElectrons, ShellCapacities);
    forall i | 0 <= i < 7
      ensures && shells[i].index == i
              && shells[i].capacity == ShellCapacities[i]
              && shells[i].electrons == distribution[i]
              && 0.0 <= shells[i].occupancyRatio <= 1.0
              && shells[i].occupancyRatio == shells[i].electrons as real / shells[i].capacity as real
    {
      var s := Shell(i, distribution[i], nucleusRadius);
      assert shells[i] == s;
      assert s.capacity == ShellCapacities[i] > 0;
      assert distribution[i] <= s.capacity;
    }
    forall i, j | 0 <= i < j < 7 ensures shells[i].radius < shells[j].radius {
      assert shells[i] == Shell(i, distribution[i], nucleusRadius);
      assert shells[j] == Shell(j, distribution[j], nucleusRadius);
      assert 1.05 * i as real + 0.35 < 1.05 * j as real;
    }
  }

  function ShellElectrons(shells: seq<ElectronShell>): nat {
    if shells == [] then 0 else shells[0].electrons + ShellElectrons(shells[1..])
  }

  lemma {:induction false} ShellElectronsIsSum(shells: seq<ElectronShell>, d: seq<nat>)
    requires |shells| == |d| && forall i :: 0 <= i < |d| ==> shells[i].electrons == d[i]
    ensures ShellElectrons(shells) == Sum(d)
  {
    if d != [] {
      ShellElectronsIsSum(shells[1..], d[1..]);
    }
  }

  /** For every element of the table, the shells built from its electron count hold
      exactly that many electrons (the store test checks this for carbon). */
  lemma TableShellsHoldAllElectrons(nucleusRadius: real)
    ensures forall e :: e in Elements ==>
              ShellElectrons(BuildElectronShells(e.electrons, nucleusRadius)) == e.electrons
  {
    forall e | e in Elements
      ensures ShellElectrons(BuildElectronShells(e.electrons, nucleusRadius)) == e.electrons
    {
      var i :| 0 <= i < |Elements| && Elements[i] == e;
      TableNumbers();
      assert e.electrons == i + 1;
      ShellDistributionFacts(e.electrons);
      ShellElectronsIsSum(BuildElectronShells(e.electrons, nucleusRadius), ShellDistribution(e.electrons));
    }
  }

  /** The default element, hydrogen, has one occupied shell holding 1 of its 2 places. */
  lemma HydrogenShells(nucleusRadius: real)
    ensures BuildElectronShells(DefaultElement.electrons, nucleusRadius)[0].electrons == 1
    ensures BuildElectronShells(DefaultElement.electrons, nucleusRadius)[0].capacity == 2
    ensures forall i :: 1 <= i < 7 ==> BuildElectronShells(DefaultElement.electrons, nucleusRadius)[i].electrons == 0
  {
    DefaultIsHydrogen();
    ShellDistributionFacts(1);
    assert ShellDistribution(1)[0] == 1;
  }
}
