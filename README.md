# A verified model of the core of the bunlar atom and motor-assembly visualisers

bunlar is an educational browser application. It draws atom models (shell, Dalton, Thomson and Rutherford), and it has a 3D explorer for a carbon-aware motor assembly. This project models, in Dafny, the deterministic logic under the rendering:

- **The element table** (`Elements`). It records the twenty elements with their derived proton, neutron and electron counts, the element lookup by symbol, and the greedy shell filling over the capacities 2, 8, 18, 32, 32, 18, 8. It also covers the shells derived from that filling, with their occupancy ratio and radius.
- **The nucleus layout and electron phases** (`ParticleDistribution`). It models how many particles there are, their order, whether each is a proton or a neutron, and the index of its sphere point. Each electron's phase is a fraction of a full turn within its shell.
- **The view-state stores** (`AtomStore`, `ThomsonStore`, `RutherfordStore`, `DaltonStore`, `LearningStore`). Each is a class whose fields are the store's state:
  - `selectElement` ignores unknown symbols and publishes nothing for the current symbol;
  - `updateView` merges only the fields it is given;
  - `reset` restores the defaults.
- **The translation lookup** (`Translations`). It has the English and Turkish tables, `translate` with its English fallback, and `translateCategory` over the category-to-key table.
- **The part-name normalisers** (`Normalize`). Each global regular-expression pass is a left-to-right scan.
- **The scene-graph summaries of the assembly explorer** (`SceneGraph`, `Modeling`). They cover the path label of an object, the hierarchy rows, the assembly groups, the part groups and the explode entries. Each summary is a method that walks the pre-order of `Object3D.traverse`. It is proved equal to a specification function of the walked prefix.
- **The materials** (`Materials`, `Meshes`). This covers the library and the multi-key catalog index, where the last write wins, then the priority rule that resolves a mesh's material, and putting a material on a mesh.
- **The gearbox component** (`Gearbox`). Its effect looks every mesh up through a four-step first-hit chain, applies the resolved material, collects the unmatched names and warns about them at most once. Every frame it moves each mesh to its exploded position.
- **The `mulberry32` generator** (`AtomVisuals`) that both orbit visualisers copy word for word, and how they consume it:
  - the Rutherford orbits (`Rutherford`) take three draws per orbit: phase, then two for the normal;
  - the Thomson electrons (`Thomson`) take three draws per electron: azimuth, polar cosine, radial fraction.

  The generator is a class whose ghost history records its draws. The loops that consume it are proved to produce a function of the seed's stream. Both visualisers seed with the atomic number, so the first Thomson electrons and the Rutherford orbits read the same draws.

Supporting modules give JavaScript's `Map` (`OrderedMap`), the stable descending sort (`StableSort`), the map-then-sort shape of the summaries (`Grouping`), plain objects used as dictionaries and their inherited names (`JsObjects`), and the string and `Math` built-ins (`Text`, `Numbers`, `Sums`, `Wrappers`).

Some notes on how the code was read:

- Three behaviours of the code are easy to misread; the model follows the code:
  - **`mulberry32` state.** The state `t` is a JavaScript number that grows by `0x6d2b79f5` per call and is never reduced modulo 2^32. Only the bitwise operators read its low 32 bits. The model keeps `t` as an exact integer. That is what the number holds while it stays below 2^53.
  - **Loose match keys.** The loose match keys of `Bolt_M8 - 12` and `Bolt_M8 - 12, 3` are not the same. The passes of `normalizeMatchKeyLoose` give `bolt m8` for the first and `bolt m8 - 12` for the second, because `\d+$` strips only the final run of digits. `NormalizeExamples` derives both keys pass by pass, and `Normalize` states the prefix and end-character properties the code guarantees for every name.
  - **Overlay colours.** The material choice of the gearbox effect has no overlay colour step. The component never reads the overlay settings, so resolution is debug material, then catalog material, then `steel_default`.
- JavaScript property lookups on plain objects also find the names every object inherits from `Object.prototype`. Two lookups do not guard against this; see "## Findings".

## Model

| member | source | states |
|---|---|---|
| Numbers.Round | frontend/src/app/data/elements.ts:41 | `Math.round` gives the integer within one half of its argument, halves going up |
| Numbers.Max | frontend/src/app/data/elements.ts:41 | `Math.max` of two integers is one of them and at least both |
| Numbers.Min | frontend/src/app/features/chemistry/rutherford-model/visualizer/RutherfordSystem.tsx:30 | `Math.min` is one of its arguments and at most both |
| Numbers.MaxReal | frontend/src/app/features/climate-tech/carbon-aware-motor-assembly/visualizer/modeling.ts:169-172 | `Math.max` of two numbers is one of them and at least both |
| Numbers.AbsReal | frontend/src/app/features/climate-tech/carbon-aware-motor-assembly/visualizer/modeling.ts:170-171 | `Math.abs` is non-negative and is the argument or its negation |
| Numbers.Sign | frontend/src/app/features/climate-tech/carbon-aware-motor-assembly/visualizer/modeling.ts:192 | `Math.sign` is 1, -1 or 0 according to the sign of its argument |
| Numbers.ClampReal | frontend/src/app/features/chemistry/rutherford-model/visualizer/RutherfordSystem.tsx:30 | `Math.max(lo, Math.min(x, hi))` lies in [lo, hi], is x inside it and the violated bound outside |
| Text.LowerChar | frontend/src/app/features/climate-tech/carbon-aware-motor-assembly/visualizer/modeling.ts:28 | an upper-case letter `A`..`Z` becomes the lower-case letter 32 code points higher, and any other character is kept; the result is never upper case |
| Text.ToLower | frontend/src/app/features/climate-tech/carbon-aware-motor-assembly/visualizer/modeling.ts:28 | `toLowerCase` keeps the length and lower-cases each character in place: upper-case letters become their lower-case letters, every other character is kept |
| Text.TrimEndFacts | frontend/src/app/features/climate-tech/carbon-aware-motor-assembly/visualizer/modeling.ts:17 | the trailing trim keeps a prefix that ends in no white space and drops only white space |
| Text.TrimStartFacts | frontend/src/app/features/climate-tech/carbon-aware-motor-assembly/visualizer/modeling.ts:17 | the leading trim keeps a suffix that starts with no white space and drops only white space |
| Text.Trim | frontend/src/app/features/climate-tech/carbon-aware-motor-assembly/visualizer/modeling.ts:17 | `trim` leaves no white space at either end |
| Text.TrimFacts | frontend/src/app/features/climate-tech/carbon-aware-motor-assembly/visualizer/modeling.ts:17 | `trim` returns a slice of its argument |
| Text.TrimEmptyIffAllSpace | frontend/src/app/features/climate-tech/carbon-aware-motor-assembly/visualizer/modeling.ts:43 | `name?.trim()` is falsy exactly when the name is white space throughout |
| Text.TrimKeepsNoAdjacentSpaces | frontend/src/app/features/climate-tech/carbon-aware-motor-assembly/visualizer/modeling.ts:16-17 | trimming keeps the absence of adjacent white space |
| Text.TrimOfUnpaddedStartIsPrefix | frontend/src/app/features/climate-tech/carbon-aware-motor-assembly/visualizer/modeling.ts:27 | on a string that starts with no white space, `trim` keeps a prefix |
| Text.NatToString | frontend/src/app/features/climate-tech/carbon-aware-motor-assembly/visualizer/modeling.ts:75 | a template literal prints a natural number as a non-empty string of decimal digits with no leading zero |
| Text.NatToStringReadsBack | frontend/src/app/features/climate-tech/carbon-aware-motor-assembly/visualizer/modeling.ts:75 | the printed digits read back as the number |
| Elements.Details | frontend/src/app/data/elements.ts:38-49 | the derived record copies the row and has protons = electrons = atomicNumber and neutrons = max(0, round(atomicMass) - atomicNumber), never negative |
| Elements.DeriveAll | frontend/src/app/data/elements.ts:38-49 | the map yields one derived record per raw row, in table order |
| Elements.RawTableShape | frontend/src/app/data/elements.ts:15-36 | the raw table has 20 rows numbered 1 to 20 with distinct one- or two-letter symbols |
| Elements.TableNumbers | frontend/src/app/data/elements.ts:38-49 | `ELEMENTS` holds twenty entries with atomic numbers 1 to 20 in order |
| Elements.TableSymbolsDistinct | frontend/src/app/data/elements.ts:15-49 | no two entries of `ELEMENTS` share a symbol |
| Elements.DefaultIsHydrogen | frontend/src/app/data/elements.ts:51 | `DEFAULT_ELEMENT` is hydrogen with one proton, no neutron and one electron |
| Elements.RawNeutrons | frontend/src/app/data/elements.ts:41 | the rounding rule gives the listed neutron count for every raw row |
| Elements.NeutronCounts | frontend/src/app/data/elements.ts:41 | the neutron counts of the table, with potassium (39.098) getting fewer neutrons than argon (39.948) |
| Elements.FindBySymbolFindsFirst | frontend/src/app/data/elements.ts:63-65 | `find` returns nothing exactly when no entry has the symbol, and otherwise the first entry that has it |
| Elements.GetElementBySymbolFinds | frontend/src/app/data/elements.ts:63-65 | `getElementBySymbol` finds an entry exactly when some table entry has the symbol, and returns that entry |
| Elements.KnownSymbols | frontend/src/app/data/elements.ts:63-65 | H, C and Ca are found (carbon with 6 electrons), an unknown symbol is not |
| Elements.Take | frontend/src/app/data/elements.ts:72-79 | one shell takes nothing when no electrons remain, and otherwise min(remaining, capacity) |
| Elements.Fill | frontend/src/app/data/elements.ts:67-83 | the greedy rule pushes exactly one count per capacity |
| Elements.FilledThenFill | frontend/src/app/data/elements.ts:71-80 | the counts pushed for the first i shells, followed by the greedy filling of the rest with what is left, are the whole filling |
| Elements.FilledIsFill | frontend/src/app/data/elements.ts:71-80 | the loop's pushes over all shells equal the greedy filling |
| Elements.DistributeElectrons | frontend/src/app/data/elements.ts:67-83 | the loop returns the greedy distribution: seven counts, each within its shell's capacity |
| Elements.FillBounded | frontend/src/app/data/elements.ts:77 | no shell receives more than its capacity |
| Elements.FillClosedForm | frontend/src/app/data/elements.ts:71-80 | shell i holds max(0, min(total - capacity of the shells before it, its capacity)) |
| Elements.FillSum | frontend/src/app/data/elements.ts:71-80 | the counts sum to max(0, min(total, total capacity)): electrons beyond the capacity are dropped |
| Elements.FillOrder | frontend/src/app/data/elements.ts:72-79 | a shell left below its capacity is followed by empty shells only |
| Elements.FillEmpty | frontend/src/app/data/elements.ts:72-74 | with no electrons to place every shell is empty |
| Elements.ShellDistributionFacts | frontend/src/app/data/elements.ts:67-83 | over [2,8,18,32,32,18,8]: seven entries within capacity, summing to max(0, min(total, 118)), all zero for total <= 0, filled inside out |
| Elements.Shell | frontend/src/app/data/elements.ts:88-99 | a shell carries its index, capacity and electrons, occupancy electrons/capacity in [0, 1], and radius between nucleusRadius + 1.4 + 1.05 index and that plus 0.35 |
| Elements.ShellsFrom | frontend/src/app/data/elements.ts:88-100 | the map makes one shell per count, numbered from the start index |
| Elements.BuildElectronShells | frontend/src/app/data/elements.ts:85-101 | seven shells with index i, capacity `SHELL_CAPACITIES[i]`, electrons = distribution[i], occupancy in [0, 1], and radii strictly increasing outwards |
| Elements.ShellsFromDistribution | frontend/src/app/data/elements.ts:85-101 | the same facts for the shells built from the distribution |
| Elements.ShellElectronsIsSum | frontend/src/app/data/elements.ts:88-100 | the electrons of the shells add up to the sum of the counts they were built from |
| Elements.TableShellsHoldAllElectrons | frontend/src/app/data/elements.ts:85-101 | for every table element the shells hold exactly its electron count |
| Elements.HydrogenShells | frontend/src/app/data/elements.ts:85-101 | hydrogen has one electron in its first shell of capacity 2 and none further out |
| ParticleDistribution.SpherePoints | frontend/src/app/utils/particle-distribution.ts:60-79 | at most one point is asked for: the origin alone; otherwise exactly `count` points, point i being the i-th spiral point |
| ParticleDistribution.SpiralPoints | frontend/src/app/utils/particle-distribution.ts:69-76 | the loop's points in order, one per index |
| ParticleDistribution.FibonacciSphere | frontend/src/app/utils/particle-distribution.ts:60-79 | the method returns those points, max(1, count) of them |
| ParticleDistribution.GenerateNucleusLayout | frontend/src/app/utils/particle-distribution.ts:16-42 | max(0, protons) + max(0, neutrons) particles, particle k being the layout entry of place k |
| ParticleDistribution.LayoutFacts | frontend/src/app/utils/particle-distribution.ts:16-39 | particle k has index k, is a proton exactly when k < protons, has scale 1 and sits on sphere point k (the origin for a single nucleon); the sphere has a point for every index |
| ParticleDistribution.CreateElectronPhases | frontend/src/app/utils/particle-distribution.ts:44-58 | one particle per electron, shell by shell, as many as the non-negative shell sizes add up to |
| ParticleDistribution.ShellPhasesFacts | frontend/src/app/utils/particle-distribution.ts:48-53 | the inner loop emits electron k of the shell with turn k / count |
| ParticleDistribution.PhasesLength | frontend/src/app/utils/particle-distribution.ts:47-55 | the number of particles is the sum of the shell sizes, a negative size counting as none |
| ParticleDistribution.PhasePlacement | frontend/src/app/utils/particle-distribution.ts:47-53 | electron e of shell s sits right after all electrons of the earlier shells, with turn e / size in [0, 1), 0 for the first electron of each shell |
| ParticleDistribution.FractionBelowOne | frontend/src/app/utils/particle-distribution.ts:52 | an electron index below the shell size is a fraction of a turn in [0, 1) |
| ParticleDistribution.PrefixOfPhases | frontend/src/app/utils/particle-distribution.ts:47-55 | the particles of the first shells are a prefix of the particles of more shells |
| ParticleDistribution.PhaseBounds | frontend/src/app/utils/particle-distribution.ts:47-53 | every particle names an existing shell and an electron within it, with turn in [0, 1) |
| AtomStore.MergeSetsGivenFields | frontend/src/app/features/chemistry/state/useAtomStore.ts:47-55 | `{ ...view, ...settings }` takes every field the partial record gives and keeps every other one |
| AtomStore.MergeNoChange | frontend/src/app/features/chemistry/state/useAtomStore.ts:47-55 | merging the empty record `{}` leaves the view as it was |
| AtomStore.MergeThen | frontend/src/app/features/chemistry/state/useAtomStore.ts:47-55 | two `updateView` calls in a row act as one with the combined partial record, the later fields winning |
| AtomStore.MergeIdempotent | frontend/src/app/features/chemistry/state/useAtomStore.ts:47-55 | repeating the same `updateView` changes nothing more |
| AtomStore.MergeReaches | frontend/src/app/features/chemistry/state/useAtomStore.ts:47-55 | every view can be reached from every view by one `updateView` |
| AtomStore.Store.constructor | frontend/src/app/features/chemistry/state/useAtomStore.ts:19-31 | the store starts on the default symbol `H` with the default view |
| AtomStore.Store.SelectElement | frontend/src/app/features/chemistry/state/useAtomStore.ts:32-46 | an unknown symbol is ignored, the current symbol changes nothing and publishes nothing, any other table symbol replaces only `selectedSymbol`; the view is never touched and the store never leaves the table |
| AtomStore.Store.UpdateView | frontend/src/app/features/chemistry/state/useAtomStore.ts:47-55 | the view becomes the merge of the old view with the partial record; the selection is kept |
| AtomStore.Store.Reset | frontend/src/app/features/chemistry/state/useAtomStore.ts:58-64 | the default symbol and the default view, whatever the state before |
| ThomsonStore.MergeSetsGivenFields | frontend/src/app/features/chemistry/thomson-model/state/useThomsonStore.ts:47-55 | `{ ...view, ...settings }` takes every field the partial record gives and keeps every other one |
| ThomsonStore.MergeNoChange | frontend/src/app/features/chemistry/thomson-model/state/useThomsonStore.ts:47-55 | merging the empty record `{}` leaves the view as it was |
| ThomsonStore.MergeThen | frontend/src/app/features/chemistry/thomson-model/state/useThomsonStore.ts:47-55 | two `updateView` calls in a row act as one with the combined partial record, the later fields winning |
| ThomsonStore.MergeIdempotent | frontend/src/app/features/chemistry/thomson-model/state/useThomsonStore.ts:47-55 | repeating the same `updateView` changes nothing more |
| ThomsonStore.MergeReaches | frontend/src/app/features/chemistry/thomson-model/state/useThomsonStore.ts:47-55 | every view can be reached from every view by one `updateView` |
| ThomsonStore.SphereSwitchesIndependent | frontend/src/app/features/chemistry/thomson-model/state/useThomsonStore.ts:47-55 | `showPositiveSphere` and `cutawaySphere` can be set to any combination, leaving the other switches alone: the store does not couple them |
| ThomsonStore.Store.constructor | frontend/src/app/features/chemistry/thomson-model/state/useThomsonStore.ts:19-31 | the store starts on the default symbol `H` with the default view |
| ThomsonStore.Store.SelectElement | frontend/src/app/features/chemistry/thomson-model/state/useThomsonStore.ts:32-46 | an unknown symbol is ignored, the current symbol changes nothing and publishes nothing, any other table symbol replaces only `selectedSymbol`; the view is never touched and the store never leaves the table |
| ThomsonStore.Store.UpdateView | frontend/src/app/features/chemistry/thomson-model/state/useThomsonStore.ts:47-55 | the view becomes the merge of the old view with the partial record; the selection is kept |
| ThomsonStore.Store.Reset | frontend/src/app/features/chemistry/thomson-model/state/useThomsonStore.ts:58-64 | the default symbol and the default view, whatever the state before |
| RutherfordStore.MergeSetsGivenFields | frontend/src/app/features/chemistry/rutherford-model/state/useRutherfordStore.ts:45-53 | `{ ...view, ...settings }` takes every field the partial record gives and keeps every other one |
| RutherfordStore.MergeNoChange | frontend/src/app/features/chemistry/rutherford-model/state/useRutherfordStore.ts:45-53 | merging the empty record `{}` leaves the view as it was |
| RutherfordStore.MergeThen | frontend/src/app/features/chemistry/rutherford-model/state/useRutherfordStore.ts:45-53 | two `updateView` calls in a row act as one with the combined partial record, the later fields winning |
| RutherfordStore.MergeIdempotent | frontend/src/app/features/chemistry/rutherford-model/state/useRutherfordStore.ts:45-53 | repeating the same `updateView` changes nothing more |
| RutherfordStore.MergeReaches | frontend/src/app/features/chemistry/rutherford-model/state/useRutherfordStore.ts:45-53 | every view can be reached from every view by one `updateView` |
| RutherfordStore.Store.constructor | frontend/src/app/features/chemistry/rutherford-model/state/useRutherfordStore.ts:18-29 | the store starts on the default symbol `H` with the default view |
| RutherfordStore.Store.SelectElement | frontend/src/app/features/chemistry/rutherford-model/state/useRutherfordStore.ts:30-44 | an unknown symbol is ignored, the current symbol changes nothing and publishes nothing, any other table symbol replaces only `selectedSymbol`; the view is never touched and the store never leaves the table |
| RutherfordStore.Store.UpdateView | frontend/src/app/features/chemistry/rutherford-model/state/useRutherfordStore.ts:45-53 | the view becomes the merge of the old view with the partial record; the selection is kept |
| RutherfordStore.Store.Reset | frontend/src/app/features/chemistry/rutherford-model/state/useRutherfordStore.ts:56-62 | the default symbol and the default view, whatever the state before |
| DaltonStore.MergeSetsGivenFields | frontend/src/app/features/chemistry/dalton-model/state/useDaltonStore.ts:43-51 | `{ ...view, ...settings }` takes every field the partial record gives and keeps every other one |
| DaltonStore.MergeNoChange | frontend/src/app/features/chemistry/dalton-model/state/useDaltonStore.ts:43-51 | merging the empty record `{}` leaves the view as it was |
| DaltonStore.MergeThen | frontend/src/app/features/chemistry/dalton-model/state/useDaltonStore.ts:43-51 | two `updateView` calls in a row act as one with the combined partial record, the later fields winning |
| DaltonStore.MergeIdempotent | frontend/src/app/features/chemistry/dalton-model/state/useDaltonStore.ts:43-51 | repeating the same `updateView` changes nothing more |
| DaltonStore.MergeReaches | frontend/src/app/features/chemistry/dalton-model/state/useDaltonStore.ts:43-51 | every view can be reached from every view by one `updateView` |
| DaltonStore.Store.constructor | frontend/src/app/features/chemistry/dalton-model/state/useDaltonStore.ts:17-27 | the store starts on the default symbol `H` with the default view |
| DaltonStore.Store.SelectElement | frontend/src/app/features/chemistry/dalton-model/state/useDaltonStore.ts:28-42 | an unknown symbol is ignored, the current symbol changes nothing and publishes nothing, any other table symbol replaces only `selectedSymbol`; the view is never touched and the store never leaves the table |
| DaltonStore.Store.UpdateView | frontend/src/app/features/chemistry/dalton-model/state/useDaltonStore.ts:43-51 | the view becomes the merge of the old view with the partial record; the selection is kept |
| DaltonStore.Store.Reset | frontend/src/app/features/chemistry/dalton-model/state/useDaltonStore.ts:54-60 | the default symbol and the default view, whatever the state before |
| AtomStore.StoreScenario | frontend/src/app/features/chemistry/state/useAtomStore.spec.ts:16-49 | the scenario of `useAtomStore.spec.ts`, on a fresh store: `C` is selected, `Unobtanium` is ignored, and two partial updates each keep the other flag |
| Selection.DefaultSymbolIsHydrogen | frontend/src/app/features/chemistry/state/useAtomStore.ts:27 | `DEFAULT_ELEMENT.symbol` is `H`, a symbol of the table |
| Selection.Select | frontend/src/app/features/chemistry/state/useAtomStore.ts:33-45 | the symbol held afterwards is the requested one exactly when the table has it (or it is already held), else the current one; a store on a table symbol stays on one |
| Selection.SelectIdempotent | frontend/src/app/features/chemistry/state/useAtomStore.ts:37-40 | selecting the same symbol a second time changes nothing and publishes nothing |
| Selection.SelectLastWins | frontend/src/app/features/chemistry/state/useAtomStore.ts:33-45 | of two selections the last table symbol wins |
| Selection.SelectionScenario | frontend/src/app/features/chemistry/state/useAtomStore.spec.ts:16-36 | from the default, `C` is taken and published, `Unobtanium` is ignored |
| LearningStore.SupportedLanguagesAreAll | frontend/src/app/state/useLearningStore.ts:4-11 | `SUPPORTED_LANGUAGES` is `en` then `tr`, covering every language once; the default is `en` |
| LearningStore.Store.constructor | frontend/src/app/state/useLearningStore.ts:13-14 | the store starts on `en` |
| LearningStore.Store.SetLanguage | frontend/src/app/state/useLearningStore.ts:15-17 | the language becomes the requested one; a new state is published exactly when it differs from the current one |
| Translations.Translate | frontend/src/app/i18n/translations.ts:79-86 | the entry of the language's own table when it has the key, else the English entry |
| Translations.TablesShareKeys | frontend/src/app/i18n/translations.ts:2-57 | the `en` and `tr` tables have the same 26 keys |
| Translations.TranslateFindsOwnEntry | frontend/src/app/i18n/translations.ts:79-86 | `translate('en', k)` is always `en[k]`, and every language finds its own entry for every key, so the English fallback never fires |
| Translations.CategoryKeys | frontend/src/app/i18n/translations.ts:66-77 | each of the ten categories c is mapped to the key `category.` + c, which is a translation key |
| Translations.TranslateCategory | frontend/src/app/i18n/translations.ts:88-94 | a mapped category gives `translate` of its key `category.` + category; any other string comes back unchanged |
| Translations.TranslateCategoryAsWritten | frontend/src/app/i18n/translations.ts:88-94 | the code as written: a mapped category as above, a name inherited from `Object.prototype` gives `undefined`, anything else comes back unchanged |
| Translations.ConstructorCategoryIsUndefined | frontend/src/app/i18n/translations.ts:88-94 | `"constructor"` is not a category, yet as written it translates to `undefined`; the corrected lookup returns `"constructor"` |
| Translations.AsWrittenAgreesAwayFromPrototype | frontend/src/app/i18n/translations.ts:88-94 | for every string that is not an inherited name the code as written and the corrected lookup agree |
| OrderedMap.Set | frontend/src/app/features/climate-tech/carbon-aware-motor-assembly/visualizer/modeling.ts:110 | `map.set` grows the map by one entry exactly when the key is new |
| OrderedMap.Values | frontend/src/app/features/climate-tech/carbon-aware-motor-assembly/visualizer/modeling.ts:113 | `Array.from(map.values())` lists the values in entry order |
| OrderedMap.GetFinds | frontend/src/app/features/climate-tech/carbon-aware-motor-assembly/visualizer/modeling.ts:135 | `map.get` finds a value exactly when some entry has the key, and that value is the entry's |
| OrderedMap.SetGet | frontend/src/app/features/climate-tech/carbon-aware-motor-assembly/visualizer/modeling.ts:147 | after `set`, `get` of the key gives the new value, every other key reads as before, and a new key is appended at the end |
| OrderedMap.SetEntries | frontend/src/app/features/climate-tech/carbon-aware-motor-assembly/visualizer/modeling.ts:147 | every entry after `set` is the new pair or an old entry |
| OrderedMap.GetOfEntry | frontend/src/app/features/climate-tech/carbon-aware-motor-assembly/visualizer/modeling.ts:135 | with distinct keys, `get` of an entry's key gives that entry's value |
| OrderedMap.SetKeepsDistinct | frontend/src/app/features/climate-tech/carbon-aware-motor-assembly/visualizer/modeling.ts:110 | `set` never creates a second entry for a key |
| OrderedMap.SetSum | frontend/src/app/features/climate-tech/carbon-aware-motor-assembly/visualizer/modeling.ts:143-146 | a sum over the values gains the new value and loses the value it replaces |
| OrderedMap.ValuesKeyed | frontend/src/app/features/climate-tech/carbon-aware-motor-assembly/visualizer/modeling.ts:113 | when each entry is filed under a key computed from its value, values at different places have different keys |
| OrderedMap.SetEachSnoc | frontend/src/app/features/climate-tech/carbon-aware-motor-assembly/visualizer/modeling.ts:91-111 | the map after one more `set` call is that `set` applied to the map before |
| OrderedMap.SetEachEntries | frontend/src/app/features/climate-tech/carbon-aware-motor-assembly/visualizer/modeling.ts:89-111 | a map filled by `set` calls holds only pairs that were set, under distinct keys |
| OrderedMap.SetEachLastWins | frontend/src/app/features/climate-tech/carbon-aware-motor-assembly/visualizer/modeling.ts:110 | last write wins: a key holds the value of the last call that set it |
| OrderedMap.SetEachHasKeys | frontend/src/app/features/climate-tech/carbon-aware-motor-assembly/visualizer/modeling.ts:110 | every key that was set is present |
| OrderedMap.LastWithKey | frontend/src/app/features/climate-tech/carbon-aware-motor-assembly/visualizer/modeling.ts:110 | the last call before a position that sets a given key exists and no later call sets it |
| OrderedMap.SetEachAvoids | frontend/src/app/features/climate-tech/carbon-aware-motor-assembly/visualizer/materials.ts:62-75 | later calls with other keys leave a key's value alone |
| OrderedMap.SetEachUniform | frontend/src/app/features/climate-tech/carbon-aware-motor-assembly/visualizer/materials.ts:64-67 | after calls that all store the same value, each of their keys holds it |
| OrderedMap.Pairs | frontend/src/app/features/climate-tech/carbon-aware-motor-assembly/visualizer/materials.ts:64-67 | one call per key, in order, each with the same value |
| OrderedMap.PairsAppend | frontend/src/app/features/climate-tech/carbon-aware-motor-assembly/visualizer/materials.ts:63-73 | the calls for two key lists back to back are the calls for their concatenation |
| OrderedMap.FileAllStep | frontend/src/app/features/climate-tech/carbon-aware-motor-assembly/visualizer/materials.ts:62-75 | filing one more part appends its calls |
| OrderedMap.FileAllFacts | frontend/src/app/features/climate-tech/carbon-aware-motor-assembly/visualizer/materials.ts:62-75 | every call files one of the parts under one of its own keys |
| OrderedMap.FileAllLastWins | frontend/src/app/features/climate-tech/carbon-aware-motor-assembly/visualizer/materials.ts:62-75 | a key of part j that no later part has finds part j |
| OrderedMap.LastFiling | frontend/src/app/features/climate-tech/carbon-aware-motor-assembly/visualizer/materials.ts:62-75 | the last part before a position that has a given key exists and no later part has it |
| OrderedMap.FileAllOfPrefix | frontend/src/app/features/climate-tech/carbon-aware-motor-assembly/visualizer/materials.ts:62-75 | the calls for the first parts do not depend on the parts after them |
| StableSort.Insert | frontend/src/app/features/climate-tech/carbon-aware-motor-assembly/visualizer/modeling.ts:113-115 | one insertion step of the sort adds exactly one element |
| StableSort.SortByCountDesc | frontend/src/app/features/climate-tech/carbon-aware-motor-assembly/visualizer/modeling.ts:113-115 | the sort keeps the length |
| StableSort.InsertPermutes | frontend/src/app/features/climate-tech/carbon-aware-motor-assembly/visualizer/modeling.ts:113-115 | an insertion step is a permutation of the element and the list |
| StableSort.InsertSum | frontend/src/app/features/climate-tech/carbon-aware-motor-assembly/visualizer/modeling.ts:157 | an insertion step adds the element's count to the total |
| StableSort.InsertStable | frontend/src/app/features/climate-tech/carbon-aware-motor-assembly/visualizer/modeling.ts:113-115 | an insertion step keeps the relative order of elements of equal count (the sort is stable) |
| StableSort.InsertAtMost | frontend/src/app/features/climate-tech/carbon-aware-motor-assembly/visualizer/modeling.ts:113-115 | an insertion step keeps an upper bound on the counts |
| StableSort.ConsSorted | frontend/src/app/features/climate-tech/carbon-aware-motor-assembly/visualizer/modeling.ts:113-115 | a head at least every count of a non-increasing tail gives a non-increasing list |
| StableSort.TailSorted | frontend/src/app/features/climate-tech/carbon-aware-motor-assembly/visualizer/modeling.ts:113-115 | the tail of a non-increasing list is non-increasing and bounded by its head |
| StableSort.InsertSorted | frontend/src/app/features/climate-tech/carbon-aware-motor-assembly/visualizer/modeling.ts:113-115 | inserting into a non-increasing list keeps it non-increasing |
| StableSort.SortSorted | frontend/src/app/features/climate-tech/carbon-aware-motor-assembly/visualizer/modeling.ts:113-115 | the sort leaves the counts in non-increasing order |
| StableSort.SortPermutes | frontend/src/app/features/climate-tech/carbon-aware-motor-assembly/visualizer/modeling.ts:113-115 | the sort keeps every element exactly as often as the input has it |
| StableSort.SortStable | frontend/src/app/features/climate-tech/carbon-aware-motor-assembly/visualizer/modeling.ts:113-115 | for every count, the elements with that count keep their input order |
| StableSort.SortSum | frontend/src/app/features/climate-tech/carbon-aware-motor-assembly/visualizer/modeling.ts:157 | the sort keeps the total of the counts |
| StableSort.SortFacts | frontend/src/app/features/climate-tech/carbon-aware-motor-assembly/visualizer/modeling.ts:113-115 | `sort((a, b) => b.count - a.count)` gives non-increasing counts, a permutation of the input, the same order among equal counts, and the same total |
| StableSort.SortMembers | frontend/src/app/features/climate-tech/carbon-aware-motor-assembly/visualizer/modeling.ts:159 | an element is in the sorted list exactly when it is in the input |
| StableSort.DistinctByTail | frontend/src/app/features/climate-tech/carbon-aware-motor-assembly/visualizer/modeling.ts:150-159 | the tail of a list with distinct keys has distinct keys, none equal to the head's |
| StableSort.DistinctByCons | frontend/src/app/features/climate-tech/carbon-aware-motor-assembly/visualizer/modeling.ts:150-159 | a head whose key the tail lacks keeps the keys distinct |
| StableSort.InsertDistinct | frontend/src/app/features/climate-tech/carbon-aware-motor-assembly/visualizer/modeling.ts:150-159 | inserting an element with a new key keeps the keys distinct |
| StableSort.SortDistinct | frontend/src/app/features/climate-tech/carbon-aware-motor-assembly/visualizer/modeling.ts:150-159 | sorting keeps the keys distinct |
| Grouping.SortedValues | frontend/src/app/features/climate-tech/carbon-aware-motor-assembly/visualizer/modeling.ts:113-115 | the grouped list has one value per map entry |
| Grouping.SortedValuesFacts | frontend/src/app/features/climate-tech/carbon-aware-motor-assembly/visualizer/modeling.ts:113-115 | the groups come largest count first, each is a value that was set under its own key, every key that was set has a group, and no two groups share a key |
| Grouping.SortedValuesSet | frontend/src/app/features/climate-tech/carbon-aware-motor-assembly/visualizer/modeling.ts:150 | each group is a value that was set under its key |
| Grouping.SortedValuesCover | frontend/src/app/features/climate-tech/carbon-aware-motor-assembly/visualizer/modeling.ts:150 | every key that was set has a group |
| Sums.SumByAppend | frontend/src/app/features/climate-tech/carbon-aware-motor-assembly/visualizer/modeling.ts:143-146 | a sum over two lists back to back is the sum of the two sums |
| Normalize.SpaceRun | frontend/src/app/features/climate-tech/carbon-aware-motor-assembly/visualizer/modeling.ts:14-16 | the run of white space that `\s*` / `\s+` match at a position: all white space, and maximal |
| Normalize.ReplaceUnderscores | frontend/src/app/features/climate-tech/carbon-aware-motor-assembly/visualizer/modeling.ts:13 | every `_` becomes a space and every other character stays, position by position |
| Normalize.DashGroups | frontend/src/app/features/climate-tech/carbon-aware-motor-assembly/visualizer/modeling.ts:22 | the `\s-\s` groups matched back to back at a position fit in the string |
| Normalize.StripTrailingDashGroups | frontend/src/app/features/climate-tech/carbon-aware-motor-assembly/visualizer/modeling.ts:25 | `(?:\s-\s)+$` removal only cuts a suffix: the result is a prefix of the input |
| Normalize.TrimEndSpaceOrDash | frontend/src/app/features/climate-tech/carbon-aware-motor-assembly/visualizer/modeling.ts:26 | `[\s-]+$` removal leaves a prefix of the input that ends in neither white space nor a dash |
| Normalize.TrimEndDigits | frontend/src/app/features/climate-tech/carbon-aware-motor-assembly/visualizer/modeling.ts:33 | `\d+$` removal leaves a prefix of the input |
| Normalize.ReplaceSeparatorChars | frontend/src/app/features/climate-tech/carbon-aware-motor-assembly/visualizer/modeling.ts:14-15 | replacing `\s*x\s*` introduces only characters of the replacement |
| Normalize.CollapseSpacesChars | frontend/src/app/features/climate-tech/carbon-aware-motor-assembly/visualizer/modeling.ts:16 | collapsing white space introduces only the space character |
| Normalize.RemovePunctuationChars | frontend/src/app/features/climate-tech/carbon-aware-motor-assembly/visualizer/modeling.ts:23 | removing `[.,]` introduces nothing and leaves no `.` or `,` |
| Normalize.CollapseDashGroupsChars | frontend/src/app/features/climate-tech/carbon-aware-motor-assembly/visualizer/modeling.ts:22 | collapsing repeated dash groups introduces only the characters of ` - ` |
| Normalize.CollapseSpacesFacts | frontend/src/app/features/climate-tech/carbon-aware-motor-assembly/visualizer/modeling.ts:16 | after collapsing, no two white-space characters are adjacent; the result is empty exactly when the input is, and starts with white space exactly when the input does |
| Normalize.TrimOfUntrailed | frontend/src/app/features/climate-tech/carbon-aware-motor-assembly/visualizer/modeling.ts:17 | a string that does not end in white space loses only its leading white space to `trim` |
| Normalize.NormalizePartNameFacts | frontend/src/app/features/climate-tech/carbon-aware-motor-assembly/visualizer/modeling.ts:11-18 | `normalizePartName` leaves no underscore, no two adjacent white-space characters and no white space at either end |
| Normalize.RemovePunctuationRemoves | frontend/src/app/features/climate-tech/carbon-aware-motor-assembly/visualizer/modeling.ts:23 | no `.` or `,` survives `replace(/[.,]/g, '')` |
| Normalize.KeyTailFacts | frontend/src/app/features/climate-tech/carbon-aware-motor-assembly/visualizer/modeling.ts:25-27 | the last three passes before lowering add no character and leave no white space at the start and neither white space nor a dash at the end |
| Normalize.MatchKeyBeforeLoweringFacts | frontend/src/app/features/climate-tech/carbon-aware-motor-assembly/visualizer/modeling.ts:20-27 | before lowering, the match key has no `.` or `,`, starts without white space and ends in neither white space nor a dash |
| Normalize.ToLowerKeeps | frontend/src/app/features/climate-tech/carbon-aware-motor-assembly/visualizer/modeling.ts:28 | lower-casing keeps the absence of `.` and `,` and the two end conditions |
| Normalize.NormalizeMatchKeyFacts | frontend/src/app/features/climate-tech/carbon-aware-motor-assembly/visualizer/modeling.ts:20-29 | `normalizeMatchKey` has no upper-case letter, no `.` or `,`, no white space at the start and neither white space nor a dash at the end |
| Normalize.LooseTailFacts | frontend/src/app/features/climate-tech/carbon-aware-motor-assembly/visualizer/modeling.ts:32-36 | the loose passes keep a prefix of the key that ends in neither white space nor a dash |
| Normalize.NormalizeMatchKeyLooseFacts | frontend/src/app/features/climate-tech/carbon-aware-motor-assembly/visualizer/modeling.ts:31-37 | `normalizeMatchKeyLoose` is a prefix of `normalizeMatchKey` that ends in neither white space nor a dash |
| NormalizeExamples.PartNameOfBolt | frontend/src/app/features/climate-tech/carbon-aware-motor-assembly/visualizer/modeling.ts:11-18 | `normalizePartName('Bolt_M8 - 12')` is `Bolt M8 - 12` |
| NormalizeExamples.PartNameOfBoltList | frontend/src/app/features/climate-tech/carbon-aware-motor-assembly/visualizer/modeling.ts:11-18 | `normalizePartName('Bolt_M8 - 12, 3')` is `Bolt M8 - 12, 3` |
| NormalizeExamples.MatchKeyOfBolt | frontend/src/app/features/climate-tech/carbon-aware-motor-assembly/visualizer/modeling.ts:20-29 | the match key of `Bolt_M8 - 12` is `bolt m8 - 12` |
| NormalizeExamples.MatchKeyOfBoltList | frontend/src/app/features/climate-tech/carbon-aware-motor-assembly/visualizer/modeling.ts:20-29 | the match key of `Bolt_M8 - 12, 3` is `bolt m8 - 12 3`: the comma is removed |
| NormalizeExamples.LooseKeyOfBolt | frontend/src/app/features/climate-tech/carbon-aware-motor-assembly/visualizer/modeling.ts:31-37 | the loose match key of `Bolt_M8 - 12` is `bolt m8` |
| NormalizeExamples.LooseKeyOfBoltList | frontend/src/app/features/climate-tech/carbon-aware-motor-assembly/visualizer/modeling.ts:31-37 | the loose match key of `Bolt_M8 - 12, 3` is `bolt m8 - 12` |
| NormalizeExamples.LooseKeysDiffer | frontend/src/app/features/climate-tech/carbon-aware-motor-assembly/visualizer/modeling.ts:31-37 | the two names get the loose keys `bolt m8` and `bolt m8 - 12`, which differ |
| SceneGraph.ChildAt | frontend/src/app/features/climate-tech/carbon-aware-motor-assembly/visualizer/modeling.ts:58 | child i of the object at a path sits at that path extended by i |
| SceneGraph.VisitFacts | frontend/src/app/features/climate-tech/carbon-aware-motor-assembly/visualizer/modeling.ts:58-80 | `traverse` from an object visits it first, then only existing objects of its subtree, each deeper than it |
| SceneGraph.VisitChildrenFacts | frontend/src/app/features/climate-tech/carbon-aware-motor-assembly/visualizer/modeling.ts:58-80 | the subtrees of an object's children hold only existing objects below it |
| SceneGraph.PreOrderFacts | frontend/src/app/features/climate-tech/carbon-aware-motor-assembly/visualizer/modeling.ts:58-61 | `model.traverse` visits the model first and only there, and visits only existing objects |
| SceneGraph.VisitSize | frontend/src/app/features/climate-tech/carbon-aware-motor-assembly/visualizer/modeling.ts:58 | `traverse` visits as many paths from an object as its subtree has objects |
| SceneGraph.VisitChildrenSize | frontend/src/app/features/climate-tech/carbon-aware-motor-assembly/visualizer/modeling.ts:58 | the children's subtrees contribute exactly their sizes |
| SceneGraph.VisitDistinct | frontend/src/app/features/climate-tech/carbon-aware-motor-assembly/visualizer/modeling.ts:58 | `traverse` from an object never visits a path twice |
| SceneGraph.VisitChildrenDistinct | frontend/src/app/features/climate-tech/carbon-aware-motor-assembly/visualizer/modeling.ts:58 | the subtrees of an object's children never share a path |
| SceneGraph.VisitChildrenFrom | frontend/src/app/features/climate-tech/carbon-aware-motor-assembly/visualizer/modeling.ts:58 | the subtrees of the children from `i` onwards lie below the object under a child index of `i` or more |
| SceneGraph.VisitChildrenContains | frontend/src/app/features/climate-tech/carbon-aware-motor-assembly/visualizer/modeling.ts:58 | whatever the subtree of child `i` visits is visited among the subtrees of the children `j` <= `i` onwards |
| SceneGraph.VisitCovers | frontend/src/app/features/climate-tech/carbon-aware-motor-assembly/visualizer/modeling.ts:58 | `traverse` reaches every existing object of the subtree |
| SceneGraph.VisitEachOnce | frontend/src/app/features/climate-tech/carbon-aware-motor-assembly/visualizer/modeling.ts:58 | `traverse` from an object visits exactly the existing objects of its subtree, each once |
| SceneGraph.PrefixValid | frontend/src/app/features/climate-tech/carbon-aware-motor-assembly/visualizer/modeling.ts:41-47 | every ancestor of an existing object exists, so climbing `parent` never fails |
| SceneGraph.MeshPaths | frontend/src/app/features/climate-tech/carbon-aware-motor-assembly/visualizer/modeling.ts:128-131 | the meshes of a walk are at most as many as the objects walked |
| SceneGraph.MeshPathsFacts | frontend/src/app/features/climate-tech/carbon-aware-motor-assembly/visualizer/modeling.ts:129 | every object kept by the `isMesh` filter was walked, exists and is a mesh |
| SceneGraph.AllValidPrefix | frontend/src/app/features/climate-tech/carbon-aware-motor-assembly/visualizer/modeling.ts:58 | a prefix of the walk visits only existing objects |
| SceneGraph.MeshPathsStep | frontend/src/app/features/climate-tech/carbon-aware-motor-assembly/visualizer/modeling.ts:100-104 | walking one more object adds it to the meshes exactly when it is a mesh |
| SceneGraph.MeshPathsNone | frontend/src/app/features/climate-tech/carbon-aware-motor-assembly/visualizer/modeling.ts:100-105 | a walk has no meshes exactly when none of its objects is a mesh |
| Modeling.RootName | frontend/src/app/features/climate-tech/carbon-aware-motor-assembly/visualizer/modeling.ts:48 | `model.name?.trim() \|\| 'Model'` is never empty |
| Modeling.NodePath | frontend/src/app/features/climate-tech/carbon-aware-motor-assembly/visualizer/modeling.ts:39-50 | `getNodePath` climbs from the parent to below the root and returns the root's name, then the trimmed non-empty ancestor names outermost first, joined by " / " |
| Modeling.NamedAncestorsFacts | frontend/src/app/features/climate-tech/carbon-aware-motor-assembly/visualizer/modeling.ts:43-44 | every name on a path label is trimmed and non-empty, at most one per object between the root and the node |
| Modeling.NamedAncestorsSnoc | frontend/src/app/features/climate-tech/carbon-aware-motor-assembly/visualizer/modeling.ts:44 | the names climbed one level higher come first: `unshift` puts names outermost first |
| Modeling.NamedAncestorsOfChild | frontend/src/app/features/climate-tech/carbon-aware-motor-assembly/visualizer/modeling.ts:41-47 | a child shares its parent's ancestors above the parent |
| Modeling.ChildPathNames | frontend/src/app/features/climate-tech/carbon-aware-motor-assembly/visualizer/modeling.ts:41-49 | a child's label lists its parent's ancestors and then the parent's own name when it has one |
| Modeling.TopLevelPath | frontend/src/app/features/climate-tech/carbon-aware-motor-assembly/visualizer/modeling.ts:49 | the root and its children are labelled with the root's name alone |
| Modeling.CollectHierarchy | frontend/src/app/features/climate-tech/carbon-aware-motor-assembly/visualizer/modeling.ts:52-83 | `collectHierarchy` returns the root row and then one row per other object in pre-order, its depth counted by climbing to the root, its name trimmed or numbered "type n" |
| Modeling.RowsUpToFacts | frontend/src/app/features/climate-tech/carbon-aware-motor-assembly/visualizer/modeling.ts:58-80 | after j objects there are j - 1 rows, row k - 1 being that of object k |
| Modeling.HierarchyFacts | frontend/src/app/features/climate-tech/carbon-aware-motor-assembly/visualizer/modeling.ts:52-83 | one row per object in pre-order; the first is the root at depth 0; every other carries its object's type and its depth, the length of its path from the root |
| Modeling.UnnamedNumbering | frontend/src/app/features/climate-tech/carbon-aware-motor-assembly/visualizer/modeling.ts:74-77 | the counter numbers unnamed objects in traversal order: an earlier one gets a smaller number |
| Modeling.CountMeshes | frontend/src/app/features/climate-tech/carbon-aware-motor-assembly/visualizer/modeling.ts:99-104 | the inner `traverse` counts the meshes of the subtree, the object itself included |
| Modeling.MeshCountPositive | frontend/src/app/features/climate-tech/carbon-aware-motor-assembly/visualizer/modeling.ts:105-107 | the count is positive exactly when the subtree contains a mesh |
| Modeling.CollectAssemblyGroups | frontend/src/app/features/climate-tech/carbon-aware-motor-assembly/visualizer/modeling.ts:85-116 | `collectAssemblyGroups` sets, for each named non-mesh object with meshes below it, its group under path + "/" + name, then sorts the map's values by mesh count, largest first |
| Modeling.AssemblyEntriesStep | frontend/src/app/features/climate-tech/carbon-aware-motor-assembly/visualizer/modeling.ts:91-111 | one more object walked adds its `set` exactly when it is an assembly |
| Modeling.AssemblyEntriesGrow | frontend/src/app/features/climate-tech/carbon-aware-motor-assembly/visualizer/modeling.ts:91-111 | a `set` once made stays among the `set` calls of any longer walk |
| Modeling.AssemblyEntriesGrowPast | frontend/src/app/features/climate-tech/carbon-aware-motor-assembly/visualizer/modeling.ts:91-111 | a `set` made by object k is among the calls of every walk past k |
| Modeling.AssemblyEntryIn | frontend/src/app/features/climate-tech/carbon-aware-motor-assembly/visualizer/modeling.ts:91-111 | every assembly walked has its `set` among the calls |
| Modeling.AssemblyEntryFiled | frontend/src/app/features/climate-tech/carbon-aware-motor-assembly/visualizer/modeling.ts:91-111 | every `set` files the group of some assembly walked, under that group's own key |
| Modeling.AssemblyEntriesFacts | frontend/src/app/features/climate-tech/carbon-aware-motor-assembly/visualizer/modeling.ts:91-111 | each `set` files an assembly's group under its own key, and every assembly walked gets one |
| Modeling.AssemblyMapKeeps | frontend/src/app/features/climate-tech/carbon-aware-motor-assembly/visualizer/modeling.ts:110 | an object that is not an assembly with the same key leaves the group stored under that key alone |
| Modeling.AssemblyLastWins | frontend/src/app/features/climate-tech/carbon-aware-motor-assembly/visualizer/modeling.ts:110 | an assembly whose key no later assembly shares is the group stored under that key |
| Modeling.AssemblyMapStep | frontend/src/app/features/climate-tech/carbon-aware-motor-assembly/visualizer/modeling.ts:91-111 | one more object sets its group when it is an assembly and otherwise leaves the map alone |
| Modeling.AssemblyGroupsFacts | frontend/src/app/features/climate-tech/carbon-aware-motor-assembly/visualizer/modeling.ts:85-116 | the groups are sorted by mesh count, largest first; each is the group of an assembly; no two share a key; every assembly has a group with its key |
| Modeling.MeshRawName | frontend/src/app/features/climate-tech/carbon-aware-motor-assembly/visualizer/modeling.ts:132 | a mesh is grouped by its trimmed name or "Mesh n", never by an empty name |
| Modeling.PartKey | frontend/src/app/features/climate-tech/carbon-aware-motor-assembly/visualizer/modeling.ts:133-134 | `normalized \|\| rawName` is non-empty for a non-empty raw name |
| Modeling.AssemblyCounts | frontend/src/app/features/climate-tech/carbon-aware-motor-assembly/visualizer/modeling.ts:155-156 | the assembly rows list the path labels and counts in map order |
| Modeling.ToGroups | frontend/src/app/features/climate-tech/carbon-aware-motor-assembly/visualizer/modeling.ts:150-158 | one group per entry, in map order |
| Modeling.CollectPartGroups | frontend/src/app/features/climate-tech/carbon-aware-motor-assembly/visualizer/modeling.ts:118-160 | `collectPartGroups` files every mesh in pre-order under its group key, counting it in its group and under its path label, then returns the groups sorted by count, each with its labels sorted by count |
| Modeling.FileMesh | frontend/src/app/features/climate-tech/carbon-aware-motor-assembly/visualizer/modeling.ts:135-147 | one mesh takes the entry under its key or a fresh one, adds one to its count and one under its path label |
| Modeling.AddedEntryOk | frontend/src/app/features/climate-tech/carbon-aware-motor-assembly/visualizer/modeling.ts:135-147 | the entry a mesh is filed under keeps its key, name, positive count and per-assembly tallies consistent, and counts one mesh more |
| Modeling.AddMeshFacts | frontend/src/app/features/climate-tech/carbon-aware-motor-assembly/visualizer/modeling.ts:135-147 | filing a mesh keeps the map well formed, adds one to the total and to its own key's count, and leaves every other key's count alone |
| Modeling.PartMapFacts | frontend/src/app/features/climate-tech/carbon-aware-motor-assembly/visualizer/modeling.ts:128-148 | after j objects the map is well formed, its counts add up to the meshes walked, and each key counts exactly the meshes walked with that key |
| Modeling.CountsStep | frontend/src/app/features/climate-tech/carbon-aware-motor-assembly/visualizer/modeling.ts:141 | counting one more mesh under a key keeps every key's count equal to its number of meshes |
| Modeling.AssemblyCountsSum | frontend/src/app/features/climate-tech/carbon-aware-motor-assembly/visualizer/modeling.ts:155-156 | turning the assembly map into rows keeps the total count |
| Modeling.ToGroupsSum | frontend/src/app/features/climate-tech/carbon-aware-motor-assembly/visualizer/modeling.ts:150-158 | turning entries into groups keeps the total count |
| Modeling.ToGroupFacts | frontend/src/app/features/climate-tech/carbon-aware-motor-assembly/visualizer/modeling.ts:151-157 | a group keeps its entry's key, name and count; its labels are distinct and sorted by count, largest first; each counts at least one mesh; and they add up to the group's count |
| Modeling.ToGroupPositive | frontend/src/app/features/climate-tech/carbon-aware-motor-assembly/visualizer/modeling.ts:151-157 | each path label of a group counts at least one mesh |
| Modeling.ToGroupDistinct | frontend/src/app/features/climate-tech/carbon-aware-motor-assembly/visualizer/modeling.ts:151-157 | no two path labels of a group are the same |
| Modeling.PartGroupsFrom | frontend/src/app/features/climate-tech/carbon-aware-motor-assembly/visualizer/modeling.ts:150-159 | every group returned is the group of an entry of the final map |
| Modeling.PartGroupsFacts | frontend/src/app/features/climate-tech/carbon-aware-motor-assembly/visualizer/modeling.ts:118-160 | the groups are sorted by count, largest first, and add up to the number of meshes; no two share a key; each group's name is its key and its count is its number of meshes; its labels are distinct, sorted and add up to its count |
| Modeling.MeshKeysStep | frontend/src/app/features/climate-tech/carbon-aware-motor-assembly/visualizer/modeling.ts:128-148 | one more object walked appends its key exactly when it is a mesh |
| Modeling.MeshKeysPrefix | frontend/src/app/features/climate-tech/carbon-aware-motor-assembly/visualizer/modeling.ts:128-148 | walking further only appends to the keys already collected |
| Modeling.MeshKeysGrowPast | frontend/src/app/features/climate-tech/carbon-aware-motor-assembly/visualizer/modeling.ts:128-148 | a key collected by object k is there after every later object |
| Modeling.MeshKeysLast | frontend/src/app/features/climate-tech/carbon-aware-motor-assembly/visualizer/modeling.ts:128-148 | a mesh adds its own key when it is walked |
| Modeling.MeshKeysHas | frontend/src/app/features/climate-tech/carbon-aware-motor-assembly/visualizer/modeling.ts:128-148 | every mesh walked contributes its key |
| Modeling.PartGroupsCover | frontend/src/app/features/climate-tech/carbon-aware-motor-assembly/visualizer/modeling.ts:128-159 | every mesh belongs to some group with its key |
| Modeling.MaxAbsX | frontend/src/app/features/climate-tech/carbon-aware-motor-assembly/visualizer/modeling.ts:169-172 | the widest distance from the centre is never negative |
| Modeling.ExplodeSign | frontend/src/app/features/climate-tech/carbon-aware-motor-assembly/visualizer/modeling.ts:192 | a mesh moves right (+1) exactly when its centre is at or right of the model's centre, and left (-1) otherwise |
| Modeling.ExplodeMagnitude | frontend/src/app/features/climate-tech/carbon-aware-motor-assembly/visualizer/modeling.ts:193 | the magnitude is at least 0.15; it is 1 for bounds without width; at most 1 for a centre within the bounds; otherwise the relative distance once that reaches 0.15 |
| Modeling.ExplodeEntries | frontend/src/app/features/climate-tech/carbon-aware-motor-assembly/visualizer/modeling.ts:175-200 | one entry per mesh, in order |
| Modeling.BuildExplodeParts | frontend/src/app/features/climate-tech/carbon-aware-motor-assembly/visualizer/modeling.ts:162-203 | `buildExplodeParts` gives one entry per mesh in pre-order, at its resting position, moving along x away from the centre |
| Modeling.WithinBounds | frontend/src/app/features/climate-tech/carbon-aware-motor-assembly/visualizer/modeling.ts:169-172 | a point within the bounds is no farther from the centre than the widest distance |
| Modeling.ExplodePartsFacts | frontend/src/app/features/climate-tech/carbon-aware-motor-assembly/visualizer/modeling.ts:162-203 | one entry per mesh in pre-order at its resting position; each moves by at least 0.15 of the distance, exactly all of it without width, and at most all of it for a centre within the bounds |
| Materials.CreateMaterialLibrary | frontend/src/app/features/climate-tech/carbon-aware-motor-assembly/visualizer/materials.ts:19-45 | `createMaterialLibrary` defines one material per definition key, in order, then sets `steel_default` |
| Materials.DefinedUpToFacts | frontend/src/app/features/climate-tech/carbon-aware-motor-assembly/visualizer/materials.ts:35-42 | after the first j definitions the library holds exactly those keys, each with its catalog material |
| Materials.LibraryFacts | frontend/src/app/features/climate-tech/carbon-aware-motor-assembly/visualizer/materials.ts:34-44 | the library has exactly the definition keys and `steel_default`; `steel_default` is the built-in steel even when a definition has that key; every other key has its catalog material |
| Materials.Register | frontend/src/app/features/climate-tech/carbon-aware-motor-assembly/visualizer/materials.ts:64-67 | the four `set` calls for one key or name, in order |
| Materials.CreateMaterialIndex | frontend/src/app/features/climate-tech/carbon-aware-motor-assembly/visualizer/materials.ts:59-77 | `createMaterialIndex` files every part in turn under the four keys of its non-empty key and then of its non-empty name |
| Materials.RegisterPart | frontend/src/app/features/climate-tech/carbon-aware-motor-assembly/visualizer/materials.ts:62-75 | the callback for one part makes the calls for its key and then for its name |
| Materials.RegisterValue | frontend/src/app/features/climate-tech/carbon-aware-motor-assembly/visualizer/materials.ts:63-74 | one `if (value)` makes the four calls for a non-empty value and none for an empty one |
| Materials.MaterialIndexEntries | frontend/src/app/features/climate-tech/carbon-aware-motor-assembly/visualizer/materials.ts:59-77 | the index has distinct keys, and every entry files a part under one of that part's own keys |
| Materials.PartLastWins | frontend/src/app/features/climate-tech/carbon-aware-motor-assembly/visualizer/materials.ts:62-75 | last write wins: a key registered by part j and by no later part finds part j |
| Materials.IndexHasRegistered | frontend/src/app/features/climate-tech/carbon-aware-motor-assembly/visualizer/materials.ts:62-75 | every key a part registers is in the index |
| Materials.EmptyPartAddsNothing | frontend/src/app/features/climate-tech/carbon-aware-motor-assembly/visualizer/materials.ts:62-75 | a part with an empty key and an empty name adds nothing |
| Materials.ResolveMaterial | frontend/src/app/features/climate-tech/carbon-aware-motor-assembly/visualizer/materials.ts:79-97 | with debug on, no target means the debug material, and a part whose guess is the target gets the debug material |
| Materials.ResolveWithoutDebug | frontend/src/app/features/climate-tech/carbon-aware-motor-assembly/visualizer/materials.ts:92-96 | otherwise the result is the library's material for a non-empty guess it defines, else `steel_default` |
| Materials.ResolveFromLibrary | frontend/src/app/features/climate-tech/carbon-aware-motor-assembly/visualizer/materials.ts:79-97 | on a library from `createMaterialLibrary` the result is never undefined: debug, `steel_default`, or the material of the guessed definition |
| Materials.ResolveMaterialAsWritten | frontend/src/app/features/climate-tech/carbon-aware-motor-assembly/visualizer/materials.ts:92-95 | as written, `library[guess]` also finds an inherited member, which a guess with no own entry returns instead of a material |
| Materials.InheritedGuessIsNoMaterial | frontend/src/app/features/climate-tech/carbon-aware-motor-assembly/visualizer/materials.ts:92-96 | a guess of `toString` that the catalog does not define returns the inherited function, where `steel_default` is intended |
| Materials.AsWrittenAgrees | frontend/src/app/features/climate-tech/carbon-aware-motor-assembly/visualizer/materials.ts:92-96 | away from the inherited names the code as written returns what the corrected reading returns |
| Materials.Applied | frontend/src/app/features/climate-tech/carbon-aware-motor-assembly/visualizer/materials.ts:100-104 | `applyMaterial` replaces a single material, and every entry of an array, keeping the array's length |
| Materials.AppliedTwice | frontend/src/app/features/climate-tech/carbon-aware-motor-assembly/visualizer/materials.ts:99-104 | applying two materials in turn is applying the second |
| Materials.ApplyMaterial | frontend/src/app/features/climate-tech/carbon-aware-motor-assembly/visualizer/materials.ts:99-111 | the mesh's slot becomes the applied slot and its position is unchanged |
| Meshes.Mesh.constructor | frontend/src/app/features/climate-tech/carbon-aware-motor-assembly/visualizer/GearboxModel.tsx:177-178 | a mesh starts with the given position and material slot |
| Gearbox.LookupKeys | frontend/src/app/features/climate-tech/carbon-aware-motor-assembly/visualizer/GearboxModel.tsx:100-108 | the lookup tries four keys: the normalised name lower-cased, the name lower-cased, the match key and the loose key |
| Gearbox.FirstHitFacts | frontend/src/app/features/climate-tech/carbon-aware-motor-assembly/visualizer/GearboxModel.tsx:104-108 | a chain of `??` over `get` finds something exactly when one of its keys is in the index, and then the result of the first such key |
| Gearbox.FirstHitOfFour | frontend/src/app/features/climate-tech/carbon-aware-motor-assembly/visualizer/GearboxModel.tsx:104-108 | the four-step chain of the component is the first hit among its four keys |
| Gearbox.CatalogFindsPart | frontend/src/app/features/climate-tech/carbon-aware-motor-assembly/visualizer/GearboxModel.tsx:100-108 | a mesh named exactly like a catalog part's key or name is always found, by its first key, and it finds that part when no later part registers that key |
| Gearbox.MeshMaterialFacts | frontend/src/app/features/climate-tech/carbon-aware-motor-assembly/visualizer/GearboxModel.tsx:112-119 | a mesh the catalog does not know gets `steel_default`; with debug on, a part guessed `steel_fastener_12_9` turns red; otherwise a mesh gets its guess's material when the library defines it, else `steel_default` (on the corrected own-entry reading of `resolveMaterial`; see "## Left out") |
| Gearbox.MeshMaterialAsWritten | frontend/src/app/features/climate-tech/carbon-aware-motor-assembly/visualizer/GearboxModel.tsx:112-119 | against `resolveMaterial` as written, the effect's material is the same for every guess that is not an inherited `Object.prototype` name; for such a name the library lacks, with no debug hit, the code applies the inherited member where the model has `steel_default` |
| Gearbox.MaterialsFor | frontend/src/app/features/climate-tech/carbon-aware-motor-assembly/visualizer/GearboxModel.tsx:96-120 | one material per mesh, in traversal order |
| Gearbox.MaterialsForAt | frontend/src/app/features/climate-tech/carbon-aware-motor-assembly/visualizer/GearboxModel.tsx:100-119 | mesh i gets the material resolved for its own trimmed name |
| Gearbox.MeshMaterialsFor | frontend/src/app/features/climate-tech/carbon-aware-motor-assembly/visualizer/GearboxModel.tsx:100-119 | with the component's four lookup keys, every mesh gets the material resolved for its own trimmed name |
| Gearbox.UnmatchedFacts | frontend/src/app/features/climate-tech/carbon-aware-motor-assembly/visualizer/GearboxModel.tsx:109-111 | a name is unmatched exactly when it is some mesh's trimmed name, it is not empty and nothing in the catalog matches it |
| Gearbox.ModelMeshes | frontend/src/app/features/climate-tech/carbon-aware-motor-assembly/visualizer/GearboxModel.tsx:96-99 | the meshes of the model in traversal order all exist and are meshes |
| Gearbox.MeshNames | frontend/src/app/features/climate-tech/carbon-aware-motor-assembly/visualizer/GearboxModel.tsx:100 | the meshes' names in traversal order |
| Gearbox.ExplodedPosition | frontend/src/app/features/climate-tech/carbon-aware-motor-assembly/visualizer/GearboxModel.tsx:176-178 | with explode at zero a mesh sits at its base position |
| Gearbox.GearboxModel.constructor | frontend/src/app/features/climate-tech/carbon-aware-motor-assembly/visualizer/GearboxModel.tsx:54-157 | the memoised library, index, meshes and explode entries are those of the catalog and the model, and no warning has been logged |
| Gearbox.GearboxModel.PartsCount | frontend/src/app/features/climate-tech/carbon-aware-motor-assembly/visualizer/GearboxModel.tsx:160 | `parts.length` is the number of meshes of the model |
| Gearbox.GearboxModel.ApplyCatalogMaterials | frontend/src/app/features/climate-tech/carbon-aware-motor-assembly/visualizer/GearboxModel.tsx:94-131 | every mesh gets the material resolved for its catalog entry (own-entry reading) and keeps its position; the unmatched set is as above; the warning fires only in development, for a non-empty set, and only once |
| Gearbox.GearboxModel.MatchMeshes | frontend/src/app/features/climate-tech/carbon-aware-motor-assembly/visualizer/GearboxModel.tsx:96-120 | the traversal of the effect applies each mesh's material and collects the unmatched names |
| Gearbox.GearboxModel.VisitMesh | frontend/src/app/features/climate-tech/carbon-aware-motor-assembly/visualizer/GearboxModel.tsx:97-119 | the callback for one mesh adds its name to the unmatched set when nothing matches, applies its material (own-entry reading) and leaves its position alone |
| Gearbox.GearboxModel.UpdateFrame | frontend/src/app/features/climate-tech/carbon-aware-motor-assembly/visualizer/GearboxModel.tsx:175-180 | every mesh moves to base + dir * (explode * 2 * magnitude) and keeps its material |
| Gearbox.GearboxModel.AtRest | frontend/src/app/features/climate-tech/carbon-aware-motor-assembly/visualizer/GearboxModel.tsx:175-180 | with explode at zero every mesh is back at its resting position, the entries following traversal order |
| AtomVisuals.ClampedMass | frontend/src/app/features/chemistry/rutherford-model/visualizer/RutherfordSystem.tsx:30 | the clamped mass lies in [1, 250], is the mass itself inside that range, and the violated bound outside it |
| AtomVisuals.SeedOrOne | frontend/src/app/features/chemistry/rutherford-model/visualizer/RutherfordSystem.tsx:47 | `seed \|\| 1` is never zero and replaces only a zero seed |
| AtomVisuals.Pow2Add | frontend/src/app/features/chemistry/rutherford-model/visualizer/RutherfordSystem.tsx:168-170 | powers of two multiply: the bit width of the words is well defined |
| AtomVisuals.Pow2Word | frontend/src/app/features/chemistry/rutherford-model/visualizer/RutherfordSystem.tsx:168-170 | 2^32 is the word range the bitwise operators read |
| AtomVisuals.BitsBound | frontend/src/app/features/chemistry/rutherford-model/visualizer/RutherfordSystem.tsx:168-170 | `^` and `\|` of the low n bits have at most n bits, so every mix step stays a 32-bit word |
| AtomVisuals.Output | frontend/src/app/features/chemistry/rutherford-model/visualizer/RutherfordSystem.tsx:170 | `(word >>> 0) / 4294967296` lies in [0, 1) |
| AtomVisuals.Draw | frontend/src/app/features/chemistry/rutherford-model/visualizer/RutherfordSystem.tsx:164-171 | every draw of a generator lies in [0, 1) and depends only on its seed and its index |
| AtomVisuals.DrawIsOutput | frontend/src/app/features/chemistry/rutherford-model/visualizer/RutherfordSystem.tsx:165-167 | draw k of a generator mixes the state `seed + k * 0x6d2b79f5` |
| AtomVisuals.Draws | frontend/src/app/features/chemistry/rutherford-model/visualizer/RutherfordSystem.tsx:164-171 | the first n draws of a generator, in order |
| AtomVisuals.Mulberry32.constructor | frontend/src/app/features/chemistry/rutherford-model/visualizer/RutherfordSystem.tsx:164-165 | `mulberry32(seed)` starts with `t = seed` and has drawn nothing |
| AtomVisuals.Mulberry32.Next | frontend/src/app/features/chemistry/rutherford-model/visualizer/RutherfordSystem.tsx:166-171 | a call steps `t` by 0x6d2b79f5, returns a number in [0, 1) and appends it to the draws taken, which stay the stream of the seed |
| AtomVisuals.HistoryIsDraws | frontend/src/app/features/chemistry/thomson-model/visualizer/ThomsonSystem.tsx:168-176 | the numbers a generator has returned are exactly the first draws of the stream of its seed |
| AtomVisuals.LastDrawIsOutput | frontend/src/app/features/chemistry/thomson-model/visualizer/ThomsonSystem.tsx:171-174 | the number a call returned is the mix of the state it left |
| Rutherford.OrbitCount | frontend/src/app/features/chemistry/rutherford-model/visualizer/RutherfordSystem.tsx:46 | `Math.max(element.electrons, 1)`: at least one orbit, and one per electron otherwise |
| Rutherford.OrbitPosition | frontend/src/app/features/chemistry/rutherford-model/visualizer/RutherfordSystem.tsx:56 | `t` lies in [0, 1], is 0 for the first orbit and 1 for the last of several |
| Rutherford.UnitFraction | frontend/src/app/features/chemistry/rutherford-model/visualizer/RutherfordSystem.tsx:56 | `i / (count - 1)` is a fraction in [0, 1] for an inner orbit, and exactly 1 for the last |
| Rutherford.FractionOrder | frontend/src/app/features/chemistry/rutherford-model/visualizer/RutherfordSystem.tsx:56 | `t` grows with the orbit index |
| Rutherford.OrbitsUpTo | frontend/src/app/features/chemistry/rutherford-model/visualizer/RutherfordSystem.tsx:55-67 | the loop pushes one orbit per pass |
| Rutherford.OrbitConfigs | frontend/src/app/features/chemistry/rutherford-model/visualizer/RutherfordSystem.tsx:45-70 | `orbitConfigs` has one entry per orbit |
| Rutherford.OrbitsUpToAt | frontend/src/app/features/chemistry/rutherford-model/visualizer/RutherfordSystem.tsx:66 | entry i of the orbits pushed is orbit i |
| Rutherford.OrbitsUpToExtend | frontend/src/app/features/chemistry/rutherford-model/visualizer/RutherfordSystem.tsx:59-60 | the orbits pushed so far read only the draws taken so far |
| Rutherford.RandomUnitVector | frontend/src/app/features/chemistry/rutherford-model/visualizer/RutherfordSystem.tsx:151-153 | `randomUnitVector` takes two draws, u then v |
| Rutherford.BuildOrbitConfigs | frontend/src/app/features/chemistry/rutherford-model/visualizer/RutherfordSystem.tsx:45-70 | the `useMemo` returns the orbits of the generator seeded with `atomicNumber \|\| 1`, three draws per orbit: phase, then the normal's two |
| Rutherford.NextOrbit | frontend/src/app/features/chemistry/rutherford-model/visualizer/RutherfordSystem.tsx:56-66 | one pass takes three draws and pushes the orbit made of them |
| Rutherford.OrbitDraws | frontend/src/app/features/chemistry/rutherford-model/visualizer/RutherfordSystem.tsx:59-60 | orbit i takes exactly draws 3i (phase) and 3i + 1, 3i + 2 (normal) |
| Rutherford.OrbitConfigDraws | frontend/src/app/features/chemistry/rutherford-model/visualizer/RutherfordSystem.tsx:45-70 | an element's orbit i takes draws 3i + 1 to 3i + 3 of the stream seeded with `atomicNumber \|\| 1` |
| Rutherford.OrbitRanges | frontend/src/app/features/chemistry/rutherford-model/visualizer/RutherfordSystem.tsx:59-60 | for draws in [0, 1) the phase lies in [0, 2π) and the normal's draws in [0, 1) |
| Rutherford.OrbitConfigRanges | frontend/src/app/features/chemistry/rutherford-model/visualizer/RutherfordSystem.tsx:45-70 | every orbit of an element lies in those ranges |
| Rutherford.OrbitPositions | frontend/src/app/features/chemistry/rutherford-model/visualizer/RutherfordSystem.tsx:56 | the orbits run from `t = 0` to `t = 1` |
| Rutherford.SpeedRange | frontend/src/app/features/chemistry/rutherford-model/visualizer/RutherfordSystem.tsx:58 | the speed lies in [0.7 / 2.6, 0.7], 0.7 at `t = 0` and 0.7 / 2.6 at `t = 1` |
| Rutherford.SpeedFalls | frontend/src/app/features/chemistry/rutherford-model/visualizer/RutherfordSystem.tsx:58 | the speed falls as `t` grows |
| Rutherford.OrbitSpeeds | frontend/src/app/features/chemistry/rutherford-model/visualizer/RutherfordSystem.tsx:55-58 | an outer orbit is never faster than an inner one, and the innermost moves at 0.7 |
| Rutherford.AngleAdvance | frontend/src/app/features/chemistry/rutherford-model/visualizer/RutherfordSystem.tsx:110 | at motion time 0 an electron is at its phase, and time `delta` moves it on by `delta * speed` |
| Rutherford.RutherfordMotion.constructor | frontend/src/app/features/chemistry/rutherford-model/visualizer/RutherfordSystem.tsx:143-146 | motion time starts at 0, with one electron instance per orbit |
| Rutherford.RutherfordMotion.Frame | frontend/src/app/features/chemistry/rutherford-model/visualizer/RutherfordSystem.tsx:97-126 | motion time advances unless frozen; with the mesh mounted every electron goes to its angle at the new time; the group turns by `delta * 0.15` only then, and only when rotating, not frozen and mounted |
| Thomson.ElectronsUpTo | frontend/src/app/features/chemistry/thomson-model/visualizer/ThomsonSystem.tsx:148-163 | the loop pushes one electron per pass |
| Thomson.LoopCount | frontend/src/app/features/chemistry/thomson-model/visualizer/ThomsonSystem.tsx:148 | the loop runs `count` times, and not at all for `count <= 0` |
| Thomson.ElectronPositions | frontend/src/app/features/chemistry/thomson-model/visualizer/ThomsonSystem.tsx:144-166 | one electron per pass of the loop |
| Thomson.ElectronsUpToAt | frontend/src/app/features/chemistry/thomson-model/visualizer/ThomsonSystem.tsx:156 | entry i of the electrons pushed is electron i |
| Thomson.ElectronsUpToExtend | frontend/src/app/features/chemistry/thomson-model/visualizer/ThomsonSystem.tsx:149-153 | the electrons pushed so far read only the draws taken so far |
| Thomson.CreateElectronPositions | frontend/src/app/features/chemistry/thomson-model/visualizer/ThomsonSystem.tsx:144-166 | `createElectronPositions` returns the electrons of the generator seeded with `seed \|\| 1`, three draws each: u, v, then the radial draw |
| Thomson.NextElectron | frontend/src/app/features/chemistry/thomson-model/visualizer/ThomsonSystem.tsx:149-162 | one pass takes three draws and pushes the electron made of them |
| Thomson.ElectronDraws | frontend/src/app/features/chemistry/thomson-model/visualizer/ThomsonSystem.tsx:144-166 | electron i takes draws 3i + 1 to 3i + 3 of the stream, in the order u, v, radial |
| Thomson.ElectronRanges | frontend/src/app/features/chemistry/thomson-model/visualizer/ThomsonSystem.tsx:151-153 | for draws in [0, 1) the azimuth lies in [0, 2π), the argument of `Math.acos` in [-1, 1) and the radial draw in [0, 1), so every electron lies strictly inside the sphere |
| Thomson.ElectronPositionRanges | frontend/src/app/features/chemistry/thomson-model/visualizer/ThomsonSystem.tsx:144-166 | every electron of an element lies in those ranges |
| Thomson.SameDrawsAsOrbits | frontend/src/app/features/chemistry/thomson-model/visualizer/ThomsonSystem.tsx:32 | both visualisers seed with the atomic number: the first electrons of the Thomson model read the draws of the Rutherford orbits, azimuth = phase and the polar and radial draws = the normal's draws |
| Thomson.ThomsonScene.constructor | frontend/src/app/features/chemistry/thomson-model/visualizer/ThomsonSystem.tsx:131 | the instanced mesh has one slot per electron, and the group starts unrotated |
| Thomson.ThomsonScene.PlaceElectrons | frontend/src/app/features/chemistry/thomson-model/visualizer/ThomsonSystem.tsx:74-87 | with the mesh mounted, slot i gets electron i; without it nothing changes |
| Thomson.ThomsonScene.Frame | frontend/src/app/features/chemistry/thomson-model/visualizer/ThomsonSystem.tsx:111-118 | the group turns by `delta * 0.2` about y and `delta * 0.08` about x unless rotation is off, motion is frozen or the group is not mounted |

## Left out

- Rendering: JSX components, the canvas, WebGL, three.js geometry, material objects, lights and their stripping, clipping planes, disposal, `needsUpdate` flags and `SoftLightRig`. These are calls into foreign libraries.
- Floating-point geometry. Numbers are exact reals, and `Math.PI` is its 16-digit decimal. Left out are:
  - the orbit radius `4 + t^0.75 * 5`;
  - the trigonometry of `randomUnitVector`, `createElectronPositions` and the orbit trail points;
  - the orbit quaternions;
  - the cube-root radii (`estimateNucleusRadius`, `getThomsonRadius` beyond its mass clamp, the Thomson electron radius);
  - the `fibonacciSphere` coordinates (the number of points is modelled).

  Orbits and electrons keep the draws that geometry is computed from.
- The `radius` parameter of `createElectronPositions`: it only scales that geometry.
- `buildExplodeParts`: Box3 bounds, world matrices, bounding-box centres and `transformDirection` are parameters (`Placement`, `minX`, `maxX`). The sign and magnitude rule is modelled.
- `console.warn` and its message: only whether the warning fires, and the once-only flag, are modelled.
- Asset loading (`useGLTF`), cloning and re-centring the model. The scene graph is a datatype given to the component.
- The overlay heat map is absent from the code of the component, so there is nothing to model.
- zustand's subscription and re-rendering. Each store is a class; `selectElement` returns whether a new state object would be published.
- React memoisation, effects and refs. Their values are fields computed once in constructors, and their callbacks are methods.
- `toLowerCase` is modelled on ASCII letters only, and white space is JavaScript's `\s` class as a fixed character set. There is no Unicode case mapping.
- Gearbox.MeshMaterialFacts, Gearbox.GearboxModel.VisitMesh, Gearbox.GearboxModel.ApplyCatalogMaterials: the effect's material uses the corrected own-entry reading of `resolveMaterial` from the Finding at materials.ts:92-96. A part guessed as an inherited name such as `toString` gets `steel_default` in the model, while GearboxModel.tsx:114 would put the inherited `Object.prototype` member on the mesh. `Gearbox.MeshMaterialAsWritten` states exactly where the two differ.
- AtomVisuals.Mulberry32.Next: its contract gives the returned number through the generator's history (`Valid()` ties entry k to `Draw(seed, k)`) rather than as the mix of `t` directly. `LastDrawIsOutput` derives that from it.
- AtomVisuals.Draw: no concrete output of the generator is stated for a particular seed. The bit operations are recursive functions over 32 bits that the verifier does not evaluate on literals.
- The state `t` of `mulberry32` is exact. The model does not capture the loss of precision once `t` passes 2^53, after roughly 4.9 million draws.
- Pages, routing, headers, selectors, the statistics and metadata UI, the periodic-table layout, glow textures, CSS colour reads and the translation hook. These are UI and DOM work.

## Findings

| source | as written | input that shows it | evidently intended | confidence | as-written member | corrected member |
|---|---|---|---|---|---|---|
| frontend/src/app/i18n/translations.ts:88-94 | `CATEGORY_KEY_MAP[category]` also finds names inherited from `Object.prototype`, and `translate` of that function value yields `undefined` | `translateCategory('en', 'constructor')` | a string that is not a category comes back unchanged | not executed | Translations.ConstructorCategoryIsUndefined | Translations.TranslateCategory |
| frontend/src/app/features/climate-tech/carbon-aware-motor-assembly/visualizer/materials.ts:92-96 | `library[guess]` also finds names inherited from `Object.prototype`, and returns that member instead of a material | a part whose `material_guess` is `toString`, with no debug options | a guess the library does not define falls back to `steel_default` | not executed | Materials.InheritedGuessIsNoMaterial | Materials.ResolveMaterial |
