/** The materials of the assembly explorer: the library built from the catalog's
    material definitions, the index from name keys to catalog parts, the choice
    of a mesh's material and putting it on the mesh. A material built from a
    definition is named by its definition key; colours and shading values are
    not modelled. */
module Materials {
  import opened Wrappers
  import opened Text
  import opened Normalize
  import opened OrderedMap
  import opened Meshes
  import opened JsObjects

  /** `PartMaterialMeta` as far as materials go. A missing `key` or `name`
      reads as the empty string, which the code treats alike. */
  datatype PartMeta = PartMeta(key: string, name: string, materialGuess: Option<string>)

  // ---------------------------------------------------------------------------
  // createMaterialLibrary

  const SteelDefaultKey: string := "steel_default"

  /** The library after the definitions `keys[..j]`, one material each. */
  function DefinedUpTo(keys: seq<string>, j: nat): map<string, Material>
    requires j <= |keys|
  {
    if j == 0 then map[] else DefinedUpTo(keys, j - 1)[keys[j - 1] := Catalog(keys[j - 1])]
  }

  /** What `createMaterialLibrary` returns for definitions with keys `keys`. */
  function Library(keys: seq<string>): map<string, Material> {
    DefinedUpTo(keys, |keys|)[SteelDefaultKey := SteelDefault]
  }

  /** `createMaterialLibrary`: one material per definition, then `steel_default`. */
  method CreateMaterialLibrary(definitionKeys: seq<string>) returns (library: map<string, Material>)
    ensures library == Library(definitionKeys)
  {
    library := map[];
    for j := 0 to |definitionKeys|
      invariant library == DefinedUpTo(definitionKeys, j)
    {
      var key := definitionKeys[j];
      library := library[key := Catalog(key)];
    }
    library := library[SteelDefaultKey := SteelDefault];
  }

  lemma {:induction false} DefinedUpToFacts(keys: seq<string>, j: nat)
    requires j <= |keys|
    ensures forall k :: k in DefinedUpTo(keys, j) <==> k in keys[..j]
    ensures forall k :: k in DefinedUpTo(keys, j) ==> DefinedUpTo(keys, j)[k] == Catalog(k)
  {
    if j > 0 {
      DefinedUpToFacts(keys, j - 1);
      assert keys[..j] == keys[..j - 1] + [keys[j - 1]];
    }
  }

  /** The library has an entry for every definition key and for `steel_default`,
      and no other; `steel_default` is the built-in material even when a
      definition has that key, and every other key holds its definition's material. */
  lemma LibraryFacts(keys: seq<string>)
    ensures forall k :: k in Library(keys) <==> k in keys || k == SteelDefaultKey
    ensures Library(keys)[SteelDefaultKey] == SteelDefault
    ensures forall k :: k in keys && k != SteelDefaultKey ==> Library(keys)[k] == Catalog(k)
  {
    DefinedUpToFacts(keys, |keys|);
    assert keys[..|keys|] == keys;
  }

  // ---------------------------------------------------------------------------
  // createMaterialIndex

  /** The four index keys registered for a non-empty key or name: lower-cased,
      normalised and lower-cased, the match key and the loose match key. */
  function IndexKeys(value: string): seq<string> {
    [ToLower(value), ToLower(NormalizePartName(value)), NormalizeMatchKey(value), NormalizeMatchKeyLoose(value)]
  }

  /** The keys a value registers when each non-empty value `v` gets
      `keysOf(v)`: none for the empty string. */
  function KeysIf(value: string, keysOf: string -> seq<string>): seq<string> {
    if value != "" then keysOf(value) else []
  }

  /** The keys registered for a part: those of its key, then those of its name. */
  function PartKeys(part: PartMeta, keysOf: string -> seq<string>): seq<string> {
    KeysIf(part.key, keysOf) + KeysIf(part.name, keysOf)
  }

  /** The keys a part registers, in order: its key's four when the key is not
      empty, then its name's four when the name is not empty. */
  function RegisteredKeys(part: PartMeta): seq<string> {
    PartKeys(part, IndexKeys)
  }

  /** What `createMaterialIndex` returns: every part filed in turn under each
      of its registered keys. */
  function MaterialIndex(parts: seq<PartMeta>): Entries<string, PartMeta> {
    SetEach(FileAll(parts, RegisteredKeys, |parts|))
  }

  /** The four `set` calls for one non-empty key or name of `part`, under the
      keys `IndexKeys` gives for it. */
  method Register(index: Entries<string, PartMeta>, keys: seq<string>, part: PartMeta, ghost done: seq<(string, PartMeta)>)
    returns (next: Entries<string, PartMeta>)
    requires |keys| == 4 && index == SetEach(done)
    ensures next == SetEach(done + Pairs(keys, part))
  {
    ghost var w0 := done + [(keys[0], part)];
    ghost var w1 := w0 + [(keys[1], part)];
    ghost var w2 := w1 + [(keys[2], part)];
    ghost var w3 := w2 + [(keys[3], part)];
    SetEachSnoc(done, (keys[0], part));
    SetEachSnoc(w0, (keys[1], part));
    SetEachSnoc(w1, (keys[2], part));
    SetEachSnoc(w2, (keys[3], part));
    next := Set(index, keys[0], part);
    next := Set(next, keys[1], part);
    next := Set(next, keys[2], part);
    next := Set(next, keys[3], part);
    assert w3 == done + Pairs(keys, part);
  }

  /** `createMaterialIndex`: for every part in order, registers the part under
      the keys of its key and then under those of its name. */
  method CreateMaterialIndex(parts: seq<PartMeta>) returns (index: Entries<string, PartMeta>)
    ensures index == MaterialIndex(parts)
  {
    index := [];
    for j := 0 to |parts|
      invariant index == SetEach(FileAll(parts, RegisteredKeys, j))
    {
      FileAllStep(parts, RegisteredKeys, j);
      index := RegisterPart(index, parts[j], IndexKeys, FileAll(parts, RegisteredKeys, j));
    }
  }

  /** The `forEach` callback of `createMaterialIndex`: the part under the keys
      of its key when that is not empty, then under those of its name. */
  method RegisterPart(index: Entries<string, PartMeta>, part: PartMeta, keysOf: string -> seq<string>,
                      ghost done: seq<(string, PartMeta)>)
    returns (next: Entries<string, PartMeta>)
    requires index == SetEach(done)
    requires forall v :: |keysOf(v)| == 4
    ensures next == SetEach(done + Pairs(PartKeys(part, keysOf), part))
  {
    var afterKey := RegisterValue(index, part.key, keysOf, part, done);
    ghost var writes := done + Pairs(KeysIf(part.key, keysOf), part);
    next := RegisterValue(afterKey, part.name, keysOf, part, writes);
    PairsAppend(KeysIf(part.key, keysOf), KeysIf(part.name, keysOf), part);
    assert writes + Pairs(KeysIf(part.name, keysOf), part) == done + Pairs(PartKeys(part, keysOf), part);
  }

  /** One `if (value)` of that callback: register the part under the four keys of
      `value` unless `value` is empty. */
  method RegisterValue(index: Entries<string, PartMeta>, value: string, keysOf: string -> seq<string>,
                       part: PartMeta, ghost done: seq<(string, PartMeta)>)
    returns (next: Entries<string, PartMeta>)
    requires index == SetEach(done)
    requires forall v :: |keysOf(v)| == 4
    ensures next == SetEach(done + Pairs(KeysIf(value, keysOf), part))
  {
    if value != "" {
      next := Register(index, keysOf(value), part, done);
    } else {
      next := index;
      assert done + Pairs(KeysIf(value, keysOf), part) == done;
    }
  }

  /** Every entry of the index files one of the parts under one of that part's
      registered keys, and no key is filed twice. */
  lemma MaterialIndexEntries(parts: seq<PartMeta>)
    ensures DistinctKeys(MaterialIndex(parts))
    ensures forall e :: e in MaterialIndex(parts) ==> e.1 in parts && e.0 in RegisteredKeys(e.1)
  {
    SetEachEntries(FileAll(parts, RegisteredKeys, |parts|));
    FileAllFacts(parts, RegisteredKeys, |parts|);
    assert parts[..|parts|] == parts;
  }

  /** Last write wins: a key registered by part `j` and by no later part finds
      part `j`. Within one part the key entries and the name entries file the
      same part, so their order does not show in what a key finds. */
  lemma PartLastWins(parts: seq<PartMeta>, j: nat, k: string)
    requires j < |parts| && k in RegisteredKeys(parts[j])
    requires forall j2 :: j < j2 < |parts| ==> k !in RegisteredKeys(parts[j2])
    ensures Get(MaterialIndex(parts), k) == Some(parts[j])
  {
    FileAllLastWins(parts, RegisteredKeys, j, |parts|, k);
  }

  /** Every key a part registers is in the index. */
  lemma IndexHasRegistered(parts: seq<PartMeta>, j: nat, k: string)
    requires j < |parts| && k in RegisteredKeys(parts[j])
    ensures Get(MaterialIndex(parts), k).Some?
  {
    FileAllLastWins(parts, RegisteredKeys, LastFiling(parts, RegisteredKeys, j, |parts|, k), |parts|, k);
  }

  /** A part with an empty key and an empty name adds nothing to the index. */
  lemma EmptyPartAddsNothing(parts: seq<PartMeta>, part: PartMeta)
    requires part.key == "" && part.name == ""
    ensures MaterialIndex(parts + [part]) == MaterialIndex(parts)
  {
    FileAllOfPrefix(parts, [part], RegisteredKeys, |parts|);
    assert RegisteredKeys(part) == [];
    assert FileAll(parts + [part], RegisteredKeys, |parts| + 1) == FileAll(parts + [part], RegisteredKeys, |parts|);
  }

  // ---------------------------------------------------------------------------
  // resolveMaterial

  /** `DebugMaterialOptions`; its `material` is always the debug material. */
  datatype DebugOptions = DebugOptions(enabled: bool, targetMaterialGuess: Option<string>)

  function GuessOf(meta: Option<PartMeta>): Option<string> {
    if meta.Some? then meta.value.materialGuess else None
  }

  /** `resolveMaterial`, with `library[guess]` read as an own entry of the
      library; `None` is `undefined`, which only a library without
      `steel_default` gives. */
  function ResolveMaterial(library: map<string, Material>, meta: Option<PartMeta>, debug: Option<DebugOptions>)
    : (r: Option<Material>)
    ensures debug.Some? && debug.value.enabled && debug.value.targetMaterialGuess.GetOr("") == "" ==> r == Some(Debug)
    ensures (debug.Some? && debug.value.enabled && debug.value.targetMaterialGuess.GetOr("") != ""
             && GuessOf(meta) == debug.value.targetMaterialGuess) ==> r == Some(Debug)
  {
    var guess := GuessOf(meta);
    if debug.Some? && debug.value.enabled && debug.value.targetMaterialGuess.GetOr("") == "" then Some(Debug)
    else if debug.Some? && debug.value.enabled && guess == debug.value.targetMaterialGuess then Some(Debug)
    else CatalogOrDefault(library, guess)
  }

  /** The library's material for a non-empty guess it has, else `steel_default`. */
  function CatalogOrDefault(library: map<string, Material>, guess: Option<string>): Option<Material> {
    if guess.Some? && guess.value != "" && guess.value in library then Some(library[guess.value])
    else if SteelDefaultKey in library then Some(library[SteelDefaultKey])
    else None
  }

  /** Without debug targeting that hits, the result is the catalog's material for
      the guess when the guess is a defined key, and `steel_default` otherwise. */
  lemma ResolveWithoutDebug(library: map<string, Material>, meta: Option<PartMeta>, debug: Option<DebugOptions>)
    requires debug.None? || !debug.value.enabled
             || (debug.value.targetMaterialGuess.GetOr("") != "" && GuessOf(meta) != debug.value.targetMaterialGuess)
    ensures ResolveMaterial(library, meta, debug)
         == if GuessOf(meta).Some? && GuessOf(meta).value != "" && GuessOf(meta).value in library
            then Some(library[GuessOf(meta).value])
            else if SteelDefaultKey in library then Some(library[SteelDefaultKey]) else None
  {
  }

  /** On a library from `createMaterialLibrary` the result is never undefined: it is
      the debug material, the material of the guessed definition, or `steel_default`. */
  lemma ResolveFromLibrary(keys: seq<string>, meta: Option<PartMeta>, debug: Option<DebugOptions>)
    ensures ResolveMaterial(Library(keys), meta, debug).Some?
    ensures var m := ResolveMaterial(Library(keys), meta, debug).value;
            m == Debug || m == SteelDefault || (m.Catalog? && m.key in keys && m.key == GuessOf(meta).GetOr(""))
  {
    LibraryFacts(keys);
  }

  /** What `library[guess]` yields as written: an own entry's material, or the
      member every object inherits under that name, which is truthy but no material. */
  datatype Resolved = AMaterial(material: Material) | InheritedMember(name: string)

  /** `resolveMaterial` as written: `library[guess]` also finds the names every
      object inherits, and returns that member. */
  function ResolveMaterialAsWritten(library: map<string, Material>, meta: Option<PartMeta>, debug: Option<DebugOptions>)
    : (r: Option<Resolved>)
    ensures var g := GuessOf(meta).GetOr("");
            (debug.None? || !debug.value.enabled) && g in ObjectPrototypeNames && g !in library ==> r == Some(InheritedMember(g))
  {
    var guess := GuessOf(meta);
    if debug.Some? && debug.value.enabled && debug.value.targetMaterialGuess.GetOr("") == "" then Some(AMaterial(Debug))
    else if debug.Some? && debug.value.enabled && guess == debug.value.targetMaterialGuess then Some(AMaterial(Debug))
    else if guess.Some? && guess.value != "" && guess.value in library then Some(AMaterial(library[guess.value]))
    else if guess.Some? && guess.value in ObjectPrototypeNames then Some(InheritedMember(guess.value))
    else if SteelDefaultKey in library then Some(AMaterial(library[SteelDefaultKey]))
    else None
  }

  /** A part whose guess is `toString` gets no material from the code as written,
      though the library has no such definition; the own-entry reading falls back
      to `steel_default`. */
  lemma InheritedGuessIsNoMaterial(keys: seq<string>)
    requires "toString" !in keys
    ensures ResolveMaterialAsWritten(Library(keys), Some(PartMeta("", "", Some("toString"))), None)
         == Some(InheritedMember("toString"))
    ensures ResolveMaterial(Library(keys), Some(PartMeta("", "", Some("toString"))), None) == Some(SteelDefault)
  {
    LibraryFacts(keys);
    assert "toString" in ObjectPrototypeNames;
    assert "toString" != SteelDefaultKey;
  }

  /** Away from the inherited names the code as written and the own-entry
      reading pick the same material. */
  lemma AsWrittenAgrees(library: map<string, Material>, meta: Option<PartMeta>, debug: Option<DebugOptions>)
    requires GuessOf(meta).GetOr("") !in ObjectPrototypeNames
    ensures ResolveMaterialAsWritten(library, meta, debug)
         == match ResolveMaterial(library, meta, debug)
            case Some(m) => Some(AMaterial(m))
            case None => None
  {
  }

  // ---------------------------------------------------------------------------
  // applyMaterial

  /** The material slot after `applyMaterial`: an array keeps its length with the
      new material in every slot; a single material is replaced. */
  function Applied(slot: MaterialSlot, material: Material): (r: MaterialSlot)
    ensures r.Multi? <==> slot.Multi?
    ensures r.Multi? ==> |r.materials| == |slot.materials| && forall i :: 0 <= i < |r.materials| ==> r.materials[i] == material
    ensures r.Single? ==> r.material == material
  {
    match slot
    case Multi(ms) => Multi(seq(|ms|, _ => material))
    case Single(_) => Single(material)
  }

  /** Applying twice is applying the second material: the last one applied wins. */
  lemma AppliedTwice(slot: MaterialSlot, first: Material, second: Material)
    ensures Applied(Applied(slot, first), second) == Applied(slot, second)
  {
    if slot.Multi? {
      assert Applied(Applied(slot, first), second).materials == Applied(slot, second).materials;
    }
  }

  /** `applyMaterial`: puts `material` on the mesh, slot for slot. */
  method ApplyMaterial(mesh: Mesh, material: Material)
    modifies mesh
    ensures mesh.material == Applied(old(mesh.material), material)
    ensures mesh.position == old(mesh.position)
  {
    if mesh.material.Multi? {
      mesh.material := Multi(seq(|mesh.material.materials|, _ => material));
    } else {
      mesh.material := Single(material);
    }
  }
}
