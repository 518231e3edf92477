/** The gearbox component of the motor-assembly explorer (`GearboxModel`): it
    builds the material library, the catalog index and the explode entries once
    per model, then
    - an effect looks every mesh up in the catalog by its trimmed name, puts the
      resolved material on it, collects the names it found nothing for and warns
      about them at most once per component;
    - every frame moves each mesh from its resting position along its explode
      direction by twice the explode factor times its magnitude. */
module Gearbox {
  import opened Wrappers
  import opened Text
  import opened Normalize
  import opened OrderedMap
  import opened SceneGraph
  import opened Meshes
  import opened Materials
  import opened Modeling
  import opened JsObjects

  /** `DEBUG_MATERIAL_GUESS`: with debug materials on, only the parts guessed
      to be of this material turn red. */
  const DebugMaterialGuess: string := "steel_fastener_12_9"

  // ---------------------------------------------------------------------------
  // The catalog lookup

  /** The index keys tried for a mesh's trimmed name, in order: the normalised
      name lower-cased, the name lower-cased, its match key, its loose key. */
  function LookupKeys(rawName: string): (r: seq<string>)
    ensures |r| == 4
  {
    [ToLower(NormalizePartName(rawName)), ToLower(rawName), NormalizeMatchKey(rawName), NormalizeMatchKeyLoose(rawName)]
  }

  /** `index.get(keys[0]) ?? index.get(keys[1]) ?? …`. */
  function FirstHit<K(==), V>(index: Entries<K, V>, keys: seq<K>): Option<V> {
    if keys == [] then None else Get(index, keys[0]).OrElse(FirstHit(index, keys[1..]))
  }

  /** A chain of `??` finds something exactly when one of its keys is in the
      index, and then it is the entry of the first such key. */
  lemma {:induction false} FirstHitFacts<K, V>(index: Entries<K, V>, keys: seq<K>)
    ensures FirstHit(index, keys).Some? <==> exists i :: 0 <= i < |keys| && Get(index, keys[i]).Some?
    ensures forall i :: 0 <= i < |keys| && Get(index, keys[i]).Some?
                        && (forall i2 :: 0 <= i2 < i ==> Get(index, keys[i2]).None?)
                        ==> FirstHit(index, keys) == Get(index, keys[i])
  {
    if keys != [] {
      var rest := keys[1..];
      FirstHitFacts(index, rest);
      forall i | 0 < i < |keys| ensures keys[i] == rest[i - 1] { }
      if Get(index, keys[0]).None? {
        forall i | 0 <= i < |rest| && Get(index, rest[i]).Some?
          ensures Get(index, keys[i + 1]).Some?
        {
          assert keys[i + 1] == rest[i];
        }
        forall i | 0 < i < |keys| && Get(index, keys[i]).Some? && (forall i2 :: 0 <= i2 < i ==> Get(index, keys[i2]).None?)
          ensures FirstHit(index, keys) == Get(index, keys[i])
        {
          forall i2 | 0 <= i2 < i - 1 ensures Get(index, rest[i2]).None? {
            assert rest[i2] == keys[i2 + 1];
          }
        }
      }
    }
  }

  /** The four-step `??` of the component is the first hit among the lookup keys. */
  lemma FirstHitOfFour<K, V>(index: Entries<K, V>, a: K, b: K, c: K, d: K)
    ensures FirstHit(index, [a, b, c, d])
         == Get(index, a).OrElse(Get(index, b)).OrElse(Get(index, c)).OrElse(Get(index, d))
  {
    assert [a, b, c, d][1..] == [b, c, d];
    assert [b, c, d][1..] == [c, d];
    assert [c, d][1..] == [d];
    assert [d][1..] == [];
    assert FirstHit(index, [c, d]) == Get(index, c).OrElse(FirstHit(index, [d]));
    assert FirstHit(index, [d]) == Get(index, d).OrElse(None);
    if Get(index, d).None? {
      assert FirstHit(index, [d]) == Get(index, d);
    }
  }

  /** The first hit among the keys `keysOf` gives for a name. */
  function LookupBy(index: Entries<string, PartMeta>, keysOf: string -> seq<string>, rawName: string): Option<PartMeta> {
    FirstHit(index, keysOf(rawName))
  }

  /** The catalog entry the component finds for a mesh's trimmed name. */
  function CatalogLookup(index: Entries<string, PartMeta>, rawName: string): Option<PartMeta> {
    LookupBy(index, LookupKeys, rawName)
  }

  /** A mesh named exactly like a catalog part's key or name is always found,
      already under its first lookup key; it finds that very part when no later
      part registers that key. */
  lemma CatalogFindsPart(parts: seq<PartMeta>, j: nat, rawName: string)
    requires j < |parts| && rawName != "" && (rawName == parts[j].key || rawName == parts[j].name)
    ensures CatalogLookup(MaterialIndex(parts), rawName).Some?
    ensures CatalogLookup(MaterialIndex(parts), rawName) == Get(MaterialIndex(parts), ToLower(NormalizePartName(rawName)))
    ensures (forall j2 :: j < j2 < |parts| ==> ToLower(NormalizePartName(rawName)) !in RegisteredKeys(parts[j2]))
            ==> CatalogLookup(MaterialIndex(parts), rawName) == Some(parts[j])
  {
    var k := ToLower(NormalizePartName(rawName));
    assert IndexKeys(rawName)[1] == k;
    assert k in RegisteredKeys(parts[j]);
    IndexHasRegistered(parts, j, k);
    assert LookupKeys(rawName)[0] == k;
    FirstHitFacts(MaterialIndex(parts), LookupKeys(rawName));
    if forall j2 :: j < j2 < |parts| ==> k !in RegisteredKeys(parts[j2]) {
      PartLastWins(parts, j, k);
    }
  }

  // ---------------------------------------------------------------------------
  // The material effect

  /** The options the component passes to `resolveMaterial`. */
  function ComponentDebug(debugMaterials: bool): Option<DebugOptions> {
    Some(DebugOptions(debugMaterials, Some(DebugMaterialGuess)))
  }

  /** The material the effect puts on a mesh with trimmed name `rawName`, on the
      own-entry reading of `resolveMaterial`; `MeshMaterialAsWritten` says where
      the code as written differs. */
  function MeshMaterial(library: map<string, Material>, index: Entries<string, PartMeta>, rawName: string,
                        debugMaterials: bool): Material
    requires SteelDefaultKey in library
  {
    MaterialBy(library, index, LookupKeys, rawName, debugMaterials)
  }

  /** The material resolved for the entry `LookupBy` finds. */
  function MaterialBy(library: map<string, Material>, index: Entries<string, PartMeta>, keysOf: string -> seq<string>,
                      rawName: string, debugMaterials: bool): Material
    requires SteelDefaultKey in library
  {
    ResolveMaterial(library, LookupBy(index, keysOf, rawName), ComponentDebug(debugMaterials)).value
  }

  /** On the component's library a mesh the catalog does not know gets
      `steel_default`, debug or not; with debug on, a mesh whose part is guessed
      to be the debug material turns red; otherwise a mesh gets the material of
      its part's guess when the library defines it, and `steel_default` when not. */
  lemma MeshMaterialFacts(keys: seq<string>, index: Entries<string, PartMeta>, rawName: string, debugMaterials: bool)
    ensures SteelDefaultKey in Library(keys)
    ensures CatalogLookup(index, rawName).None? ==> MeshMaterial(Library(keys), index, rawName, debugMaterials) == SteelDefault
    ensures debugMaterials && GuessOf(CatalogLookup(index, rawName)) == Some(DebugMaterialGuess)
            ==> MeshMaterial(Library(keys), index, rawName, debugMaterials) == Debug
    ensures var g := GuessOf(CatalogLookup(index, rawName)).GetOr("");
            (!debugMaterials || g != DebugMaterialGuess) ==>
              MeshMaterial(Library(keys), index, rawName, debugMaterials)
              == if g != "" && g in keys && g != SteelDefaultKey then Catalog(g) else SteelDefault
  {
    LibraryFacts(keys);
    var meta := CatalogLookup(index, rawName);
    var g := GuessOf(meta).GetOr("");
    if !debugMaterials || g != DebugMaterialGuess {
      ResolveWithoutDebug(Library(keys), meta, ComponentDebug(debugMaterials));
    }
  }

  /** What `resolveMaterial` as written gives the effect, against `MeshMaterial`:
      the same material whenever the part's guess is no name every object
      inherits; for such a name the library does not define, with no debug
      target hit, the inherited member where `MeshMaterial` has `steel_default`. */
  lemma MeshMaterialAsWritten(keys: seq<string>, index: Entries<string, PartMeta>, rawName: string, debugMaterials: bool)
    ensures var g := GuessOf(CatalogLookup(index, rawName)).GetOr("");
            g !in ObjectPrototypeNames ==>
              ResolveMaterialAsWritten(Library(keys), CatalogLookup(index, rawName), ComponentDebug(debugMaterials))
              == Some(AMaterial(MeshMaterial(Library(keys), index, rawName, debugMaterials)))
    ensures var g := GuessOf(CatalogLookup(index, rawName)).GetOr("");
            (!debugMaterials || g != DebugMaterialGuess) && g in ObjectPrototypeNames && g !in keys ==>
              && ResolveMaterialAsWritten(Library(keys), CatalogLookup(index, rawName), ComponentDebug(debugMaterials))
                 == Some(InheritedMember(g))
              && MeshMaterial(Library(keys), index, rawName, debugMaterials) == SteelDefault
  {
    LibraryFacts(keys);
    var meta := CatalogLookup(index, rawName);
    var g := GuessOf(meta).GetOr("");
    if g !in ObjectPrototypeNames {
      AsWrittenAgrees(Library(keys), meta, ComponentDebug(debugMaterials));
    }
    if (!debugMaterials || g != DebugMaterialGuess) && g in ObjectPrototypeNames && g !in keys {
      assert g != SteelDefaultKey;
      ResolveWithoutDebug(Library(keys), meta, ComponentDebug(debugMaterials));
    }
  }

  /** The materials the effect puts on meshes with object names `names`, in order. */
  function MaterialsFor(library: map<string, Material>, index: Entries<string, PartMeta>, keysOf: string -> seq<string>,
                        names: seq<string>, debugMaterials: bool): (r: seq<Material>)
    requires SteelDefaultKey in library
    ensures |r| == |names|
  {
    if names == [] then []
    else
      MaterialsFor(library, index, keysOf, names[..|names| - 1], debugMaterials)
      + [MaterialBy(library, index, keysOf, Trim(names[|names| - 1]), debugMaterials)]
  }

  /** Mesh `i` gets the material resolved for its own trimmed name. */
  lemma {:induction false} MaterialsForAt(library: map<string, Material>, index: Entries<string, PartMeta>,
                                          keysOf: string -> seq<string>, names: seq<string>, debugMaterials: bool, i: nat)
    requires SteelDefaultKey in library && i < |names|
    ensures MaterialsFor(library, index, keysOf, names, debugMaterials)[i]
         == MaterialBy(library, index, keysOf, Trim(names[i]), debugMaterials)
  {
    var init := names[..|names| - 1];
    if i < |init| {
      MaterialsForAt(library, index, keysOf, init, debugMaterials, i);
    }
  }

  /** The materials along `names`, with the component's lookup keys, are the mesh materials. */
  lemma MeshMaterialsFor(library: map<string, Material>, index: Entries<string, PartMeta>, names: seq<string>,
                         debugMaterials: bool)
    requires SteelDefaultKey in library
    ensures forall v :: |LookupKeys(v)| == 4
    ensures forall i :: 0 <= i < |names| ==>
              MaterialsFor(library, index, LookupKeys, names, debugMaterials)[i]
              == MeshMaterial(library, index, Trim(names[i]), debugMaterials)
  {
    forall i | 0 <= i < |names|
      ensures MaterialsFor(library, index, LookupKeys, names, debugMaterials)[i]
              == MeshMaterial(library, index, Trim(names[i]), debugMaterials)
    {
      MaterialsForAt(library, index, LookupKeys, names, debugMaterials, i);
    }
  }

  /** The trimmed names joining the unmatched set along the object names
      `names`: the non-empty ones the catalog finds nothing for. */
  function Unmatched(index: Entries<string, PartMeta>, keysOf: string -> seq<string>, names: seq<string>): set<string> {
    if names == [] then {}
    else
      var rawName := Trim(names[|names| - 1]);
      Unmatched(index, keysOf, names[..|names| - 1])
      + (if LookupBy(index, keysOf, rawName).None? && rawName != "" then {rawName} else {})
  }

  /** A name is unmatched exactly when it is the trimmed name of some mesh, it
      is not empty and the lookup finds nothing for it. */
  lemma {:induction false} UnmatchedFacts(index: Entries<string, PartMeta>, keysOf: string -> seq<string>, names: seq<string>)
    ensures forall x :: x in Unmatched(index, keysOf, names) <==>
              x != "" && LookupBy(index, keysOf, x).None? && exists i :: 0 <= i < |names| && Trim(names[i]) == x
  {
    if names != [] {
      var init := names[..|names| - 1];
      UnmatchedFacts(index, keysOf, init);
      forall i | 0 <= i < |init| ensures init[i] == names[i] { }
    }
  }

  /** The meshes of a model, in the order `traverse` visits them. */
  function ModelMeshes(model: Node): (r: seq<Path>)
    ensures AllValid(model, PreOrder(model))
    ensures forall i :: 0 <= i < |r| ==> ValidPath(model, r[i]) && At(model, r[i]).isMesh
  {
    PreOrderFacts(model);
    MeshPathsFacts(model, PreOrder(model));
    MeshPaths(model, PreOrder(model))
  }

  /** The names of the meshes, in traversal order. */
  function MeshNames(model: Node): (r: seq<string>)
    ensures |r| == |ModelMeshes(model)|
    ensures forall i :: 0 <= i < |r| ==> r[i] == At(model, ModelMeshes(model)[i]).name
  {
    var meshes := ModelMeshes(model);
    seq(|meshes|, i requires 0 <= i < |meshes| => At(model, meshes[i]).name)
  }

  // ---------------------------------------------------------------------------
  // The per-frame update

  /** Where `useFrame` puts a mesh for explode factor `explode`:
      `base + dir * (explode * 2 * magnitude)`. */
  function ExplodedPosition(part: ExplodePart, explode: real): (r: Vec3)
    ensures explode == 0.0 ==> r == part.base
  {
    Add(part.base, Scale(part.dir, explode * 2.0 * part.magnitude))
  }

  // ---------------------------------------------------------------------------
  // The component

  /** One mounted `GearboxModel`: what its `useMemo`s computed from the model and
      the catalog, the meshes of the model in traversal order, and the
      `hasLoggedUnmatched` ref. */
  class GearboxModel {
    const model: Node
    const meshes: seq<Mesh>
    const materialLibrary: map<string, Material>
    const materialIndex: Entries<string, PartMeta>
    const parts: seq<ExplodePart>
    ghost const definitionKeys: seq<string>
    ghost const catalogParts: seq<PartMeta>
    ghost const placement: Placement
    ghost const minX: real
    ghost const maxX: real
    var hasLoggedUnmatched: bool

    /** The memoised values are those of the catalog and the model, and
        `meshes[i]` is the distinct object of the `i`-th mesh. */
    ghost predicate Valid() {
      MeshesOk() && CatalogOk() && PartsOk()
    }

    /** `meshes[i]` is the object of the `i`-th mesh, and no two are the same. */
    ghost predicate MeshesOk() {
      |meshes| == |ModelMeshes(model)| && DistinctMeshes()
    }

    /** The meshes are distinct objects. */
    ghost predicate DistinctMeshes() {
      forall i, j :: 0 <= i < j < |meshes| ==> meshes[i] != meshes[j]
    }

    /** The library and the index are those of the catalog; the library has
        `steel_default`. */
    ghost predicate CatalogOk() {
      && materialLibrary == Library(definitionKeys)
      && materialIndex == MaterialIndex(catalogParts)
      && SteelDefaultKey in materialLibrary
    }

    /** The explode entries are those of the model, one per mesh. */
    ghost predicate PartsOk() {
      && parts == ExplodeParts(model, placement, minX, maxX)
      && |parts| == |meshes|
    }

    constructor (model: Node, meshes: seq<Mesh>, definitionKeys: seq<string>, catalogParts: seq<PartMeta>,
                 placement: Placement, minX: real, maxX: real)
      requires |meshes| == |ModelMeshes(model)|
      requires forall i, j :: 0 <= i < j < |meshes| ==> meshes[i] != meshes[j]
      ensures Valid() && !hasLoggedUnmatched
      ensures this.model == model && this.meshes == meshes
      ensures this.definitionKeys == definitionKeys && this.catalogParts == catalogParts
      ensures this.placement == placement && this.minX == minX && this.maxX == maxX
    {
      var library := CreateMaterialLibrary(definitionKeys);
      var index := CreateMaterialIndex(catalogParts);
      var items := BuildExplodeParts(model, placement, minX, maxX);
      LibraryFacts(definitionKeys);
      ExplodePartsFacts(model, placement, minX, maxX);
      this.model := model;
      this.meshes := meshes;
      this.materialLibrary := library;
      this.materialIndex := index;
      this.parts := items;
      this.definitionKeys := definitionKeys;
      this.catalogParts := catalogParts;
      this.placement := placement;
      this.minX := minX;
      this.maxX := maxX;
      this.hasLoggedUnmatched := false;
    }

    /** `parts.length`, which the component reports through `onPartsCount`:
        the number of meshes of the model. */
    function PartsCount(): (n: nat)
      requires MeshesOk() && PartsOk()
      ensures n == |ModelMeshes(model)| && n == |meshes|
    {
      |parts|
    }

    /** The material effect: every mesh gets the material resolved for its
        catalog entry, with the debug target `DebugMaterialGuess`; `unmatched`
        is the set of names the catalog did not know, and `warned` says whether
        the warning about them fires. It fires only in development, only when
        the set is not empty and only if it never fired before. */
    method ApplyCatalogMaterials(debugMaterials: bool, dev: bool) returns (unmatched: set<string>, warned: bool)
      requires MeshesOk() && SteelDefaultKey in materialLibrary
      modifies this, meshes
      ensures unmatched == Unmatched(materialIndex, LookupKeys, MeshNames(model))
      ensures forall i :: 0 <= i < |meshes| ==>
                meshes[i].material
                == Applied(old(meshes[i].material), MeshMaterial(materialLibrary, materialIndex, Trim(MeshNames(model)[i]), debugMaterials))
      ensures forall i :: 0 <= i < |meshes| ==> meshes[i].position == old(meshes[i].position)
      ensures warned <==> !old(hasLoggedUnmatched) && |unmatched| > 0 && dev
      ensures hasLoggedUnmatched == (old(hasLoggedUnmatched) || warned)
    {
      var names := MeshNames(model);
      MeshMaterialsFor(materialLibrary, materialIndex, names, debugMaterials);
      unmatched := MatchMeshes(names, LookupKeys, debugMaterials);
      if !hasLoggedUnmatched && |unmatched| > 0 && dev {
        hasLoggedUnmatched := true;
        warned := true;
      } else {
        warned := false;
      }
    }

    /** The `traverse` of the effect over the meshes named `names`, with the
        lookup keys of a name given by `keysOf`: the callback returns at once
        for an object that is no mesh, so the meshes are handled in traversal
        order. */
    method MatchMeshes(names: seq<string>, keysOf: string -> seq<string>, debugMaterials: bool)
      returns (unmatched: set<string>)
      requires |names| == |meshes| && DistinctMeshes() && SteelDefaultKey in materialLibrary
      requires forall v :: |keysOf(v)| == 4
      modifies meshes
      ensures unmatched == Unmatched(materialIndex, keysOf, names)
      ensures forall i :: 0 <= i < |meshes| ==>
                meshes[i].material
                == Applied(old(meshes[i].material), MaterialsFor(materialLibrary, materialIndex, keysOf, names, debugMaterials)[i])
      ensures forall i :: 0 <= i < |meshes| ==> meshes[i].position == old(meshes[i].position)
    {
      ghost var mats := MaterialsFor(materialLibrary, materialIndex, keysOf, names, debugMaterials);
      unmatched := {};
      for m := 0 to |names|
        invariant unmatched == Unmatched(materialIndex, keysOf, names[..m])
        invariant forall i :: 0 <= i < m ==> meshes[i].material == Applied(old(meshes[i].material), mats[i])
        invariant forall i :: m <= i < |meshes| ==> meshes[i].material == old(meshes[i].material)
        invariant forall i :: 0 <= i < |meshes| ==> meshes[i].position == old(meshes[i].position)
      {
        unmatched := VisitMesh(meshes[m], names[m], keysOf, unmatched, debugMaterials, names, m);
      }
      assert names[..|names|] == names;
    }

    /** The `traverse` callback of the effect for the mesh `m`, named `name`:
        look its trimmed name up under its four keys in order, note it when
        nothing is found and it is not empty, and apply the resolved material. */
    method VisitMesh(mesh: Mesh, name: string, keysOf: string -> seq<string>, unmatched: set<string>,
                     debugMaterials: bool, ghost names: seq<string>, ghost m: nat)
      returns (next: set<string>)
      requires SteelDefaultKey in materialLibrary
      requires forall v :: |keysOf(v)| == 4
      requires m < |names| && names[m] == name
      requires unmatched == Unmatched(materialIndex, keysOf, names[..m])
      modifies mesh
      ensures next == Unmatched(materialIndex, keysOf, names[..m + 1])
      ensures mesh.material == Applied(old(mesh.material), MaterialsFor(materialLibrary, materialIndex, keysOf, names, debugMaterials)[m])
      ensures mesh.position == old(mesh.position)
    {
      var rawName := Trim(name);
      var keys := keysOf(rawName);
      var meta := Get(materialIndex, keys[0])
                    .OrElse(Get(materialIndex, keys[1]))
                    .OrElse(Get(materialIndex, keys[2]))
                    .OrElse(Get(materialIndex, keys[3]));
      FirstHitOfFour(materialIndex, keys[0], keys[1], keys[2], keys[3]);
      assert keys == [keys[0], keys[1], keys[2], keys[3]];
      assert meta == LookupBy(materialIndex, keysOf, rawName);
      assert names[..m + 1][..m] == names[..m];
      if meta.None? && rawName != "" {
        next := unmatched + {rawName};
      } else {
        next := unmatched;
      }
      var resolved := ResolveMaterial(materialLibrary, meta, ComponentDebug(debugMaterials));
      MaterialsForAt(materialLibrary, materialIndex, keysOf, names, debugMaterials, m);
      ApplyMaterial(mesh, resolved.value);
    }

    /** The `useFrame` callback: every mesh to its exploded position for the
        factor `explode`. */
    method UpdateFrame(explode: real)
      requires MeshesOk() && |parts| == |meshes|
      modifies meshes
      ensures forall i :: 0 <= i < |meshes| ==> meshes[i].position == ExplodedPosition(parts[i], explode)
      ensures forall i :: 0 <= i < |meshes| ==> meshes[i].material == old(meshes[i].material)
    {
      var distance := explode * 2.0;
      for i := 0 to |parts|
        invariant forall i2 :: 0 <= i2 < i ==> meshes[i2].position == ExplodedPosition(parts[i2], explode)
        invariant forall i2 :: 0 <= i2 < |meshes| ==> meshes[i2].material == old(meshes[i2].material)
      {
        var part := parts[i];
        meshes[i].position := Add(part.base, Scale(part.dir, distance * part.magnitude));
        assert meshes[i].position == ExplodedPosition(parts[i], explode);
      }
    }

    /** With explode at zero every mesh of the model is back at its resting
        position; the entries move the meshes in traversal order. */
    lemma AtRest()
      requires MeshesOk() && PartsOk()
      ensures forall i :: 0 <= i < |meshes| ==>
                parts[i].mesh == ModelMeshes(model)[i] && ExplodedPosition(parts[i], 0.0) == placement.base(ModelMeshes(model)[i])
    {
      ExplodePartsFacts(model, placement, minX, maxX);
    }
  }
}
