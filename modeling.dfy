/** The summaries the assembly explorer derives from a loaded model: the path
    label of an object, the hierarchy rows, the assembly groups, the part groups
    and the explode entries. Each summary is computed by a method that walks
    the pre-order of the model the way `traverse` does, and is specified by a
    function on the prefix of the pre-order walked so far. */
module Modeling {
  import opened Wrappers
  import opened Numbers
  import opened Text
  import opened Sums
  import opened Normalize
  import opened SceneGraph
  import opened OrderedMap
  import opened StableSort
  import opened Meshes
  import opened Grouping

  // ---------------------------------------------------------------------------
  // getNodePath

  /** `model.name?.trim() || 'Model'`. */
  function RootName(model: Node): (r: string)
    ensures r != []
  {
    if Trim(model.name) != "" then Trim(model.name) else "Model"
  }

  /** The object at the prefix of length `k` of `p`: an ancestor of the object at `p`. */
  function Ancestor(model: Node, p: Path, k: nat): Node
    requires ValidPath(model, p) && k <= |p|
  {
    PrefixValid(model, p, k);
    At(model, p[..k])
  }

  /** The trimmed names of the named ancestors at prefix lengths `lo` to `hi - 1`,
      outermost first. */
  function NamedAncestors(model: Node, p: Path, lo: nat, hi: nat): seq<string>
    requires ValidPath(model, p) && hi <= |p|
    decreases hi - lo
  {
    if lo >= hi then []
    else
      var name := Trim(Ancestor(model, p, lo).name);
      (if name != "" then [name] else []) + NamedAncestors(model, p, lo + 1, hi)
  }

  /** The label `getNodePath` gives the object at `p`: the root's name, then the
      names of the named objects strictly between the root and that object. */
  function NodePathOf(model: Node, p: Path): string
    requires ValidPath(model, p)
  {
    var names := NamedAncestors(model, p, 1, |p|);
    if |names| > 0 then RootName(model) + " / " + Join(names, " / ") else RootName(model)
  }

  /** `getNodePath`: climbs from the parent of the object up to, not including,
      the root, putting each trimmed non-empty name in front. The root has no
      parent, so for the root itself the loop does not run. */
  method NodePath(model: Node, p: Path) returns (path: string)
    requires ValidPath(model, p)
    ensures path == NodePathOf(model, p)
  {
    // `parent` is the object at the prefix of length k of `p`; -1 stands for
    // the missing parent of the model root.
    var names: seq<string> := [];
    var k := |p| - 1;
    while k > 0
      invariant (k == -1 && p == []) || 0 <= k < |p|
      invariant names == NamedAncestors(model, p, k + 1, |p|)
    {
      var name := Trim(Ancestor(model, p, k).name);
      if name != "" {
        names := [name] + names;
      }
      k := k - 1;
    }
    assert names == NamedAncestors(model, p, 1, |p|);
    var rootName := RootName(model);
    path := if |names| > 0 then rootName + " / " + Join(names, " / ") else rootName;
  }

  /** Every name on the path is trimmed and not empty, and there is at most one
      per object strictly between the root and the object. */
  lemma {:induction false} NamedAncestorsFacts(model: Node, p: Path, lo: nat, hi: nat)
    requires ValidPath(model, p) && hi <= |p|
    ensures |NamedAncestors(model, p, lo, hi)| <= if lo <= hi then hi - lo else 0
    ensures forall i :: 0 <= i < |NamedAncestors(model, p, lo, hi)| ==>
              NamedAncestors(model, p, lo, hi)[i] != [] && Trimmed(NamedAncestors(model, p, lo, hi)[i])
    decreases hi - lo
  {
    if lo < hi {
      NamedAncestorsFacts(model, p, lo + 1, hi);
      var name := Trim(Ancestor(model, p, lo).name);
      var head := if name != "" then [name] else [];
      var rest := NamedAncestors(model, p, lo + 1, hi);
      assert NamedAncestors(model, p, lo, hi) == head + rest;
      forall i | 0 <= i < |head + rest| ensures (head + rest)[i] != [] && Trimmed((head + rest)[i]) {
        if i >= |head| {
          assert (head + rest)[i] == rest[i - |head|];
        }
      }
    }
  }

  /** The names up to `hi + 1` are the names up to `hi` and then the one of the
      ancestor at `hi`, if it has one. */
  lemma {:induction false} NamedAncestorsSnoc(model: Node, p: Path, lo: nat, hi: nat)
    requires ValidPath(model, p) && lo <= hi < |p|
    ensures NamedAncestors(model, p, lo, hi + 1)
         == NamedAncestors(model, p, lo, hi)
            + (if Trim(Ancestor(model, p, hi).name) != "" then [Trim(Ancestor(model, p, hi).name)] else [])
    decreases hi - lo
  {
    if lo < hi {
      NamedAncestorsSnoc(model, p, lo + 1, hi);
      var name := Trim(Ancestor(model, p, lo).name);
      var head := if name != "" then [name] else [];
      var last := Trim(Ancestor(model, p, hi).name);
      var tail := if last != "" then [last] else [];
      assert NamedAncestors(model, p, lo, hi + 1) == head + NamedAncestors(model, p, lo + 1, hi + 1);
      assert NamedAncestors(model, p, lo, hi) == head + NamedAncestors(model, p, lo + 1, hi);
      assert head + (NamedAncestors(model, p, lo + 1, hi) + tail) == (head + NamedAncestors(model, p, lo + 1, hi)) + tail;
    }
  }

  /** The ancestors of a child below `p`'s own length are `p`'s ancestors. */
  lemma {:induction false} NamedAncestorsOfChild(model: Node, p: Path, i: nat, lo: nat, hi: nat)
    requires ValidPath(model, p) && i < |At(model, p).children| && hi <= |p|
    ensures ValidPath(model, p + [i])
    ensures NamedAncestors(model, p + [i], lo, hi) == NamedAncestors(model, p, lo, hi)
    decreases hi - lo
  {
    ChildAt(model, p, i);
    if lo < hi {
      NamedAncestorsOfChild(model, p, i, lo + 1, hi);
      assert (p + [i])[..lo] == p[..lo];
    }
  }

  /** Going down one level, the path label of a child below a non-root object is
      the list of names for that object followed by the object's own name when
      it has one: the names appear outermost first. */
  lemma ChildPathNames(model: Node, p: Path, i: nat)
    requires ValidPath(model, p) && |p| >= 1 && i < |At(model, p).children|
    ensures ValidPath(model, p + [i])
    ensures NamedAncestors(model, p + [i], 1, |p| + 1)
         == NamedAncestors(model, p, 1, |p|) + (if Trim(At(model, p).name) != "" then [Trim(At(model, p).name)] else [])
  {
    ChildAt(model, p, i);
    var c := p + [i];
    NamedAncestorsSnoc(model, c, 1, |p|);
    NamedAncestorsOfChild(model, p, i, 1, |p|);
    assert c[..|p|] == p;
  }

  /** The label of the root and of its children is the root's name alone. */
  lemma TopLevelPath(model: Node, p: Path)
    requires ValidPath(model, p) && |p| <= 1
    ensures NodePathOf(model, p) == RootName(model)
  {
  }

  // ---------------------------------------------------------------------------
  // collectHierarchy

  datatype HierarchyItem = HierarchyItem(name: string, depth: nat, kind: string)

  /** The number of unnamed objects other than the root among the first `j` of `order`. */
  function UnnamedBefore(model: Node, order: seq<Path>, j: nat): nat
    requires AllValid(model, order) && j <= |order|
  {
    if j == 0 then 0
    else
      var p := order[j - 1];
      UnnamedBefore(model, order, j - 1) + (if p != [] && Trim(At(model, p).name) == "" then 1 else 0)
  }

  /** The row of the object at `order[j]`: its trimmed name, or `"{type} n"` where
      n counts the unnamed objects up to and including this one. */
  function Row(model: Node, order: seq<Path>, j: nat): HierarchyItem
    requires AllValid(model, order) && j < |order|
  {
    var node := At(model, order[j]);
    var name := if Trim(node.name) != "" then Trim(node.name)
                else node.kind + " " + NatToString(1 + UnnamedBefore(model, order, j));
    HierarchyItem(name, |order[j]|, node.kind)
  }

  /** The rows of the objects other than the root among the first `j` of `order`. */
  function RowsUpTo(model: Node, order: seq<Path>, j: nat): seq<HierarchyItem>
    requires AllValid(model, order) && j <= |order|
  {
    if j == 0 then []
    else RowsUpTo(model, order, j - 1) + (if order[j - 1] != [] then [Row(model, order, j - 1)] else [])
  }

  function RootRow(model: Node): HierarchyItem {
    HierarchyItem(RootName(model), 0, model.kind)
  }

  /** What `collectHierarchy` returns. */
  function Hierarchy(model: Node): seq<HierarchyItem> {
    PreOrderFacts(model);
    [RootRow(model)] + RowsUpTo(model, PreOrder(model), |PreOrder(model)|)
  }

  /** `collectHierarchy`: the root's row, then one row per other object in
      pre-order, its depth counted by climbing the parents up to the root. */
  method CollectHierarchy(model: Node) returns (items: seq<HierarchyItem>)
    ensures items == Hierarchy(model)
  {
    var order := PreOrder(model);
    PreOrderFacts(model);
    items := [RootRow(model)];
    var unnamedIndex := 1;
    for j := 0 to |order|
      invariant items == [RootRow(model)] + RowsUpTo(model, order, j)
      invariant unnamedIndex == 1 + UnnamedBefore(model, order, j)
    {
      var child := order[j];
      if child == [] {
        assert RowsUpTo(model, order, j + 1) == RowsUpTo(model, order, j);
        continue;
      }
      // `parent` is the object at the prefix of length k; the walk ends at the root.
      var depth := 0;
      var k := |child| - 1;
      while true
        invariant 0 <= k < |child| && depth == |child| - 1 - k
        decreases k
      {
        depth := depth + 1;
        if k == 0 {
          break;
        }
        k := k - 1;
      }
      var node := At(model, child);
      var name := Trim(node.name);
      if name == "" {
        name := node.kind + " " + NatToString(unnamedIndex);
        unnamedIndex := unnamedIndex + 1;
      }
      assert HierarchyItem(name, depth, node.kind) == Row(model, order, j);
      assert RowsUpTo(model, order, j + 1) == RowsUpTo(model, order, j) + [Row(model, order, j)];
      items := items + [HierarchyItem(name, depth, node.kind)];
    }
  }

  lemma {:induction false} RowsUpToFacts(model: Node, order: seq<Path>, j: nat)
    requires AllValid(model, order) && 1 <= j <= |order|
    requires forall k :: 0 <= k < |order| ==> (order[k] == [] <==> k == 0)
    ensures |RowsUpTo(model, order, j)| == j - 1
    ensures forall k :: 1 <= k < j ==> RowsUpTo(model, order, j)[k - 1] == Row(model, order, k)
  {
    if j > 1 {
      RowsUpToFacts(model, order, j - 1);
      RowsUpToStep(model, order, j);
      var prev := RowsUpTo(model, order, j - 1);
      forall k | 1 <= k < j ensures RowsUpTo(model, order, j)[k - 1] == Row(model, order, k) {
        if k < j - 1 {
          assert RowsUpTo(model, order, j)[k - 1] == prev[k - 1];
        }
      }
    } else {
      assert order[0] == [];
    }
  }

  /** An object other than the root adds its row. */
  lemma RowsUpToStep(model: Node, order: seq<Path>, j: nat)
    requires AllValid(model, order) && 1 <= j <= |order| && order[j - 1] != []
    ensures RowsUpTo(model, order, j) == RowsUpTo(model, order, j - 1) + [Row(model, order, j - 1)]
  {
  }

  /** One row per object, in pre-order: row 0 is the root at depth 0, and every
      other row carries its object's type and its depth, the number of objects on
      the way from it up to and including the root. */
  lemma HierarchyFacts(model: Node)
    ensures AllValid(model, PreOrder(model))
    ensures |Hierarchy(model)| == |PreOrder(model)|
    ensures Hierarchy(model)[0] == HierarchyItem(RootName(model), 0, model.kind)
    ensures forall j :: 1 <= j < |PreOrder(model)| ==>
              && ValidPath(model, PreOrder(model)[j])
              && Hierarchy(model)[j] == Row(model, PreOrder(model), j)
              && Hierarchy(model)[j].depth == |PreOrder(model)[j]| >= 1
              && Hierarchy(model)[j].kind == At(model, PreOrder(model)[j]).kind
  {
    var order := PreOrder(model);
    PreOrderFacts(model);
    RowsUpToFacts(model, order, |order|);
    var rows := RowsUpTo(model, order, |order|);
    assert Hierarchy(model) == [RootRow(model)] + rows;
    forall j | 1 <= j < |order| ensures Hierarchy(model)[j] == Row(model, order, j) {
      assert Hierarchy(model)[j] == rows[j - 1];
    }
  }

  /** The counter numbers the unnamed objects 1, 2, ... in traversal order: an
      earlier unnamed object gets a smaller number than any later one. */
  lemma {:induction false} UnnamedNumbering(model: Node, order: seq<Path>, i: nat, j: nat)
    requires AllValid(model, order) && i < j < |order|
    requires order[i] != [] && Trim(At(model, order[i]).name) == ""
    ensures UnnamedBefore(model, order, i) < UnnamedBefore(model, order, j)
  {
    if j > i + 1 {
      UnnamedNumbering(model, order, i, j - 1);
    }
  }

  // ---------------------------------------------------------------------------
  // collectAssemblyGroups

  datatype AssemblyGroup = AssemblyGroup(name: string, path: string, meshCount: nat)

  function GroupMeshCount(g: AssemblyGroup): int {
    g.meshCount
  }

  /** The number of meshes in the subtree of the object at `p`, the object included. */
  function MeshCount(model: Node, p: Path): nat
    requires ValidPath(model, p)
  {
    VisitFacts(model, p);
    |MeshPaths(model, Visit(model, p))|
  }

  /** The inner `node.traverse` of `collectAssemblyGroups`, counting the meshes it visits. */
  method CountMeshes(model: Node, p: Path) returns (meshCount: nat)
    requires ValidPath(model, p)
    ensures meshCount == MeshCount(model, p)
  {
    var sub := Visit(model, p);
    VisitFacts(model, p);
    meshCount := 0;
    for k := 0 to |sub|
      invariant AllValid(model, sub[..k])
      invariant meshCount == |MeshPaths(model, sub[..k])|
    {
      MeshPathsStep(model, sub, k);
      if At(model, sub[k]).isMesh {
        meshCount := meshCount + 1;
      }
    }
    assert sub[..|sub|] == sub;
  }

  /** The count is positive exactly when the subtree holds a mesh. */
  lemma MeshCountPositive(model: Node, p: Path)
    requires ValidPath(model, p)
    ensures AllValid(model, Visit(model, p))
    ensures MeshCount(model, p) >= 1 <==>
              exists k :: 0 <= k < |Visit(model, p)| && At(model, Visit(model, p)[k]).isMesh
  {
    VisitFacts(model, p);
    MeshPathsNone(model, Visit(model, p));
  }

  /** The objects that get an assembly group: not of type `Mesh`, with a non-blank
      name and at least one mesh below them. */
  predicate IsAssembly(model: Node, p: Path)
    requires ValidPath(model, p)
  {
    At(model, p).kind != "Mesh" && Trim(At(model, p).name) != "" && MeshCount(model, p) >= 1
  }

  function AssemblyOf(model: Node, p: Path): AssemblyGroup
    requires ValidPath(model, p)
  {
    AssemblyGroup(Trim(At(model, p).name), NodePathOf(model, p), MeshCount(model, p))
  }

  /** The map key of a group: its path, a slash and its name. */
  function AssemblyKey(g: AssemblyGroup): string {
    g.path + "/" + g.name
  }

  function AssemblyEntry(model: Node, p: Path): (string, AssemblyGroup)
    requires ValidPath(model, p)
  {
    (AssemblyKey(AssemblyOf(model, p)), AssemblyOf(model, p))
  }

  /** The `set` calls `collectAssemblyGroups` makes for the first `j` objects of
      `order`, in order: one for each assembly. */
  function AssemblyEntries(model: Node, order: seq<Path>, j: nat): seq<(string, AssemblyGroup)>
    requires AllValid(model, order) && j <= |order|
  {
    if j == 0 then []
    else
      AssemblyEntries(model, order, j - 1)
      + (if IsAssembly(model, order[j - 1]) then [AssemblyEntry(model, order[j - 1])] else [])
  }

  /** What `collectAssemblyGroups` returns. */
  function AssemblyGroups(model: Node): seq<AssemblyGroup> {
    PreOrderFacts(model);
    SortedValues(AssemblyEntries(model, PreOrder(model), |PreOrder(model)|), GroupMeshCount)
  }

  /** `collectAssemblyGroups`: for every named non-mesh object with meshes below
      it, in pre-order, sets the group under the key path + "/" + name, then sorts
      the groups by mesh count, largest first. */
  method CollectAssemblyGroups(model: Node) returns (groups: seq<AssemblyGroup>)
    ensures groups == AssemblyGroups(model)
  {
    var order := PreOrder(model);
    PreOrderFacts(model);
    var assemblyMap: Entries<string, AssemblyGroup> := [];
    for j := 0 to |order|
      invariant assemblyMap == SetEach(AssemblyEntries(model, order, j))
    {
      var node := At(model, order[j]);
      if node.kind == "Mesh" {
        assert AssemblyEntries(model, order, j + 1) == AssemblyEntries(model, order, j);
        continue;
      }
      var name := Trim(node.name);
      if name == "" {
        assert AssemblyEntries(model, order, j + 1) == AssemblyEntries(model, order, j);
        continue;
      }
      var meshCount := CountMeshes(model, order[j]);
      if meshCount == 0 {
        assert AssemblyEntries(model, order, j + 1) == AssemblyEntries(model, order, j);
        continue;
      }
      var path := NodePath(model, order[j]);
      var key := path + "/" + name;
      assert (key, AssemblyGroup(name, path, meshCount)) == AssemblyEntry(model, order[j]);
      SetEachSnoc(AssemblyEntries(model, order, j), AssemblyEntry(model, order[j]));
      assemblyMap := Set(assemblyMap, key, AssemblyGroup(name, path, meshCount));
    }
    groups := SortByCountDesc(Values(assemblyMap), GroupMeshCount);
  }

  /** One more object walked appends its `set`, if it is an assembly. */
  lemma AssemblyEntriesStep(model: Node, order: seq<Path>, j: nat)
    requires AllValid(model, order) && 0 < j <= |order|
    ensures AssemblyEntries(model, order, j)
         == AssemblyEntries(model, order, j - 1)
            + (if IsAssembly(model, order[j - 1]) then [AssemblyEntry(model, order[j - 1])] else [])
  {
  }

  /** One more object walked only appends. */
  lemma AssemblyEntriesExtend(model: Node, order: seq<Path>, j: nat)
    requires AllValid(model, order) && 0 < j <= |order|
    ensures AssemblyEntries(model, order, j - 1) <= AssemblyEntries(model, order, j)
  {
    AssemblyEntriesStep(model, order, j);
  }

  /** Walking further keeps every `set` already made. */
  lemma {:induction false} AssemblyEntriesGrow(model: Node, order: seq<Path>, j: nat, j2: nat, x: (string, AssemblyGroup))
    requires AllValid(model, order) && j <= j2 <= |order| && x in AssemblyEntries(model, order, j)
    ensures x in AssemblyEntries(model, order, j2)
    decreases j2
  {
    if j < j2 {
      AssemblyEntriesGrow(model, order, j, j2 - 1, x);
      AssemblyEntriesExtend(model, order, j2);
      InPrefix(x, AssemblyEntries(model, order, j2 - 1), AssemblyEntries(model, order, j2));
    }
  }

  /** An assembly walked by object `k` has its `set` among the first `j`. */
  lemma {:induction false} AssemblyEntryIn(model: Node, order: seq<Path>, j: nat, k: nat)
    requires AllValid(model, order) && k < j <= |order| && IsAssembly(model, order[k])
    ensures AssemblyEntry(model, order[k]) in AssemblyEntries(model, order, j)
  {
    var x := AssemblyEntry(model, order[k]);
    AssemblyEntriesStep(model, order, k + 1);
    AssemblyEntriesGrowPast(model, order, j, k, x);
  }

  /** A `set` made by object `k` is still there after object `j - 1`. */
  lemma {:induction false} AssemblyEntriesGrowPast(model: Node, order: seq<Path>, j: nat, k: nat, x: (string, AssemblyGroup))
    requires AllValid(model, order) && k < j <= |order| && x in AssemblyEntries(model, order, k + 1)
    ensures x in AssemblyEntries(model, order, j)
  {
    AssemblyEntriesGrow(model, order, k + 1, j, x);
  }

  /** A `set` among the first `j` files the group of one of the first `j`
      objects, an assembly, under that group's key. */
  lemma {:induction false} AssemblyEntryFiled(model: Node, order: seq<Path>, j: nat, e: (string, AssemblyGroup))
    requires AllValid(model, order) && 0 < j <= |order| && e in AssemblyEntries(model, order, j)
    ensures e.0 == AssemblyKey(e.1)
    ensures exists k :: 0 <= k < j && IsAssembly(model, order[k]) && e.1 == AssemblyOf(model, order[k])
  {
    var prev := AssemblyEntries(model, order, j - 1);
    AssemblyEntriesStep(model, order, j);
    if j > 1 && e in prev {
      AssemblyEntryFiled(model, order, j - 1, e);
      var k :| 0 <= k < j - 1 && IsAssembly(model, order[k]) && e.1 == AssemblyOf(model, order[k]);
      assert 0 <= k < j;
    } else {
      assert IsAssembly(model, order[j - 1]) && e == AssemblyEntry(model, order[j - 1]);
    }
  }

  /** Each `set` files the group of an assembly walked so far under its own key,
      and every assembly walked so far gets one. */
  lemma AssemblyEntriesFacts(model: Node, order: seq<Path>, j: nat)
    requires AllValid(model, order) && j <= |order|
    ensures forall e :: e in AssemblyEntries(model, order, j) ==>
              && e.0 == AssemblyKey(e.1)
              && exists k :: 0 <= k < j && IsAssembly(model, order[k]) && e.1 == AssemblyOf(model, order[k])
    ensures forall k :: 0 <= k < j && IsAssembly(model, order[k]) ==>
              AssemblyEntry(model, order[k]) in AssemblyEntries(model, order, j)
  {
    if j > 0 {
      forall e | e in AssemblyEntries(model, order, j)
        ensures && e.0 == AssemblyKey(e.1)
                && exists k :: 0 <= k < j && IsAssembly(model, order[k]) && e.1 == AssemblyOf(model, order[k])
      {
        AssemblyEntryFiled(model, order, j, e);
      }
    }
    forall k | 0 <= k < j && IsAssembly(model, order[k])
      ensures AssemblyEntry(model, order[k]) in AssemblyEntries(model, order, j)
    {
      AssemblyEntryIn(model, order, j, k);
    }
  }

  /** Last write wins: an assembly whose key no later assembly shares is the
      group filed under that key. */
  lemma {:induction false} AssemblyLastWins(model: Node, order: seq<Path>, j: nat, k: nat)
    requires AllValid(model, order) && k < j <= |order| && IsAssembly(model, order[k])
    requires forall k2 :: k < k2 < j && IsAssembly(model, order[k2]) ==>
               AssemblyKey(AssemblyOf(model, order[k2])) != AssemblyKey(AssemblyOf(model, order[k]))
    ensures Get(SetEach(AssemblyEntries(model, order, j)), AssemblyKey(AssemblyOf(model, order[k])))
         == Some(AssemblyOf(model, order[k]))
  {
    var key := AssemblyKey(AssemblyOf(model, order[k]));
    if j - 1 == k {
      AssemblyMapStep(model, order, j);
      SetGet(SetEach(AssemblyEntries(model, order, k)), key, AssemblyOf(model, order[k]));
    } else {
      AssemblyLastWins(model, order, j - 1, k);
      AssemblyMapKeeps(model, order, j, key, AssemblyOf(model, order[k]));
    }
  }

  /** An object that is not an assembly under `key` leaves the group filed under
      `key` alone. */
  lemma AssemblyMapKeeps(model: Node, order: seq<Path>, j: nat, key: string, g: AssemblyGroup)
    requires AllValid(model, order) && 0 < j <= |order|
    requires Get(SetEach(AssemblyEntries(model, order, j - 1)), key) == Some(g)
    requires IsAssembly(model, order[j - 1]) ==> AssemblyKey(AssemblyOf(model, order[j - 1])) != key
    ensures Get(SetEach(AssemblyEntries(model, order, j)), key) == Some(g)
  {
    var p := order[j - 1];
    AssemblyMapStep(model, order, j);
    if IsAssembly(model, p) {
      SetGet(SetEach(AssemblyEntries(model, order, j - 1)), AssemblyKey(AssemblyOf(model, p)), AssemblyOf(model, p));
    }
  }

  /** The map after one more object: that object's group set under its key if
      it is an assembly, and otherwise the same map. */
  lemma AssemblyMapStep(model: Node, order: seq<Path>, j: nat)
    requires AllValid(model, order) && 0 < j <= |order|
    ensures SetEach(AssemblyEntries(model, order, j))
         == if IsAssembly(model, order[j - 1])
            then Set(SetEach(AssemblyEntries(model, order, j - 1)), AssemblyKey(AssemblyOf(model, order[j - 1])), AssemblyOf(model, order[j - 1]))
            else SetEach(AssemblyEntries(model, order, j - 1))
  {
    var es := AssemblyEntries(model, order, j - 1);
    if IsAssembly(model, order[j - 1]) {
      SetEachSnoc(es, AssemblyEntry(model, order[j - 1]));
    } else {
      assert AssemblyEntries(model, order, j) == es;
    }
  }

  /** The groups come sorted by mesh count, largest first; each one is the group
      of an assembly (a named non-mesh object with at least one mesh below it);
      no two share a key; and every assembly has a group with its key. */
  lemma AssemblyGroupsFacts(model: Node)
    ensures AllValid(model, PreOrder(model))
    ensures NonIncreasing(AssemblyGroups(model), GroupMeshCount)
    ensures forall g :: g in AssemblyGroups(model) ==>
              && g.name != "" && g.meshCount >= 1
              && exists k :: 0 <= k < |PreOrder(model)| && IsAssembly(model, PreOrder(model)[k])
                             && g == AssemblyOf(model, PreOrder(model)[k])
    ensures forall k :: 0 <= k < |PreOrder(model)| && IsAssembly(model, PreOrder(model)[k]) ==>
              exists g :: g in AssemblyGroups(model) && AssemblyKey(g) == AssemblyKey(AssemblyOf(model, PreOrder(model)[k]))
    ensures DistinctBy(AssemblyGroups(model), AssemblyKey)
  {
    var order := PreOrder(model);
    PreOrderFacts(model);
    var es := AssemblyEntries(model, order, |order|);
    assert AssemblyGroups(model) == SortedValues(es, GroupMeshCount);
    AssemblyEntriesFacts(model, order, |order|);
    SortedValuesFacts(es, AssemblyKey, GroupMeshCount);
    forall k | 0 <= k < |order| && IsAssembly(model, order[k])
      ensures exists g :: g in AssemblyGroups(model) && AssemblyKey(g) == AssemblyKey(AssemblyOf(model, order[k]))
    {
      var n :| 0 <= n < |es| && es[n] == AssemblyEntry(model, order[k]);
    }
  }

  // ---------------------------------------------------------------------------
  // collectPartGroups

  /** One row of a part group's assemblies: a path label and how many meshes of
      the group carry it. */
  datatype AssemblyCount = AssemblyCount(name: string, count: nat)

  /** The record `collectPartGroups` keeps per group key while it walks; its
      `assemblies` map a path label to the number of the group's meshes with it. */
  datatype PartEntry = PartEntry(key: string, name: string, count: nat, assemblies: Entries<string, nat>)

  datatype PartGroup = PartGroup(key: string, name: string, count: nat, assemblies: seq<AssemblyCount>)

  function EntryCount(e: PartEntry): int {
    e.count
  }

  function PartGroupCount(g: PartGroup): int {
    g.count
  }

  function PartGroupKey(g: PartGroup): string {
    g.key
  }

  function AssemblyCountOf(a: AssemblyCount): int {
    a.count
  }

  function AssemblyCountName(a: AssemblyCount): string {
    a.name
  }

  function Tally(n: nat): int {
    n
  }

  /** The number of meshes with a blank name among the first `j` objects of `order`. */
  function UnnamedMeshesBefore(model: Node, order: seq<Path>, j: nat): nat
    requires AllValid(model, order) && j <= |order|
  {
    if j == 0 then 0
    else
      var node := At(model, order[j - 1]);
      UnnamedMeshesBefore(model, order, j - 1) + (if node.isMesh && Trim(node.name) == "" then 1 else 0)
  }

  /** The name the mesh at `order[j]` is grouped by: its trimmed name or, when
      that is blank, `Mesh n` for the n-th blank-named mesh. Never empty. */
  function MeshRawName(model: Node, order: seq<Path>, j: nat): (r: string)
    requires AllValid(model, order) && j < |order|
    ensures r != ""
  {
    var name := Trim(At(model, order[j]).name);
    if name != "" then name else "Mesh " + NatToString(UnnamedMeshesBefore(model, order, j) + 1)
  }

  /** The group key of a raw name: its normalised form, or the raw name itself
      when that normalises to nothing. A non-empty name has a non-empty key. */
  function PartKey(raw: string): (key: string)
    ensures raw != "" ==> key != ""
  {
    if NormalizePartName(raw) != "" then NormalizePartName(raw) else raw
  }

  /** The group key of the mesh at `order[j]`. */
  function MeshKey(model: Node, order: seq<Path>, j: nat): string
    requires AllValid(model, order) && j < |order|
  {
    PartKey(MeshRawName(model, order, j))
  }

  /** One more mesh of group `key` with path label `path`: the entry under `key`,
      or a fresh empty one, counts it once overall and once under `path`. */
  function AddMesh(m: Entries<string, PartEntry>, key: string, path: string): Entries<string, PartEntry> {
    Set(m, key, AddedEntry(m, key, path))
  }

  /** The entry `AddMesh` sets under `key`. */
  function AddedEntry(m: Entries<string, PartEntry>, key: string, path: string): PartEntry {
    var entry := Get(m, key).GetOr(PartEntry(key, key, 0, []));
    var tally := Get(entry.assemblies, path).GetOr(0) + 1;
    PartEntry(entry.key, entry.name, entry.count + 1, Set(entry.assemblies, path, tally))
  }

  /** The part map after the first `j` objects of `order`. */
  function PartMapUpTo(model: Node, order: seq<Path>, j: nat): Entries<string, PartEntry>
    requires AllValid(model, order) && j <= |order|
  {
    if j == 0 then []
    else
      var m := PartMapUpTo(model, order, j - 1);
      if At(model, order[j - 1]).isMesh
      then AddMesh(m, MeshKey(model, order, j - 1), NodePathOf(model, order[j - 1]))
      else m
  }

  /** The group keys of the meshes among the first `j` objects of `order`, in order. */
  function MeshKeys(model: Node, order: seq<Path>, j: nat): seq<string>
    requires AllValid(model, order) && j <= |order|
  {
    if j == 0 then []
    else MeshKeys(model, order, j - 1) + (if At(model, order[j - 1]).isMesh then [MeshKey(model, order, j - 1)] else [])
  }

  /** The mesh count of the entry under `key`, 0 when there is none. */
  function CountOf(m: Entries<string, PartEntry>, key: string): nat {
    match Get(m, key)
    case Some(e) => e.count
    case None => 0
  }

  /** `Array.from(assemblies.entries()).map(([name, count]) => ({ name, count }))`. */
  function AssemblyCounts(a: Entries<string, nat>): (r: seq<AssemblyCount>)
    ensures |r| == |a| && forall i :: 0 <= i < |a| ==> r[i] == AssemblyCount(a[i].0, a[i].1)
  {
    if a == [] then [] else [AssemblyCount(a[0].0, a[0].1)] + AssemblyCounts(a[1..])
  }

  /** The group returned for an entry: its assemblies sorted by count, largest first. */
  function ToGroup(e: PartEntry): PartGroup {
    PartGroup(e.key, e.name, e.count, SortByCountDesc(AssemblyCounts(e.assemblies), AssemblyCountOf))
  }

  function ToGroups(es: seq<PartEntry>): (r: seq<PartGroup>)
    ensures |r| == |es| && forall i :: 0 <= i < |es| ==> r[i] == ToGroup(es[i])
  {
    if es == [] then [] else [ToGroup(es[0])] + ToGroups(es[1..])
  }

  /** What `collectPartGroups` returns. */
  function PartGroups(model: Node): seq<PartGroup> {
    PreOrderFacts(model);
    SortByCountDesc(ToGroups(Values(PartMapUpTo(model, PreOrder(model), |PreOrder(model)|))), PartGroupCount)
  }

  /** `collectPartGroups`: for every mesh in pre-order, files it under its group
      key, counting it in the group and under its path label, then returns the
      groups sorted by count, each with its path labels sorted by count. */
  method CollectPartGroups(model: Node) returns (groups: seq<PartGroup>)
    ensures groups == PartGroups(model)
  {
    var order := PreOrder(model);
    PreOrderFacts(model);
    var partMap: Entries<string, PartEntry> := [];
    var unnamedIndex := 1;
    for j := 0 to |order|
      invariant partMap == PartMapUpTo(model, order, j)
      invariant unnamedIndex == 1 + UnnamedMeshesBefore(model, order, j)
    {
      var child := At(model, order[j]);
      if !child.isMesh {
        assert PartMapUpTo(model, order, j + 1) == partMap;
        continue;
      }
      var rawName := Trim(child.name);
      if rawName == "" {
        rawName := "Mesh " + NatToString(unnamedIndex);
        unnamedIndex := unnamedIndex + 1;
      }
      assert rawName == MeshRawName(model, order, j);
      var assemblyPath := NodePath(model, order[j]);
      assert PartMapUpTo(model, order, j + 1) == AddMesh(partMap, PartKey(rawName), assemblyPath);
      partMap := FileMesh(partMap, rawName, assemblyPath);
    }
    groups := SortByCountDesc(ToGroups(Values(partMap)), PartGroupCount);
  }

  /** The body of the `traverse` callback of `collectPartGroups` for a mesh with
      raw name `rawName` and path label `assemblyPath`. */
  method FileMesh(partMap: Entries<string, PartEntry>, rawName: string, assemblyPath: string)
    returns (next: Entries<string, PartEntry>)
    ensures next == AddMesh(partMap, PartKey(rawName), assemblyPath)
  {
    var normalized := NormalizePartName(rawName);
    var groupKey := if normalized != "" then normalized else rawName;
    var entry := Get(partMap, groupKey).GetOr(PartEntry(groupKey, if normalized != "" then normalized else rawName, 0, []));
    entry := entry.(count := entry.count + 1);
    entry := entry.(assemblies := Set(entry.assemblies, assemblyPath, Get(entry.assemblies, assemblyPath).GetOr(0) + 1));
    next := Set(partMap, groupKey, entry);
  }

  /** What holds of every entry of the part map: it is filed under its own key,
      its name is its key, it counts at least one mesh, and that count is split
      over distinct path labels, each with a positive count. */
  ghost predicate EntryOk(e: (string, PartEntry)) {
    && e.0 == e.1.key && e.1.name == e.1.key && e.1.count >= 1
    && SumBy(Values(e.1.assemblies), Tally) == e.1.count
    && DistinctKeys(e.1.assemblies)
    && forall a :: a in e.1.assemblies ==> a.1 >= 1
  }

  ghost predicate PartMapOk(m: Entries<string, PartEntry>) {
    DistinctKeys(m) && forall e :: e in m ==> EntryOk(e)
  }

  /** The entry a mesh is added to stays well formed and counts one mesh more. */
  lemma AddedEntryOk(m: Entries<string, PartEntry>, key: string, path: string)
    requires PartMapOk(m)
    ensures EntryOk((key, AddedEntry(m, key, path)))
    ensures AddedEntry(m, key, path).count == CountOf(m, key) + 1
  {
    var entry := Get(m, key).GetOr(PartEntry(key, key, 0, []));
    var tally := Get(entry.assemblies, path).GetOr(0) + 1;
    GetFinds(m, key);
    if Get(m, key).Some? {
      var i :| 0 <= i < |m| && m[i] == (key, entry);
      assert m[i] in m && EntryOk(m[i]);
    }
    SetSum(entry.assemblies, path, tally, Tally);
    SetKeepsDistinct(entry.assemblies, path, tally);
    SetEntries(entry.assemblies, path, tally);
  }

  /** Adding a mesh keeps the map well formed, adds one to the total count and to
      the count of its own key, and leaves every other key's count alone. */
  lemma AddMeshFacts(m: Entries<string, PartEntry>, key: string, path: string)
    requires PartMapOk(m)
    ensures PartMapOk(AddMesh(m, key, path))
    ensures SumBy(Values(AddMesh(m, key, path)), EntryCount) == SumBy(Values(m), EntryCount) + 1
    ensures CountOf(AddMesh(m, key, path), key) == CountOf(m, key) + 1
    ensures forall k :: k != key ==> CountOf(AddMesh(m, key, path), k) == CountOf(m, k)
  {
    var next := AddedEntry(m, key, path);
    AddedEntryOk(m, key, path);
    SetKeepsDistinct(m, key, next);
    SetEntries(m, key, next);
    SetSum(m, key, next, EntryCount);
    SetGet(m, key, next);
  }

  /** After the first `j` objects the part map is well formed, its counts add up
      to the number of meshes walked, and each key counts exactly the meshes
      walked that have that group key. */
  lemma {:induction false} PartMapFacts(model: Node, order: seq<Path>, j: nat)
    requires AllValid(model, order) && j <= |order|
    ensures AllValid(model, order[..j])
    ensures PartMapOk(PartMapUpTo(model, order, j))
    ensures SumBy(Values(PartMapUpTo(model, order, j)), EntryCount) == |MeshPaths(model, order[..j])|
    ensures forall key :: CountOf(PartMapUpTo(model, order, j), key) == multiset(MeshKeys(model, order, j))[key]
  {
    if j == 0 {
      assert order[..0] == [];
    } else {
      PartMapFacts(model, order, j - 1);
      MeshPathsStep(model, order, j - 1);
      var m := PartMapUpTo(model, order, j - 1);
      var keys := MeshKeys(model, order, j - 1);
      if At(model, order[j - 1]).isMesh {
        var key := MeshKey(model, order, j - 1);
        var path := NodePathOf(model, order[j - 1]);
        assert PartMapUpTo(model, order, j) == AddMesh(m, key, path);
        assert MeshKeys(model, order, j) == keys + [key];
        AddMeshFacts(m, key, path);
        CountsStep(m, AddMesh(m, key, path), keys, key);
      } else {
        assert PartMapUpTo(model, order, j) == m;
        assert MeshKeys(model, order, j) == keys;
      }
    }
  }

  /** Per-key counts that follow the multiset of keys still follow it after one
      more key is counted. */
  lemma CountsStep(m: Entries<string, PartEntry>, next: Entries<string, PartEntry>, keys: seq<string>, key: string)
    requires forall k :: CountOf(m, k) == multiset(keys)[k]
    requires CountOf(next, key) == CountOf(m, key) + 1
    requires forall k :: k != key ==> CountOf(next, k) == CountOf(m, k)
    ensures forall k :: CountOf(next, k) == multiset(keys + [key])[k]
  {
    assert multiset(keys + [key]) == multiset(keys) + multiset{key};
  }

  lemma {:induction false} AssemblyCountsSum(a: Entries<string, nat>)
    ensures SumBy(AssemblyCounts(a), AssemblyCountOf) == SumBy(Values(a), Tally)
  {
    if a != [] {
      AssemblyCountsSum(a[1..]);
    }
  }

  lemma {:induction false} ToGroupsSum(es: seq<PartEntry>)
    ensures SumBy(ToGroups(es), PartGroupCount) == SumBy(es, EntryCount)
  {
    if es != [] {
      ToGroupsSum(es[1..]);
    }
  }

  /** The group of a well-formed entry keeps its key, name and count; its path
      labels are distinct, sorted by count, largest first, each counted at least
      once, and their counts add up to the group's count. */
  lemma ToGroupFacts(e: (string, PartEntry))
    requires EntryOk(e)
    ensures ToGroup(e.1).key == e.0 && ToGroup(e.1).name == e.0 && ToGroup(e.1).count == e.1.count >= 1
    ensures NonIncreasing(ToGroup(e.1).assemblies, AssemblyCountOf)
    ensures SumBy(ToGroup(e.1).assemblies, AssemblyCountOf) == e.1.count
    ensures DistinctBy(ToGroup(e.1).assemblies, AssemblyCountName)
    ensures forall a :: a in ToGroup(e.1).assemblies ==> a.count >= 1
  {
    var rows := AssemblyCounts(e.1.assemblies);
    SortFacts(rows, AssemblyCountOf);
    AssemblyCountsSum(e.1.assemblies);
    ToGroupPositive(e);
    ToGroupDistinct(e);
  }

  /** Each path label of the group of a well-formed entry is counted at least once. */
  lemma ToGroupPositive(e: (string, PartEntry))
    requires EntryOk(e)
    ensures forall a :: a in ToGroup(e.1).assemblies ==> a.count >= 1
  {
    var a := e.1.assemblies;
    var rows := AssemblyCounts(a);
    forall r | r in ToGroup(e.1).assemblies ensures r.count >= 1 {
      SortMembers(rows, AssemblyCountOf, r);
      var i :| 0 <= i < |rows| && rows[i] == r;
      assert a[i] in a;
    }
  }

  /** The path labels of the group of a well-formed entry are distinct. */
  lemma ToGroupDistinct(e: (string, PartEntry))
    requires EntryOk(e)
    ensures DistinctBy(ToGroup(e.1).assemblies, AssemblyCountName)
  {
    var rows := AssemblyCounts(e.1.assemblies);
    assert DistinctBy(rows, AssemblyCountName);
    SortDistinct(rows, AssemblyCountOf, AssemblyCountName);
  }

  /** Every group returned is the group of an entry of the final part map. */
  lemma PartGroupsFrom(model: Node, g: PartGroup)
    requires g in PartGroups(model)
    ensures AllValid(model, PreOrder(model))
    ensures exists e :: e in PartMapUpTo(model, PreOrder(model), |PreOrder(model)|) && g == ToGroup(e.1)
  {
    PreOrderFacts(model);
    var m := PartMapUpTo(model, PreOrder(model), |PreOrder(model)|);
    var groups := ToGroups(Values(m));
    SortMembers(groups, PartGroupCount, g);
    var i :| 0 <= i < |groups| && groups[i] == g;
    assert m[i] in m;
  }

  /** The groups come sorted by count, largest first, and their counts add up to
      the number of meshes. No two groups share a key; each group's name is its
      key and its count is the number of meshes with that key; and each group's
      path labels are distinct, sorted by count, largest first, and their counts
      add up to the group's count. */
  lemma PartGroupsFacts(model: Node)
    ensures AllValid(model, PreOrder(model))
    ensures NonIncreasing(PartGroups(model), PartGroupCount)
    ensures SumBy(PartGroups(model), PartGroupCount) == |MeshPaths(model, PreOrder(model))|
    ensures DistinctBy(PartGroups(model), PartGroupKey)
    ensures forall g :: g in PartGroups(model) ==>
              && g.name == g.key
              && g.count == multiset(MeshKeys(model, PreOrder(model), |PreOrder(model)|))[g.key] >= 1
              && NonIncreasing(g.assemblies, AssemblyCountOf)
              && SumBy(g.assemblies, AssemblyCountOf) == g.count
              && DistinctBy(g.assemblies, AssemblyCountName)
              && forall a :: a in g.assemblies ==> a.count >= 1
  {
    var order := PreOrder(model);
    PreOrderFacts(model);
    var m := PartMapUpTo(model, order, |order|);
    var groups := ToGroups(Values(m));
    assert PartGroups(model) == SortByCountDesc(groups, PartGroupCount);
    PartMapFacts(model, order, |order|);
    assert order[..|order|] == order;
    SortFacts(groups, PartGroupCount);
    ToGroupsSum(Values(m));
    ValuesKeyed(m, (e: PartEntry) => e.key);
    assert DistinctBy(groups, PartGroupKey);
    SortDistinct(groups, PartGroupCount, PartGroupKey);
    forall g | g in PartGroups(model)
      ensures && g.name == g.key
              && g.count == multiset(MeshKeys(model, order, |order|))[g.key] >= 1
              && NonIncreasing(g.assemblies, AssemblyCountOf)
              && SumBy(g.assemblies, AssemblyCountOf) == g.count
              && DistinctBy(g.assemblies, AssemblyCountName)
              && forall a :: a in g.assemblies ==> a.count >= 1
    {
      PartGroupsFrom(model, g);
      var e :| e in m && g == ToGroup(e.1);
      ToGroupFacts(e);
      GetOfEntry(m, e);
      assert CountOf(m, e.0) == e.1.count;
    }
  }

  /** One more object walked appends its key, if it is a mesh. */
  lemma {:induction false} MeshKeysStep(model: Node, order: seq<Path>, j: nat)
    requires AllValid(model, order) && 0 < j <= |order|
    ensures MeshKeys(model, order, j)
         == MeshKeys(model, order, j - 1)
            + (if At(model, order[j - 1]).isMesh then [MeshKey(model, order, j - 1)] else [])
  {
  }

  /** A mesh's key is the last key once it is walked. */
  lemma {:induction false} MeshKeysLast(model: Node, order: seq<Path>, k: nat)
    requires AllValid(model, order) && k < |order| && At(model, order[k]).isMesh
    ensures MeshKey(model, order, k) in MeshKeys(model, order, k + 1)
  {
  }

  /** Walking further only appends to the keys already collected. */
  lemma {:induction false} MeshKeysPrefix(model: Node, order: seq<Path>, j: nat, j2: nat)
    requires AllValid(model, order) && j <= j2 <= |order|
    ensures MeshKeys(model, order, j) <= MeshKeys(model, order, j2)
    decreases j2
  {
    if j < j2 {
      MeshKeysPrefix(model, order, j, j2 - 1);
      MeshKeysStep(model, order, j2);
    }
  }

  /** What a sequence holds, every sequence it begins holds too. */
  lemma InPrefix<T>(x: T, a: seq<T>, b: seq<T>)
    requires x in a && a <= b
    ensures x in b
  {
    var i :| 0 <= i < |a| && a[i] == x;
    assert b[i] == x;
  }

  /** The key of every mesh walked is among the keys. */
  lemma {:induction false} MeshKeysHas(model: Node, order: seq<Path>, j: nat, k: nat)
    requires AllValid(model, order) && k < j <= |order| && At(model, order[k]).isMesh
    ensures MeshKey(model, order, k) in MeshKeys(model, order, j)
  {
    var key := MeshKey(model, order, k);
    MeshKeysLast(model, order, k);
    MeshKeysGrowPast(model, order, j, k, key);
  }

  /** A key collected by object `k` is still there after object `j - 1`. */
  lemma {:induction false} MeshKeysGrowPast(model: Node, order: seq<Path>, j: nat, k: nat, key: string)
    requires AllValid(model, order) && k < j <= |order|
    requires key in MeshKeys(model, order, k + 1)
    ensures key in MeshKeys(model, order, j)
  {
    MeshKeysPrefix(model, order, k + 1, j);
    InPrefix(key, MeshKeys(model, order, k + 1), MeshKeys(model, order, j));
  }

  /** Every mesh has a group: some group has the mesh's group key. */
  lemma PartGroupsCover(model: Node, k: nat)
    requires k < |PreOrder(model)|
    ensures AllValid(model, PreOrder(model))
    ensures At(model, PreOrder(model)[k]).isMesh ==>
              exists g :: g in PartGroups(model) && g.key == MeshKey(model, PreOrder(model), k)
  {
    var order := PreOrder(model);
    PreOrderFacts(model);
    if At(model, order[k]).isMesh {
      var key := MeshKey(model, order, k);
      var m := PartMapUpTo(model, order, |order|);
      var groups := ToGroups(Values(m));
      assert PartGroups(model) == SortByCountDesc(groups, PartGroupCount);
      MeshKeysHas(model, order, |order|, k);
      PartMapFacts(model, order, |order|);
      assert CountOf(m, key) >= 1;
      GetFinds(m, key);
      var i :| 0 <= i < |m| && m[i].0 == key;
      assert m[i] in m && EntryOk(m[i]);
      SortMembers(groups, PartGroupCount, groups[i]);
      assert groups[i] in PartGroups(model) && groups[i].key == key;
    }
  }

  // ---------------------------------------------------------------------------
  // buildExplodeParts

  /** An explode entry: the mesh at `mesh` (the source's `object`), its resting local position, the
      local direction it moves along and the share of the distance it covers. */
  datatype ExplodePart = ExplodePart(mesh: Path, base: Vec3, dir: Vec3, magnitude: real)

  /** What `buildExplodeParts` reads from three.js and the model does not compute:
      a mesh's local position, the x of the world-space centre of its bounding
      box, and a world direction turned into the local frame of its parent
      (`transformDirection` by the inverse of the parent's world matrix). */
  datatype Placement = Placement(
    base: Path -> Vec3,
    worldCenterX: Path -> real,
    toParentFrame: (Path, Vec3) -> Vec3)

  /** The x of the centre of the model's bounds `[minX, maxX]`. */
  function CenterX(minX: real, maxX: real): real {
    (minX + maxX) / 2.0
  }

  /** The larger distance from the centre to either x bound. */
  function MaxAbsX(minX: real, maxX: real): (r: real)
    ensures r >= 0.0
  {
    MaxReal(AbsReal(minX - CenterX(minX, maxX)), AbsReal(maxX - CenterX(minX, maxX)))
  }

  /** The side a mesh moves to: +1 right of the centre or on it, -1 left of it. */
  function ExplodeSign(deltaX: real): (sign: real)
    ensures sign == 1.0 || sign == -1.0
    ensures sign == 1.0 <==> deltaX >= 0.0
  {
    if deltaX == 0.0 then 1.0 else Sign(deltaX)
  }

  /** How far a mesh moves: its distance from the centre relative to the widest
      one, but at least 0.15; 1 when the bounds have no width. */
  function ExplodeMagnitude(deltaX: real, maxAbsX: real): (magnitude: real)
    ensures magnitude >= 0.15
    ensures maxAbsX <= 0.0 ==> magnitude == 1.0
    ensures 0.0 < maxAbsX && AbsReal(deltaX) <= maxAbsX ==> magnitude <= 1.0
    ensures 0.0 < maxAbsX && AbsReal(deltaX) >= 0.15 * maxAbsX ==> magnitude * maxAbsX == AbsReal(deltaX)
  {
    if maxAbsX > 0.0 then MaxReal(0.15, AbsReal(deltaX) / maxAbsX) else 1.0
  }

  /** The entry of the mesh at `p`. */
  function ExplodePartOf(placement: Placement, minX: real, maxX: real, p: Path): ExplodePart {
    var deltaX := placement.worldCenterX(p) - CenterX(minX, maxX);
    ExplodePart(p, placement.base(p), placement.toParentFrame(p, Vec3(ExplodeSign(deltaX), 0.0, 0.0)),
                ExplodeMagnitude(deltaX, MaxAbsX(minX, maxX)))
  }

  /** The entries of the meshes `meshes`, in that order. */
  function ExplodeEntries(placement: Placement, minX: real, maxX: real, meshes: seq<Path>): (r: seq<ExplodePart>)
    ensures |r| == |meshes|
    ensures forall i :: 0 <= i < |meshes| ==> r[i] == ExplodePartOf(placement, minX, maxX, meshes[i])
  {
    if meshes == [] then []
    else
      ExplodeEntries(placement, minX, maxX, meshes[..|meshes| - 1])
      + [ExplodePartOf(placement, minX, maxX, meshes[|meshes| - 1])]
  }

  /** One more mesh adds its entry. */
  lemma ExplodeEntriesAppend(placement: Placement, minX: real, maxX: real, meshes: seq<Path>, p: Path)
    ensures ExplodeEntries(placement, minX, maxX, meshes + [p])
         == ExplodeEntries(placement, minX, maxX, meshes) + [ExplodePartOf(placement, minX, maxX, p)]
  {
    assert (meshes + [p])[..|meshes|] == meshes;
  }

  /** What `buildExplodeParts` returns for a model whose bounds span `[minX, maxX]` in x. */
  function ExplodeParts(model: Node, placement: Placement, minX: real, maxX: real): seq<ExplodePart> {
    PreOrderFacts(model);
    ExplodeEntries(placement, minX, maxX, MeshPaths(model, PreOrder(model)))
  }

  /** `buildExplodeParts`: one entry per mesh in pre-order, moving it away from
      the centre of the model along x, by the side it lies on. */
  method BuildExplodeParts(model: Node, placement: Placement, minX: real, maxX: real)
    returns (items: seq<ExplodePart>)
    ensures items == ExplodeParts(model, placement, minX, maxX)
  {
    var order := PreOrder(model);
    PreOrderFacts(model);
    var center := (minX + maxX) / 2.0;
    var maxAbsX := MaxReal(AbsReal(minX - center), AbsReal(maxX - center));
    items := [];
    for j := 0 to |order|
      invariant AllValid(model, order[..j])
      invariant items == ExplodeEntries(placement, minX, maxX, MeshPaths(model, order[..j]))
    {
      MeshPathsStep(model, order, j);
      var child := order[j];
      if !At(model, child).isMesh {
        continue;
      }
      ExplodeEntriesAppend(placement, minX, maxX, MeshPaths(model, order[..j]), child);
      var base := placement.base(child);
      var deltaX := placement.worldCenterX(child) - center;
      var sign := if deltaX == 0.0 then 1.0 else Sign(deltaX);
      var magnitude := if maxAbsX > 0.0 then MaxReal(0.15, AbsReal(deltaX) / maxAbsX) else 1.0;
      var dirLocal := placement.toParentFrame(child, Vec3(sign, 0.0, 0.0));
      assert ExplodePart(child, base, dirLocal, magnitude) == ExplodePartOf(placement, minX, maxX, child);
      items := items + [ExplodePart(child, base, dirLocal, magnitude)];
    }
    assert order[..|order|] == order;
  }

  /** A point within the bounds is no farther from the centre than `MaxAbsX`. */
  lemma WithinBounds(minX: real, maxX: real, x: real)
    requires minX <= x <= maxX
    ensures AbsReal(x - CenterX(minX, maxX)) <= MaxAbsX(minX, maxX)
  {
  }

  /** One entry per mesh, in pre-order, at the mesh's resting position; each
      moves by at least 0.15 of the distance, exactly all of it when the bounds
      have no width, and never more than all of it when the mesh's centre lies
      within the bounds. */
  lemma ExplodePartsFacts(model: Node, placement: Placement, minX: real, maxX: real)
    ensures AllValid(model, PreOrder(model))
    ensures |ExplodeParts(model, placement, minX, maxX)| == |MeshPaths(model, PreOrder(model))|
    ensures forall i :: 0 <= i < |ExplodeParts(model, placement, minX, maxX)| ==>
              && ExplodeParts(model, placement, minX, maxX)[i].mesh == MeshPaths(model, PreOrder(model))[i]
              && ValidPath(model, ExplodeParts(model, placement, minX, maxX)[i].mesh)
              && At(model, ExplodeParts(model, placement, minX, maxX)[i].mesh).isMesh
              && ExplodeParts(model, placement, minX, maxX)[i].base == placement.base(ExplodeParts(model, placement, minX, maxX)[i].mesh)
              && ExplodeParts(model, placement, minX, maxX)[i].magnitude >= 0.15
              && (MaxAbsX(minX, maxX) == 0.0 ==> ExplodeParts(model, placement, minX, maxX)[i].magnitude == 1.0)
              && (minX <= placement.worldCenterX(ExplodeParts(model, placement, minX, maxX)[i].mesh) <= maxX ==>
                    ExplodeParts(model, placement, minX, maxX)[i].magnitude <= 1.0)
  {
    PreOrderFacts(model);
    var meshes := MeshPaths(model, PreOrder(model));
    MeshPathsFacts(model, PreOrder(model));
    var parts := ExplodeParts(model, placement, minX, maxX);
    assert parts == ExplodeEntries(placement, minX, maxX, meshes);
    forall i | 0 <= i < |parts| && minX <= placement.worldCenterX(parts[i].mesh) <= maxX
      ensures parts[i].magnitude <= 1.0
    {
      WithinBounds(minX, maxX, placement.worldCenterX(meshes[i]));
    }
  }
}
