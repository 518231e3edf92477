/** The part of a three.js scene graph the assembly explorer reads: every object
    has a name, a type, an `isMesh` flag and its children in order. An object is
    named by its path, the child indices that lead to it from the model root;
    its parent is the path without the last index. `traverse` visits an object
    and then the subtrees of its children in order (pre-order). */
module SceneGraph {

  datatype Node = Node(name: string, kind: string, isMesh: bool, children: seq<Node>)

  type Path = seq<nat>

  function Parent(p: Path): Path
    requires p != []
  {
    p[..|p| - 1]
  }

  function Last(p: Path): nat
    requires p != []
  {
    p[|p| - 1]
  }

  /** Every index on the way from the root names a child that exists. */
  predicate ValidPath(root: Node, p: Path)
    decreases |p|, 0
  {
    p == [] || (ValidPath(root, Parent(p)) && Last(p) < |At(root, Parent(p)).children|)
  }

  /** The object at path `p`. */
  function At(root: Node, p: Path): Node
    requires ValidPath(root, p)
    decreases |p|, 1
  {
    if p == [] then root else At(root, Parent(p)).children[Last(p)]
  }

  /** The child `i` of the object at `p` sits at `p + [i]`. */
  lemma ChildAt(root: Node, p: Path, i: nat)
    requires ValidPath(root, p) && i < |At(root, p).children|
    ensures Parent(p + [i]) == p && Last(p + [i]) == i
    ensures ValidPath(root, p + [i]) && At(root, p + [i]) == At(root, p).children[i]
  {
    assert (p + [i])[..|p|] == p;
  }

  /** The paths `traverse` visits from the object at `p`: that object, then each
      child's subtree in order. */
  function Visit(root: Node, p: Path): seq<Path>
    requires ValidPath(root, p)
    decreases At(root, p), 1
  {
    [p] + VisitChildren(root, p, 0)
  }

  /** The subtrees of the children `i` onwards of the object at `p`. */
  function VisitChildren(root: Node, p: Path, i: nat): seq<Path>
    requires ValidPath(root, p) && i <= |At(root, p).children|
    decreases At(root, p), 0, |At(root, p).children| - i
  {
    if i == |At(root, p).children| then []
    else
      ChildAt(root, p, i);
      Visit(root, p + [i]) + VisitChildren(root, p, i + 1)
  }

  /** `model.traverse`: every object of the model in pre-order. */
  function PreOrder(root: Node): seq<Path> {
    Visit(root, [])
  }

  /** `p` begins `q`: the object at `q` lies in the subtree of the object at `p`. */
  predicate IsPrefix(p: Path, q: Path) {
    |p| <= |q| && q[..|p|] == p
  }

  /** Everything visited from `p` is a valid path in the subtree of `p`: first
      `p` itself, then only paths below it. */
  lemma {:induction false} VisitFacts(root: Node, p: Path)
    requires ValidPath(root, p)
    ensures Visit(root, p)[0] == p
    ensures forall k :: 0 <= k < |Visit(root, p)| ==>
              ValidPath(root, Visit(root, p)[k]) && IsPrefix(p, Visit(root, p)[k])
    ensures forall k :: 0 < k < |Visit(root, p)| ==> |Visit(root, p)[k]| > |p|
    decreases At(root, p), 1
  {
    VisitChildrenFacts(root, p, 0);
  }

  lemma {:induction false} VisitChildrenFacts(root: Node, p: Path, i: nat)
    requires ValidPath(root, p) && i <= |At(root, p).children|
    ensures forall k :: 0 <= k < |VisitChildren(root, p, i)| ==>
              && ValidPath(root, VisitChildren(root, p, i)[k])
              && IsPrefix(p, VisitChildren(root, p, i)[k])
              && |VisitChildren(root, p, i)[k]| > |p|
    decreases At(root, p), 0, |At(root, p).children| - i
  {
    if i < |At(root, p).children| {
      ChildAt(root, p, i);
      var c := p + [i];
      VisitFacts(root, c);
      VisitChildrenFacts(root, p, i + 1);
      var a := Visit(root, c);
      var b := VisitChildren(root, p, i + 1);
      var ab := a + b;
      assert VisitChildren(root, p, i) == ab;
      forall k | 0 <= k < |ab|
        ensures && ValidPath(root, ab[k])
                && IsPrefix(p, ab[k])
                && |ab[k]| > |p|
      {
        if k < |a| {
          var q := a[k];
          assert IsPrefix(c, q);
          assert q[..|p|] == c[..|p|] == p;
        } else {
          assert ab[k] == b[k - |a|];
        }
      }
    }
  }

  /** The model root is visited first and only there; every visited path exists. */
  lemma PreOrderFacts(root: Node)
    ensures |PreOrder(root)| >= 1 && PreOrder(root)[0] == []
    ensures forall k :: 0 <= k < |PreOrder(root)| ==> ValidPath(root, PreOrder(root)[k])
    ensures AllValid(root, PreOrder(root))
    ensures forall k :: 0 <= k < |PreOrder(root)| ==> (PreOrder(root)[k] == [] <==> k == 0)
  {
    VisitFacts(root, []);
  }

  /** The number of objects of the subtree of `n`. */
  function Size(n: Node): nat
    decreases n, 1
  {
    1 + SizeOfChildren(n, 0)
  }

  function SizeOfChildren(n: Node, i: nat): nat
    requires i <= |n.children|
    decreases n, 0, |n.children| - i
  {
    if i == |n.children| then 0 else Size(n.children[i]) + SizeOfChildren(n, i + 1)
  }

  /** `traverse` visits as many paths from `p` as the subtree of `p` has objects. */
  lemma {:induction false} VisitSize(root: Node, p: Path)
    requires ValidPath(root, p)
    ensures |Visit(root, p)| == Size(At(root, p))
    decreases At(root, p), 1
  {
    VisitChildrenSize(root, p, 0);
  }

  lemma {:induction false} VisitChildrenSize(root: Node, p: Path, i: nat)
    requires ValidPath(root, p) && i <= |At(root, p).children|
    ensures |VisitChildren(root, p, i)| == SizeOfChildren(At(root, p), i)
    decreases At(root, p), 0, |At(root, p).children| - i
  {
    if i < |At(root, p).children| {
      ChildAt(root, p, i);
      VisitSize(root, p + [i]);
      VisitChildrenSize(root, p, i + 1);
    }
  }

  /** No path occurs twice in `s`. */
  ghost predicate Distinct(s: seq<Path>) {
    forall j, k :: 0 <= j < k < |s| ==> s[j] != s[k]
  }

  /** The subtrees of the children `i` onwards lie below `p`, under a child index of `i` or more. */
  lemma {:induction false} VisitChildrenFrom(root: Node, p: Path, i: nat)
    requires ValidPath(root, p) && i <= |At(root, p).children|
    ensures forall k :: 0 <= k < |VisitChildren(root, p, i)| ==>
              |VisitChildren(root, p, i)[k]| > |p| && VisitChildren(root, p, i)[k][|p|] >= i
    decreases |At(root, p).children| - i
  {
    if i < |At(root, p).children| {
      ChildAt(root, p, i);
      var c := p + [i];
      VisitFacts(root, c);
      VisitChildrenFrom(root, p, i + 1);
      var a := Visit(root, c);
      var b := VisitChildren(root, p, i + 1);
      var ab := a + b;
      assert VisitChildren(root, p, i) == ab;
      forall k | 0 <= k < |ab|
        ensures |ab[k]| > |p| && ab[k][|p|] >= i
      {
        if k < |a| {
          var q := a[k];
          assert IsPrefix(c, q);
          assert q[|p|] == q[..|c|][|p|] == c[|p|] == i;
        } else {
          assert ab[k] == b[k - |a|];
        }
      }
    }
  }

  /** `traverse` never visits an object twice. */
  lemma {:induction false} VisitDistinct(root: Node, p: Path)
    requires ValidPath(root, p)
    ensures Distinct(Visit(root, p))
    decreases At(root, p), 1
  {
    VisitChildrenDistinct(root, p, 0);
    VisitChildrenFacts(root, p, 0);
    var v := Visit(root, p);
    var rest := VisitChildren(root, p, 0);
    assert v == [p] + rest;
    forall j, k | 0 <= j < k < |v|
      ensures v[j] != v[k]
    {
      assert v[k] == rest[k - 1];
      if j > 0 {
        assert v[j] == rest[j - 1];
      }
    }
  }

  lemma {:induction false} VisitChildrenDistinct(root: Node, p: Path, i: nat)
    requires ValidPath(root, p) && i <= |At(root, p).children|
    ensures Distinct(VisitChildren(root, p, i))
    decreases At(root, p), 0, |At(root, p).children| - i
  {
    if i < |At(root, p).children| {
      ChildAt(root, p, i);
      var c := p + [i];
      VisitDistinct(root, c);
      VisitFacts(root, c);
      VisitChildrenDistinct(root, p, i + 1);
      VisitChildrenFrom(root, p, i + 1);
      var a := Visit(root, c);
      forall k | 0 <= k < |a|
        ensures |a[k]| > |p| && a[k][|p|] == i
      {
        UnderChild(p, i, a[k]);
      }
      DistinctAppend(a, VisitChildren(root, p, i + 1), |p|, i);
    }
  }

  /** A path below the child `i` of `p` has `i` at the position of that child. */
  lemma UnderChild(p: Path, i: nat, q: Path)
    requires IsPrefix(p + [i], q)
    ensures |q| > |p| && q[|p|] == i
  {
    assert q[|p|] == q[..|p| + 1][|p|] == (p + [i])[|p|];
  }

  /** Two lists without repeats, told apart by the index at position `n`, join without repeats. */
  lemma DistinctAppend(a: seq<Path>, b: seq<Path>, n: nat, i: nat)
    requires Distinct(a) && Distinct(b)
    requires forall k :: 0 <= k < |a| ==> |a[k]| > n && a[k][n] == i
    requires forall k :: 0 <= k < |b| ==> |b[k]| > n && b[k][n] >= i + 1
    ensures Distinct(a + b)
  {
    var ab := a + b;
    forall j, k | 0 <= j < k < |ab|
      ensures ab[j] != ab[k]
    {
      if k < |a| {
        assert ab[j] == a[j] && ab[k] == a[k];
      } else if j >= |a| {
        assert ab[j] == b[j - |a|] && ab[k] == b[k - |a|];
      } else {
        assert ab[j] == a[j] && ab[k] == b[k - |a|];
      }
    }
  }

  /** What is visited from the child `i` is visited among the subtrees of the children `j` onwards. */
  lemma {:induction false} VisitChildrenContains(root: Node, p: Path, j: nat, i: nat, q: Path)
    requires ValidPath(root, p) && j <= i < |At(root, p).children|
    requires ValidPath(root, p + [i]) && q in Visit(root, p + [i])
    ensures q in VisitChildren(root, p, j)
    decreases i - j
  {
    ChildAt(root, p, j);
    if j < i {
      VisitChildrenContains(root, p, j + 1, i, q);
    }
  }

  /** `traverse` reaches every object of the subtree of `p`. */
  lemma {:induction false} VisitCovers(root: Node, p: Path, q: Path)
    requires ValidPath(root, p) && ValidPath(root, q) && IsPrefix(p, q)
    ensures q in Visit(root, p)
    decreases |q| - |p|
  {
    if q != p {
      assert |q| > |p|;
      var i := q[|p|];
      var c := p + [i];
      assert q[..|p| + 1] == c;
      PrefixValid(root, q, |p| + 1);
      assert Parent(c) == p && Last(c) == i;
      ChildAt(root, p, i);
      assert q[..|c|] == c;
      VisitCovers(root, c, q);
      VisitChildrenContains(root, p, 0, i, q);
    }
  }

  /** From the object at `p`, `traverse` visits exactly the objects of its subtree, each once. */
  lemma VisitEachOnce(root: Node, p: Path)
    requires ValidPath(root, p)
    ensures Distinct(Visit(root, p))
    ensures forall q :: q in Visit(root, p) <==> ValidPath(root, q) && IsPrefix(p, q)
  {
    VisitDistinct(root, p);
    VisitFacts(root, p);
    forall q | ValidPath(root, q) && IsPrefix(p, q)
      ensures q in Visit(root, p)
    {
      VisitCovers(root, p, q);
    }
  }

  /** Every path of `order` names an object of the model. */
  ghost predicate AllValid(root: Node, order: seq<Path>) {
    forall k :: 0 <= k < |order| ==> ValidPath(root, order[k])
  }

  /** A prefix of a valid path is valid: every ancestor exists. */
  lemma {:induction false} PrefixValid(root: Node, p: Path, k: nat)
    requires ValidPath(root, p) && k <= |p|
    ensures ValidPath(root, p[..k])
    decreases |p| - k
  {
    if k < |p| {
      PrefixValid(root, Parent(p), k);
      assert Parent(p)[..k] == p[..k];
    } else {
      assert p[..k] == p;
    }
  }

  /** The meshes among the objects at `order`, in that order (`isMesh`). */
  function MeshPaths(root: Node, order: seq<Path>): (r: seq<Path>)
    requires AllValid(root, order)
    ensures |r| <= |order|
  {
    if order == [] then []
    else
      var last := order[|order| - 1];
      MeshPaths(root, order[..|order| - 1]) + (if At(root, last).isMesh then [last] else [])
  }

  /** Each path `MeshPaths` keeps is one of `order` and names a mesh. */
  lemma {:induction false} MeshPathsFacts(root: Node, order: seq<Path>)
    requires AllValid(root, order)
    ensures forall m :: 0 <= m < |MeshPaths(root, order)| ==>
              MeshPaths(root, order)[m] in order && ValidPath(root, MeshPaths(root, order)[m])
              && At(root, MeshPaths(root, order)[m]).isMesh
  {
    if order != [] {
      var init := order[..|order| - 1];
      MeshPathsFacts(root, init);
      forall m | 0 <= m < |MeshPaths(root, init)| ensures MeshPaths(root, init)[m] in order {
        var q := MeshPaths(root, init)[m];
        var k :| 0 <= k < |init| && init[k] == q;
        assert order[k] == q;
      }
    }
  }

  /** A prefix of a list of valid paths is one too. */
  lemma AllValidPrefix(root: Node, order: seq<Path>, k: nat)
    requires AllValid(root, order) && k <= |order|
    ensures AllValid(root, order[..k])
  {
    forall i | 0 <= i < k ensures ValidPath(root, order[..k][i]) {
      assert order[..k][i] == order[i];
    }
  }

  /** Extending the walked prefix by one path adds that path when it is a mesh. */
  lemma MeshPathsStep(root: Node, order: seq<Path>, k: nat)
    requires AllValid(root, order) && k < |order|
    ensures AllValid(root, order[..k]) && AllValid(root, order[..k + 1])
    ensures MeshPaths(root, order[..k + 1])
         == MeshPaths(root, order[..k]) + (if At(root, order[k]).isMesh then [order[k]] else [])
  {
    AllValidPrefix(root, order, k);
    AllValidPrefix(root, order, k + 1);
    assert order[..k + 1][..k] == order[..k];
  }

  /** There are no meshes among `order` exactly when none of its objects is a mesh. */
  lemma {:induction false} MeshPathsNone(root: Node, order: seq<Path>)
    requires AllValid(root, order)
    ensures MeshPaths(root, order) == [] <==> forall k :: 0 <= k < |order| ==> !At(root, order[k]).isMesh
  {
    if order != [] {
      var init := order[..|order| - 1];
      MeshPathsNone(root, init);
      assert forall k :: 0 <= k < |init| ==> init[k] == order[k];
    }
  }
}
