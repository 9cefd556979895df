/**
 * What both revisions of the armature share: bones kept in an append-only
 * arena and addressed by index (a bone's parent is the index of an earlier
 * bone, or none for a root), the walk from a bone up to its root, the
 * " > "-joined bone path and the vertex-major transpose of per-bone weights.
 */
module Skeleton {
  import opened Wrappers
  import opened Matrix
  import opened IsanaMath

  datatype Bone = Bone(
    name: string,
    parent: Option<nat>,   // index of the parent bone; None for a root
    offset: Mat,           // model space -> bone space
    frame: Mat,            // bone space -> parent's bone space
    weights: seq<real>)    // one weight per mesh vertex

  /** Every parent was added before its child, so parent links only point back. */
  predicate ParentsPrecede(bones: seq<Bone>)
  {
    forall i :: 0 <= i < |bones| && bones[i].parent.Some? ==> bones[i].parent.value < i
  }

  /**
   * The bones visited by `while(b) { ...; b = b->get_parent(); }` starting at
   * bone i: i itself first, then its parent, and so on up to the root.
   */
  function Ancestors(bones: seq<Bone>, i: nat): (chain: seq<nat>)
    requires ParentsPrecede(bones) && i < |bones|
    ensures |chain| >= 1 && chain[0] == i
    ensures forall k :: 0 <= k < |chain| ==> chain[k] <= i
    ensures bones[chain[|chain| - 1]].parent.None?
    decreases i
  {
    match bones[i].parent
    case None => [i]
    case Some(p) => [i] + Ancestors(bones, p)
  }

  /** Each step of the ancestor walk goes from a bone to its parent. */
  lemma {:induction false} AncestorsFollowParents(bones: seq<Bone>, i: nat, k: nat)
    requires ParentsPrecede(bones) && i < |bones|
    requires k + 1 < |Ancestors(bones, i)|
    ensures bones[Ancestors(bones, i)[k]].parent == Some(Ancestors(bones, i)[k + 1])
    decreases i
  {
    match bones[i].parent
    case None =>
    case Some(p) =>
      if k > 0 {
        AncestorsFollowParents(bones, p, k - 1);
      }
  }

  /** The walk visits strictly decreasing indices, so it ends after at most i + 1 bones. */
  lemma {:induction false} AncestorsDecrease(bones: seq<Bone>, i: nat)
    requires ParentsPrecede(bones) && i < |bones|
    ensures forall k :: 0 < k < |Ancestors(bones, i)| ==> Ancestors(bones, i)[k] < Ancestors(bones, i)[k - 1]
    ensures |Ancestors(bones, i)| <= i + 1
    decreases i
  {
    match bones[i].parent
    case None =>
    case Some(p) =>
      AncestorsDecrease(bones, p);
  }

  /** Number of ancestors strictly above bone i. */
  function Depth(bones: seq<Bone>, i: nat): nat
    requires ParentsPrecede(bones) && i < |bones|
  {
    |Ancestors(bones, i)| - 1
  }

  /** Sum of the name lengths of the bones in a chain. */
  function NamesLength(bones: seq<Bone>, chain: seq<nat>): nat
    requires forall k :: 0 <= k < |chain| ==> chain[k] < |bones|
  {
    if chain == [] then 0 else |bones[chain[0]].name| + NamesLength(bones, chain[1..])
  }

  const Separator: string := " > "

  /**
   * get_bone_path: a root's path is its name, any other bone's path is its
   * parent's path, " > ", then its own name. The path therefore ends with the
   * bone's name and holds one separator per ancestor.
   */
  function BonePath(bones: seq<Bone>, i: nat): (path: string)
    requires ParentsPrecede(bones) && i < |bones|
    ensures |path| >= |bones[i].name|
    ensures path[|path| - |bones[i].name|..] == bones[i].name
    ensures |path| == NamesLength(bones, Ancestors(bones, i)) + |Separator| * Depth(bones, i)
    decreases i
  {
    match bones[i].parent
    case None => bones[i].name
    case Some(p) => BonePath(bones, p) + Separator + bones[i].name
  }

  /** Names along a chain, in reverse order (a leaf-first chain gives root-first names). */
  function ReversedNames(bones: seq<Bone>, chain: seq<nat>): (names: seq<string>)
    requires forall k :: 0 <= k < |chain| ==> chain[k] < |bones|
    ensures |names| == |chain|
  {
    if chain == [] then [] else ReversedNames(bones, chain[1..]) + [bones[chain[0]].name]
  }

  /** names[0] + " > " + names[1] + ... + " > " + names[n-1]. */
  function JoinPath(names: seq<string>): string
    requires |names| >= 1
  {
    if |names| == 1 then names[0] else JoinPath(names[..|names| - 1]) + Separator + names[|names| - 1]
  }

  /** A bone's path joins the names from the root down to the bone itself. */
  lemma {:induction false} BonePathJoinsRootToLeaf(bones: seq<Bone>, i: nat)
    requires ParentsPrecede(bones) && i < |bones|
    ensures BonePath(bones, i) == JoinPath(ReversedNames(bones, Ancestors(bones, i)))
    decreases i
  {
    match bones[i].parent
    case None =>
      assert Ancestors(bones, i) == [i];
      assert ReversedNames(bones, [i]) == ReversedNames(bones, []) + [bones[i].name];
    case Some(p) =>
      BonePathJoinsRootToLeaf(bones, p);
      var chain := Ancestors(bones, i);
      assert chain[1..] == Ancestors(bones, p);
      var names := ReversedNames(bones, chain);
      assert names == ReversedNames(bones, Ancestors(bones, p)) + [bones[i].name];
      assert names[..|names| - 1] == ReversedNames(bones, Ancestors(bones, p));
  }

  /**
   * The skinning matrix composed along a chain: starting from m, for each
   * bone b of the chain in order, m := m * T[b] * frame(b).
   */
  function ComposeChain(bones: seq<Bone>, transformations: seq<Mat>, m: Mat, chain: seq<nat>): Mat
    requires forall k :: 0 <= k < |chain| ==> chain[k] < |bones| && chain[k] < |transformations|
    decreases |chain|
  {
    if chain == [] then m
    else ComposeChain(bones, transformations,
                      Mul(Mul(m, transformations[chain[0]]), bones[chain[0]].frame), chain[1..])
  }

  /** glsl_i = offset_i * T[b0] * F[b0] * T[b1] * F[b1] * ... with b0 = i, b(k+1) = parent(bk). */
  function SkinningMatrix(bones: seq<Bone>, transformations: seq<Mat>, i: nat): Mat
    requires ParentsPrecede(bones) && i < |bones| && |transformations| == |bones|
  {
    ComposeChain(bones, transformations, bones[i].offset, Ancestors(bones, i))
  }

  /**
   * A two-bone chain (a root and its child) with identity pose overrides:
   * the child's matrix is offset * I * frame(child) * I * frame(root), in that order.
   */
  lemma TwoBoneComposition(bones: seq<Bone>)
    requires |bones| == 2 && bones[0].parent.None? && bones[1].parent == Some(0)
    ensures ParentsPrecede(bones)
    ensures SkinningMatrix(bones, [Identity, Identity], 1)
         == Mul(Mul(Mul(Mul(bones[1].offset, Identity), bones[1].frame), Identity), bones[0].frame)
  {
    var t := [Identity, Identity];
    assert Ancestors(bones, 0) == [0];
    assert Ancestors(bones, 1) == [1, 0];
    var m1 := Mul(Mul(bones[1].offset, Identity), bones[1].frame);
    assert ComposeChain(bones, t, bones[1].offset, [1, 0]) == ComposeChain(bones, t, m1, [0]) by {
      assert [1, 0][1..] == [0];
    }
    assert ComposeChain(bones, t, m1, [0]) == ComposeChain(bones, t, Mul(Mul(m1, Identity), bones[0].frame), []) by {
      assert [0][1..] == [];
    }
  }

  /** The weight of bone j for vertex i in a vertex-major buffer of nb bones per vertex. */
  function WeightAt(w: seq<real>, nb: nat, i: nat, j: nat): real
    requires i * nb + j < |w|
  {
    w[i * nb + j]
  }

  /** Bones all carry at least as many weights as the first one. */
  predicate UniformWeights(weights: seq<seq<real>>)
  {
    |weights| > 0 && forall j :: 0 <= j < |weights| ==> |weights[j]| >= |weights[0]|
  }

  /**
   * Entry k of the vertex-major buffer built from per-bone weights: vertex
   * k / nr_bones, bone k % nr_bones.
   */
  function TransposedEntry(weights: seq<seq<real>>, k: nat): real
    requires UniformWeights(weights) && k < |weights[0]| * |weights|
  {
    DivBelow(k, |weights[0]|, |weights|);
    weights[k % |weights|][k / |weights|]
  }

  /**
   * get_weights_vector: nr_vertices is taken from the first bone, the result
   * has nr_bones * nr_vertices entries, and entry i * nr_bones + j is the
   * weight of bone j for vertex i. Every bone must hold at least as many
   * weights as the first one (it is read at each of those vertices).
   */
  method TransposeWeights(weights: seq<seq<real>>) returns (w: seq<real>)
    requires UniformWeights(weights)
    ensures |w| == |weights[0]| * |weights|
    ensures forall k :: 0 <= k < |w| ==> w[k] == TransposedEntry(weights, k)
  {
    var nb := |weights|;
    var nv := |weights[0]|;
    var a := new real[nv * nb](_ => 0.0);
    var i := 0;
    while i < nv
      invariant 0 <= i <= nv && a.Length == nv * nb
      invariant forall k :: 0 <= k < i * nb && k < a.Length ==> a[k] == TransposedEntry(weights, k)
    {
      var j := 0;
      while j < nb
        invariant 0 <= j <= nb
        invariant forall k :: 0 <= k < i * nb + j && k < a.Length ==> a[k] == TransposedEntry(weights, k)
      {
        RowMajorIndex(i, j, nv, nb);
        a[i * nb + j] := weights[j][i];
        j := j + 1;
      }
      assert i * nb + nb == (i + 1) * nb;
      i := i + 1;
    }
    w := a[..];
  }

  /** Reading the transposed buffer back: vertex i, bone j gives bone j's weight for i. */
  lemma TransposeAt(weights: seq<seq<real>>, i: nat, j: nat)
    requires UniformWeights(weights) && i < |weights[0]| && j < |weights|
    ensures i * |weights| + j < |weights[0]| * |weights|
    ensures TransposedEntry(weights, i * |weights| + j) == weights[j][i]
  {
    RowMajorIndex(i, j, |weights[0]|, |weights|);
  }
}
