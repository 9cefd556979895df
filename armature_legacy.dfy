/**
 * The armature of the older revision: bones only, no caches, frames stored
 * as given (not transposed) and offsets stored without the axis correction.
 */
module LegacyArmature {
  import opened Wrappers
  import opened Matrix
  import opened Skeleton

  class Armature {
    var bones: seq<Bone>

    ghost predicate Valid()
      reads this
    {
      ParentsPrecede(bones)
    }

    constructor()
      ensures Valid() && bones == []
    {
      bones := [];
    }

    /** get_nr_bones */
    function NrBones(): nat
      reads this
    {
      |bones|
    }

    /** get_weights_size */
    function WeightsSize(i: nat): nat
      requires i < |bones|
      reads this
    {
      |bones[i].weights|
    }

    /**
     * add_bone: the Bone constructor keeps frame, name and parent exactly as
     * given; the bone is appended and its handle (the old count) returned.
     */
    method AddBone(frame: Mat, name: string, parent: Option<nat>) returns (handle: nat)
      requires Valid()
      requires parent.Some? ==> parent.value < |bones|
      modifies this
      ensures Valid()
      ensures handle == old(NrBones()) && NrBones() == old(NrBones()) + 1
      ensures bones == old(bones) + [Bone(name, parent, Identity, frame, [])]
    {
      bones := bones + [Bone(name, parent, Identity, frame, [])];
      handle := |bones| - 1;
    }

    /** set_offset_matrix stores the matrix unchanged. */
    method SetOffsetMatrix(i: nat, m: Mat)
      requires Valid() && i < |bones|
      modifies this
      ensures Valid()
      ensures bones == old(bones)[i := old(bones)[i].(offset := m)]
    {
      bones := bones[i := bones[i].(offset := m)];
    }

    /** set_weights replaces the weight vector; get_weights_size then reports its length. */
    method SetWeights(i: nat, weights: seq<real>)
      requires Valid() && i < |bones|
      modifies this
      ensures Valid()
      ensures bones == old(bones)[i := old(bones)[i].(weights := weights)]
      ensures WeightsSize(i) == |weights|
    {
      bones := bones[i := bones[i].(weights := weights)];
    }

    /**
     * get_weights_vector: nr_vertices from bone 0, entry i * nr_bones + j is
     * bone j's weight for vertex i.
     */
    method GetWeightsVector() returns (w: seq<real>)
      requires Valid() && UniformWeights(Weights())
      ensures |w| == WeightsSize(0) * NrBones()
      ensures forall k :: 0 <= k < |w| ==> w[k] == TransposedEntry(Weights(), k)
    {
      w := TransposeWeights(Weights());
    }

    function Weights(): (ws: seq<seq<real>>)
      reads this
      ensures |ws| == |bones| && forall j :: 0 <= j < |bones| ==> ws[j] == bones[j].weights
    {
      seq(|bones|, j requires 0 <= j < |bones| reads this => bones[j].weights)
    }

    /** get_bone_path: root-to-bone names joined by " > ". */
    function GetBonePath(i: nat): (path: string)
      requires Valid() && i < |bones|
      reads this
      ensures path == JoinPath(ReversedNames(bones, Ancestors(bones, i)))
    {
      BonePathJoinsRootToLeaf(bones, i);
      BonePath(bones, i)
    }
  }
}
