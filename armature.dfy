/**
 * The armature of the current revision: an append-only arena of bones with
 * two parallel per-bone caches (the skinning matrices handed to the shader
 * and the per-bone pose overrides), the derivation of frame matrices from
 * offset matrices and the composition of each bone's skinning matrix along
 * its ancestor chain.
 */
module CoreArmature {
  import opened Wrappers
  import opened Matrix
  import opened IsanaMath
  import opened Skeleton

  /** Blender is z-up, the viewer y-up: a quarter turn about x, negative direction. */
  function AxisCorrection(): Mat
  {
    RotateX(-Pi / 2.0)
  }

  class Armature {
    var bones: seq<Bone>
    var idx: seq<nat>                      // the index each bone was told it has
    var glslMatrices: seq<Mat>
    var boneTransformations: seq<Mat>

    ghost predicate Valid()
      reads this
    {
      |idx| == |bones| && |glslMatrices| == |bones| && |boneTransformations| == |bones|
      && ParentsPrecede(bones)
      && (forall i :: 0 <= i < |idx| ==> idx[i] == i)
    }

    constructor()
      ensures Valid() && bones == [] && glslMatrices == [] && boneTransformations == []
    {
      bones := [];
      idx := [];
      glslMatrices := [];
      boneTransformations := [];
    }

    /**
     * add_bone: appends one bone (its frame stored transposed, offset not yet
     * set, no weights) and one identity matrix to each cache; the new bone is
     * told its index, the old bone count, and that index is returned.
     */
    method AddBone(frame: Mat, name: string, parent: Option<nat>) returns (handle: nat)
      requires Valid()
      requires parent.Some? ==> parent.value < |bones|
      modifies this
      ensures Valid()
      ensures handle == |old(bones)|
      ensures bones == old(bones) + [Bone(name, parent, Identity, Transpose(frame), [])]
      ensures glslMatrices == old(glslMatrices) + [Identity]
      ensures boneTransformations == old(boneTransformations) + [Identity]
    {
      bones := bones + [Bone(name, parent, Identity, Transpose(frame), [])];
      glslMatrices := glslMatrices + [Identity];
      boneTransformations := boneTransformations + [Identity];
      idx := idx + [|bones| - 1];
      handle := |bones| - 1;
    }

    /** Bone::set_offset_matrix: the matrix is axis-corrected and stored transposed. */
    method SetOffsetMatrix(i: nat, m: Mat)
      requires Valid() && i < |bones|
      modifies this
      ensures Valid()
      ensures bones == old(bones)[i := old(bones)[i].(offset := Transpose(Mul(Inverse(AxisCorrection()), m)))]
      ensures idx == old(idx) && glslMatrices == old(glslMatrices)
      ensures boneTransformations == old(boneTransformations)
    {
      bones := bones[i := bones[i].(offset := Transpose(Mul(Inverse(AxisCorrection()), m)))];
    }

    /** Bone::set_weights: replaces the bone's weight vector. */
    method SetWeights(i: nat, weights: seq<real>)
      requires Valid() && i < |bones|
      modifies this
      ensures Valid()
      ensures bones == old(bones)[i := old(bones)[i].(weights := weights)]
      ensures idx == old(idx) && glslMatrices == old(glslMatrices)
      ensures boneTransformations == old(boneTransformations)
    {
      bones := bones[i := bones[i].(weights := weights)];
    }

    /** set_bone_transformation: overrides the pose of one bone. */
    method SetBoneTransformation(i: nat, m: Mat)
      requires Valid() && i < |bones|
      modifies this
      ensures Valid()
      ensures boneTransformations == old(boneTransformations)[i := m]
      ensures bones == old(bones) && idx == old(idx) && glslMatrices == old(glslMatrices)
    {
      boneTransformations := boneTransformations[i := m];
    }

    /**
     * find_bone_by_name: the first bone carrying the name; when none does the
     * program reports the broken mesh file and quits, here a None.
     */
    method FindBoneByName(name: string) returns (r: Option<nat>)
      requires Valid()
      ensures r.Some? ==> r.value < |bones| && bones[r.value].name == name
                          && forall k :: 0 <= k < r.value ==> bones[k].name != name
      ensures r.None? ==> forall k :: 0 <= k < |bones| ==> bones[k].name != name
    {
      var i := 0;
      while i < |bones|
        invariant 0 <= i <= |bones|
        invariant forall k :: 0 <= k < i ==> bones[k].name != name
      {
        if bones[i].name == name {
          return Some(i);
        }
        i := i + 1;
      }
      return None;
    }

    /** build_frame_matrices: bone space -> parent's bone space. */
    method BuildFrameMatrices()
      requires Valid()
      modifies this
      ensures Valid()
      ensures |bones| == |old(bones)|
      ensures forall i :: 0 <= i < |bones| ==>
                bones[i] == old(bones)[i].(frame := FrameFromOffsets(old(bones), i))
      ensures idx == old(idx) && glslMatrices == old(glslMatrices)
      ensures boneTransformations == old(boneTransformations)
    {
      var i := 0;
      while i < |bones|
        invariant 0 <= i <= |bones| == |old(bones)|
        invariant forall k :: 0 <= k < |bones| ==> bones[k].offset == old(bones)[k].offset
        invariant forall k :: 0 <= k < |bones| ==> bones[k].parent == old(bones)[k].parent
        invariant forall k :: 0 <= k < i ==> bones[k] == old(bones)[k].(frame := FrameFromOffsets(old(bones), k))
        invariant forall k :: i <= k < |bones| ==> bones[k] == old(bones)[k]
        invariant Valid()
        invariant idx == old(idx) && glslMatrices == old(glslMatrices)
        invariant boneTransformations == old(boneTransformations)
      {
        var offsetInv := Inverse(bones[i].offset);
        var f := match bones[i].parent
          case Some(p) => Mul(offsetInv, bones[p].offset)
          case None => offsetInv;
        bones := bones[i := bones[i].(frame := f)];
        i := i + 1;
      }
    }

    /**
     * build_glsl_matrices: for each bone, m starts as its offset and, walking
     * from the bone up to the root, is right-multiplied by that ancestor's
     * pose override and then its frame. Only the glsl matrices change.
     */
    method BuildGlslMatrices()
      requires Valid()
      modifies this
      ensures Valid()
      ensures |glslMatrices| == |bones|
      ensures forall i :: 0 <= i < |bones| ==> glslMatrices[i] == SkinningMatrix(bones, boneTransformations, i)
      ensures bones == old(bones) && idx == old(idx)
      ensures boneTransformations == old(boneTransformations)
    {
      var i := 0;
      while i < |bones|
        invariant 0 <= i <= |bones|
        invariant Valid()
        invariant forall k :: 0 <= k < i ==> glslMatrices[k] == SkinningMatrix(bones, boneTransformations, k)
        invariant bones == old(bones) && idx == old(idx)
        invariant boneTransformations == old(boneTransformations)
      {
        var m := bones[i].offset;
        var b: Option<nat> := Some(i);
        while b.Some?
          invariant b.Some? ==> b.value < |bones|
          invariant b.Some? ==> SkinningMatrix(bones, boneTransformations, i)
                                == ComposeChain(bones, boneTransformations, m, Ancestors(bones, b.value))
          invariant b.None? ==> SkinningMatrix(bones, boneTransformations, i) == m
          decreases if b.Some? then b.value + 1 else 0
        {
          var c := b.value;
          m := Mul(Mul(m, boneTransformations[idx[c]]), bones[c].frame);
          b := bones[c].parent;
          assert Ancestors(bones, c)[1..] == if b.Some? then Ancestors(bones, b.value) else [];
        }
        glslMatrices := glslMatrices[i := m];
        i := i + 1;
      }
    }

    /**
     * get_weights_vector over the arena's bones: entry i * nr_bones + j is the
     * weight of bone j for vertex i (Skeleton.TransposeAt reads it back).
     */
    method GetWeightsVector() returns (w: seq<real>)
      requires Valid() && UniformWeights(WeightsOf(bones))
      ensures |w| == |bones[0].weights| * |bones|
      ensures forall k :: 0 <= k < |w| ==> w[k] == TransposedEntry(WeightsOf(bones), k)
    {
      w := TransposeWeights(WeightsOf(bones));
    }

    /** get_bone_path for the bone with the given handle. */
    function GetBonePath(i: nat): (path: string)
      requires Valid() && i < |bones|
      reads this
      ensures path == JoinPath(ReversedNames(bones, Ancestors(bones, i)))
    {
      BonePathJoinsRootToLeaf(bones, i);
      BonePath(bones, i)
    }
  }

  /** The frame a bone receives from build_frame_matrices, given the offsets. */
  function FrameFromOffsets(bones: seq<Bone>, i: nat): Mat
    requires ParentsPrecede(bones) && i < |bones|
  {
    match bones[i].parent
    case Some(p) => Mul(Inverse(bones[i].offset), bones[p].offset)
    case None => Inverse(bones[i].offset)
  }

  /** The weight vectors of the bones, in handle order. */
  function WeightsOf(bones: seq<Bone>): (ws: seq<seq<real>>)
    ensures |ws| == |bones| && forall j :: 0 <= j < |bones| ==> ws[j] == bones[j].weights
  {
    seq(|bones|, j requires 0 <= j < |bones| => bones[j].weights)
  }
}
