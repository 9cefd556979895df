/**
 * Objects and their shader uniforms (src/core/object.cpp). An object owns a
 * list of properties, one per uniform of its shader; each property holds
 * `size` values of a uniform type whose element count is `base_size`.
 *
 * The mesh is represented by its type flags and its armature's bone count;
 * the shader by what `load` registers with it, which `Load` returns.
 * Matrices computed with glm arrive as flattened value sequences.
 */
module Objects {
  import opened IsanaMath

  /** The uniform types of the shader; any other code is `Other`. */
  datatype UniformType =
    | Mat4 | Vec4 | Vec3 | Vec2 | Texture | UInt | Float | FrameMatrix | OffsetMatrix
    | Other(code: nat)

  /** Number of scalars in one element of a uniform type. */
  function BaseSize(t: UniformType): (n: nat)
    ensures n == 16 <==> t == Mat4 || t == FrameMatrix || t == OffsetMatrix
    ensures n == 4 <==> t == Vec4
    ensures n == 3 <==> t == Vec3
    ensures n == 2 <==> t == Vec2
    ensures n == 1 <==> t == Texture || t == UInt || t == Float || t.Other?
    ensures 1 <= n <= 16
  {
    match t
    case Mat4 => 16
    case Vec4 => 4
    case Vec3 => 3
    case Vec2 => 2
    case Texture => 1
    case UInt => 1
    case Float => 1
    case FrameMatrix => 16
    case OffsetMatrix => 16
    case Other(_) => 1
  }

  /** What the shader is told about one uniform. */
  datatype Uniform = Uniform(uniformType: UniformType, name: string, size: nat)

  /** The mesh type bits (src/core/mesh.h). */
  const MeshPositions: bv32 := 1
  const MeshNormals: bv32 := 2
  const MeshColors: bv32 := 4
  const MeshTextureCoordinates: bv32 := 8
  const MeshArmature: bv32 := 16

  predicate HasFlag(meshType: bv32, flag: bv32)
  {
    meshType & flag != 0
  }

  /**
   * One uniform's values. The object's vector holds properties by value,
   * so a property is a value here and `set_value` yields the updated one.
   */
  datatype ObjectProperty = ObjectProperty(
    name: string, uniformType: UniformType, size: nat, baseSize: nat, val: seq<real>)
  {
    predicate Valid()
    {
      baseSize == BaseSize(uniformType) && |val| == size * baseSize
    }

    function Decl(): Uniform
    {
      Uniform(uniformType, name, size)
    }
  }

  /** n zero values, as `resize` fills them. */
  function Zeros(n: nat): (r: seq<real>)
    ensures |r| == n
    ensures forall k :: 0 <= k < n ==> r[k] == 0.0
  {
    seq(n, _ => 0.0)
  }

  /** The constructor: `size` elements of `uniformType`, all values zero. */
  function NewProperty(name: string, uniformType: UniformType, size: nat): (p: ObjectProperty)
    ensures p.Valid()
    ensures p.Decl() == Uniform(uniformType, name, size)
    ensures forall k :: 0 <= k < |p.val| ==> p.val[k] == 0.0
  {
    ObjectProperty(name, uniformType, size, BaseSize(uniformType), Zeros(size * BaseSize(uniformType)))
  }

  /** set_value: copy the first size*base_size values of `source`, in order. */
  method SetValue(p: ObjectProperty, source: seq<real>) returns (q: ObjectProperty)
    requires p.Valid()
    requires |source| >= p.size * p.baseSize
    ensures q.Valid() && q.Decl() == p.Decl()
    ensures q == p.(val := source[..p.size * p.baseSize])
  {
    var n := p.size * p.baseSize;
    var val := p.val;
    var i := 0;
    while i < n
      invariant 0 <= i <= n == |val|
      invariant val[..i] == source[..i]
    {
      val := val[i := source[i]];
      i := i + 1;
    }
    q := p.(val := val);
  }

  /**
   * The uniforms the constructor creates: the four matrices and colour
   * that `draw` writes by index, then "tex" for textured meshes, then the
   * armature's matrices for rigged ones.
   */
  function Layout(meshType: bv32, nrBones: nat): seq<Uniform>
  {
    BaseLayout + TexLayout(meshType) + RigLayout(meshType, nrBones)
  }

  /** The four uniforms every object has. */
  const BaseLayout: seq<Uniform> :=
    [Uniform(Mat4, "model", 1), Uniform(Mat4, "view", 1),
     Uniform(Mat4, "mvp", 1), Uniform(Vec4, "ambient_light", 1)]

  function TexLayout(meshType: bv32): seq<Uniform>
  {
    if HasFlag(meshType, MeshTextureCoordinates) then [Uniform(Texture, "tex", 1)] else []
  }

  function RigLayout(meshType: bv32, nrBones: nat): seq<Uniform>
  {
    if HasFlag(meshType, MeshArmature) then [Uniform(Mat4, "armature", nrBones)] else []
  }

  /** Index of the armature property in the layout of a rigged mesh. */
  function RigIndex(meshType: bv32): nat
  {
    if HasFlag(meshType, MeshTextureCoordinates) then 5 else 4
  }

  /**
   * The layout holds 4, 5 or 6 uniforms; "tex" exactly when the mesh has
   * texture coordinates; and for a rigged mesh the armature, of the bone
   * count's size, sits last at RigIndex.
   */
  lemma LayoutShape(meshType: bv32, nrBones: nat)
    ensures var l := Layout(meshType, nrBones);
      4 <= |l| <= 6 &&
      l[0].name == "model" && l[1].name == "view" && l[2].name == "mvp" && l[3].name == "ambient_light" &&
      (HasFlag(meshType, MeshTextureCoordinates) <==> exists i :: 0 <= i < |l| && l[i] == Uniform(Texture, "tex", 1)) &&
      (HasFlag(meshType, MeshArmature) ==>
         RigIndex(meshType) == |l| - 1 && l[RigIndex(meshType)] == Uniform(Mat4, "armature", nrBones))
  {
    var l := Layout(meshType, nrBones);
    if HasFlag(meshType, MeshTextureCoordinates) {
      assert l[4] == Uniform(Texture, "tex", 1);
    } else {
      assert forall i :: 0 <= i < |l| ==> l[i].name != "tex";
    }
  }

  /** The vertex attributes a shader can take, with their GLSL names. */
  datatype AttributeKind = Position | Normal | Color | TextureCoordinate | Weight
  datatype Attribute = Attribute(kind: AttributeKind, name: string)

  /** The mesh bit that enables each attribute. */
  function FlagOf(k: AttributeKind): bv32
  {
    match k
    case Position => MeshPositions
    case Normal => MeshNormals
    case Color => MeshColors
    case TextureCoordinate => MeshTextureCoordinates
    case Weight => MeshArmature
  }

  /** The fixed order in which `load` considers the attributes. */
  function Rank(k: AttributeKind): (n: nat)
    ensures n < 5
  {
    match k
    case Position => 0
    case Normal => 1
    case Color => 2
    case TextureCoordinate => 3
    case Weight => 4
  }

  /** The kind `load` considers in place r of its fixed order. */
  function KindOfRank(r: nat): (k: AttributeKind)
    requires r < 5
    ensures Rank(k) == r
  {
    [Position, Normal, Color, TextureCoordinate, Weight][r]
  }

  /** The GLSL name under which each attribute is registered. */
  function NameOf(k: AttributeKind): string
  {
    match k
    case Position => "position"
    case Normal => "normal"
    case Color => "color"
    case TextureCoordinate => "texture_coordinate"
    case Weight => "weights"
  }

  /** What `load` adds for one attribute kind: the attribute if its bit is set. */
  function Entry(meshType: bv32, k: AttributeKind): seq<Attribute>
  {
    if HasFlag(meshType, FlagOf(k)) then [Attribute(k, NameOf(k))] else []
  }

  /** The attributes `load` has added after considering the first r kinds. */
  function AttributesUpTo(meshType: bv32, r: nat): seq<Attribute>
    requires r <= 5
  {
    if r == 0 then [] else AttributesUpTo(meshType, r - 1) + Entry(meshType, KindOfRank(r - 1))
  }

  /** Distinct kinds have distinct places in the order. */
  lemma RankInjective(k: AttributeKind, k': AttributeKind)
    ensures Rank(k) == Rank(k') <==> k == k'
  {
  }

  /** The attributes `load` registers for a mesh type. */
  function AttributesFor(meshType: bv32): seq<Attribute>
  {
    AttributesUpTo(meshType, 5)
  }

  /** After the first r kinds, every attribute is among them and carries its own name. */
  lemma {:induction false} AttributesNamed(meshType: bv32, r: nat)
    requires r <= 5
    ensures forall i :: 0 <= i < |AttributesUpTo(meshType, r)| ==>
      Rank(AttributesUpTo(meshType, r)[i].kind) < r &&
      AttributesUpTo(meshType, r)[i].name == NameOf(AttributesUpTo(meshType, r)[i].kind)
  {
    if r > 0 {
      AttributesNamed(meshType, r - 1);
      var prev := AttributesUpTo(meshType, r - 1);
      var a := AttributesUpTo(meshType, r);
      assert a == prev + Entry(meshType, KindOfRank(r - 1));
      forall i | 0 <= i < |a|
        ensures Rank(a[i].kind) < r && a[i].name == NameOf(a[i].kind)
      {
        if i < |prev| {
          assert a[i] == prev[i];
        }
      }
    }
  }

  /** After the first r kinds, the attributes are in strictly increasing fixed order. */
  lemma {:induction false} AttributesSorted(meshType: bv32, r: nat)
    requires r <= 5
    ensures forall i, j :: 0 <= i < j < |AttributesUpTo(meshType, r)| ==>
      Rank(AttributesUpTo(meshType, r)[i].kind) < Rank(AttributesUpTo(meshType, r)[j].kind)
  {
    if r > 0 {
      AttributesSorted(meshType, r - 1);
      AttributesNamed(meshType, r - 1);
      var prev := AttributesUpTo(meshType, r - 1);
      var k := KindOfRank(r - 1);
      var a := AttributesUpTo(meshType, r);
      assert a == prev + Entry(meshType, k);
      forall i, j | 0 <= i < j < |a|
        ensures Rank(a[i].kind) < Rank(a[j].kind)
      {
        assert a[i] == prev[i];
        if j < |prev| {
          assert a[j] == prev[j];
        }
      }
    }
  }

  /** Some attribute in a is of kind k. */
  predicate Has(a: seq<Attribute>, k: AttributeKind)
  {
    exists i :: 0 <= i < |a| && a[i].kind == k
  }

  lemma HasAppend(a: seq<Attribute>, b: seq<Attribute>, k: AttributeKind)
    ensures Has(a + b, k) <==> Has(a, k) || Has(b, k)
  {
    if Has(a + b, k) {
      var i :| 0 <= i < |a + b| && (a + b)[i].kind == k;
      if i >= |a| {
        assert b[i - |a|].kind == k;
      }
    }
    if Has(a, k) {
      var i :| 0 <= i < |a| && a[i].kind == k;
      assert (a + b)[i].kind == k;
    }
    if Has(b, k) {
      var i :| 0 <= i < |b| && b[i].kind == k;
      assert (a + b)[|a| + i].kind == k;
    }
  }

  /** After the first r kinds, k is present exactly when it is among them and its bit is set. */
  lemma {:induction false} AttributesPresence(meshType: bv32, r: nat, k: AttributeKind)
    requires r <= 5
    ensures Has(AttributesUpTo(meshType, r), k) <==> Rank(k) < r && HasFlag(meshType, FlagOf(k))
  {
    if r > 0 {
      AttributesPresence(meshType, r - 1, k);
      var k0 := KindOfRank(r - 1);
      HasAppend(AttributesUpTo(meshType, r - 1), Entry(meshType, k0), k);
      HasEntry(meshType, k0, k);
      RankInjective(k, k0);
      assert Rank(k) < r <==> Rank(k) < r - 1 || k == k0;
    }
  }

  lemma HasEntry(meshType: bv32, k0: AttributeKind, k: AttributeKind)
    ensures Has(Entry(meshType, k0), k) <==> k == k0 && HasFlag(meshType, FlagOf(k0))
  {
    if HasFlag(meshType, FlagOf(k0)) {
      assert Entry(meshType, k0)[0].kind == k0;
    }
  }

  /**
   * `load` registers one attribute per set mesh bit, none for a clear bit,
   * each under its GLSL name, in the fixed order position, normal, color,
   * texture_coordinate, weights.
   */
  lemma AttributesOrder(meshType: bv32)
    ensures var a := AttributesFor(meshType);
      (forall k: AttributeKind :: Has(a, k) <==> HasFlag(meshType, FlagOf(k))) &&
      (forall i :: 0 <= i < |a| ==> a[i].name == NameOf(a[i].kind)) &&
      (forall i, j :: 0 <= i < j < |a| ==> Rank(a[i].kind) < Rank(a[j].kind))
  {
    AttributesNamed(meshType, 5);
    AttributesSorted(meshType, 5);
    forall k: AttributeKind
      ensures Has(AttributesFor(meshType), k) <==> HasFlag(meshType, FlagOf(k))
    {
      AttributesPresence(meshType, 5, k);
    }
  }

  /** The uniform declarations of a list of properties, in order. */
  function DeclsOf(ps: seq<ObjectProperty>): (r: seq<Uniform>)
    ensures |r| == |ps|
    ensures forall i :: 0 <= i < |ps| ==> r[i] == ps[i].Decl()
  {
    if ps == [] then [] else DeclsOf(ps[..|ps| - 1]) + [ps[|ps| - 1].Decl()]
  }

  /** The properties add_property creates for a list of declarations. */
  function Instantiate(l: seq<Uniform>): (ps: seq<ObjectProperty>)
    ensures |ps| == |l|
    ensures forall i :: 0 <= i < |l| ==> ps[i] == NewProperty(l[i].name, l[i].uniformType, l[i].size)
  {
    if l == [] then [] else
    var u := l[|l| - 1];
    Instantiate(l[..|l| - 1]) + [NewProperty(u.name, u.uniformType, u.size)]
  }

  /** Freshly added properties are well-formed, zeroed and declare l. */
  lemma InstantiateFacts(l: seq<Uniform>)
    ensures var ps := Instantiate(l);
      DeclsOf(ps) == l &&
      (forall i :: 0 <= i < |ps| ==> ps[i].Valid()) &&
      (forall i, k :: 0 <= i < |ps| && 0 <= k < |ps[i].val| ==> ps[i].val[k] == 0.0)
  {
    var ps := Instantiate(l);
    assert forall i :: 0 <= i < |l| ==> DeclsOf(ps)[i] == l[i];
  }

  /** The shape `Object::Valid` requires of an object's properties. */
  ghost predicate LaidOut(ps: seq<ObjectProperty>, meshType: bv32, nrBones: nat, isRigged: bool, rigIdx: nat)
  {
    (forall i :: 0 <= i < |ps| ==> ps[i].Valid()) &&
    |ps| >= 4 &&
    ps[0].Decl() == Uniform(Mat4, "model", 1) &&
    ps[1].Decl() == Uniform(Mat4, "view", 1) &&
    ps[2].Decl() == Uniform(Mat4, "mvp", 1) &&
    ps[3].Decl() == Uniform(Vec4, "ambient_light", 1) &&
    rigIdx < |ps| &&
    (isRigged <==> HasFlag(meshType, MeshArmature)) &&
    (isRigged ==> ps[rigIdx].Decl() == Uniform(Mat4, "armature", nrBones))
  }

  /** The properties the constructor adds are laid out as `draw` and `update` expect. */
  lemma LayoutLaidOut(meshType: bv32, nrBones: nat)
    ensures var rigged := HasFlag(meshType, MeshArmature);
      LaidOut(Instantiate(Layout(meshType, nrBones)), meshType, nrBones, rigged, if rigged then RigIndex(meshType) else 0)
  {
    var l := Layout(meshType, nrBones);
    InstantiateFacts(l);
    LayoutShape(meshType, nrBones);
  }

  /**
   * The armature animation angle after a step of dt: it is advanced and
   * wrapped once by 2*pi when it passes 2*pi.
   */
  function AdvanceAngle(angle: real, dt: real): (r: real)
    ensures 0.0 <= angle <= 2.0 * Pi && 0.0 <= dt <= 2.0 * Pi ==> 0.0 <= r <= 2.0 * Pi
    ensures r == angle + dt || r == angle + dt - 2.0 * Pi
  {
    var a := angle + dt;
    if a > 2.0 * Pi then a - 2.0 * Pi else a
  }

  class Object {
    /** The bits of the mesh's type. */
    const meshType: bv32
    /** The bone count of the mesh's armature (used when rigged). */
    const nrBones: nat

    var properties: seq<ObjectProperty>
    var angle: real
    var isRigged: bool
    var rigIdx: nat

    /** Every value of every property is zero. */
    ghost predicate Zeroed()
      reads this
    {
      forall i, k :: 0 <= i < |properties| && 0 <= k < |properties[i].val| ==> properties[i].val[k] == 0.0
    }

    /**
     * Well-formed properties; the first four are what `draw` writes by
     * index, and the armature property is where `update` writes the bone
     * matrices.
     */
    ghost predicate Valid()
      reads this
    {
      LaidOut(properties, meshType, nrBones, isRigged, rigIdx)
    }

    constructor(meshType: bv32, nrBones: nat)
      ensures Valid()
      ensures DeclsOf(properties) == Layout(meshType, nrBones)
      ensures Zeroed()
      ensures isRigged ==> rigIdx == RigIndex(meshType)
      ensures !isRigged ==> rigIdx == 0
      ensures angle == 0.0
    {
      this.meshType := meshType;
      this.nrBones := nrBones;
      properties := [];
      isRigged := false;
      angle := 0.0;
      rigIdx := 0;
      new;
      AddBaseProperties();
      ghost var added := BaseLayout;
      var idx;
      if HasFlag(meshType, MeshTextureCoordinates) {
        idx := AddProperty("tex", Texture, 1);
        added := Added(added, Uniform(Texture, "tex", 1));
      }
      if HasFlag(meshType, MeshArmature) {
        isRigged := true;
        rigIdx := AddProperty("armature", Mat4, nrBones);
        added := Added(added, Uniform(Mat4, "armature", nrBones));
      }
      assert added == Layout(meshType, nrBones);
      InstantiateFacts(added);
      LayoutLaidOut(meshType, nrBones);
    }

    /** The first four add_property calls of the constructor. */
    method AddBaseProperties()
      requires properties == []
      modifies this
      ensures properties == Instantiate(BaseLayout)
      ensures angle == old(angle) && isRigged == old(isRigged) && rigIdx == old(rigIdx)
    {
      ghost var added := [];
      var idx := AddProperty("model", Mat4, 1);
      added := Added(added, Uniform(Mat4, "model", 1));
      idx := AddProperty("view", Mat4, 1);
      added := Added(added, Uniform(Mat4, "view", 1));
      idx := AddProperty("mvp", Mat4, 1);
      added := Added(added, Uniform(Mat4, "mvp", 1));
      idx := AddProperty("ambient_light", Vec4, 1);
      added := Added(added, Uniform(Vec4, "ambient_light", 1));
    }

    /** Append a zeroed property and return its index. */
    method AddProperty(name: string, uniformType: UniformType, size: nat) returns (idx: nat)
      modifies this
      ensures idx == |old(properties)|
      ensures properties == old(properties) + [NewProperty(name, uniformType, size)]
      ensures angle == old(angle) && isRigged == old(isRigged) && rigIdx == old(rigIdx)
    {
      properties := properties + [NewProperty(name, uniformType, size)];
      idx := |properties| - 1;
    }

    /** Ghost bookkeeping of the constructor: the declarations added so far. */
    ghost method Added(added: seq<Uniform>, u: Uniform) returns (added': seq<Uniform>)
      requires properties == Instantiate(added) + [NewProperty(u.name, u.uniformType, u.size)]
      ensures added' == added + [u] && properties == Instantiate(added')
    {
      added' := added + [u];
      assert added'[..|added|] == added;
    }

    /** Overwrite the values of one property. */
    method SetPropertyValue(propId: nat, source: seq<real>)
      requires Valid()
      requires propId < |properties|
      requires |source| >= properties[propId].size * properties[propId].baseSize
      modifies this
      ensures Valid()
      ensures properties == old(properties[propId := properties[propId].(val := source[..properties[propId].size * properties[propId].baseSize])])
      ensures angle == old(angle) && isRigged == old(isRigged) && rigIdx == old(rigIdx)
    {
      var p := SetValue(properties[propId], source);
      properties := properties[propId := p];
    }

    /**
     * Store the model, view and mvp matrices and the sky colour (computed by
     * glm, here parameters) in properties 0-3; the uniform upload is GL.
     */
    method Draw(model: seq<real>, view: seq<real>, mvp: seq<real>, skyColor: seq<real>)
      requires Valid()
      requires |model| >= 16 && |view| >= 16 && |mvp| >= 16 && |skyColor| >= 4
      modifies this
      ensures Valid() && |properties| == |old(properties)|
      ensures properties[0].val == model[..16] && properties[1].val == view[..16]
      ensures properties[2].val == mvp[..16] && properties[3].val == skyColor[..4]
      ensures forall j :: 0 <= j < |properties| ==> properties[j].Decl() == old(properties[j].Decl())
      ensures forall j :: 4 <= j < |properties| ==> properties[j] == old(properties[j])
      ensures angle == old(angle) && isRigged == old(isRigged) && rigIdx == old(rigIdx)
    {
      SetPropertyValue(0, model);
      SetPropertyValue(1, view);
      SetPropertyValue(2, mvp);
      SetPropertyValue(3, skyColor);
    }

    /** The uniforms and attributes registered with the shader, in order. */
    method Load() returns (uniforms: seq<Uniform>, attributes: seq<Attribute>)
      ensures uniforms == DeclsOf(properties)
      ensures attributes == AttributesFor(meshType)
    {
      uniforms := [];
      var i := 0;
      while i < |properties|
        invariant 0 <= i <= |properties|
        invariant uniforms == DeclsOf(properties[..i])
      {
        assert properties[..i + 1][..i] == properties[..i];
        uniforms := uniforms + [properties[i].Decl()];
        i := i + 1;
      }
      assert properties[..i] == properties;

      attributes := [];
      if HasFlag(meshType, MeshPositions) {
        attributes := attributes + [Attribute(Position, "position")];
      }
      assert attributes == AttributesUpTo(meshType, 1);
      if HasFlag(meshType, MeshNormals) {
        attributes := attributes + [Attribute(Normal, "normal")];
      }
      assert attributes == AttributesUpTo(meshType, 2);
      if HasFlag(meshType, MeshColors) {
        attributes := attributes + [Attribute(Color, "color")];
      }
      assert attributes == AttributesUpTo(meshType, 3);
      if HasFlag(meshType, MeshTextureCoordinates) {
        attributes := attributes + [Attribute(TextureCoordinate, "texture_coordinate")];
      }
      assert attributes == AttributesUpTo(meshType, 4);
      if HasFlag(meshType, MeshArmature) {
        attributes := attributes + [Attribute(Weight, "weights")];
      }
    }

    /**
     * For a rigged mesh advance the animation angle and store the
     * armature's GLSL matrices (computed by the armature, here
     * `glslMatrices`) in the armature property.
     */
    method Update(dt: real, glslMatrices: seq<real>)
      requires Valid()
      requires |glslMatrices| >= 16 * nrBones
      modifies this
      ensures Valid() && |properties| == |old(properties)| && rigIdx == old(rigIdx)
      ensures HasFlag(meshType, MeshArmature) ==>
        angle == AdvanceAngle(old(angle), dt) &&
        properties[rigIdx].val == glslMatrices[..16 * nrBones]
      ensures !HasFlag(meshType, MeshArmature) ==> angle == old(angle) && properties == old(properties)
      ensures forall j :: 0 <= j < |properties| && j != rigIdx ==> properties[j] == old(properties[j])
    {
      if HasFlag(meshType, MeshArmature) {
        angle := angle + dt;
        if angle > 2.0 * Pi {
          angle := angle - 2.0 * Pi;
        }
        SetPropertyValue(rigIdx, glslMatrices);
      }
    }
  }
}
