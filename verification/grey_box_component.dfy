/**
 The grey-box component (`ezGreyBoxComponent`): a box of six extents whose
 render mesh is generated lazily, cached in the component and dropped again
 whenever the shape or an extent changes; the keys and ids of the render
 data it extracts; and its serialized form.

 The resource manager's mesh table is a map from resource name to the mesh
 as extraction sees it. Geometry is not generated: the primitive count of a
 new box mesh is a parameter, and so is the formatting of a float for the
 resource name.
 */
module GreyBoxComponent {
  import opened Wrappers
  import opened Stream
  import opened Render

  /** `ezGreyBoxShape`: `Box` is its only constant. */
  const Box: u8 := 0

  /** The extents of the box from the component's origin, as float bits. */
  datatype Sizes = Sizes(
    negX: FloatBits, posX: FloatBits,
    negY: FloatBits, posY: FloatBits,
    negZ: FloatBits, posZ: FloatBits)

  datatype Side = NegX | PosX | NegY | PosY | NegZ | PosZ

  datatype GreyBox = GreyBox(
    shape: u8,
    material: Handle,   // the material property; invalid means "the mesh's own"
    sizes: Sizes,
    mesh: Handle,       // the cached render mesh, invalid until generated
    boundsUpdates: nat, // how many local-bounds updates the component has triggered
    uniqueId: bv32)

  /** The resource manager's meshes, by resource name. */
  type Meshes = map<string, MeshView>

  /**
   A cached mesh always names a mesh the resource manager holds, and every
   mesh it holds has fewer submeshes than a 32-bit count can express.
   */
  predicate Consistent(g: GreyBox, meshes: Meshes) {
    && (g.mesh.Valid? ==> g.mesh.id in meshes)
    && forall n :: n in meshes ==> |meshes[n].parts| < 0x1_0000_0000
  }

  // ---------------------------------------------------------------------
  // Properties and the mesh cache

  function SizeOf(s: Sizes, side: Side): FloatBits {
    match side
    case NegX => s.negX
    case PosX => s.posX
    case NegY => s.negY
    case PosY => s.posY
    case NegZ => s.negZ
    case PosZ => s.posZ
  }

  function WithSize(s: Sizes, side: Side, f: FloatBits): (r: Sizes)
    ensures SizeOf(r, side) == f
    ensures forall other: Side :: other != side ==> SizeOf(r, other) == SizeOf(s, other)
  {
    match side
    case NegX => s.(negX := f)
    case PosX => s.(posX := f)
    case NegY => s.(negY := f)
    case PosY => s.(posY := f)
    case NegZ => s.(negZ := f)
    case PosZ => s.(posZ := f)
  }

  /**
   `InvalidateMesh`: drops a cached mesh and triggers one bounds update;
   without a cached mesh it does nothing.
   */
  function InvalidateMesh(g: GreyBox): (r: GreyBox)
    ensures r.mesh.Invalid?
    ensures r.boundsUpdates == if g.mesh.Valid? then g.boundsUpdates + 1 else g.boundsUpdates
    ensures r.(mesh := g.mesh, boundsUpdates := g.boundsUpdates) == g
  {
    if g.mesh.Valid? then g.(mesh := Invalid, boundsUpdates := g.boundsUpdates + 1) else g
  }

  /** `SetShape`: stores the shape and drops the cached mesh; nothing else changes. */
  function SetShape(g: GreyBox, shape: u8): (r: GreyBox)
    ensures r.shape == shape && r.mesh.Invalid?
    ensures r.boundsUpdates == g.boundsUpdates + (if g.mesh.Valid? then 1 else 0)
    ensures r.(shape := g.shape, mesh := g.mesh, boundsUpdates := g.boundsUpdates) == g
  {
    InvalidateMesh(g.(shape := shape))
  }

  /** `SetSizeNegX` ... `SetSizePosZ`: stores one extent and drops the cached mesh. */
  function SetSize(g: GreyBox, side: Side, f: FloatBits): (r: GreyBox)
    ensures SizeOf(r.sizes, side) == f && r.mesh.Invalid?
    ensures forall other: Side :: other != side ==> SizeOf(r.sizes, other) == SizeOf(g.sizes, other)
    ensures r.boundsUpdates == g.boundsUpdates + (if g.mesh.Valid? then 1 else 0)
    ensures r.(sizes := g.sizes, mesh := g.mesh, boundsUpdates := g.boundsUpdates) == g
  {
    InvalidateMesh(g.(sizes := WithSize(g.sizes, side, f)))
  }

  /**
   `SetMaterialFile`: the named material, the invalid handle for an empty
   name; the cached mesh is kept and the getter reads the name back.
   */
  function SetMaterialFile(g: GreyBox, name: string): (r: GreyBox)
    ensures r.material.Valid? <==> name != ""
    ensures GetMaterialFile(r) == name
    ensures r.(material := g.material) == g
  {
    NameRoundTrip(name, g.material);
    g.(material := LoadByName(name))
  }

  /** `GetMaterialFile`: the material's id, "" when there is none; loading that name gives the material back. */
  function GetMaterialFile(g: GreyBox): (r: string)
    ensures !g.material.Valid? ==> r == ""
    ensures WellFormed(g.material) ==> LoadByName(r) == g.material
  {
    NameRoundTrip("", g.material);
    IdOf(g.material)
  }

  /**
   The shape and size setters store their value and drop the cached mesh,
   triggering a bounds update only when there was one; the material setter
   keeps the cache. Every setter is read back by its getter.
   */
  lemma SettersInvalidate(g: GreyBox, shape: u8, side: Side, f: FloatBits, name: string)
    ensures SetShape(g, shape).shape == shape && SetShape(g, shape).mesh.Invalid?
    ensures SetShape(g, shape).boundsUpdates == g.boundsUpdates + (if g.mesh.Valid? then 1 else 0)
    ensures SizeOf(SetSize(g, side, f).sizes, side) == f && SetSize(g, side, f).mesh.Invalid?
    ensures SetSize(g, side, f).boundsUpdates == g.boundsUpdates + (if g.mesh.Valid? then 1 else 0)
    ensures SetMaterialFile(g, name).mesh == g.mesh
    ensures SetMaterialFile(g, name).boundsUpdates == g.boundsUpdates
    ensures GetMaterialFile(SetMaterialFile(g, name)) == name
  {
    NameRoundTrip(name, g.material);
  }

  /** Invalidating twice triggers no more bounds updates than invalidating once. */
  lemma InvalidateIdempotent(g: GreyBox)
    ensures InvalidateMesh(InvalidateMesh(g)) == InvalidateMesh(g)
  {
  }

  // ---------------------------------------------------------------------
  // Generating the render mesh

  /** `Data/Base/Materials/Prototyping/PrototypeGrey.ezMaterialAsset`, by its asset guid. */
  const PrototypeGrey := "{ 6bd5e7e6-b7be-9801-e032-14226cba1e96 }"

  /** The resource name of a box mesh: its six extents, each formatted by `fmt`. */
  function MeshName(s: Sizes, fmt: FloatBits -> string): string {
    "Grey-Box:" + fmt(s.negX) + "-" + fmt(s.posX) + "," + fmt(s.negY) + "-" + fmt(s.posY)
      + "," + fmt(s.negZ) + "-" + fmt(s.posZ)
  }

  /** A newly generated box mesh: one submesh over all its primitives, drawn with material 0. */
  function BoxMesh(primitiveCount: u32): (m: MeshView)
    ensures |m.parts| == 1 && m.parts[0] == MeshPart(primitiveCount, 0, 0)
    ensures m.materials == [Valid(PrototypeGrey)]
  {
    MeshView([MeshPart(primitiveCount, 0, 0)], [LoadByName(PrototypeGrey)])
  }

  datatype GreyBoxError =
    | ShapeNotImplemented(shape: u8)   // a shape other than Box
    | MaterialIndexOutOfRange(part: nat) // no component material, and the mesh has no material at the index

  datatype Generated = Generated(box: GreyBox, meshes: Meshes)

  /**
   `GenerateRenderMesh`: nothing to do while a mesh is cached; otherwise the
   box mesh of the current extents, taken from the resource manager if one
   of that name exists and created there if not.
   */
  function GenerateRenderMesh(g: GreyBox, meshes: Meshes, fmt: FloatBits -> string, primitiveCount: u32)
    : (r: Result<Generated, GreyBoxError>)
    ensures g.mesh.Valid? ==> r == Success(Generated(g, meshes))
    ensures g.mesh.Invalid? ==> (r.Failure? <==> g.shape != Box)
    ensures r.Failure? ==> r.error == ShapeNotImplemented(g.shape)
    ensures r.Success? ==>
      && r.value.box.mesh.Valid?
      && r.value.box.(mesh := g.mesh) == g
      && meshes.Keys <= r.value.meshes.Keys <= meshes.Keys + {r.value.box.mesh.id}
      && (forall n :: n in meshes ==> r.value.meshes[n] == meshes[n])
    ensures r.Success? && g.mesh.Invalid? ==>
      && r.value.box.mesh == Valid(MeshName(g.sizes, fmt))
      && MeshName(g.sizes, fmt) in r.value.meshes
      && (MeshName(g.sizes, fmt) !in meshes ==> r.value.meshes[MeshName(g.sizes, fmt)] == BoxMesh(primitiveCount))
    ensures r.Success? && Consistent(g, meshes) ==> Consistent(r.value.box, r.value.meshes)
  {
    if g.mesh.Valid? then Success(Generated(g, meshes))
    else if g.shape != Box then Failure(ShapeNotImplemented(g.shape))
    else
      var name := MeshName(g.sizes, fmt);
      var box := g.(mesh := Valid(name));
      if name in meshes then Success(Generated(box, meshes))
      else Success(Generated(box, meshes[name := BoxMesh(primitiveCount)]))
  }

  /** Generating again straight after generating changes nothing. */
  lemma GenerateIdempotent(g: GreyBox, meshes: Meshes, fmt: FloatBits -> string, n: u32, m: u32)
    requires GenerateRenderMesh(g, meshes, fmt, n).Success?
    ensures
      var once := GenerateRenderMesh(g, meshes, fmt, n).value;
      GenerateRenderMesh(once.box, once.meshes, fmt, m) == Success(once)
  {
  }

  /**
   A mesh dropped by invalidation is found again by name: regenerating with
   unchanged extents restores the same handle and creates nothing.
   */
  lemma RegenerateReuses(g: GreyBox, meshes: Meshes, fmt: FloatBits -> string, n: u32, m: u32)
    requires g.mesh.Invalid? && g.shape == Box
    ensures
      var once := GenerateRenderMesh(g, meshes, fmt, n).value;
      var again := GenerateRenderMesh(InvalidateMesh(once.box), once.meshes, fmt, m);
      && again.Success?
      && again.value.box.mesh == once.box.mesh
      && again.value.meshes == once.meshes
      && again.value.box.boundsUpdates == g.boundsUpdates + 1
  {
  }

  // ---------------------------------------------------------------------
  // Extraction

  /** The material a submesh is drawn with: the component's if valid, else the mesh's own. */
  function ResolveMaterial(g: GreyBox, view: MeshView, index: u32): (r: Option<Handle>)
    ensures g.material.Valid? ==> r == Some(g.material)
    ensures g.material.Invalid? ==> (r.Some? <==> index < |view.materials|)
    ensures g.material.Invalid? && r.Some? ==> r.value == view.materials[index]
  {
    if g.material.Valid? then Some(g.material)
    else if index < |view.materials| then Some(view.materials[index])
    else None
  }

  /** The id hash of a material; 0 for the invalid handle. */
  function MaterialHash(h: Hashing, material: Handle): bv32 {
    if material.Valid? then h.idHash(material.id) else 0
  }

  function FlagWord(b: bool): (w: bv32)
    ensures w <= 1 && (w == 1 <==> b)
  {
    if b then 1 else 0
  }

  /** The category of every part: the message's override if set, else lit opaque. */
  function GreyBoxCategory(messageOverride: Category, defaults: DefaultCategories): (r: Category)
    ensures messageOverride != InvalidIndex ==> r == messageOverride
    ensures messageOverride == InvalidIndex ==> r == defaults.litOpaqueCategory
  {
    if messageOverride != InvalidIndex then messageOverride else defaults.litOpaqueCategory
  }

  /** The sorting key: material hash in the top half, then the mesh hash, then the winding flag. */
  function SortingKey(materialHash: bv32, meshHash: bv32, flip: bv32): bv32 {
    (materialHash << 16) | (meshHash & 0xFFFE) | flip
  }

  /** Bit 0 is the flag, bits 1-15 the mesh hash's, bits 16-31 the material hash's low half. */
  lemma SortingKeyBits(materialHash: bv32, meshHash: bv32, flip: bv32)
    requires flip <= 1
    ensures SortingKey(materialHash, meshHash, flip) & 1 == flip
    ensures SortingKey(materialHash, meshHash, flip) & 0xFFFE == meshHash & 0xFFFE
    ensures SortingKey(materialHash, meshHash, flip) >> 16 == materialHash & 0xFFFF
  {
  }

  /** Records sort by material first: a smaller low half of the material hash gives a smaller key. */
  lemma SortingKeyByMaterial(ma: bv32, mb: bv32, ha: bv32, hb: bv32, fa: bv32, fb: bv32)
    requires fa <= 1 && fb <= 1
    requires ma & 0xFFFF < mb & 0xFFFF
    ensures SortingKey(ma, ha, fa) < SortingKey(mb, hb, fb)
  {
  }

  /** Under equal material halves, the mesh hash bits and then the winding flag decide, both ways. */
  lemma SortingKeyByMesh(ma: bv32, mb: bv32, ha: bv32, hb: bv32, fa: bv32, fb: bv32)
    requires fa <= 1 && fb <= 1
    requires ma & 0xFFFF == mb & 0xFFFF
    ensures SortingKey(ma, ha, fa) < SortingKey(mb, hb, fb) <==> (ha & 0xFFFE) | fa < (hb & 0xFFFE) | fb
  {
    if (ha & 0xFFFE) | fa < (hb & 0xFFFE) | fb {
      MeshBitsOrderKeys(ma, mb, ha, hb, fa, fb);
    }
    if SortingKey(ma, ha, fa) < SortingKey(mb, hb, fb) {
      KeysOrderMeshBits(ma, mb, ha, hb, fa, fb);
    }
  }

  lemma MeshBitsOrderKeys(ma: bv32, mb: bv32, ha: bv32, hb: bv32, fa: bv32, fb: bv32)
    requires fa <= 1 && fb <= 1
    requires ma & 0xFFFF == mb & 0xFFFF
    requires (ha & 0xFFFE) | fa < (hb & 0xFFFE) | fb
    ensures SortingKey(ma, ha, fa) < SortingKey(mb, hb, fb)
  {
  }

  lemma KeysOrderMeshBits(ma: bv32, mb: bv32, ha: bv32, hb: bv32, fa: bv32, fb: bv32)
    requires fa <= 1 && fb <= 1
    requires ma & 0xFFFF == mb & 0xFFFF
    requires SortingKey(ma, ha, fa) < SortingKey(mb, hb, fb)
    ensures (ha & 0xFFFE) | fa < (hb & 0xFFFE) | fb
  {
  }

  /** The batch id: the murmur hash of mesh hash, material hash, part index and winding flag. */
  function PartBatchId(h: Hashing, meshHash: bv32, material: Handle, partIndex: nat, flip: bv32): bv32
    requires partIndex < 0x1_0000_0000
  {
    h.murmur([meshHash, MaterialHash(h, material), partIndex as bv32, flip])
  }

  function PartUniqueId(g: GreyBox, materialIndex: u32): bv32 {
    PackMaterialIndex(g.uniqueId, materialIndex as bv32)
  }

  /** `ezMeshRenderData` as filled in here, plus the category and sorting key it is added under. */
  datatype GreyBoxRenderData = GreyBoxRenderData(
    batchId: bv32,
    mesh: Handle,
    material: Handle,
    partIndex: nat,
    flipWinding: bv32,
    uniformScale: bv32,
    uniqueId: bv32,
    category: Category,
    sortingKey: bv32)

  /** How the owner's global transform matters to extraction. */
  datatype Transform = Transform(negativeScale: bool, uniformScale: bool)

  /**
   The loop of `OnExtractRenderData` over the parts of the cached mesh: one
   record per part, in ascending part index, or the first part whose
   material index the mesh does not have when the component has no material.
   */
  method ExtractParts(
    g: GreyBox, view: MeshView, h: Hashing, t: Transform,
    messageOverride: Category, defaults: DefaultCategories)
    returns (r: Result<seq<GreyBoxRenderData>, GreyBoxError>)
    requires g.mesh.Valid? && |view.parts| < 0x1_0000_0000
    ensures r.Success? ==>
      var meshHash := h.idHash(g.mesh.id);
      var flip := FlagWord(t.negativeScale);
      && |r.value| == |view.parts|
      && forall i :: 0 <= i < |view.parts| ==>
        && ResolveMaterial(g, view, view.parts[i].materialIndex) == Some(r.value[i].material)
        && r.value[i].partIndex == i
        && r.value[i].mesh == g.mesh
        && r.value[i].batchId == PartBatchId(h, meshHash, r.value[i].material, i, flip)
        && r.value[i].flipWinding == flip
        && r.value[i].uniformScale == FlagWord(t.uniformScale)
        && r.value[i].uniqueId == PartUniqueId(g, view.parts[i].materialIndex)
        && r.value[i].category == GreyBoxCategory(messageOverride, defaults)
        && r.value[i].sortingKey == SortingKey(MaterialHash(h, r.value[i].material), meshHash, flip)
    ensures r.Failure? ==>
      && r.error.MaterialIndexOutOfRange?
      && r.error.part < |view.parts|
      && ResolveMaterial(g, view, view.parts[r.error.part].materialIndex).None?
      && forall k :: 0 <= k < r.error.part ==> ResolveMaterial(g, view, view.parts[k].materialIndex).Some?
  {
    var meshHash := h.idHash(g.mesh.id);
    var flip := FlagWord(t.negativeScale);
    var uniform := FlagWord(t.uniformScale);
    var category := GreyBoxCategory(messageOverride, defaults);
    var records: seq<GreyBoxRenderData> := [];
    for i := 0 to |view.parts|
      invariant |records| == i
      invariant forall k :: 0 <= k < i ==>
        && ResolveMaterial(g, view, view.parts[k].materialIndex) == Some(records[k].material)
        && records[k] == GreyBoxRenderData(
             PartBatchId(h, meshHash, records[k].material, k, flip), g.mesh, records[k].material, k,
             flip, uniform, PartUniqueId(g, view.parts[k].materialIndex), category,
             SortingKey(MaterialHash(h, records[k].material), meshHash, flip))
    {
      var materialIndex := view.parts[i].materialIndex;
      var resolved := ResolveMaterial(g, view, materialIndex);
      if resolved.None? {
        return Failure(MaterialIndexOutOfRange(i));
      }
      var material := resolved.value;
      var record := GreyBoxRenderData(
        PartBatchId(h, meshHash, material, i, flip), g.mesh, material, i,
        flip, uniform, PartUniqueId(g, materialIndex), category,
        SortingKey(MaterialHash(h, material), meshHash, flip));
      records := records + [record];
    }
    return Success(records);
  }

  /**
   `OnExtractRenderData`: generates the mesh if none is cached, then
   extracts one record per part of the cached mesh. The component that
   results keeps the generated mesh, whether or not extraction succeeds.
   */
  method ExtractRenderData(
    g: GreyBox, meshes: Meshes, fmt: FloatBits -> string, primitiveCount: u32,
    h: Hashing, t: Transform, messageOverride: Category, defaults: DefaultCategories)
    returns (g': GreyBox, meshes': Meshes, r: Result<seq<GreyBoxRenderData>, GreyBoxError>)
    requires Consistent(g, meshes)
    ensures Consistent(g', meshes')
    ensures g.mesh.Invalid? && g.shape != Box ==>
      g' == g && meshes' == meshes && r == Failure(ShapeNotImplemented(g.shape))
    ensures g.mesh.Valid? ==> g' == g && meshes' == meshes
    ensures g.shape == Box || g.mesh.Valid? ==>
      && g'.mesh.Valid?
      && g'.(mesh := g.mesh) == g
      && GenerateRenderMesh(g, meshes, fmt, primitiveCount) == Success(Generated(g', meshes'))
    ensures r.Success? ==>
      && g'.mesh.Valid?
      && |r.value| == |meshes'[g'.mesh.id].parts|
      && forall i :: 0 <= i < |r.value| ==>
        && r.value[i].mesh == g'.mesh
        && r.value[i].partIndex == i
        && ResolveMaterial(g, meshes'[g'.mesh.id], meshes'[g'.mesh.id].parts[i].materialIndex)
           == Some(r.value[i].material)
        && r.value[i].category == GreyBoxCategory(messageOverride, defaults)
        && r.value[i].sortingKey
           == SortingKey(MaterialHash(h, r.value[i].material), h.idHash(g'.mesh.id), FlagWord(t.negativeScale))
  {
    var generated := GenerateRenderMesh(g, meshes, fmt, primitiveCount);
    if generated.Failure? {
      return g, meshes, Failure(generated.error);
    }
    g', meshes' := generated.value.box, generated.value.meshes;
    var view := meshes'[g'.mesh.id];
    r := ExtractParts(g', view, h, t, messageOverride, defaults);
  }

  /** A freshly generated box mesh always extracts to a single record for part 0. */
  lemma BoxMeshExtractsOnePart(g: GreyBox, h: Hashing, t: Transform, c: Category, d: DefaultCategories, n: u32)
    ensures ResolveMaterial(g, BoxMesh(n), BoxMesh(n).parts[0].materialIndex).Some?
    ensures g.material.Invalid? ==>
      ResolveMaterial(g, BoxMesh(n), BoxMesh(n).parts[0].materialIndex) == Some(Valid(PrototypeGrey))
  {
  }

  // ---------------------------------------------------------------------
  // Serialization

  function WriteSizes(s: Sizes): seq<Token> {
    [F32(s.negX), F32(s.posX), F32(s.negY), F32(s.posY), F32(s.negZ), F32(s.posZ)]
  }

  function ReadSizes(s: seq<Token>): Read<Sizes> {
    var negX :- ReadF32(s);
    var posX :- ReadF32(negX.rest);
    var negY :- ReadF32(posX.rest);
    var posY :- ReadF32(negY.rest);
    var negZ :- ReadF32(posY.rest);
    var posZ :- ReadF32(negZ.rest);
    Success(Parsed(Sizes(negX.value, posX.value, negY.value, posY.value, negZ.value, posZ.value), posZ.rest))
  }

  lemma ReadWriteSizes(z: Sizes, rest: seq<Token>)
    ensures ReadSizes(WriteSizes(z) + rest) == Success(Parsed(z, rest))
  {
    var s := WriteSizes(z) + rest;
    assert s[1..] == [F32(z.posX), F32(z.negY), F32(z.posY), F32(z.negZ), F32(z.posZ)] + rest;
    assert s[2..] == [F32(z.negY), F32(z.posY), F32(z.negZ), F32(z.posZ)] + rest;
    assert s[3..] == [F32(z.posY), F32(z.negZ), F32(z.posZ)] + rest;
    assert s[4..] == [F32(z.negZ), F32(z.posZ)] + rest;
    assert s[5..] == [F32(z.posZ)] + rest;
    assert s[6..] == rest;
  }

  /** The shape, then negX, posX, negY, posY, negZ, posZ. */
  function SerializeComponent(g: GreyBox): (r: seq<Token>)
    ensures |r| == 7 && r[0] == U8(g.shape)
    ensures forall side: Side :: r[1 + SideIndex(side)] == F32(SizeOf(g.sizes, side))
  {
    [U8(g.shape)] + WriteSizes(g.sizes)
  }

  /** The position of an extent in the stream order negX, posX, negY, posY, negZ, posZ. */
  function SideIndex(side: Side): (i: nat)
    ensures i < 6
  {
    match side
    case NegX => 0
    case PosX => 1
    case NegY => 2
    case PosY => 3
    case NegZ => 4
    case PosZ => 5
  }

  /**
   Reads the fields in the order they were written, straight into the
   component: the cached mesh is neither dropped nor regenerated.
   */
  function DeserializeComponent(g: GreyBox, s: seq<Token>): (r: Read<GreyBox>)
    ensures r.Success? ==> r.value.value.(shape := g.shape, sizes := g.sizes) == g
  {
    var shape :- ReadU8(s);
    var sizes :- ReadSizes(shape.rest);
    Success(Parsed(g.(shape := shape.value, sizes := sizes.value), sizes.rest))
  }

  /** Deserializing what was serialized restores shape and extents and leaves what followed. */
  lemma SerializeRoundTrip(g: GreyBox, into: GreyBox, rest: seq<Token>)
    ensures DeserializeComponent(into, SerializeComponent(g) + rest)
      == Success(Parsed(into.(shape := g.shape, sizes := g.sizes), rest))
  {
    var s := SerializeComponent(g) + rest;
    assert s == [U8(g.shape)] + (WriteSizes(g.sizes) + rest);
    ReadWriteSizes(g.sizes, rest);
  }
}
