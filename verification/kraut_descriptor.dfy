/**
 The Kraut tree resource descriptor and its versioned binary format
 (`ezKrautTreeResourceDescriptor::Save` / `Load`).

 Layout of version 4: the version byte, the bounds, the LOD count as one byte,
 then per LOD its two distances, three 32-bit element counts and the vertex,
 triangle and submesh payloads; then the material count as one byte and the
 materials.
 */
module KrautDescriptor {
  import opened Wrappers
  import opened Stream

  /** `ezBoundingBoxSphere`: centre, sphere radius, box half extents, in its stream order. */
  datatype Bounds = Bounds(center: Vec3, sphereRadius: FloatBits, halfExtents: Vec3)

  datatype Vertex = Vertex(
    position: Vec3,
    texCoord: Vec3,
    normal: Vec3,
    tangent: Vec3,
    variationColor: ColorUB)

  datatype Triangle = Triangle(v0: u32, v1: u32, v2: u32)

  datatype SubMesh = SubMesh(firstTriangle: u32, numTriangles: u32, materialIndex: u8)

  datatype Lod = Lod(
    minLodDistance: FloatBits,
    maxLodDistance: FloatBits,
    vertices: seq<Vertex>,
    triangles: seq<Triangle>,
    subMeshes: seq<SubMesh>)

  datatype Material = Material(
    materialType: u8,
    diffuseTexture: string,
    normalMapTexture: string,
    variationColor: ColorUB)

  datatype Descriptor = Descriptor(bounds: Bounds, lods: seq<Lod>, materials: seq<Material>)

  /** The only format version `Load` accepts and the one `Save` writes. */
  const Version: u8 := 4

  /** A default-constructed descriptor: no LODs, no materials. */
  const EmptyDescriptor := Descriptor(Bounds(Vec3(0, 0, 0), 0, Vec3(0, 0, 0)), [], [])

  /** Every per-LOD element count fits the 32-bit count it is written as. */
  predicate LodFits(l: Lod) {
    && |l.vertices| < 0x1_0000_0000
    && |l.triangles| < 0x1_0000_0000
    && |l.subMeshes| < 0x1_0000_0000
  }

  predicate LodsFit(d: Descriptor) {
    forall i :: 0 <= i < |d.lods| ==> LodFits(d.lods[i])
  }

  /** Everything `Save` writes a count for fits that count's width. */
  predicate WellSized(d: Descriptor) {
    && |d.lods| < 0x100
    && |d.materials| < 0x100
    && LodsFit(d)
  }

  // ---------------------------------------------------------------------
  // Writers

  function WriteBounds(b: Bounds): seq<Token> {
    WriteVec3(b.center) + [F32(b.sphereRadius)] + WriteVec3(b.halfExtents)
  }

  function WriteVertex(v: Vertex): seq<Token> {
    WriteVec3(v.position) + WriteVec3(v.texCoord) + WriteVec3(v.normal)
    + WriteVec3(v.tangent) + WriteColorUB(v.variationColor)
  }

  function WriteTriangle(t: Triangle): seq<Token> {
    [U32(t.v0), U32(t.v1), U32(t.v2)]
  }

  function WriteSubMesh(sm: SubMesh): seq<Token> {
    [U32(sm.firstTriangle), U32(sm.numTriangles), U8(sm.materialIndex)]
  }

  /** What a LOD's payload is preceded by: its distances and element counts. */
  datatype LodHeader = LodHeader(
    minLodDistance: FloatBits,
    maxLodDistance: FloatBits,
    numVertices: u32,
    numTriangles: u32,
    numSubMeshes: u32)

  /** The header `Save` writes for `l`: counts truncated to 32 bits. */
  function HeaderOf(l: Lod): LodHeader {
    LodHeader(l.minLodDistance, l.maxLodDistance,
              TruncU32(|l.vertices|), TruncU32(|l.triangles|), TruncU32(|l.subMeshes|))
  }

  function WriteLodHeader(h: LodHeader): seq<Token> {
    [ F32(h.minLodDistance), F32(h.maxLodDistance),
      U32(h.numVertices), U32(h.numTriangles), U32(h.numSubMeshes) ]
  }

  function WriteLod(l: Lod): seq<Token> {
    WriteLodHeader(HeaderOf(l))
    + WriteMany(l.vertices, WriteVertex)
    + WriteMany(l.triangles, WriteTriangle)
    + WriteMany(l.subMeshes, WriteSubMesh)
  }

  function WriteMaterial(m: Material): seq<Token> {
    [U8(m.materialType), Str(m.diffuseTexture), Str(m.normalMapTexture)]
    + WriteColorUB(m.variationColor)
  }

  /**
   `Save` as written: the LOD count and the material count are both truncated
   to one byte; only that many LODs are written, but every material is.
   */
  function Save(d: Descriptor): (r: seq<Token>)
    ensures |r| >= 9
    ensures r[0] == U8(Version)
    ensures r[1..8] == WriteBounds(d.bounds)
    ensures r[8] == U8(|d.lods| % 0x100)
  {
    var numLods := TruncU8(|d.lods|);
    [U8(Version)] + WriteBounds(d.bounds) + [U8(numLods)]
    + WriteMany(d.lods[..numLods], WriteLod)
    + [U8(TruncU8(|d.materials|))]
    + WriteMany(d.materials, WriteMaterial)
  }

  /**
   `Save` with the material loop bounded by the count it wrote, as the LOD
   loop already is: the stream always agrees with its own counts.
   */
  function SaveConsistent(d: Descriptor): (r: seq<Token>)
    ensures |d.materials| < 0x100 ==> r == Save(d)
  {
    var numLods := TruncU8(|d.lods|);
    var numMats := TruncU8(|d.materials|);
    var mats := d.materials[..numMats];
    assert |d.materials| < 0x100 ==> mats == d.materials;
    [U8(Version)] + WriteBounds(d.bounds) + [U8(numLods)]
    + WriteMany(d.lods[..numLods], WriteLod)
    + [U8(numMats)]
    + WriteMany(mats, WriteMaterial)
  }

  // ---------------------------------------------------------------------
  // Readers

  function ReadBounds(s: seq<Token>): Read<Bounds> {
    var c :- ReadVec3(s);
    var r :- ReadF32(c.rest);
    var h :- ReadVec3(r.rest);
    Success(Parsed(Bounds(c.value, r.value, h.value), h.rest))
  }

  function ReadVertex(s: seq<Token>): Read<Vertex> {
    var p :- ReadVec3(s);
    var t :- ReadVec3(p.rest);
    var n :- ReadVec3(t.rest);
    var g :- ReadVec3(n.rest);
    var c :- ReadColorUB(g.rest);
    Success(Parsed(Vertex(p.value, t.value, n.value, g.value, c.value), c.rest))
  }

  function ReadTriangle(s: seq<Token>): Read<Triangle> {
    var a :- ReadU32(s);
    var b :- ReadU32(a.rest);
    var c :- ReadU32(b.rest);
    Success(Parsed(Triangle(a.value, b.value, c.value), c.rest))
  }

  function ReadSubMesh(s: seq<Token>): Read<SubMesh> {
    var first :- ReadU32(s);
    var num :- ReadU32(first.rest);
    var mat :- ReadU8(num.rest);
    Success(Parsed(SubMesh(first.value, num.value, mat.value), mat.rest))
  }

  function ReadLodHeader(s: seq<Token>): Read<LodHeader> {
    var minDist :- ReadF32(s);
    var maxDist :- ReadF32(minDist.rest);
    var numVertices :- ReadU32(maxDist.rest);
    var numTriangles :- ReadU32(numVertices.rest);
    var numSubMeshes :- ReadU32(numTriangles.rest);
    Success(Parsed(
      LodHeader(minDist.value, maxDist.value, numVertices.value, numTriangles.value, numSubMeshes.value),
      numSubMeshes.rest))
  }

  /**
   One LOD: its header, then exactly as many vertices, triangles and submeshes
   as the three counts of the header say.
   */
  function ReadLod(s: seq<Token>): (r: Read<Lod>)
    ensures r.Success? ==>
      && |s| >= 5 && s[0].F32? && s[1].F32? && s[2].U32? && s[3].U32? && s[4].U32?
      && r.value.value.minLodDistance == s[0].bits
      && r.value.value.maxLodDistance == s[1].bits
      && |r.value.value.vertices| == s[2].w
      && |r.value.value.triangles| == s[3].w
      && |r.value.value.subMeshes| == s[4].w
  {
    var h :- ReadLodHeader(s);
    var vertices :- ReadMany(h.value.numVertices, h.rest, ReadVertex);
    var triangles :- ReadMany(h.value.numTriangles, vertices.rest, ReadTriangle);
    var subMeshes :- ReadMany(h.value.numSubMeshes, triangles.rest, ReadSubMesh);
    Success(Parsed(
      Lod(h.value.minLodDistance, h.value.maxLodDistance, vertices.value, triangles.value, subMeshes.value),
      subMeshes.rest))
  }

  function ReadMaterial(s: seq<Token>): Read<Material> {
    var kind :- ReadU8(s);
    var diffuse :- ReadStr(kind.rest);
    var normal :- ReadStr(diffuse.rest);
    var color :- ReadColorUB(normal.rest);
    Success(Parsed(Material(kind.value, diffuse.value, normal.value, color.value), color.rest))
  }

  /**
   `Load` into the descriptor `into`: LODs read are appended to the ones
   `into` already held, the bounds and the materials are replaced. A leading
   byte other than the version fails at once, whatever follows it.
   */
  function Load(s: seq<Token>, into: Descriptor): (r: Read<Descriptor>)
    ensures |s| > 0 && s[0].U8? && s[0].b != Version ==> r == Failure(BadVersion(s[0].b))
    ensures r.Success? ==> |s| > 0 && s[0] == U8(Version)
    ensures r.Success? ==>
      && |into.lods| <= |r.value.value.lods|
      && r.value.value.lods[..|into.lods|] == into.lods
  {
    var version :- ReadU8(s);
    if version.value != Version then Failure(BadVersion(version.value))
    else
      var bounds :- ReadBounds(version.rest);
      var numLods :- ReadU8(bounds.rest);
      var lods :- ReadMany(numLods.value, numLods.rest, ReadLod);
      var numMats :- ReadU8(lods.rest);
      var materials :- ReadMany(numMats.value, numMats.rest, ReadMaterial);
      Success(Parsed(Descriptor(bounds.value, into.lods + lods.value, materials.value), materials.rest))
  }

  /**
   What `Load` reads does not depend on the descriptor it loads into: the
   same stream succeeds or fails alike, and on success only the LODs differ,
   by the prefix that was already held. The material array ends up with
   exactly the materials read, whatever it held before.
   */
  lemma LoadAppendsLods(s: seq<Token>, into: Descriptor)
    ensures Load(s, into).Success? <==> Load(s, EmptyDescriptor).Success?
    ensures Load(s, into).Success? ==>
      var plain := Load(s, EmptyDescriptor).value;
      var r := Load(s, into).value;
      && r.value.lods == into.lods + plain.value.lods
      && r.value.materials == plain.value.materials
      && r.value.bounds == plain.value.bounds
      && r.rest == plain.rest
  {
  }

  // ---------------------------------------------------------------------
  // Round trips

  lemma ReadWriteBounds(b: Bounds, rest: seq<Token>)
    ensures ReadBounds(WriteBounds(b) + rest) == Success(Parsed(b, rest))
  {
    var tail := [F32(b.sphereRadius)] + (WriteVec3(b.halfExtents) + rest);
    assert WriteBounds(b) + rest == WriteVec3(b.center) + tail;
    ReadWriteVec3(b.center, tail);
    assert tail[1..] == WriteVec3(b.halfExtents) + rest;
    ReadWriteVec3(b.halfExtents, rest);
  }

  lemma ReadWriteVertex(v: Vertex, rest: seq<Token>)
    ensures ReadVertex(WriteVertex(v) + rest) == Success(Parsed(v, rest))
  {
    var t4 := WriteColorUB(v.variationColor) + rest;
    var t3 := WriteVec3(v.tangent) + t4;
    var t2 := WriteVec3(v.normal) + t3;
    var t1 := WriteVec3(v.texCoord) + t2;
    assert WriteVertex(v) + rest == WriteVec3(v.position) + t1;
    ReadWriteVec3(v.position, t1);
    ReadWriteVec3(v.texCoord, t2);
    ReadWriteVec3(v.normal, t3);
    ReadWriteVec3(v.tangent, t4);
    ReadWriteColorUB(v.variationColor, rest);
  }

  lemma ReadWriteTriangle(t: Triangle, rest: seq<Token>)
    ensures ReadTriangle(WriteTriangle(t) + rest) == Success(Parsed(t, rest))
  {
    var s := WriteTriangle(t) + rest;
    assert s[1..] == [U32(t.v1), U32(t.v2)] + rest;
    assert s[2..] == [U32(t.v2)] + rest;
    assert s[3..] == rest;
  }

  lemma ReadWriteSubMesh(sm: SubMesh, rest: seq<Token>)
    ensures ReadSubMesh(WriteSubMesh(sm) + rest) == Success(Parsed(sm, rest))
  {
    var s := WriteSubMesh(sm) + rest;
    assert s[1..] == [U32(sm.numTriangles), U8(sm.materialIndex)] + rest;
    assert s[2..] == [U8(sm.materialIndex)] + rest;
    assert s[3..] == rest;
  }

  lemma ReadWriteMaterial(m: Material, rest: seq<Token>)
    ensures ReadMaterial(WriteMaterial(m) + rest) == Success(Parsed(m, rest))
  {
    var s := WriteMaterial(m) + rest;
    var tail := WriteColorUB(m.variationColor) + rest;
    assert s[1..] == [Str(m.diffuseTexture), Str(m.normalMapTexture)] + tail;
    assert s[2..] == [Str(m.normalMapTexture)] + tail;
    assert s[3..] == tail;
    ReadWriteColorUB(m.variationColor, rest);
  }

  lemma ReadWriteLodHeader(h: LodHeader, rest: seq<Token>)
    ensures ReadLodHeader(WriteLodHeader(h) + rest) == Success(Parsed(h, rest))
  {
    var s := WriteLodHeader(h) + rest;
    assert s[1..] == [F32(h.maxLodDistance), U32(h.numVertices), U32(h.numTriangles), U32(h.numSubMeshes)] + rest;
    assert s[2..] == [U32(h.numVertices), U32(h.numTriangles), U32(h.numSubMeshes)] + rest;
    assert s[3..] == [U32(h.numTriangles), U32(h.numSubMeshes)] + rest;
    assert s[4..] == [U32(h.numSubMeshes)] + rest;
    assert s[5..] == rest;
  }

  lemma ReadWriteVertices(vs: seq<Vertex>, rest: seq<Token>)
    ensures ReadMany(|vs|, WriteMany(vs, WriteVertex) + rest, ReadVertex) == Success(Parsed(vs, rest))
  {
    forall x, r ensures ReadVertex(WriteVertex(x) + r) == Success(Parsed(x, r)) {
      ReadWriteVertex(x, r);
    }
    ReadWriteMany(vs, rest, WriteVertex, ReadVertex, (x: Vertex) => true);
  }

  lemma ReadWriteTriangles(ts: seq<Triangle>, rest: seq<Token>)
    ensures ReadMany(|ts|, WriteMany(ts, WriteTriangle) + rest, ReadTriangle) == Success(Parsed(ts, rest))
  {
    forall x, r ensures ReadTriangle(WriteTriangle(x) + r) == Success(Parsed(x, r)) {
      ReadWriteTriangle(x, r);
    }
    ReadWriteMany(ts, rest, WriteTriangle, ReadTriangle, (x: Triangle) => true);
  }

  lemma ReadWriteSubMeshes(ss: seq<SubMesh>, rest: seq<Token>)
    ensures ReadMany(|ss|, WriteMany(ss, WriteSubMesh) + rest, ReadSubMesh) == Success(Parsed(ss, rest))
  {
    forall x, r ensures ReadSubMesh(WriteSubMesh(x) + r) == Success(Parsed(x, r)) {
      ReadWriteSubMesh(x, r);
    }
    ReadWriteMany(ss, rest, WriteSubMesh, ReadSubMesh, (x: SubMesh) => true);
  }

  lemma ReadWriteMaterials(ms: seq<Material>, rest: seq<Token>)
    ensures ReadMany(|ms|, WriteMany(ms, WriteMaterial) + rest, ReadMaterial) == Success(Parsed(ms, rest))
  {
    forall x, r ensures ReadMaterial(WriteMaterial(x) + r) == Success(Parsed(x, r)) {
      ReadWriteMaterial(x, r);
    }
    ReadWriteMany(ms, rest, WriteMaterial, ReadMaterial, (x: Material) => true);
  }

  lemma ReadWriteLod(l: Lod, rest: seq<Token>)
    requires LodFits(l)
    ensures ReadLod(WriteLod(l) + rest) == Success(Parsed(l, rest))
  {
    var subs := WriteMany(l.subMeshes, WriteSubMesh) + rest;
    var tris := WriteMany(l.triangles, WriteTriangle) + subs;
    var verts := WriteMany(l.vertices, WriteVertex) + tris;
    var h := HeaderOf(l);
    assert h.numVertices == |l.vertices| && h.numTriangles == |l.triangles| && h.numSubMeshes == |l.subMeshes|;
    assert WriteLod(l) + rest == WriteLodHeader(h) + verts;
    ReadWriteLodHeader(h, verts);
    ReadWriteVertices(l.vertices, tris);
    ReadWriteTriangles(l.triangles, subs);
    ReadWriteSubMeshes(l.subMeshes, rest);
  }

  lemma ReadWriteLods(ls: seq<Lod>, rest: seq<Token>)
    requires forall i :: 0 <= i < |ls| ==> LodFits(ls[i])
    ensures ReadMany(|ls|, WriteMany(ls, WriteLod) + rest, ReadLod) == Success(Parsed(ls, rest))
  {
    forall x, r | LodFits(x) ensures ReadLod(WriteLod(x) + r) == Success(Parsed(x, r)) {
      ReadWriteLod(x, r);
    }
    ReadWriteMany(ls, rest, WriteLod, ReadLod, LodFits);
  }

  /** What survives the one-byte counts: the first (count mod 256) LODs and materials. */
  function Surviving(d: Descriptor): Descriptor {
    Descriptor(d.bounds, d.lods[..|d.lods| % 0x100], d.materials[..|d.materials| % 0x100])
  }

  /**
   Loading what `SaveConsistent` wrote gives back the bounds, the first
   (count mod 256) LODs and the first (count mod 256) materials, the LODs
   appended to the ones already held, and consumes exactly the written tokens.
   */
  lemma {:induction false} LoadSaveConsistent(d: Descriptor, into: Descriptor, rest: seq<Token>)
    requires LodsFit(d)
    ensures Load(SaveConsistent(d) + rest, into)
      == Success(Parsed(Descriptor(d.bounds, into.lods + Surviving(d).lods, Surviving(d).materials), rest))
  {
    var numLods, numMats := TruncU8(|d.lods|), TruncU8(|d.materials|);
    var lods, mats := d.lods[..numLods], d.materials[..numMats];
    var matTail := WriteMany(mats, WriteMaterial) + rest;
    var lodTail := WriteMany(lods, WriteLod) + ([U8(numMats)] + matTail);
    var afterVersion := WriteBounds(d.bounds) + ([U8(numLods)] + lodTail);
    var s := SaveConsistent(d) + rest;
    assert ReadU8(s) == Success(Parsed(Version, afterVersion)) by {
      Reassociate([U8(Version)], WriteBounds(d.bounds), [U8(numLods)], WriteMany(lods, WriteLod),
                  [U8(numMats)], WriteMany(mats, WriteMaterial), rest);
    }
    assert ReadBounds(afterVersion) == Success(Parsed(d.bounds, [U8(numLods)] + lodTail)) by {
      ReadWriteBounds(d.bounds, [U8(numLods)] + lodTail);
    }
    assert ReadU8([U8(numLods)] + lodTail) == Success(Parsed(numLods, lodTail));
    assert ReadMany(numLods, lodTail, ReadLod) == Success(Parsed(lods, [U8(numMats)] + matTail)) by {
      ReadWriteLods(lods, [U8(numMats)] + matTail);
    }
    assert ReadU8([U8(numMats)] + matTail) == Success(Parsed(numMats, matTail));
    assert ReadMany(numMats, matTail, ReadMaterial) == Success(Parsed(mats, rest)) by {
      ReadWriteMaterials(mats, rest);
    }
  }

  /** The round trip of the format: a well-sized descriptor survives `Save` then `Load`. */
  lemma {:induction false} LoadSaveRoundTrip(d: Descriptor, rest: seq<Token>)
    requires WellSized(d)
    ensures Load(Save(d) + rest, EmptyDescriptor) == Success(Parsed(d, rest))
  {
    assert d.lods[..|d.lods| % 0x100] == d.lods;
    assert d.materials[..|d.materials| % 0x100] == d.materials;
    assert EmptyDescriptor.lods + d.lods == d.lods;
    assert Descriptor(d.bounds, EmptyDescriptor.lods + Surviving(d).lods, Surviving(d).materials) == d;
    LoadSaveConsistent(d, EmptyDescriptor, rest);
    assert SaveConsistent(d) == Save(d);
  }

  /**
   `Save` as written, given 256 materials and no LODs: the byte it writes as
   the material count is 0, so `Load` reads no material back and stops in
   front of all 256 written ones.
   */
  lemma SaveTooManyMaterials(b: Bounds, m: Material)
    ensures
      var d := Descriptor(b, [], seq(0x100, _ => m));
      Load(Save(d), EmptyDescriptor)
        == Success(Parsed(Descriptor(b, [], []), WriteMany(d.materials, WriteMaterial)))
  {
    var d := Descriptor(b, [], seq(0x100, _ => m));
    var tail := WriteMany(d.materials, WriteMaterial);
    assert Save(d) == [U8(Version)] + (WriteBounds(b) + ([U8(0)] + ([U8(0)] + tail)));
    ReadWriteBounds(b, [U8(0)] + ([U8(0)] + tail));
  }
}
