/**
 Turning a Kraut tree descriptor into a tree resource
 (`ezKrautTreeResource::CreateResource`, `UpdateContent`, `UnloadData`).

 The resource manager is modelled by the set of resource names it already
 knows: looking a material up by name succeeds exactly when the name is in
 that set, and creating a resource (a material or a LOD mesh) adds its name. Loading the base materials
 and textures by path is recorded as the path itself. The hash `xxHash32` is
 a parameter, never evaluated.
 */
module KrautResource {
  import opened Wrappers
  import opened Stream
  import opened KrautDescriptor
  import opened Render

  datatype ResourceState = Unloaded | Loaded | LoadedResourceMissing

  /** `ezResourceLoadDesc`: the state a load step leaves and its quality levels. */
  datatype LoadDesc = LoadDesc(state: ResourceState, qualityLevelsDiscardable: nat, qualityLevelsLoadable: nat)

  datatype UnloadMode = AllQualityLevels | OneQualityLevel

  /** The bytes hashed when naming a material: its colour, or a texture path. */
  datatype HashInput = ColorBytes(color: ColorUB) | TextBytes(text: string)

  /** `xxHash32(data, seed)`. */
  type XxHash32 = (HashInput, u32) -> u32

  /**
   Names the tree registers resources under. `KrautMaterialName(h)` is the
   string "KrautMaterial_" followed by the decimal digits of `h`;
   `LodMeshName(id, counter, i)` is "<id>_<counter>_LOD<i>". Both formats are
   injective in their fields, so the names are kept as their fields.
   */
  datatype ResourceName =
    | KrautMaterialName(texHash: u32)
    | LodMeshName(treeId: string, changeCounter: nat, lodIndex: nat)

  datatype TextureBinding = TextureBinding(parameter: string, texture: string)

  /** `ezMaterialResourceDescriptor`: base material path (none: invalid handle) and textures. */
  datatype MaterialDesc = MaterialDesc(baseMaterial: Option<string>, textures: seq<TextureBinding>)

  /** A material resource created while building the tree. */
  datatype CreatedMaterial = CreatedMaterial(name: ResourceName, desc: MaterialDesc, description: string)

  /**
   The mesh resource descriptor built per LOD: vertex count, the index
   buffer, the parts and the material slot names. The vertex streams are not
   modelled.
   */
  datatype MeshDesc = MeshDesc(
    vertexCount: nat,
    triangles: seq<Triangle>,
    parts: seq<MeshPart>,
    materials: seq<ResourceName>)

  datatype TreeLod = TreeLod(
    minLodDistance: FloatBits,
    maxLodDistance: FloatBits,
    mesh: ResourceName,
    meshDesc: MeshDesc)

  /** The parts of `ezKrautTreeResource` that building it changes. */
  datatype Tree = Tree(resourceId: string, changeCounter: nat, bounds: Bounds, lods: seq<TreeLod>)

  // ---------------------------------------------------------------------
  // Unloading

  /**
   The load state reported after unloading: always `Unloaded` with no
   quality levels, whatever was asked for. The tree's LODs and bounds are
   not touched by this step.
   */
  function UnloadData(current: LoadDesc, what: UnloadMode): (r: LoadDesc)
    ensures r.state == Unloaded
    ensures r.qualityLevelsDiscardable == 0 && r.qualityLevelsLoadable == 0
  {
    LoadDesc(Unloaded, 0, 0)
  }

  lemma UnloadIgnoresArguments(a: LoadDesc, wa: UnloadMode, b: LoadDesc, wb: UnloadMode)
    ensures UnloadData(a, wa) == UnloadData(b, wb)
  {
  }

  // ---------------------------------------------------------------------
  // Materials

  /** Hashing `parts` one after the other, each step seeded with the hash so far. */
  function ChainHash(xx: XxHash32, parts: seq<HashInput>, seed: u32): u32
    decreases |parts|
  {
    if |parts| == 0 then seed else ChainHash(xx, parts[1..], xx(parts[0], seed))
  }

  /** The hash a material is named by: its type, then colour, diffuse and normal map folded in. */
  function TextureHash(m: Material, xx: XxHash32): (r: u32)
    ensures r == ChainHash(xx, [ColorBytes(m.variationColor), TextBytes(m.diffuseTexture),
                                TextBytes(m.normalMapTexture)], m.materialType)
  {
    var parts := [ColorBytes(m.variationColor), TextBytes(m.diffuseTexture), TextBytes(m.normalMapTexture)];
    var h := xx(ColorBytes(m.variationColor), m.materialType);
    var h := xx(TextBytes(m.diffuseTexture), h);
    assert ChainHash(xx, parts[2..], h) == xx(TextBytes(m.normalMapTexture), h);
    assert ChainHash(xx, parts[1..], xx(parts[0], m.materialType)) == ChainHash(xx, parts[2..], h);
    xx(TextBytes(m.normalMapTexture), h)
  }

  function MaterialName(m: Material, xx: XxHash32): ResourceName {
    KrautMaterialName(TextureHash(m, xx))
  }

  /**
   The descriptor a missing material is created from: a base material by
   type (branch, frond, leaf; none for any other type) and the two textures.
   */
  function KrautMaterialDesc(m: Material): (r: MaterialDesc)
    ensures r.baseMaterial.Some? <==> m.materialType <= 2
    ensures m.materialType == 0 ==> r.baseMaterial == Some("Kraut/Branch.ezMaterial")
    ensures m.materialType == 1 ==> r.baseMaterial == Some("Kraut/Frond.ezMaterial")
    ensures m.materialType == 2 ==> r.baseMaterial == Some("Kraut/Leaf.ezMaterial")
    ensures |r.textures| == 2
    ensures r.textures[0] == TextureBinding("BaseTexture", m.diffuseTexture)
    ensures r.textures[1] == TextureBinding("NormalTexture", m.normalMapTexture)
  {
    var base :=
      if m.materialType == 0 then Some("Kraut/Branch.ezMaterial")
      else if m.materialType == 1 then Some("Kraut/Frond.ezMaterial")
      else if m.materialType == 2 then Some("Kraut/Leaf.ezMaterial")
      else None;
    MaterialDesc(base, [TextureBinding("BaseTexture", m.diffuseTexture),
                        TextureBinding("NormalTexture", m.normalMapTexture)])
  }

  function Elems<T>(xs: seq<T>): set<T> {
    set x | x in xs
  }

  function CreatedNames(cs: seq<CreatedMaterial>): set<ResourceName> {
    set k | 0 <= k < |cs| :: cs[k].name
  }

  /** The names of the descriptor's materials. */
  function MaterialNames(desc: Descriptor, xx: XxHash32): set<ResourceName> {
    set j | 0 <= j < |desc.materials| :: MaterialName(desc.materials[j], xx)
  }

  /** The names of the mesh resources created for the LODs, one per LOD. */
  function LodMeshNames(tree: Tree, lodCount: nat): set<ResourceName> {
    set i | 0 <= i < lodCount :: LodMeshName(tree.resourceId, tree.changeCounter, i)
  }

  lemma CreatedNamesAppend(cs: seq<CreatedMaterial>, c: CreatedMaterial)
    ensures CreatedNames(cs + [c]) == CreatedNames(cs) + {c.name}
  {
    var cs' := cs + [c];
    assert cs'[|cs|] == c;
    forall n | n in CreatedNames(cs') ensures n in CreatedNames(cs) + {c.name} {
      var k :| 0 <= k < |cs'| && cs'[k].name == n;
      if k < |cs| {
        assert cs[k] == cs'[k];
      }
    }
    forall n | n in CreatedNames(cs) ensures n in CreatedNames(cs') {
      var k :| 0 <= k < |cs| && cs[k].name == n;
      assert cs'[k] == cs[k];
    }
  }

  // ---------------------------------------------------------------------
  // LODs

  /** The mesh descriptor of one LOD: its geometry copied, slot i naming material i. */
  function LodMeshDesc(src: Lod, materials: seq<ResourceName>): MeshDesc {
    MeshDesc(
      |src.vertices|,
      src.triangles,
      seq(|src.subMeshes|, k requires 0 <= k < |src.subMeshes| =>
        MeshPart(src.subMeshes[k].numTriangles, src.subMeshes[k].firstTriangle, src.subMeshes[k].materialIndex)),
      materials)
  }

  /**
   What the material loop has established after the first `j` materials:
   their names in order as handles, the resource manager knowing them, and
   the missing ones created once each from their descriptor material.
   */
  ghost predicate Resolved(
    desc: Descriptor, xx: XxHash32, registry: set<ResourceName>, j: nat,
    handles: seq<ResourceName>, registry': set<ResourceName>, created: seq<CreatedMaterial>)
  {
    && j <= |desc.materials|
    && |handles| == j
    && (forall m :: 0 <= m < j ==> handles[m] == MaterialName(desc.materials[m], xx))
    && registry' == registry + Elems(handles)
    && CreatedNames(created) == registry' - registry
    && (forall k, l :: 0 <= k < l < |created| ==> created[k].name != created[l].name)
    && (forall k :: 0 <= k < |created| ==> MadeFrom(desc, xx, created[k]))
  }

  /** One turn of the material loop keeps `Resolved`, whether the material existed or not. */
  lemma ResolveStep(
    desc: Descriptor, xx: XxHash32, registry: set<ResourceName>, j: nat,
    handles: seq<ResourceName>, registry': set<ResourceName>, created: seq<CreatedMaterial>)
    requires Resolved(desc, xx, registry, j, handles, registry', created) && j < |desc.materials|
    ensures
      var mat := desc.materials[j];
      var name := MaterialName(mat, xx);
      && (name in registry' ==>
            Resolved(desc, xx, registry, j + 1, handles + [name], registry', created))
      && (name !in registry' ==>
            Resolved(desc, xx, registry, j + 1, handles + [name], registry' + {name},
                     created + [CreatedMaterial(name, KrautMaterialDesc(mat), mat.diffuseTexture)]))
  {
    var mat := desc.materials[j];
    var name := MaterialName(mat, xx);
    assert Elems(handles + [name]) == Elems(handles) + {name};
    if name !in registry' {
      var c := CreatedMaterial(name, KrautMaterialDesc(mat), mat.diffuseTexture);
      assert MadeFrom(desc, xx, c);
      CreatedNamesAppend(created, c);
    }
  }

  /**
   The material loop of `CreateResource`: every descriptor material gets a
   handle, in order, named by its hash; a name the resource manager does not
   know yet is created once, from the material's descriptor.
   */
  method ResolveMaterials(desc: Descriptor, registry: set<ResourceName>, xx: XxHash32)
    returns (handles: seq<ResourceName>, registry': set<ResourceName>, created: seq<CreatedMaterial>)
    ensures |handles| == |desc.materials|
    ensures forall j :: 0 <= j < |handles| ==> handles[j] == MaterialName(desc.materials[j], xx)
    ensures registry' == registry + MaterialNames(desc, xx)
    ensures CreatedNames(created) == MaterialNames(desc, xx) - registry
    ensures forall k, l :: 0 <= k < l < |created| ==> created[k].name != created[l].name
    ensures forall k :: 0 <= k < |created| ==> MadeFrom(desc, xx, created[k])
  {
    handles := [];
    registry' := registry;
    created := [];
    for j := 0 to |desc.materials|
      invariant Resolved(desc, xx, registry, j, handles, registry', created)
    {
      ResolveStep(desc, xx, registry, j, handles, registry', created);
      var mat := desc.materials[j];
      var name := MaterialName(mat, xx);
      if name !in registry' {
        created := created + [CreatedMaterial(name, KrautMaterialDesc(mat), mat.diffuseTexture)];
        registry' := registry' + {name};
      }
      handles := handles + [name];
    }
    HandleNames(desc, xx, handles);
  }

  /**
   `c` was created for one of the descriptor's materials: under its name,
   from its material descriptor, described by its diffuse texture.
   */
  predicate MadeFrom(desc: Descriptor, xx: XxHash32, c: CreatedMaterial) {
    exists j :: 0 <= j < |desc.materials| && c == CreatedMaterial(
      MaterialName(desc.materials[j], xx), KrautMaterialDesc(desc.materials[j]), desc.materials[j].diffuseTexture)
  }

  /** The handles named in order are exactly the descriptor's material names. */
  lemma HandleNames(desc: Descriptor, xx: XxHash32, handles: seq<ResourceName>)
    requires |handles| == |desc.materials|
    requires forall j :: 0 <= j < |handles| ==> handles[j] == MaterialName(desc.materials[j], xx)
    ensures Elems(handles) == MaterialNames(desc, xx)
  {
    forall n | n in Elems(handles)
      ensures n in MaterialNames(desc, xx)
    {
      var m :| 0 <= m < |handles| && handles[m] == n;
    }
  }

  /**
   The LOD loop of `CreateResource`: one tree LOD per descriptor LOD, in
   order, each with its distances, a mesh resource created under the name
   "<id>_<counter>_LOD<i>", and that mesh's descriptor naming `handles`.
   */
  method BuildLods(tree: Tree, desc: Descriptor, handles: seq<ResourceName>, registry: set<ResourceName>)
    returns (lods: seq<TreeLod>, registry': set<ResourceName>)
    ensures |lods| == |desc.lods|
    ensures forall i :: 0 <= i < |desc.lods| ==>
      lods[i] == TreeLod(desc.lods[i].minLodDistance, desc.lods[i].maxLodDistance,
                         LodMeshName(tree.resourceId, tree.changeCounter, i),
                         LodMeshDesc(desc.lods[i], handles))
    ensures registry' == registry + LodMeshNames(tree, |desc.lods|)
  {
    lods := [];
    registry' := registry;
    for i := 0 to |desc.lods|
      invariant |lods| == i
      invariant forall m :: 0 <= m < i ==>
        lods[m] == TreeLod(desc.lods[m].minLodDistance, desc.lods[m].maxLodDistance,
                           LodMeshName(tree.resourceId, tree.changeCounter, m),
                           LodMeshDesc(desc.lods[m], handles))
      invariant registry' == registry + LodMeshNames(tree, i)
    {
      var src := desc.lods[i];
      var lod := TreeLod(src.minLodDistance, src.maxLodDistance,
                         LodMeshName(tree.resourceId, tree.changeCounter, i),
                         LodMeshDesc(src, handles));
      lods := lods + [lod];
      assert LodMeshNames(tree, i + 1) == LodMeshNames(tree, i) + {lod.mesh};
      registry' := registry' + {lod.mesh};
    }
  }

  /**
   Builds the tree from a descriptor. The old LODs are discarded. Every
   descriptor material gets a handle, in order: the existing resource of its
   name if there is one, else a newly created one. Every descriptor LOD
   becomes one tree LOD, in order, with its distances, its geometry, and
   material slot i naming the i-th handle.
   */
  method CreateResource(tree: Tree, desc: Descriptor, registry: set<ResourceName>, xx: XxHash32)
    returns (res: LoadDesc, tree': Tree, registry': set<ResourceName>, created: seq<CreatedMaterial>)
    ensures res == LoadDesc(Loaded, 0, 0)
    ensures tree'.resourceId == tree.resourceId && tree'.changeCounter == tree.changeCounter
    ensures tree'.bounds == desc.bounds
    ensures |tree'.lods| == |desc.lods|
    ensures forall i :: 0 <= i < |desc.lods| ==>
      && tree'.lods[i].minLodDistance == desc.lods[i].minLodDistance
      && tree'.lods[i].maxLodDistance == desc.lods[i].maxLodDistance
      && tree'.lods[i].mesh == LodMeshName(tree.resourceId, tree.changeCounter, i)
      && tree'.lods[i].meshDesc.vertexCount == |desc.lods[i].vertices|
      && tree'.lods[i].meshDesc.triangles == desc.lods[i].triangles
      && |tree'.lods[i].meshDesc.parts| == |desc.lods[i].subMeshes|
      && |tree'.lods[i].meshDesc.materials| == |desc.materials|
    ensures forall i, k :: 0 <= i < |desc.lods| && 0 <= k < |desc.lods[i].subMeshes| ==>
      var sm := desc.lods[i].subMeshes[k];
      tree'.lods[i].meshDesc.parts[k] == MeshPart(sm.numTriangles, sm.firstTriangle, sm.materialIndex)
    ensures forall i, j :: 0 <= i < |desc.lods| && 0 <= j < |desc.materials| ==>
      tree'.lods[i].meshDesc.materials[j] == MaterialName(desc.materials[j], xx)
    // the resource manager: every material and LOD mesh name is now known;
    // only missing materials were created, once each
    ensures registry' == registry + MaterialNames(desc, xx) + LodMeshNames(tree, |desc.lods|)
    ensures CreatedNames(created) == MaterialNames(desc, xx) - registry
    ensures forall k, l :: 0 <= k < l < |created| ==> created[k].name != created[l].name
    ensures forall k :: 0 <= k < |created| ==> MadeFrom(desc, xx, created[k])
  {
    var handles, withMaterials, made := ResolveMaterials(desc, registry, xx);
    var lods, withMeshes := BuildLods(tree, desc, handles, withMaterials);
    tree' := Tree(tree.resourceId, tree.changeCounter, desc.bounds, lods);
    registry' := withMeshes;
    created := made;
    res := LoadDesc(Loaded, 0, 0);
  }

  // ---------------------------------------------------------------------
  // Loading from a stream

  /**
   What the resource stream holds in front of the descriptor: the absolute
   file path, then the asset file header (a 64-bit hash and a 16-bit version).
   */
  function SkipPreamble(s: seq<Token>): Read<()> {
    var path :- ReadStr(s);
    var hash :- ReadU64(path.rest);
    var version :- ReadU16(hash.rest);
    Success(Parsed((), version.rest))
  }

  /** The descriptor a resource stream carries, read into a fresh descriptor. */
  function StreamDescriptor(s: seq<Token>): Read<Descriptor> {
    var preamble :- SkipPreamble(s);
    Load(preamble.rest, EmptyDescriptor)
  }

  /**
   Loads the tree from a stream. A missing stream, or a descriptor that does
   not load, leaves the tree and the resource manager as they were and
   reports the resource as missing; otherwise the tree is built from the
   descriptor read.
   */
  method UpdateContent(tree: Tree, stream: Option<seq<Token>>, registry: set<ResourceName>, xx: XxHash32)
    returns (res: LoadDesc, tree': Tree, registry': set<ResourceName>, created: seq<CreatedMaterial>)
    ensures res.qualityLevelsDiscardable == 0 && res.qualityLevelsLoadable == 0
    ensures res.state != Unloaded
    ensures res.state == LoadedResourceMissing <==>
      stream.None? || StreamDescriptor(stream.value).Failure?
    ensures res.state == LoadedResourceMissing ==>
      tree' == tree && registry' == registry && created == []
    ensures res.state == Loaded ==>
      var d := StreamDescriptor(stream.value).value.value;
      && tree'.bounds == d.bounds
      && |tree'.lods| == |d.lods|
      && registry <= registry'
  {
    if stream.None? {
      return LoadDesc(LoadedResourceMissing, 0, 0), tree, registry, [];
    }
    var loaded := StreamDescriptor(stream.value);
    if loaded.Failure? {
      return LoadDesc(LoadedResourceMissing, 0, 0), tree, registry, [];
    }
    res, tree', registry', created := CreateResource(tree, loaded.value.value, registry, xx);
  }
}
