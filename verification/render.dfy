/**
 What the mesh and grey-box components share when they extract render data:
 resource handles, render-data categories, the hashes they key batches by,
 and the 32-bit key and id packings.
 */
module Render {
  import opened Stream

  /**
   A typed resource handle (`ezTypedResourceHandle`), identified by the
   resource id it was loaded or created under.
   */
  datatype Handle = Invalid | Valid(id: string)

  /** A valid handle never carries the empty id, which the engine reserves for "none". */
  predicate WellFormed(h: Handle) {
    h.Valid? ==> h.id != ""
  }

  /**
   `LoadResource` behind the components' string setters: an empty name
   yields the invalid handle, any other name the handle of that resource.
   */
  function LoadByName(name: string): (h: Handle)
    ensures WellFormed(h)
    ensures h.Valid? <==> name != ""
  {
    if name == "" then Invalid else Valid(name)
  }

  /** The id a component reports or serializes for a handle: "" when invalid. */
  function IdOf(h: Handle): string {
    if h.Valid? then h.id else ""
  }

  /** Naming a resource by its id and loading it by that name are inverse. */
  lemma NameRoundTrip(name: string, h: Handle)
    ensures IdOf(LoadByName(name)) == name
    ensures WellFormed(h) ==> LoadByName(IdOf(h)) == h
  {
  }

  /** A submesh as `AddSubMesh(primitiveCount, firstPrimitive, materialIndex)` records it. */
  datatype MeshPart = MeshPart(primitiveCount: u32, firstPrimitive: u32, materialIndex: u32)

  /**
   A mesh resource as extraction sees it once locked: its submeshes and its
   own material table. Vertex and index buffers are not modelled.
   */
  datatype MeshView = MeshView(parts: seq<MeshPart>, materials: seq<Handle>)

  /** `ezRenderData::Category`; `InvalidIndex` stands for "not set". */
  type Category = u32

  const InvalidIndex: u32 := 0xFFFF_FFFF

  /**
   The categories the renderer registers at start-up. Their numbers are
   assigned at run time, so they are parameters here.
   */
  datatype DefaultCategories = DefaultCategories(opaqueCategory: Category, litOpaqueCategory: Category)

  /**
   The hashes extraction keys by: the hash of a resource id
   (`GetResourceIDHash`) and `ezHashing::MurmurHash` over an array of 32-bit
   words. Neither is evaluated.
   */
  datatype Hashing = Hashing(idHash: string -> bv32, murmur: seq<bv32> -> bv32)

  /**
   Packs a material index into the top byte of a per-object id: the editor
   picking id of the mesh component, the unique id of the grey box.
   */
  function PackMaterialIndex(id: bv32, materialIndex: bv32): bv32 {
    id | (materialIndex << 24)
  }

  /**
   The packing keeps the id's low 24 bits and puts the material index's low
   byte on top of the id's top byte; an id below 2^24 and an index below 256
   can both be read back.
   */
  lemma PackMaterialIndexBits(id: bv32, materialIndex: bv32)
    ensures PackMaterialIndex(id, materialIndex) & 0x00FF_FFFF == id & 0x00FF_FFFF
    ensures PackMaterialIndex(id, materialIndex) >> 24 == (id >> 24) | (materialIndex & 0xFF)
    ensures id < 0x0100_0000 && materialIndex < 0x100 ==>
      && PackMaterialIndex(id, materialIndex) >> 24 == materialIndex
      && PackMaterialIndex(id, materialIndex) & 0x00FF_FFFF == id
  {
  }
}
