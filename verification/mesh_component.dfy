/**
 The mesh component (`ezMeshComponent`): per-submesh material resolution,
 batch ids and categories when extracting render data, the editing
 operations on its material-override array, and its serialized form.

 The locked mesh resource is given as a `MeshView`.
 */
module MeshComponent {
  import opened Wrappers
  import opened Stream
  import opened Render

  datatype MeshComponent = MeshComponent(
    mesh: Handle,
    color: Color,
    category: Category,     // the component's own category; InvalidIndex when not set
    materials: seq<Handle>, // per-slot overrides; an invalid handle overrides nothing
    pickingId: bv32)

  /** `ezColor::White`: four floats 1.0. */
  const White := Color(0x3F80_0000, 0x3F80_0000, 0x3F80_0000, 0x3F80_0000)

  /**
   A newly constructed component: no mesh, white, no category of its own, no
   overrides. The picking id is assigned by the editor.
   */
  function Fresh(pickingId: bv32): MeshComponent {
    MeshComponent(Invalid, White, InvalidIndex, [], pickingId)
  }

  /**
   `GetMaterial(i)`: the override in slot i, or the invalid handle when there
   is no such slot.
   */
  function GetMaterial(c: MeshComponent, index: nat): Handle {
    if index < |c.materials| then c.materials[index] else Invalid
  }

  // ---------------------------------------------------------------------
  // Extraction

  datatype ExtractError =
    | MaterialIndexOutOfRange(part: nat) // no override, and the mesh has no material at the index
    | NoMaterial(part: nat)              // the resolved handle is invalid and cannot be locked

  /**
   The material a submesh is drawn with: the component's override at the
   submesh's material index if that is valid, else the mesh's own material
   at that index.
   */
  function ResolveMaterial(c: MeshComponent, view: MeshView, index: nat): (r: Option<Handle>)
    ensures GetMaterial(c, index).Valid? ==> r == Some(c.materials[index])
    ensures GetMaterial(c, index).Invalid? && index < |view.materials| ==> r == Some(view.materials[index])
    ensures r.None? <==> GetMaterial(c, index).Invalid? && index >= |view.materials|
  {
    if GetMaterial(c, index).Valid? then Some(c.materials[index])
    else if index < |view.materials| then Some(view.materials[index])
    else None
  }

  /**
   The batch id of a part: the part index in bits 28-31, the low 28 bits of
   the hash of mesh, material and part below it.
   */
  function MeshBatchId(partIndex: bv32, hash: bv32): bv32 {
    (partIndex << 28) | (hash & 0x0FFF_FFFF)
  }

  lemma MeshBatchIdBits(partIndex: bv32, hash: bv32)
    ensures MeshBatchId(partIndex, hash) >> 28 == partIndex & 0xF
    ensures MeshBatchId(partIndex, hash) & 0x0FFF_FFFF == hash & 0x0FFF_FFFF
  {
  }

  /** Parts with a lower index (below 16) always sort first, whatever their hashes. */
  lemma MeshBatchIdOrder(p: bv32, q: bv32, hp: bv32, hq: bv32)
    requires p < q < 16
    ensures MeshBatchId(p, hp) < MeshBatchId(q, hq)
  {
  }

  /**
   The category of every part: the message's override if set, else the
   component's own category if set, else opaque.
   */
  function MeshCategory(own: Category, messageOverride: Category, defaults: DefaultCategories): (r: Category)
    ensures messageOverride != InvalidIndex ==> r == messageOverride
    ensures messageOverride == InvalidIndex && own != InvalidIndex ==> r == own
    ensures messageOverride == InvalidIndex && own == InvalidIndex ==> r == defaults.opaqueCategory
  {
    var category := defaults.opaqueCategory;
    var category := if own != InvalidIndex then own else category;
    if messageOverride != InvalidIndex then messageOverride else category
  }

  /** The editor picking id of a part: the component's id with the submesh's material index on top. */
  function PartPickingId(c: MeshComponent, materialIndex: u32): bv32 {
    PackMaterialIndex(c.pickingId, materialIndex as bv32)
  }

  /** `ezMeshRenderData` as filled in here, plus the category it is added under. */
  datatype MeshRenderData = MeshRenderData(
    batchId: bv32,
    mesh: Handle,
    material: Handle,
    partIndex: nat,
    pickingId: bv32,
    color: Color,
    category: Category)

  /** The batch id of part `i` drawn with `material` in the mesh of id hash `meshHash`. */
  function PartBatchId(h: Hashing, meshHash: bv32, material: Handle, i: nat): bv32
    requires i < 0x1_0000_0000
  {
    var words := [meshHash, h.idHash(IdOf(material)), i as bv32];
    MeshBatchId(i as bv32, h.murmur(words))
  }

  /**
   `OnExtractRenderData`: nothing without a mesh; otherwise one record per
   submesh, in ascending part index, or the first part whose material cannot
   be resolved or locked.
   */
  method ExtractRenderData(
    c: MeshComponent, view: MeshView, h: Hashing,
    messageOverride: Category, defaults: DefaultCategories)
    returns (r: Result<seq<MeshRenderData>, ExtractError>)
    requires |view.parts| <= 0x1_0000_0000
    ensures c.mesh.Invalid? ==> r == Success([])
    ensures c.mesh.Valid? && r.Success? ==>
      var parts := view.parts;
      && |r.value| == |parts|
      && forall i :: 0 <= i < |parts| ==>
        && ResolveMaterial(c, view, parts[i].materialIndex) == Some(r.value[i].material)
        && r.value[i].material.Valid?
        && r.value[i].partIndex == i
        && r.value[i].mesh == c.mesh
        && r.value[i].batchId == PartBatchId(h, h.idHash(c.mesh.id), r.value[i].material, i)
        && r.value[i].pickingId == PartPickingId(c, parts[i].materialIndex)
        && r.value[i].color == c.color
        && r.value[i].category == MeshCategory(c.category, messageOverride, defaults)
    ensures c.mesh.Valid? && r.Failure? ==>
      var i := r.error.part;
      && i < |view.parts|
      && (forall k :: 0 <= k < i ==> ResolveMaterial(c, view, view.parts[k].materialIndex).Some?
                                      && ResolveMaterial(c, view, view.parts[k].materialIndex).value.Valid?)
      && (r.error.MaterialIndexOutOfRange? <==> ResolveMaterial(c, view, view.parts[i].materialIndex).None?)
      && (r.error.NoMaterial? <==> ResolveMaterial(c, view, view.parts[i].materialIndex) == Some(Invalid))
  {
    if c.mesh.Invalid? {
      return Success([]);
    }
    var meshHash := h.idHash(c.mesh.id);
    var category := MeshCategory(c.category, messageOverride, defaults);
    var records: seq<MeshRenderData> := [];
    for i := 0 to |view.parts|
      invariant |records| == i
      invariant forall k :: 0 <= k < i ==>
        && ResolveMaterial(c, view, view.parts[k].materialIndex) == Some(records[k].material)
        && records[k].material.Valid?
        && records[k] == MeshRenderData(
             PartBatchId(h, meshHash, records[k].material, k), c.mesh, records[k].material, k,
             PartPickingId(c, view.parts[k].materialIndex), c.color, category)
    {
      var materialIndex := view.parts[i].materialIndex;
      var resolved := ResolveMaterial(c, view, materialIndex);
      if resolved.None? {
        return Failure(MaterialIndexOutOfRange(i));
      }
      var material := resolved.value;
      if material.Invalid? {
        return Failure(NoMaterial(i));
      }
      var record := MeshRenderData(
        PartBatchId(h, meshHash, material, i), c.mesh, material, i,
        PartPickingId(c, materialIndex), c.color, category);
      records := records + [record];
    }
    return Success(records);
  }

  // ---------------------------------------------------------------------
  // The "Materials" array property

  /** `Materials_GetCount`: every slot from the count on reads as "". */
  function MaterialsGetCount(c: MeshComponent): (r: nat)
    ensures forall k: nat :: r <= k ==> MaterialsGetValue(c, k) == ""
  {
    |c.materials|
  }

  /**
   `Materials_GetValue`: the resource id of the override in slot i; "" when
   it is invalid or missing. Loading that id gives the override back.
   */
  function MaterialsGetValue(c: MeshComponent, index: nat): (r: string)
    ensures |c.materials| <= index ==> r == ""
    ensures index < |c.materials| && WellFormed(c.materials[index]) ==> LoadByName(r) == c.materials[index]
  {
    NameRoundTrip("", GetMaterial(c, index));
    IdOf(GetMaterial(c, index))
  }

  /**
   `SetMaterial(i, h)`: the array grows with invalid handles until slot i
   exists, then slot i holds h.
   */
  function SetMaterial(materials: seq<Handle>, index: nat, h: Handle): (r: seq<Handle>)
    ensures |r| == if index < |materials| then |materials| else index + 1
    ensures r[index] == h
    ensures forall k :: 0 <= k < |r| && k != index ==>
      r[k] == if k < |materials| then materials[k] else Invalid
  {
    var grown := if index < |materials| then materials
                 else materials + seq(index + 1 - |materials|, _ => Invalid);
    grown[index := h]
  }

  /** Slot i overridden by the named material; an empty name clears the override. */
  function MaterialsSetValue(c: MeshComponent, index: nat, value: string): (r: MeshComponent)
    ensures |r.materials| == if index < |c.materials| then |c.materials| else index + 1
    ensures r.materials[index] == LoadByName(value)
    ensures r.materials[index].Valid? <==> value != ""
    ensures forall k :: 0 <= k < |r.materials| && k != index ==>
      r.materials[k] == if k < |c.materials| then c.materials[k] else Invalid
    ensures r.(materials := c.materials) == c
  {
    c.(materials := SetMaterial(c.materials, index, LoadByName(value)))
  }

  /** A new slot before slot i, later slots shifting up by one. */
  function MaterialsInsert(c: MeshComponent, index: nat, value: string): (r: MeshComponent)
    requires index <= |c.materials|
    ensures |r.materials| == |c.materials| + 1
    ensures r.materials[index] == LoadByName(value)
    ensures forall k :: 0 <= k < index ==> r.materials[k] == c.materials[k]
    ensures forall k :: index < k < |r.materials| ==> r.materials[k] == c.materials[k - 1]
    ensures r.(materials := c.materials) == c
  {
    c.(materials := c.materials[..index] + [LoadByName(value)] + c.materials[index..])
  }

  /** Slot i removed, later slots shifting down by one. */
  function MaterialsRemove(c: MeshComponent, index: nat): (r: MeshComponent)
    requires index < |c.materials|
    ensures |r.materials| == |c.materials| - 1
    ensures forall k :: 0 <= k < index ==> r.materials[k] == c.materials[k]
    ensures forall k :: index <= k < |r.materials| ==> r.materials[k] == c.materials[k + 1]
    ensures r.(materials := c.materials) == c
  {
    c.(materials := c.materials[..index] + c.materials[index + 1..])
  }

  /** Setting a slot and reading it back gives the name set; no other slot changes. */
  lemma {:induction false} SetThenGet(c: MeshComponent, index: nat, value: string)
    ensures MaterialsGetValue(MaterialsSetValue(c, index, value), index) == value
    ensures forall k: nat :: k != index ==>
      MaterialsGetValue(MaterialsSetValue(c, index, value), k) == MaterialsGetValue(c, k)
    ensures MaterialsGetCount(MaterialsSetValue(c, index, value))
      == if index < |c.materials| then |c.materials| else index + 1
  {
    var c' := MaterialsSetValue(c, index, value);
    forall k: nat | k != index
      ensures MaterialsGetValue(c', k) == MaterialsGetValue(c, k)
    {
    }
  }

  /** Inserting then reading the new slot gives the name inserted; removing it again undoes the insert. */
  lemma {:induction false} InsertThenRemove(c: MeshComponent, index: nat, value: string)
    requires index <= |c.materials|
    ensures MaterialsGetValue(MaterialsInsert(c, index, value), index) == value
    ensures MaterialsGetCount(MaterialsInsert(c, index, value)) == MaterialsGetCount(c) + 1
    ensures MaterialsRemove(MaterialsInsert(c, index, value), index) == c
  {
    var c' := MaterialsInsert(c, index, value);
    assert c'.materials[..index] + c'.materials[index + 1..] == c.materials;
  }

  // ---------------------------------------------------------------------
  // Serialization

  /** `GetMeshFile`: the mesh's resource id, "" without a mesh. */
  function MeshFile(c: MeshComponent): string {
    IdOf(c.mesh)
  }

  /** One override: its id as a string, "" when invalid. */
  function WriteOverride(h: Handle): seq<Token> {
    [Str(IdOf(h))]
  }

  function WriteName(n: string): seq<Token> {
    [Str(n)]
  }

  /** Mesh file, colour, category, override count, then each override's id ("" if invalid). */
  function SerializeComponent(c: MeshComponent): (r: seq<Token>)
    ensures |r| == 7 + |c.materials|
    ensures r[0] == Str(MeshFile(c)) && r[1..5] == WriteColor(c.color)
    ensures r[5] == U32(c.category) && r[6] == U32(TruncU32(|c.materials|))
    ensures forall k :: 0 <= k < |c.materials| ==> r[7 + k] == Str(IdOf(c.materials[k]))
  {
    OverrideTokens(c.materials);
    [Str(MeshFile(c))] + WriteColor(c.color) + [U32(c.category), U32(TruncU32(|c.materials|))]
    + WriteMany(c.materials, WriteOverride)
  }

  /** One string token per override: its id, "" for an invalid one. */
  lemma {:induction false} OverrideTokens(hs: seq<Handle>)
    ensures |WriteMany(hs, WriteOverride)| == |hs|
    ensures forall k :: 0 <= k < |hs| ==> WriteMany(hs, WriteOverride)[k] == Str(IdOf(hs[k]))
    decreases |hs|
  {
    if |hs| > 0 {
      OverrideTokens(hs[1..]);
    }
  }

  /**
   The override array after reading `names` into `prior`: resized to the count
   read (new slots invalid), then every non-empty name loaded into its slot;
   an empty name leaves the slot as it was.
   */
  function ReadOverrides(prior: seq<Handle>, names: seq<string>): (r: seq<Handle>)
    ensures |r| == |names|
    ensures forall k :: 0 <= k < |r| ==>
      r[k] == if names[k] != "" then Valid(names[k]) else if k < |prior| then prior[k] else Invalid
  {
    seq(|names|, k requires 0 <= k < |names| =>
      if names[k] != "" then LoadByName(names[k]) else if k < |prior| then prior[k] else Invalid)
  }

  /**
   `DeserializeComponent` into `c`: the fields are read in the order they
   were written. The picking id is not part of the stream.
   */
  function DeserializeComponent(c: MeshComponent, s: seq<Token>): (r: Read<MeshComponent>)
    ensures |s| == 0 ==> r == Failure(Truncated)
    ensures 0 < |s| && !s[0].Str? ==> r == Failure(UnexpectedToken(s[0]))
    ensures r.Success? ==>
      && 7 <= |s| && s[0].Str? && s[5].U32? && s[6].U32?
      && r.value.value.mesh == LoadByName(s[0].text)
      && r.value.value.category == s[5].w
      && |r.value.value.materials| == s[6].w
      && r.value.value.pickingId == c.pickingId
  {
    var meshFile :- ReadStr(s);
    var color :- ReadColor(meshFile.rest);
    var category :- ReadU32(color.rest);
    var count :- ReadU32(category.rest);
    var names :- ReadMany(count.value, count.rest, ReadStr);
    var c' := c.(mesh := LoadByName(meshFile.value), color := color.value, category := category.value,
                 materials := ReadOverrides(c.materials, names.value));
    Success(Parsed(c', names.rest))
  }

  predicate Serializable(c: MeshComponent) {
    && WellFormed(c.mesh)
    && (forall k :: 0 <= k < |c.materials| ==> WellFormed(c.materials[k]))
    && |c.materials| < 0x1_0000_0000
  }

  /**
   Deserializing what was serialized into a freshly constructed component
   gives back the component, except for its picking id.
   */
  lemma {:induction false} SerializeRoundTrip(c: MeshComponent, pickingId: bv32, rest: seq<Token>)
    requires Serializable(c)
    ensures DeserializeComponent(Fresh(pickingId), SerializeComponent(c) + rest)
      == Success(Parsed(c.(pickingId := pickingId), rest))
  {
    var n := |c.materials|;
    var tail := WriteMany(c.materials, WriteOverride) + rest;
    var afterCategory := [U32(n)] + tail;
    var afterColor := [U32(c.category)] + afterCategory;
    var afterMesh := WriteColor(c.color) + afterColor;
    var s := SerializeComponent(c) + rest;
    assert ReadStr(s) == Success(Parsed(MeshFile(c), afterMesh)) by {
      assert TruncU32(n) == n;
      assert s == [Str(MeshFile(c))] + afterMesh;
    }
    assert ReadColor(afterMesh) == Success(Parsed(c.color, afterColor)) by {
      ReadWriteColor(c.color, afterColor);
    }
    assert ReadU32(afterColor) == Success(Parsed(c.category, afterCategory)) by {
      assert afterColor[1..] == afterCategory;
    }
    assert ReadU32(afterCategory) == Success(Parsed(n, tail)) by {
      assert afterCategory[1..] == tail;
    }
    assert ReadMany(n, tail, ReadStr) == Success(Parsed(OverrideNames(c.materials), rest))
      && ReadOverrides([], OverrideNames(c.materials)) == c.materials by {
      ReadOverridesBack(c.materials, rest);
    }
    NameRoundTrip(MeshFile(c), c.mesh);
  }

  /** The count and the ids of the overrides read back as the overrides, into an empty array. */
  lemma ReadOverridesBack(hs: seq<Handle>, rest: seq<Token>)
    requires forall k :: 0 <= k < |hs| ==> WellFormed(hs[k])
    ensures ReadMany(|hs|, WriteMany(hs, WriteOverride) + rest, ReadStr) == Success(Parsed(OverrideNames(hs), rest))
    ensures ReadOverrides([], OverrideNames(hs)) == hs
  {
    var names := OverrideNames(hs);
    WriteOverridesAsNames(hs);
    ReadWriteMany(names, rest, WriteName, ReadStr, (n: string) => true);
    assert ReadOverrides([], names) == hs;
  }

  /** The id of every override, "" for an invalid one. */
  function OverrideNames(hs: seq<Handle>): (r: seq<string>)
    ensures |r| == |hs|
  {
    seq(|hs|, k requires 0 <= k < |hs| => IdOf(hs[k]))
  }

  /** Writing each override's id is writing the sequence of ids, one string token each. */
  lemma {:induction false} WriteOverridesAsNames(hs: seq<Handle>)
    ensures WriteMany(hs, WriteOverride) == WriteMany(OverrideNames(hs), WriteName)
    decreases |hs|
  {
    if |hs| > 0 {
      WriteOverridesAsNames(hs[1..]);
      assert OverrideNames(hs)[1..] == OverrideNames(hs[1..]);
    }
  }
}
