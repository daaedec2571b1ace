# ezEngine: Kraut trees, mesh and grey-box components, procedural placement nodes

A Dafny model of four pieces of ezEngine:

- **Kraut tree resource.** The binary descriptor of a Kraut tree is saved and loaded as a versioned stream. Loading builds the tree resource from the descriptor: one material per descriptor material, found or created under a name hashed from its type, variation colour and two textures, and one mesh resource per level of detail. Unloading reports the resource `Unloaded` with no quality levels.
- **Mesh component.** A mesh component resolves the material of every submesh. A valid override in its own material array wins; otherwise the mesh's own material is used. It emits one render-data record per submesh, with a batch id, a picking id and a category. It edits the override array through the `Materials_*` accessors and serializes the mesh name, colour, category and overrides.
- **Grey-box component.** The grey-box component caches a generated box mesh under a name built from its six sizes. Every shape or size setter drops the cache. Extraction regenerates the mesh when needed and emits one record per part, with a batch id, a unique id, a category and a sorting key. The component serializes its shape and sizes.
- **Procedural placement nodes.** The editor's placement nodes lower themselves into an expression AST: the layer output, random, blend and height nodes. The layer output also saves its settings to a stream.

Modules:

- `Wrappers`: Option/Result.
- `Stream`: the serialized stream as a sequence of typed tokens, with readers that fail on a truncated stream or a token of the wrong kind.
- `Render`: resource handles, categories, the hash functions and the 32-bit id packing shared by both components.
- `KrautDescriptor`: `Save`/`Load`.
- `KrautResource`: `CreateResource`, `UpdateContent`, `UnloadData`.
- `MeshComponent`, `GreyBoxComponent`, `PlacementNodes`.

Modelling choices:

- Floats are kept as their 32-bit patterns and are never computed on. The constants the placement nodes derive from floats are symbolic values (`Num`) that record the operands.
- Hash functions are parameters: `xxHash32`, `MurmurHash` and the resource-id hash.
- The resource manager's set of existing resource names is an explicit value passed in and returned. It covers the material resources and the LOD mesh resources the tree creates.
- The expression AST is an append-only arena of nodes. `Tree` reads the expression rooted at a node back out as a finite tree.

## Model

| member | source | states |
|---|---|---|
| KrautDescriptor.Save | Code/Engine/KrautPlugin/Resources/KrautTreeResource.cpp:201-256 | the stream starts with version byte 4, then the bounds, then the LOD count truncated to one byte |
| KrautDescriptor.SaveConsistent | Code/Engine/KrautPlugin/Resources/KrautTreeResource.cpp:246-255 | the corrected writer writes only as many materials as the one-byte count it writes; below 256 materials it is the same stream as `Save` |
| KrautDescriptor.ReadLod | Code/Engine/KrautPlugin/Resources/KrautTreeResource.cpp:272-312 | a LOD that reads has the two distances of its header, and exactly as many vertices, triangles and submeshes as the header's three counts |
| KrautDescriptor.Load | Code/Engine/KrautPlugin/Resources/KrautTreeResource.cpp:258-327 | a leading byte other than 4 fails with that version whatever follows; success implies the version byte was 4; the LODs already in the target descriptor are kept as a prefix |
| KrautDescriptor.LoadAppendsLods | Code/Engine/KrautPlugin/Resources/KrautTreeResource.cpp:270-275 | loading into a descriptor that already has LODs succeeds exactly when loading into an empty one does, appends the same LODs after the old ones, and replaces bounds and materials |
| KrautDescriptor.ReadWriteLod | Code/Engine/KrautPlugin/Resources/KrautTreeResource.cpp:212-244 | one LOD whose counts fit 32 bits reads back exactly as written, and the reader consumes only its own tokens |
| KrautDescriptor.ReadWriteMaterial | Code/Engine/KrautPlugin/Resources/KrautTreeResource.cpp:249-255 | one material (type, diffuse texture, normal map, variation colour) reads back exactly as written |
| KrautDescriptor.LoadSaveConsistent | Code/Engine/KrautPlugin/Resources/KrautTreeResource.cpp:201-327 | loading what the corrected writer saves gives back the bounds and the first (count mod 256) LODs and materials, and consumes exactly the saved tokens |
| KrautDescriptor.LoadSaveRoundTrip | Code/Engine/KrautPlugin/Resources/KrautTreeResource.cpp:201-327 | for a descriptor with fewer than 256 LODs and materials, `Load` of `Save` into an empty descriptor returns the descriptor itself |
| KrautDescriptor.SaveTooManyMaterials | Code/Engine/KrautPlugin/Resources/KrautTreeResource.cpp:246-255 | with 256 materials, `Save` writes a count of 0 followed by all 256 materials; `Load` returns no materials and leaves all of them unread |
| KrautResource.UnloadData | Code/Engine/KrautPlugin/Resources/KrautTreeResource.cpp:18-34 | the result is always `Unloaded` with no discardable or loadable quality levels |
| KrautResource.UnloadIgnoresArguments | Code/Engine/KrautPlugin/Resources/KrautTreeResource.cpp:25-31 | neither the current state nor the unload mode changes the result |
| KrautResource.TextureHash | Code/Engine/KrautPlugin/Resources/KrautTreeResource.cpp:85-88 | the material hash is xxHash32 seeded with the material type and chained over the variation colour, then the diffuse texture, then the normal map, each step seeded with the hash so far |
| KrautResource.KrautMaterialDesc | Code/Engine/KrautPlugin/Resources/KrautTreeResource.cpp:96-121 | a created material's base material is Kraut/Branch for type 0, Kraut/Frond for type 1, Kraut/Leaf for type 2 and none for any other type; it has exactly the two bindings BaseTexture (diffuse) and NormalTexture (normal map), in that order |
| KrautResource.CreatedNamesAppend | Code/Engine/KrautPlugin/Resources/KrautTreeResource.cpp:121-124 | creating one more material adds exactly its name to the set of created names |
| KrautResource.ResolveMaterials | Code/Engine/KrautPlugin/Resources/KrautTreeResource.cpp:79-125 | one handle per descriptor material, in order, named by its hash; afterwards the resource manager knows exactly the old names plus the material names; the names it did not know are created once each, each from the descriptor material it belongs to |
| KrautResource.BuildLods | Code/Engine/KrautPlugin/Resources/KrautTreeResource.cpp:127-189 | one tree LOD per descriptor LOD, in order, with its distances, the mesh name "<id>_<counter>_LOD<i>" and the mesh built from that LOD and the material handles; the resource manager additionally knows every LOD mesh name |
| KrautResource.CreateResource | Code/Engine/KrautPlugin/Resources/KrautTreeResource.cpp:74-197 | the old LODs are replaced by one LOD per descriptor LOD with its distances, its name (id, change counter, index), its vertex count and triangles, and one part per submesh (count, first, material index); every LOD lists all material names; afterwards the resource manager knows every material name and every LOD mesh name; the materials that did not exist are created once each, from their descriptor material; the result is `Loaded` |
| KrautResource.UpdateContent | Code/Engine/KrautPlugin/Resources/KrautTreeResource.cpp:36-65 | a missing stream or a descriptor that fails to load reports `LoadedResourceMissing` and changes nothing; otherwise the tree has the loaded bounds and one LOD per loaded LOD |
| Render.LoadByName | Code/Engine/RendererCore/Meshes/Implementation/MeshComponent.cpp:243-251 | an empty name gives the invalid handle and any other name a valid handle |
| Render.NameRoundTrip | Code/Engine/RendererCore/Meshes/Implementation/MeshComponent.cpp:173-210 | writing a handle's id and loading that name give back the handle, in both directions |
| Render.PackMaterialIndexBits | Code/Engine/RendererCore/Meshes/Implementation/MeshComponent.cpp:120 | or-ing the material index shifted by 24 into an id keeps the id's low 24 bits and sets the top byte; both parts can be recovered when the id is below 2^24 and the index below 256 |
| MeshComponent.ResolveMaterial | Code/Engine/RendererCore/Meshes/Implementation/MeshComponent.cpp:93-100 | a valid override wins; otherwise the mesh material at the index; no material at all exactly when there is neither |
| MeshComponent.MeshBatchIdBits | Code/Engine/RendererCore/Meshes/Implementation/MeshComponent.cpp:108-112 | the batch id holds the part index in its top 4 bits and the hash's low 28 bits below them |
| MeshComponent.MeshBatchIdOrder | Code/Engine/RendererCore/Meshes/Implementation/MeshComponent.cpp:109-112 | among the first 16 parts, a lower part index always gives a smaller batch id, whatever the hashes |
| MeshComponent.MeshCategory | Code/Engine/RendererCore/Meshes/Implementation/MeshComponent.cpp:124-133 | the message's override category wins, then the component's category, then Opaque |
| MeshComponent.ExtractRenderData | Code/Engine/RendererCore/Meshes/Implementation/MeshComponent.cpp:74-137 | nothing is emitted without a mesh; otherwise one record per submesh in order, with the resolved material, the part index, the batch id from mesh hash, material hash and part index, the picking id with the material index on top, the colour and the category; extraction stops at the first submesh with no usable material |
| MeshComponent.MaterialsGetCount | Code/Engine/RendererCore/Meshes/Implementation/MeshComponent.cpp:213-216 | every slot from the count on reads back as "" |
| MeshComponent.MaterialsGetValue | Code/Engine/RendererCore/Meshes/Implementation/MeshComponent.cpp:219-228 | a slot past the end reads as ""; an existing slot reads as an id that loads back to the same override |
| MeshComponent.MaterialsSetValue | Code/Engine/RendererCore/Meshes/Implementation/MeshComponent.cpp:231-240 | slot i holds the material loaded by name, invalid exactly for an empty name; the array grows with invalid handles up to i; no other slot or field changes |
| MeshComponent.SetMaterial | Code/Engine/RendererCore/Meshes/Implementation/MeshComponent.cpp:231-240 | setting slot i grows the array with invalid handles up to i, stores the handle at i and keeps every other slot |
| MeshComponent.SetThenGet | Code/Engine/RendererCore/Meshes/Implementation/MeshComponent.cpp:213-240 | `Materials_GetValue` reads back the name set at the index, every other index reads as before, and the count grows only to cover the index |
| MeshComponent.MaterialsInsert | Code/Engine/RendererCore/Meshes/Implementation/MeshComponent.cpp:243-251 | a new slot holding the loaded name appears at the index; earlier slots stay, later ones shift up by one; nothing else changes |
| MeshComponent.MaterialsRemove | Code/Engine/RendererCore/Meshes/Implementation/MeshComponent.cpp:254-257 | the slot at the index disappears; earlier slots stay, later ones shift down by one; nothing else changes |
| MeshComponent.InsertThenRemove | Code/Engine/RendererCore/Meshes/Implementation/MeshComponent.cpp:243-257 | removing at the index just inserted at gives back the component; the inserted value reads back and the count grew by one |
| MeshComponent.ReadOverrides | Code/Engine/RendererCore/Meshes/Implementation/MeshComponent.cpp:199-210 | the override array is resized to the count read; a non-empty name loads that material and an empty name leaves the slot as it was (invalid if new) |
| MeshComponent.SerializeComponent | Code/Engine/RendererCore/Meshes/Implementation/MeshComponent.cpp:161-185 | the stream is the mesh file, the four colour floats, the category, the override count and one id per override ("" for an invalid one), so 7 tokens plus one per override |
| MeshComponent.DeserializeComponent | Code/Engine/RendererCore/Meshes/Implementation/MeshComponent.cpp:187-211 | an empty stream or a first token that is not a string fails; on success the mesh is loaded from the first string, the category is the sixth token, the override array has as many slots as the count read, and the picking id is kept |
| MeshComponent.SerializeRoundTrip | Code/Engine/RendererCore/Meshes/Implementation/MeshComponent.cpp:161-211 | deserializing what was serialized, into a fresh component, gives back mesh, colour, category and overrides, and consumes exactly the written tokens |
| MeshComponent.WriteOverridesAsNames | Code/Engine/RendererCore/Meshes/Implementation/MeshComponent.cpp:173-184 | the override list is written as one string per slot: the material's id, or "" for an invalid handle |
| GreyBoxComponent.WithSize | Code/Engine/GameEngine/Components/Implementation/GreyBoxComponent.cpp:176-210 | setting one side's size stores it and leaves the other five sides alone |
| GreyBoxComponent.InvalidateMesh | Code/Engine/GameEngine/Components/Implementation/GreyBoxComponent.cpp:212-219 | the cached mesh is dropped; a bounds update is triggered exactly when there was one; nothing else changes |
| GreyBoxComponent.InvalidateIdempotent | Code/Engine/GameEngine/Components/Implementation/GreyBoxComponent.cpp:212-219 | invalidating twice is the same as invalidating once, so no second bounds update is triggered |
| GreyBoxComponent.SetShape | Code/Engine/GameEngine/Components/Implementation/GreyBoxComponent.cpp:150-154 | the shape is stored and the cached mesh dropped, with one bounds update if there was a mesh; nothing else changes |
| GreyBoxComponent.SetSize | Code/Engine/GameEngine/Components/Implementation/GreyBoxComponent.cpp:176-210 | the chosen extent is stored, the other five are kept, and the cached mesh is dropped with one bounds update if there was a mesh; nothing else changes |
| GreyBoxComponent.SetMaterialFile | Code/Engine/GameEngine/Components/Implementation/GreyBoxComponent.cpp:156-166 | the material is valid exactly for a non-empty name, the getter reads the name back, and nothing else changes |
| GreyBoxComponent.GetMaterialFile | Code/Engine/GameEngine/Components/Implementation/GreyBoxComponent.cpp:168-174 | "" without a material; otherwise an id that loads back to the same material |
| GreyBoxComponent.SettersInvalidate | Code/Engine/GameEngine/Components/Implementation/GreyBoxComponent.cpp:150-210 | the shape and size setters store their value and drop the cache; the material setter keeps the cache and its value reads back through `GetMaterialFile` |
| GreyBoxComponent.BoxMesh | Code/Engine/GameEngine/Components/Implementation/GreyBoxComponent.cpp:266-277 | a generated box mesh has one submesh over all its primitives using material 0, which is the PrototypeGrey material |
| GreyBoxComponent.GenerateRenderMesh | Code/Engine/GameEngine/Components/Implementation/GreyBoxComponent.cpp:221-282 | a cached mesh is kept as is; otherwise a non-box shape fails; a box finds or creates the mesh named after its sizes, and only that resource may be added; existing meshes are untouched |
| GreyBoxComponent.GenerateIdempotent | Code/Engine/GameEngine/Components/Implementation/GreyBoxComponent.cpp:223-224 | generating again after a successful generation changes nothing |
| GreyBoxComponent.RegenerateReuses | Code/Engine/GameEngine/Components/Implementation/GreyBoxComponent.cpp:238-240 | after dropping the cache, the mesh created earlier under the same name is found again instead of created, at the cost of one bounds update |
| GreyBoxComponent.ResolveMaterial | Code/Engine/GameEngine/Components/Implementation/GreyBoxComponent.cpp:110-111 | the component's material wins; without it, the mesh material at the part's material index when the mesh has one |
| GreyBoxComponent.FlagWord | Code/Engine/GameEngine/Components/Implementation/GreyBoxComponent.cpp:102-103 | the flip-winding and uniform-scale words are 1 exactly when the flag holds, else 0 |
| GreyBoxComponent.GreyBoxCategory | Code/Engine/GameEngine/Components/Implementation/GreyBoxComponent.cpp:133-142 | the message's override category wins, else LitOpaque |
| GreyBoxComponent.SortingKeyBits | Code/Engine/GameEngine/Components/Implementation/GreyBoxComponent.cpp:144-145 | the sorting key holds the flip flag in bit 0, the mesh hash's bits 1-15, and the material hash's low 16 bits on top |
| GreyBoxComponent.SortingKeyByMaterial | Code/Engine/GameEngine/Components/Implementation/GreyBoxComponent.cpp:144-145 | keys sort by material first: a smaller material hash (low 16 bits) gives a smaller key whatever the meshes |
| GreyBoxComponent.SortingKeyByMesh | Code/Engine/GameEngine/Components/Implementation/GreyBoxComponent.cpp:144-145 | for equal material bits, keys compare exactly as the mesh bits with the flip flag compare |
| GreyBoxComponent.ExtractParts | Code/Engine/GameEngine/Components/Implementation/GreyBoxComponent.cpp:100-147 | one record per part in order, with the resolved material, the batch id from mesh hash, material hash, part index and flip, the flags, the unique id with the material index on top, the category and the sorting key; without a component material, the first part whose material index the mesh lacks is reported |
| GreyBoxComponent.ExtractRenderData | Code/Engine/GameEngine/Components/Implementation/GreyBoxComponent.cpp:93-148 | extraction first generates the mesh, keeping the mesh table consistent; a non-box shape without a cached mesh fails and changes nothing; the records describe the parts of the cached mesh |
| GreyBoxComponent.BoxMeshExtractsOnePart | Code/Engine/GameEngine/Components/Implementation/GreyBoxComponent.cpp:111 | the single part of a generated box always resolves to a material: PrototypeGrey unless the component sets its own |
| GreyBoxComponent.SerializeComponent | Code/Engine/GameEngine/Components/Implementation/GreyBoxComponent.cpp:50-62 | seven tokens: the shape byte, then the six extents in the order negX, posX, negY, posY, negZ, posZ |
| GreyBoxComponent.DeserializeComponent | Code/Engine/GameEngine/Components/Implementation/GreyBoxComponent.cpp:64-77 | deserialization changes only shape and sizes; the cached mesh is neither dropped nor regenerated |
| GreyBoxComponent.SerializeRoundTrip | Code/Engine/GameEngine/Components/Implementation/GreyBoxComponent.cpp:50-77 | reading back what was written restores shape and the six sizes in order, and consumes exactly the written tokens |
| PlacementNodes.Create | Tools/EditorPluginProceduralPlacement/ProceduralPlacementAsset/ProceduralPlacementNodes.cpp:8-13 | creating a node appends it to the AST, keeps every older node and the outputs, and keeps the AST well formed when its operands already exist |
| PlacementNodes.TreeStable | Tools/EditorPluginProceduralPlacement/ProceduralPlacementAsset/ProceduralPlacementNodes.cpp:56-100 | appending nodes never changes the expression an existing node denotes |
| PlacementNodes.CreateRandom | Tools/EditorPluginProceduralPlacement/ProceduralPlacementAsset/ProceduralPlacementNodes.cpp:6-17 | the result is a call with exactly one argument, and it denotes Random(point index + seed) |
| PlacementNodes.DefaultConstant | Tools/EditorPluginProceduralPlacement/ProceduralPlacementAsset/ProceduralPlacementNodes.cpp:66-69 | an unconnected output slot gets a constant; a connected slot and the other slots are left alone |
| PlacementNodes.DefaultRandom | Tools/EditorPluginProceduralPlacement/ProceduralPlacementAsset/ProceduralPlacementNodes.cpp:71-84 | an unconnected output slot gets Random(point index + seed); a connected slot and the other slots are left alone |
| PlacementNodes.ScaleOutput | Tools/EditorPluginProceduralPlacement/ProceduralPlacementAsset/ProceduralPlacementNodes.cpp:86-97 | an output slot is replaced by factor × its old expression; the other slots are left alone |
| PlacementNodes.FillDefaults | Tools/EditorPluginProceduralPlacement/ProceduralPlacementAsset/ProceduralPlacementNodes.cpp:58-84 | the outputs are the inputs, with the four known slots filled only where unconnected; slots past the fourth are copied unchanged |
| PlacementNodes.FillDefaultsTrees | Tools/EditorPluginProceduralPlacement/ProceduralPlacementAsset/ProceduralPlacementNodes.cpp:65-84 | each known slot denotes its input when connected, else its default: density 1, scale Random(11), colour index Random(13), object index Random(17) |
| PlacementNodes.ScaleIndices | Tools/EditorPluginProceduralPlacement/ProceduralPlacementAsset/ProceduralPlacementNodes.cpp:86-97 | the colour-index and object-index outputs become products whose right operand is the previous output; the other slots are left alone |
| PlacementNodes.LayerOutputNode | Tools/EditorPluginProceduralPlacement/ProceduralPlacementAsset/ProceduralPlacementNodes.cpp:56-100 | the layer output returns no node; connected density and scale inputs become outputs unchanged, the colour and object indices are scaled products of their inputs, and extra inputs pass through |
| PlacementNodes.LayerOutputTrees | Tools/EditorPluginProceduralPlacement/ProceduralPlacementAsset/ProceduralPlacementNodes.cpp:56-100 | the four outputs denote density = input or 1, scale = input or Random(11), colour index = 255 × (input or Random(13)), object index = object count × (input or Random(17)) |
| PlacementNodes.RandomNode | Tools/EditorPluginProceduralPlacement/ProceduralPlacementAsset/ProceduralPlacementNodes.cpp:145-149 | the random node denotes Random(point index + seed), with the integer seed converted to float unchanged |
| PlacementNodes.BlendNode | Tools/EditorPluginProceduralPlacement/ProceduralPlacementAsset/ProceduralPlacementNodes.cpp:168-184 | the blend node is a product whose operands are the connected inputs A and B |
| PlacementNodes.BlendTree | Tools/EditorPluginProceduralPlacement/ProceduralPlacementAsset/ProceduralPlacementNodes.cpp:168-184 | the blend denotes (input A or the constant A) × (input B or the constant B) |
| PlacementNodes.HeightNode | Tools/EditorPluginProceduralPlacement/ProceduralPlacementAsset/ProceduralPlacementNodes.cpp:202-216 | the height node is F - \|… - F\| with one fade-factor node used as both outer operand and inner subtrahend |
| PlacementNodes.HeightNodeTree | Tools/EditorPluginProceduralPlacement/ProceduralPlacementAsset/ProceduralPlacementNodes.cpp:202-216 | the height node denotes F - \|(z - min) / ((max - min) × fade) - F\| with F = 0.5 / fade |
| PlacementNodes.SaveLayer | Tools/EditorPluginProceduralPlacement/ProceduralPlacementAsset/ProceduralPlacementNodes.cpp:102-129 | the saved layer starts with its name and the 32-bit object count and ends with the byte-code index |
| PlacementNodes.ReadWritePlacement | Tools/EditorPluginProceduralPlacement/ProceduralPlacementAsset/ProceduralPlacementNodes.cpp:112-128 | the fields after the objects read back in their saved order exactly as written |
| PlacementNodes.SaveLoadRoundTrip | Tools/EditorPluginProceduralPlacement/ProceduralPlacementAsset/ProceduralPlacementNodes.cpp:102-129 | reading back a saved layer restores every saved field in order and consumes exactly the saved tokens; the unsaved active flag keeps the reader's value |

## Left out

- Floating point: sizes, distances, colours and the height node's arithmetic are kept as bit patterns or symbolic values (`Num`); no float operation is evaluated.
- Hashes: `xxHash32`, `MurmurHash` and the resource-id hash are function parameters; their internals and collisions are not modelled.
- Vertex streams and geometry: the Kraut mesh buffers (vertex attributes, the `1/z` texture coordinate), `ezGeometry` box building, tangents and bounds computation. Only vertex counts, triangles, submeshes and materials are kept.
- Number formatting: the grey-box mesh name formats six floats; the formatter is a parameter `fmt`. Kraut resource names are structured values rather than formatted strings.
- `GetLocalBounds`, `OnUpdateLocalBounds`, `UpdateMemoryUsage`, and `SetMesh`/`GetMeshFile` resource locking: these are not part of this model. A bounds update is modelled as a counter.
- `SUPER::SerializeComponent`, `SUPER::DeserializeComponent` and the component type version: the base class is not part of this model.
- Threads and the resource manager's locking.
- Stream errors: the source does not check reads and reads garbage from a truncated or mismatched stream. The model reports `Truncated`/`UnexpectedToken` instead. Only the version check is a failure in the source.
- Header widths: the declarations are not part of this model. The model assumes a one-byte submesh material index and material type in the Kraut descriptor, 32-bit submesh first-triangle and triangle counts, 32-bit triangle vertex indices, a four-byte material variation colour (so `sizeof` feeds four bytes into the material-name hash), a 32-bit render category, a one-byte grey-box shape, a one-byte collision layer and a 32-bit byte-code index.
- `GetMaterial`/`SetMaterial` of the mesh component are not part of this model. They are assumed to return the invalid handle past the end and to grow the array with invalid handles.
- KrautDescriptor.WriteBounds: the stream layout of `ezBoundingBoxSphere` is assumed to be centre, sphere radius, box half extents; its stream operators are not part of this model.
- KrautResource.UnloadData: the step only reports the new load state; releasing the LOD meshes happens elsewhere and is not part of this model.
- KrautDescriptor.Save: its own contract states only the version, bounds and LOD-count header. The layout of the rest is stated through `LoadSaveConsistent`, `LoadSaveRoundTrip` and `SaveTooManyMaterials`.
- PlacementNodes.SaveLayer: its own contract states only the first two and the last field. The full field order is stated by `SaveLoadRoundTrip`.
- KrautResource.UpdateContent: `ezAssetFileHeader` is not part of this model. Its `Read` is assumed to consume a 64-bit hash and a 16-bit version after the file path string.
- GreyBoxComponent.ExtractParts: where the source indexes the mesh's material array out of range, the model reports `MaterialIndexOutOfRange` for that part instead of undefined behaviour.
- MeshComponent.ExtractRenderData: where the source indexes the mesh's material array out of range or locks an invalid material, the model stops with an error for that part instead of undefined behaviour.
- GreyBoxComponent.GenerateRenderMesh: a non-box shape hits `EZ_ASSERT_NOT_IMPLEMENTED`; it is modelled as a failure.
- PlacementNodes.LayerOutputNode: the output slots Density 0, Scale 1, ColorIndex 2 and ObjectIndex 3 are taken from the pin order. The source indexes `inputs[0..3]` unchecked, so the model requires at least four inputs (two for the blend node).
- PlacementNodes.LoadLayer: the source has no loader in this file. `LoadLayer` is a reference reader of the saved layout, used to state what `Save` preserves.
- PlacementNodes.RandomNode: the seed −1 ("Auto") gets no special meaning here, as in the code shown. The integer-to-float conversion is symbolic.
- PlacementNodes.HeightNode: division by a zero fade fraction is not evaluated; the constants stay symbolic.
- Editor reflection (`EZ_BEGIN_PROPERTIES`, default values, clamp attributes) and the `Active` flag's use by callers.

## Findings

| source | as written | input that shows it | evidently intended | confidence | as-written member | corrected member |
|---|---|---|---|---|---|---|
| Code/Engine/KrautPlugin/Resources/KrautTreeResource.cpp:246-255 | the material count is stored in an `ezUInt8` but the loop writes every material | a descriptor with 256 materials: count byte 0, then 256 materials that `Load` never reads | write only as many materials as the count says (or reject more than 255), so that `Load` reads back what `Save` wrote | not executed | KrautDescriptor.SaveTooManyMaterials | KrautDescriptor.LoadSaveConsistent |
