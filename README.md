# Engine asset, material and input core in Dafny

This project models the core of a small C++ OpenGL game engine:

- **OBJ loading** (`ObjLoader`): a line reader for the `v`, `vt`, `vn` and `f` directives, split as `std::getline` and `operator>>` split text. Each face token `p/t/n` becomes a 1-based triple, shifted to 0-based with `unsigned int` wrap-around. One pass then deduplicates the triples and re-indexes them into a single vertex array and index list.
- **glTF loading** (`GltfLoader`):
  - the texture resolver, which tries the buffer view first, then an external URI relative to the model's directory;
  - per-primitive assembly, with the last-attribute vertex count, the per-field defaults, 16/32-bit index widening or sequential indices, and the material block with its five conditional setter calls;
  - the scene → root node → primitive traversal that adds every primitive with at least one vertex and one index to a new model.
- **Material** (`Render`): the six PBR factors, six texture slots with their "has map" flags, the setters, and the uniform writes and texture binds of `activate` and `deactivate`, as an ordered trace of GL calls.
- **Model and Mesh** (`AssetModel`): a mesh fixed at construction, a model as an ordered list of meshes that ignores null, and the draw traversal.
- **Input manager** (`Input`):
  - the 1024-entry key table, the right-button and mouse fields, and the event × key table of ordered callback lists;
  - registration and removal of callbacks;
  - the four event handlers, which update state and then call each registered callback once, in registration order.
- **Sphere** (`Geometry`): the `(stacks+1) × (slices+1)` vertex grid loop and the row-major two-triangles-per-cell index loop, with `indexCount_`.

Code that changes state in place is modelled as classes and methods: `Material`, `Mesh`, `Model`, `InputManager`, and the loops of the loaders and of the sphere constructor. Each method is proved against a function that specifies it. Lemmas about those functions state what the source promises.

## Model

| member | source | states |
|---|---|---|
| Render.Texture.Bind | engine/render/texture.cpp:52-59 | a texture binds its name to the given unit exactly when it is loaded (non-zero name); an unloaded texture issues no call |
| Render.Unit | engine/render/material.cpp:58-119 | each slot has its own texture unit below 6, and slot `Slots[u]` uses unit u |
| Render.MaterialState.WithMap | engine/render/material.cpp:15-44 | a setter stores the given texture, even an unloaded one; the flag becomes "non-null and loaded"; the factors are unchanged |
| Render.WithMapFrame | engine/render/material.cpp:15-44 | a setter leaves every other slot and its flag unchanged |
| Render.WithMapConsistent | engine/render/material.cpp:15-44 | a setter keeps every flag in agreement with its slot (set exactly when the slot holds a loaded texture), whatever texture it is given |
| Render.Material.SetBaseColorMap | engine/render/material.cpp:15-19 | the new state is the old one with the base colour slot set as `WithMap` describes; the flags stay in agreement with the slots (`Valid`) |
| Render.Material.SetNormalMap | engine/render/material.cpp:20-24 | the same for the normal slot |
| Render.Material.SetRoughnessMap | engine/render/material.cpp:25-29 | the same for the roughness slot |
| Render.Material.SetMetallicMap | engine/render/material.cpp:30-34 | the same for the metallic slot |
| Render.Material.SetAmbientOcclusionMap | engine/render/material.cpp:35-39 | the same for the occlusion slot |
| Render.Material.SetEmissiveMap | engine/render/material.cpp:40-44 | the same for the emissive slot |
| Render.Material.GetBaseColorMap | engine/render/material.h:42 | returns what the base colour slot holds |
| Render.Material.GetNormalMap | engine/render/material.h:43 | returns what the normal slot holds |
| Render.Material.GetRoughnessMap | engine/render/material.h:44 | returns what the roughness slot holds |
| Render.Material.GetMetallicMap | engine/render/material.h:45 | returns what the metallic slot holds |
| Render.Material.GetAmbientOcclusionMap | engine/render/material.h:46 | returns what the occlusion slot holds |
| Render.Material.GetEmissiveMap | engine/render/material.h:47 | returns what the emissive slot holds |
| Render.Material.constructor | engine/render/material.h:50-75 | a new material has the default factors, no maps and every flag down, so its flags agree with its slots |
| Render.DefaultIsEmpty | engine/render/material.h:50-75 | the defaults are base colour (1,1,1,1), metallic 0, roughness 1, emissive (0,0,0), normal scale 1 and occlusion strength 1; every slot is empty and every flag false, so the flags agree with the slots |
| Render.SetterReplaces | engine/render/material.cpp:15-19 | setting a slot twice leaves only the second texture and its flag |
| Render.MaterialState.SlotCalls | engine/render/material.cpp:61-69 | for one slot: the flag uniform, then the sampler uniform (the slot's unit when flag set and slot non-null, else 0); the only other call binds that slot's texture to its unit, and it is issued whenever that texture is loaded |
| Render.MaterialState.SlotsCalls | engine/render/material.cpp:61-119 | defined as the calls of a run of slots, each slot's `SlotCalls` one after the other |
| Render.MaterialState.Activate | engine/render/material.cpp:49-120 | defined as the six factor uniform writes followed by the calls of every slot in unit order; what that trace writes and binds is stated by `ActivateUniforms`, `ActivateWrites` and `ActivateBinds` |
| Render.SlotsCallsUniforms | engine/render/material.cpp:61-119 | the uniform writes of a run of slots are each slot's pair of writes, in slot order |
| Render.SlotsCallsBinds | engine/render/material.cpp:61-119 | every bind of a run of slots belongs to a bound slot of that run, and every loaded bound slot is bound |
| Render.ActivateUniforms | engine/render/material.cpp:47-119 | `activate` writes the six factor uniforms, then each slot's pair of uniforms |
| Render.ActivateWrites | engine/render/material.cpp:47-119 | `activate` writes 18 uniforms: the factors unchanged at positions 0-5, then slot s's flag at 6 + 2·unit and its sampler (the unit or 0) right after |
| Render.ActivateBinds | engine/render/material.cpp:61-119 | `activate` binds exactly the loaded textures of bound slots, each to its slot's unit, and issues nothing else but uniform writes |
| Render.ActivateBindsFlagged | engine/render/material.cpp:61-119 | when the flags agree with the slots, `activate` binds the texture of every slot whose flag is set, and nothing else |
| Render.DeactivateAsWritten | engine/render/material.cpp:125-143 | as written, `deactivate` unbinds units 6, 5, 4, 3, 2, 1 and never unit 0; it writes no uniform |
| Render.DeactivateAsWrittenLeavesUnitZero | engine/render/material.cpp:130-141 | a loaded base colour map is bound to unit 0 by `activate`, and `deactivate` as written leaves unit 0 bound while it unbinds unit 6, which no slot uses |
| Render.Deactivate | engine/render/material.cpp:125-143 | corrected `deactivate`: six unbinds and no uniform write |
| Render.DeactivateUnbindsSlotUnits | engine/render/material.cpp:130-141 | corrected `deactivate` unbinds the slots' units from the last to the first, every slot's unit, and no other unit |
| Render.DeactivateUndoesActivate | engine/render/material.cpp:125-143 | every unit `activate` binds a texture to is unbound by the corrected `deactivate` |
| AssetModel.Mesh.constructor | engine/asset/model.cpp:15-18 | a mesh keeps the vertices, indices and material it is given |
| AssetModel.Mesh.GetVertexCount | engine/asset/model.h:41 | the number of vertices |
| AssetModel.Mesh.GetIndexCount | engine/asset/model.h:42 | the number of indices |
| AssetModel.Mesh.GetMaterial | engine/asset/model.h:45 | the mesh's material, possibly null |
| AssetModel.Mesh.Draw | engine/asset/model.cpp:66-77 | with a material: its `activate` calls, one draw of the index count, then `deactivate` as written (`DeactivateAsWritten`); without one: only the draw |
| AssetModel.MeshDrawsOnce | engine/asset/model.cpp:66-77 | a mesh's draw issues exactly one draw call, of its own index count |
| AssetModel.DrawAll | engine/asset/model.cpp:93-98 | defined as every mesh's `Draw` trace, concatenated in list order; `DrawAllVisitsInOrder` states what it draws |
| AssetModel.Model.constructor | engine/asset/model.cpp:81 | a new model has no meshes |
| AssetModel.Model.AddMesh | engine/asset/model.cpp:84-90 | a null mesh leaves the list unchanged; any other is appended at the end |
| AssetModel.Model.GetMeshes | engine/asset/model.h:67 | the model's mesh list |
| AssetModel.Model.Draw | engine/asset/model.cpp:93-98 | the draw trace is that of every mesh, in list order; the list holds no null, as `AddMesh` keeps it out |
| AssetModel.DrawAllVisitsInOrder | engine/asset/model.cpp:93-98 | a model's draw calls draw exactly the index counts of its meshes, in list order, each once |
| Input.Registered | engine/input/input_manager.cpp:18-21 | registration appends the callback to the end of its (event, key) list and changes no other list |
| Input.Filter | engine/input/input_manager.cpp:26-31 | the `remove_if`/`erase` idiom: the entries the predicate keeps, in order; never longer than the list, and every kept entry is from the list and satisfies the predicate |
| Input.Calls | engine/input/input_manager.cpp:73-79 | defined as one invocation per listed callback, in list order, each with the same data; `Dispatch` is proved equal to it |
| Input.Without | engine/input/input_manager.cpp:26-31 | removal by identity: the callback no longer occurs, and every other callback occurs as often as before |
| Input.WithoutKeepsOrder | engine/input/input_manager.cpp:26-31 | removal keeps the order of the remaining callbacks: it distributes over concatenation |
| Input.Unregistered | engine/input/input_manager.cpp:23-32 | corrected unregistration: the (event, key) list loses exactly that callback; every other list is unchanged |
| Input.UnregisteredAsWritten | engine/input/input_manager.cpp:23-32 | as written: the (event, key) list keeps the entries whose function-type target differs from that of the given callback; other lists are unchanged |
| Input.UnregisterAsWrittenDropsAll | engine/input/input_manager.cpp:29 | as written, unregistering any callback empties its whole (event, key) list |
| Input.UnregisterAsWrittenCounterexample | engine/input/input_manager.cpp:29 | with callbacks 1 and 2 under (KeyPressed, 256), unregistering 1 as written leaves [], whereas removal by identity leaves [2] |
| Input.Dispatch | engine/input/input_manager.cpp:75-78 | the dispatch loop calls each listed callback once, in list order, with the same data |
| Input.InputManager.constructor | engine/input/input_manager.h:76-82 | initially every key is up, the right button is up, the mouse is at (0, 0), first-mouse is set and there are no callbacks |
| Input.InputManager.RegisterCallback | engine/input/input_manager.cpp:18-21 | the table becomes `Registered` of the old one; the mouse state is unchanged |
| Input.InputManager.UnregisterCallback | engine/input/input_manager.cpp:23-32 | as written: the table becomes `UnregisteredAsWritten` of the old one, so the (event, key) list is left empty; the mouse state is unchanged |
| Input.InputManager.IsKeyPressed | engine/input/input_manager.cpp:34-41 | true exactly when the key is in [0, 1024) and its stored state is pressed |
| Input.InputManager.IsRightMouseButtonPressed | engine/input/input_manager.h:56 | the right-button flag |
| Input.InputManager.GetMouseX | engine/input/input_manager.h:57 | the last mouse x |
| Input.InputManager.GetMouseY | engine/input/input_manager.h:58 | the last mouse y |
| Input.InputManager.GetMouseDelta | engine/input/input_manager.cpp:43-47 | despite its name, returns the last absolute mouse position |
| Input.InputManager.ProcessKeyEvent | engine/input/input_manager.cpp:64-80 | an in-range key becomes pressed exactly on PRESS or REPEAT, and no other key changes; the KeyPressed or KeyReleased callbacks of that key run once each, in order, with the key and the right-button flag |
| Input.InputManager.ProcessMouseButtonEvent | engine/input/input_manager.cpp:82-103 | the right button sets the flag to "action is PRESS", and on PRESS sets first-mouse; other buttons change nothing; then the button's Pressed or Released callbacks run in order |
| Input.InputManager.ProcessMousePositionEvent | engine/input/input_manager.cpp:105-118 | the position is stored, then the (MouseMoved, 0) callbacks run with it |
| Input.InputManager.ProcessMouseScrollEvent | engine/input/input_manager.cpp:120-130 | no state changes; the (MouseScrolled, 0) callbacks run with the offsets |
| Input.RegisteredIsCalledLast | engine/input/input_manager.cpp:18-21 | after registering, dispatch makes the earlier calls and then the new callback's call, last |
| Input.UnregisteredIsNotCalled | engine/input/input_manager.cpp:23-32 | after corrected unregistration, dispatch on that (event, key) never calls the removed callback |
| Geometry.SphereVertices | engine/geometry/sphere.cpp:17-33 | the vertex loops push x, y and z of each grid point, stack by stack and slice by slice |
| Geometry.SphereIndices | engine/geometry/sphere.cpp:35-50 | the index loops produce the row-major triangulation, and `indexCount_` is its length |
| Geometry.RowCellsLength | engine/geometry/sphere.cpp:36-47 | a row of j cells has 6j indices |
| Geometry.RowCellsCell | engine/geometry/sphere.cpp:36-47 | cell c of a row occupies positions 6c to 6c+5 of that row |
| Geometry.RowCellsBound | engine/geometry/sphere.cpp:37-47 | the indices of row i lie between the first point of stack i and the last point of stack i+1 |
| Geometry.RowsLength | engine/geometry/sphere.cpp:35-48 | n rows have 6·n·slices indices |
| Geometry.RowsBound | engine/geometry/sphere.cpp:35-48 | every index of rows 0 to n−1 names a point of stacks 0 to n |
| Geometry.RowsCell | engine/geometry/sphere.cpp:35-48 | cell (i, j) comes right after rows 0 to i−1 and the first j cells of row i |
| Geometry.GridPointsCount | engine/geometry/sphere.cpp:17-33 | n stacks of the grid hold 3·n·(slices+1) components |
| Geometry.RowPointsCount | engine/geometry/sphere.cpp:21-32 | j points of a stack hold 3j components |
| Geometry.SphereCounts | engine/geometry/sphere.cpp:17-50 | there are 3·(stacks+1)(slices+1) components and 6·stacks·slices indices, each naming one of the (stacks+1)(slices+1) points |
| Geometry.TriangulationCell | engine/geometry/sphere.cpp:35-48 | the six indices of cell (i, j) are its two triangles, at block i·slices + j of the list |
| Geometry.Cell | engine/geometry/sphere.cpp:37-47 | defined as the two triangles of cell (i, j): (first, second, first+1) and (second, second+1, first+1), with first = i·(slices+1)+j and second = first+slices+1 |
| Geometry.RowCells | engine/geometry/sphere.cpp:36-47 | defined as cells (i, 0) to (i, j−1) of row i, in order |
| Geometry.Rows | engine/geometry/sphere.cpp:35-48 | defined as rows 0 to n−1, row after row |
| Geometry.Triangulation | engine/geometry/sphere.cpp:35-48 | defined as all the sphere's rows, row-major; `SphereIndices` is proved equal to it and `TriangulationCell` states where each cell sits |
| Geometry.Sphere.constructor | engine/geometry/sphere.cpp:13-50 | `indexCount_` is the length of the triangulation |
| ObjLoader.Find | engine/asset/obj_loader.cpp:94 | the first delimiter position: no delimiter before it, and the delimiter at it when it is inside the text |
| ObjLoader.Split | engine/asset/obj_loader.cpp:61 | the pieces repeated `getline` yields contain no delimiter |
| ObjLoader.SplitJoin | engine/asset/obj_loader.cpp:61 | joining the pieces with the delimiter gives back the text, except for a delimiter at its very end |
| ObjLoader.WordLength | engine/asset/obj_loader.cpp:68 | a word runs up to the first whitespace character |
| ObjLoader.TokensWord | engine/asset/obj_loader.cpp:66-68 | a text that is one word without spaces reads as exactly that word |
| ObjLoader.TokensSep | engine/asset/obj_loader.cpp:66-68 | a space separates: the words of `a`, a space and `b` are the words of `a` followed by those of `b`, so no word spans a space |
| ObjLoader.Classify | engine/asset/obj_loader.cpp:62-106 | defined as: an empty line or one starting with `#` is skipped; otherwise the first word `v`, `vt`, `vn` or `f` picks the directive, and any other (or none) adds nothing |
| ObjLoader.Raw | engine/asset/obj_loader.cpp:90-101 | defined as segment i read by `stoul` and stored in an `unsigned int` (mod 2^32), or 0 when the segment is empty or missing |
| ObjLoader.FaceVertex | engine/asset/obj_loader.cpp:86-104 | defined as the three `Raw` components of the token's `/`-separated segments, each shifted by `Shift`; `PositionOnlyToken` and `SkippedTexCoord` state its cases |
| ObjLoader.ParseLines | engine/asset/obj_loader.cpp:61-107 | defined as `ParseLine` applied to each line in turn, from empty collections |
| ObjLoader.Parsed | engine/asset/obj_loader.cpp:58-107 | defined as `ParseLines` of the text split at newlines as `getline` splits it (`SplitJoin`) |
| ObjLoader.Tokens | engine/asset/obj_loader.cpp:87 | the words `operator>>` reads are non-empty and contain no whitespace |
| ObjLoader.Shift | engine/asset/obj_loader.cpp:104 | 1-based to 0-based on `unsigned int`: x−1 for x > 0, and 0 wraps to 2^32−1 |
| ObjLoader.FaceVertices | engine/asset/obj_loader.cpp:87-105 | a face line gives one triple per token, in order |
| ObjLoader.ParseLine | engine/asset/obj_loader.cpp:62-106 | a line only appends to the collections |
| ObjLoader.ParseLinesCounts | engine/asset/obj_loader.cpp:61-107 | each `v`, `vt` and `vn` line adds exactly one entry to its collection, and each face token exactly one triple |
| ObjLoader.IgnoredLinesAddNothing | engine/asset/obj_loader.cpp:62-64 | removing empty lines, comments and unknown directives does not change the result |
| ObjLoader.PositionOnlyToken | engine/asset/obj_loader.cpp:93-104 | a token without `/` gives its position and 2^32−1 for both texture coordinate and normal |
| ObjLoader.SkippedTexCoord | engine/asset/obj_loader.cpp:93-104 | a token `p//n` gives (p−1, 2^32−1, n−1) |
| ObjLoader.ReadFaceVertex | engine/asset/obj_loader.cpp:88-104 | the segment loop gives the token's triple |
| ObjLoader.ReadFace | engine/asset/obj_loader.cpp:86-105 | the token loop appends the face line's triples |
| ObjLoader.ReadLine | engine/asset/obj_loader.cpp:62-106 | one turn of the reading loop is `ParseLine` |
| ObjLoader.Parse | engine/asset/obj_loader.cpp:58-107 | the reading loop over the file's lines gives `Parsed` of the text |
| ObjLoader.DistinctMembers | engine/asset/obj_loader.cpp:112-143 | the final vertices come from exactly the triples of the faces |
| ObjLoader.DistinctUnique | engine/asset/obj_loader.cpp:112-143 | no triple yields two final vertices |
| ObjLoader.DistinctFirstOccurrenceOrder | engine/asset/obj_loader.cpp:114-143 | final vertices are in the order their triples first occur |
| ObjLoader.Distinct | engine/asset/obj_loader.cpp:114-143 | defined as the face triples with later repeats dropped; `DistinctMembers`, `DistinctUnique` and `DistinctFirstOccurrenceOrder` state what it holds |
| ObjLoader.Indices | engine/asset/obj_loader.cpp:114-143 | one final index per face triple |
| ObjLoader.IndicesInRange | engine/asset/obj_loader.cpp:114-143 | every final index names a final vertex |
| ObjLoader.SameIndexIffSameTriple | engine/asset/obj_loader.cpp:114-143 | with at most 2^32 distinct triples, each index names its own triple's vertex, and two face vertices share an index exactly when their triples are equal |
| ObjLoader.BuildVertex | engine/asset/obj_loader.cpp:120-136 | a vertex takes the referenced position; the referenced normal and texture coordinate when their index is in range, else (0, 1, 0) and (0, 0) |
| ObjLoader.BuildVertices | engine/asset/obj_loader.cpp:120-136 | vertex k is the one built from triple k, so it takes the position its triple references |
| ObjLoader.FinalVerticesDefaults | engine/asset/obj_loader.cpp:124-136 | a file without normals gives every vertex the normal (0, 1, 0); one without texture coordinates gives every vertex (0, 0) |
| ObjLoader.FinalVertices | engine/asset/obj_loader.cpp:114-143 | defined as the vertex built from each distinct triple, in first-occurrence order; `Reindex` is proved equal to it |
| ObjLoader.PositionOnlyTokenDefaults | engine/asset/obj_loader.cpp:124-136 | a position-only token gets texture coordinate (0, 0) and normal (0, 1, 0) |
| ObjLoader.SeenTable | engine/asset/obj_loader.cpp:112 | the map holds exactly the triples seen |
| ObjLoader.PrefixVertices | engine/asset/obj_loader.cpp:114-143 | after n face vertices there is one final vertex per distinct triple seen |
| ObjLoader.IndicesStep | engine/asset/obj_loader.cpp:114-143 | placing one more triple keeps every earlier index |
| ObjLoader.KnownStep | engine/asset/obj_loader.cpp:115-117 | a triple seen before adds no vertex, leaves the map as it is and repeats its index |
| ObjLoader.NewStep | engine/asset/obj_loader.cpp:118-141 | a new triple appends its vertex and gets the next index, which the map records |
| ObjLoader.Reindex | engine/asset/obj_loader.cpp:110-143 | the re-indexing loop gives one vertex per distinct triple and the index list `Indices` |
| ObjLoader.PlaceTriple | engine/asset/obj_loader.cpp:115-141 | one pass of the loop takes the vertices, map and indices built from the first n triples to those built from the first n + 1 |
| ObjLoader.LoadModel | engine/asset/obj_loader.cpp:41-155 | a read failure becomes "Falha ao carregar modelo OBJ: " plus its message; otherwise a new model with one new mesh holding the re-indexed vertices and indices and a new default material |
| GltfLoader.LoadGltfTexture | engine/asset/gltf_loader.cpp:27-85 | a texture needs a texture and an image; through a buffer view it is a loaded texture without a path; otherwise it comes from the URI, with path directory + "/" + URI |
| GltfLoader.BufferViewBeforeUri | engine/asset/gltf_loader.cpp:43-72 | with a buffer view, the image's URI plays no part |
| GltfLoader.EmptyBufferViewGivesNothing | engine/asset/gltf_loader.cpp:47-50 | a buffer view without buffer or bytes, or of size 0, gives no texture |
| GltfLoader.EmbeddedTexture | engine/asset/gltf_loader.cpp:43-72 | for a buffer view with bytes and a non-zero size: a texture exactly when the bytes decode, and then a loaded texture without a path |
| GltfLoader.ExternalTexture | engine/asset/gltf_loader.cpp:74-83 | for an external image: no texture exactly when the file is not found, and a loaded texture exactly when it decodes |
| GltfLoader.LastOfKind | engine/asset/gltf_loader.cpp:149-176 | nothing exactly when no attribute has that kind; otherwise the accessor of an attribute of that kind after which no attribute has that kind |
| GltfLoader.VertexCount | engine/asset/gltf_loader.cpp:147-176 | defined as the count of the last attribute, or 0 without attributes |
| GltfLoader.ColumnsOf | engine/asset/gltf_loader.cpp:149-176 | defined as each array read from the last attribute of its kind, or empty when there is none |
| GltfLoader.VertexAt | engine/asset/gltf_loader.cpp:181-188 | defined as vertex k: each field from its array when that array has element k, else position (0,0,0), normal (0,1,0), texture coordinate (0,0), tangent (0,0,0) |
| GltfLoader.Values3 | engine/asset/gltf_loader.cpp:156-159 | a three-component attribute gives `count` values |
| GltfLoader.Values2 | engine/asset/gltf_loader.cpp:166-169 | a two-component attribute gives `count` values |
| GltfLoader.Resize | engine/asset/gltf_loader.cpp:192 | `resize` keeps the common prefix and pads with zero values up to the new length |
| GltfLoader.Fill3 | engine/asset/gltf_loader.cpp:156-159 | the resize-and-read loop gives the accessor's values |
| GltfLoader.Fill2 | engine/asset/gltf_loader.cpp:166-169 | the same for two-component values |
| GltfLoader.ReadAttributes | engine/asset/gltf_loader.cpp:147-176 | each column is that of the last attribute of its kind, and the vertex count is the last attribute's count |
| GltfLoader.VerticesOf | engine/asset/gltf_loader.cpp:178-188 | one vertex per vertex count |
| GltfLoader.AssembleVertices | engine/asset/gltf_loader.cpp:178-188 | the vertex loop gives `VerticesOf` the columns |
| GltfLoader.IndicesFor | engine/asset/gltf_loader.cpp:190-213 | `count` indices with an accessor, else one per vertex |
| GltfLoader.ReadIndices | engine/asset/gltf_loader.cpp:190-213 | the index branch gives `IndicesFor` |
| GltfLoader.IndicesWidened | engine/asset/gltf_loader.cpp:194-206 | 16- and 32-bit indices are read unchanged when they fit; any other component type leaves 0 |
| GltfLoader.SequentialIndices | engine/asset/gltf_loader.cpp:207-213 | without an accessor the indices are 0, 1, …, vertexCount−1 |
| GltfLoader.SetIfPresentSlot | engine/asset/gltf_loader.cpp:232-247 | a setter call happens only for a present texture reference, and changes only its slot |
| GltfLoader.SetIfPresent | engine/asset/gltf_loader.cpp:232-247 | defined as the setter's `WithMap` with the resolved texture when the reference is present, else the material unchanged |
| GltfLoader.WithTextures | engine/asset/gltf_loader.cpp:232-247 | defined as the five `SetIfPresent` calls in source order, the metallic-roughness reference going to the roughness slot; `WithTexturesSlots` states the result slot by slot |
| GltfLoader.MaterialFor | engine/asset/gltf_loader.cpp:215-250 | defined as the default material, or the source's factors followed by `WithTextures`; `MaterialForSlots` and `MaterialForConsistent` state what it holds |
| GltfLoader.WithTexturesSlots | engine/asset/gltf_loader.cpp:232-247 | after the five setter calls, each slot holds the resolved texture of its present reference, else what it held |
| GltfLoader.MaterialForSlots | engine/asset/gltf_loader.cpp:215-250 | a primitive's material has the source factors, normal and occlusion scales; each slot holds its reference's texture, the metallic-roughness one in the roughness slot and nothing in the metallic slot; each flag is set exactly when its texture is loaded |
| GltfLoader.MaterialForConsistent | engine/asset/gltf_loader.cpp:215-250 | a primitive's material keeps every flag in agreement with its slot |
| GltfLoader.BuildMaterial | engine/asset/gltf_loader.cpp:215-250 | a new material whose state is `MaterialFor` the primitive's material |
| GltfLoader.CopyFactors | engine/asset/gltf_loader.cpp:220-230 | only the factors change, to the source's |
| GltfLoader.AttachTextures | engine/asset/gltf_loader.cpp:232-247 | the setter calls give `WithTextures` of the old state |
| GltfLoader.BuildPrimitive | engine/asset/gltf_loader.cpp:141-258 | a mesh is made exactly when the primitive has a vertex and an index, and it is new and holds the primitive's data |
| GltfLoader.PrimitiveVertices | engine/asset/gltf_loader.cpp:147-188 | vertex count = last attribute's count; each field comes from the last attribute of its kind when that one has element k, else the default |
| GltfLoader.PrimitiveData | engine/asset/gltf_loader.cpp:141-250 | defined as the primitive's vertices, indices and material; `PrimitiveVertices`, `IndicesWidened` and `MaterialForSlots` state them |
| GltfLoader.PrimitivesOut | engine/asset/gltf_loader.cpp:138-259 | defined as the data of the primitives that have a vertex and an index, in order; `PrimitivesOutEmit` and `PrimitivesOutAll` state it |
| GltfLoader.NodeOut | engine/asset/gltf_loader.cpp:132-262 | defined as the primitives' data of the node's own mesh, nothing without a mesh; children are not visited (`ChildrenNotVisited`) |
| GltfLoader.NodesOut | engine/asset/gltf_loader.cpp:129-263 | defined as each node's data, node after node |
| GltfLoader.ScenesOut | engine/asset/gltf_loader.cpp:124-264 | defined as each scene's root nodes' data, scene after scene |
| GltfLoader.LastAttributeSetsVertexCount | engine/asset/gltf_loader.cpp:153 | three positions followed by a five-element colour attribute give five vertices, the last two at the origin |
| GltfLoader.UnsupportedIndicesStillEmit | engine/asset/gltf_loader.cpp:204-206 | an unsupported index type does not drop the primitive: it emits with `count` zero indices |
| GltfLoader.IndicesNotBoundsChecked | engine/asset/gltf_loader.cpp:194-198 | indices are not checked against the vertex count: one vertex and index 7 still emit |
| GltfLoader.ChildrenNotVisited | engine/asset/gltf_loader.cpp:129-132 | only a scene's root nodes are visited; children contribute nothing |
| GltfLoader.PrimitivesOutEmit | engine/asset/gltf_loader.cpp:252-258 | every added mesh has a vertex and an index, and there are at most as many meshes as primitives |
| GltfLoader.PrimitivesOutAll | engine/asset/gltf_loader.cpp:138-259 | when every primitive has a vertex and an index, the meshes are the primitives' data one for one, in order |
| GltfLoader.LoadPrimitives | engine/asset/gltf_loader.cpp:138-259 | the primitive loop appends, in order, a mesh holding each emitting primitive's data |
| GltfLoader.LoadNodes | engine/asset/gltf_loader.cpp:129-262 | the node loop appends the meshes of each root node, in order |
| GltfLoader.LoadGltf | engine/asset/gltf_loader.cpp:88-271 | a missing file, a parse failure and a buffer failure give their exact messages; otherwise a new model whose meshes hold, one for one, the emitting primitives scene by scene and root node by root node |

## Left out

- Logging, and all OpenGL calls except the ones `activate`, `deactivate` and `draw` record in their traces. The VAO/VBO/EBO setup of `Mesh` and `Sphere` and the destructors are not modelled.
- Reading files: `ObjLoader.LoadModel` takes the asset file's text, or the read exception's message. `GltfLoader.LoadGltf` takes the outcome of resolving, parsing and buffer loading as a `GltfFile` value. Path resolution lives in engine/core/path_utils.cpp, which is not part of this model; its not-found exception becomes `FileMissing` with its message.
- glTF parsing, buffer loading, image decoding and texture upload are foreign code. They are parameters of `GltfLoader.Env`, as are the accessor reads. The data-URI branch at gltf_loader.cpp:35-40 only logs, so it is not modelled.
- Float parsing (`iss >> x`) and `std::stoul` are the parameters of `ObjLoader.Reader`.
- ObjLoader.Raw: the `std::invalid_argument` and `std::out_of_range` exceptions of `stoul` on a malformed or huge segment are not modelled, because `Reader.index` is total.
- ObjLoader.Reindex: requires every position index to be in range, because the source indexes `tempPositions` unchecked, which is undefined behaviour otherwise.
- ObjLoader.LoadModel: the same precondition, for the same reason.
- ObjLoader.BuildVertex: the source leaves the OBJ vertex tangent uninitialised (indeterminate); the model sets (0, 0, 0).
- The hash functor of `ObjVertex` only affects the performance of the map, so the map is a Dafny `map`.
- Geometry.SphereVertices: the float values of the grid (the sines and cosines) are symbolic components, so the radius plays no part.
- Geometry.SphereIndices: requires `SizesFit`, a sufficient condition under which the source's `int` index arithmetic and `indexCount_` cannot overflow.
- `InputManager::Get` (the singleton) and `ProcessInput` (installing the GLFW callbacks) are not modelled. The handlers are called directly, and a callback is an identity whose calls are recorded, so callbacks that re-enter the manager are not modelled.
- Vectors are records of unconstrained reals, so 32-bit float and 64-bit double rounding is not modelled.
- The glTF loader keeps a primitive whose index component type is neither 16- nor 32-bit unsigned. Such a primitive is not dropped: `resize(count)` has already filled its index list with `count` zeros, so it is added like any other (see `GltfLoader.UnsupportedIndicesStillEmit`).

## Findings

| source | as written | input that shows it | evidently intended | confidence | as-written member | corrected member |
|---|---|---|---|---|---|---|
| engine/input/input_manager.cpp:29 | Entries are compared by `target<void(const InputEventData&)>()`. No `std::function` stores a value of function type, so both sides are always null and every entry of the (event, key) list is removed. | Callbacks 1 and 2 registered under (KeyPressed, 256), then unregister 1: the list becomes [] | Only the given callback is removed, and the list becomes [2] | high; not executed | Input.UnregisteredAsWritten (shown by Input.UnregisterAsWrittenCounterexample) | Input.Unregistered (with Input.UnregisteredIsNotCalled) |
| engine/render/material.cpp:130-141 | `glActiveTexture(GL_TEXTUREk + 1)` for k = 5 down to 0 unbinds units 6 to 1. Unit 0, where `activate` binds the base colour map, stays bound. | A material with a loaded base colour map: `activate` binds it to unit 0, and `deactivate` never unbinds unit 0 but unbinds unit 6, which no slot uses | Unbind units 5 to 0, the six units `activate` uses (line 130 calls unit 5 the last one used) | high; not executed | Render.DeactivateAsWritten (shown by Render.DeactivateAsWrittenLeavesUnitZero) | Render.Deactivate (with Render.DeactivateUndoesActivate) |
