# Gamma: string, path, light, bounds and model-loading core in Dafny

Gamma is an OpenGL/OpenCL renderer and fluid simulator. This project models its
small deterministic core:

- `gma::String`: search, suffix test, split, replace-all and backslash-to-slash
  path normalisation.
- `FilePath`: splits a path into folder and file name.
- `Scene`'s light list: bounded by a capacity and kept sorted by light kind.
- `AABB`: a box grown component-wise.
- The `TextureMask` enumeration and the texture-type tables.
- The loading logic of `Model`:
  - the texture cache that loads each path once;
  - the pre-order walk over the imported node tree;
  - the texture mask OR-ed into every mesh's material;
  - the model's bounding box;
  - the directory textures are loaded from.

One module per source file:

| file | module | models |
|---|---|---|
| `wrappers.dfy` | `Wrappers` | `Option` |
| `strings.dfy` | `Strings` | `String.hpp`, with `std::string::find`, `find_last_of` and `substr` |
| `filepath.dfy` | `FilePaths` | `FilePath.hpp` |
| `vectors.dfy` | `Vectors` | `glm::vec3`/`vec4` and component-wise `glm::min`/`glm::max` |
| `aabb.dfy` | `Bounds` | `AABB.hpp`, `AABB.cpp` |
| `scene.dfy` | `Scenes` | `Scene.cpp`, `Light.hpp` |
| `texture_types.dfy` | `TextureTypes` | `texTypeToName` in `utils.hpp` |
| `material.dfy` | `Materials` | `Material.hpp` |
| `model.dfy` | `Models` | `Model.cpp` |

State the source changes in place lives in classes:

- `Strings.String`: its `str` is rewritten by `replace`.
- `Scenes.Scene`: `mLights` and `MAX_LIGHTS`.
- `Bounds.AABB`: `mins` and `maxs`.
- `Models.Model`: `meshes`, `texCache`, `dirPath` and `aabb`.

Each method that changes state is proved against a function on values:

- `ReplaceAll` for `replace` and `Fields` for `split`.
- `Grow` and `ExpandByBox` for `expand`.
- `SortByW` for the sort in `addLight`.
- `LoadStep` and `LoadAll` for `loadTextures`.
- `BuildMeshes`, a fold of createMesh over `PreOrder` that threads the texture
  cache from mesh to mesh, for `recurseNodes` and `importMesh`.
  `RecurseNodes` and its two loops take that createMesh step as a ghost
  parameter, which `ImportMesh` sets to `CreateStep`.
- `ExpandAll` for `calculateAABB`.

The lemmas beside those functions state what the source promises:

- Scanning in `replace` resumes after the inserted text.
- A cached path is never loaded again, and the cache never holds a path twice.
- Meshes come out in pre-order.
- The bounding box does not depend on mesh order.
- The mask has a bit set exactly when some texture has that bit.

The assimp importer is a parameter: the `ImportedScene` value it would produce,
including a missing scene. `textureFromFile` is modelled by the file name it
opens (`dirPath + '/' + path`), recorded in a ghost log `openedFiles`.

`Scene.hpp` and `Model.hpp` declare members that their `.cpp` files do not use.
`Mesh.hpp` also disagrees with `Model.cpp`:

- it declares the texture's `type` as a `std::string` (`Mesh.hpp:16`), while
  `Model.cpp:141` stores `texTypeToMask(type)` in it and `Model.cpp:118` ORs it
  into `texMask`;
- it declares a three-argument `Mesh` constructor (`Mesh.hpp:23`), while
  `Model.cpp:120` calls one with four arguments.

The model follows the `.cpp` files.

## Model

Four members stand in for assimp and for default initialisation rather than
for source code:

- `Models.Slots` and `Models.MeshSlots` are the texture paths
  `GetTextureCount`/`GetTexture` would report for a material.
- `Scenes.Scene.constructor` is a scene's initial light list and capacity.
- `Models.Model.constructor` is the member state `Model(path)` starts from.

| member | source | states |
|---|---|---|
| Strings.Find | Gamma/Sources/String.hpp:85 | `std::string::find` from a start position: the first index at or after the start where the needle occurs, and no index before it; None (npos) exactly when it occurs nowhere from the start on |
| Strings.FindLastOf | Gamma/Sources/FilePath.hpp:18 | `find_last_of` for one character: None (npos) iff the character is absent, otherwise an index holding it with no occurrence after it |
| Strings.Substring | Gamma/Sources/String.hpp:53-55 | `std::string::substr`: out_of_range (None) iff the offset is past the end; otherwise a part of length min(count, size - offset) whose i-th character is the string's character at offset + i |
| Strings.String.Equals | Gamma/Sources/String.hpp:41-51 | all three `operator==` overloads: true iff same length and the same character at every index |
| Strings.String.constructor | Gamma/Sources/String.hpp:19-21 | `String(const std::string&)`: the stored text is the argument |
| Strings.String.Substr | Gamma/Sources/String.hpp:53-55 | None iff offset > size; otherwise the part has length min(count, size - offset) and sits in the string at the offset |
| Strings.String.Contains | Gamma/Sources/String.hpp:70-72 | true iff the argument occurs at some index of the string; the empty string is always contained |
| Strings.String.EndsWith | Gamma/Sources/String.hpp:74-80 | false when `end` is longer than the string; otherwise true iff the string is some prefix followed by `end` (so `""` always) |
| Strings.String.Split | Gamma/Sources/String.hpp:57-68 | the getline loop yields `Fields(str, c)`: no part contains `c`, joining the parts with `c` gives the string back minus one trailing `c`, and the empty string yields no parts |
| Strings.FieldsHaveNoDelimiter | Gamma/Sources/String.hpp:63-65 | no field getline produces contains the delimiter |
| Strings.FieldsNonEmpty | Gamma/Sources/String.hpp:63-65 | a non-empty string yields at least one field |
| Strings.JoinFields | Gamma/Sources/String.hpp:57-68 | the fields joined with the delimiter give the input back, except that one trailing delimiter is dropped |
| Strings.String.Replace | Gamma/Sources/String.hpp:83-89 | the find/replace loop ends for a non-empty `from` and leaves `str == ReplaceAll(old str, from, to)` |
| Strings.ReplaceEmptyFromStalls | Gamma/Sources/String.hpp:83-89 | as written with an empty `from`: `find` matches at `startPos` itself, and after the splice and `startPos += to.length()` the text left to scan is exactly as long as before and `find` matches again, so the loop never ends |
| Strings.ReplaceAllNoMatch | Gamma/Sources/String.hpp:85 | a string with no occurrence of `from` is left unchanged |
| Strings.ReplaceAllFirstMatch | Gamma/Sources/String.hpp:85-87 | the first occurrence is replaced by `to` and replacing continues after it, so inserted text is never rewritten |
| Strings.ReplaceAllCharwise | Gamma/Sources/String.hpp:83-89 | for one-character `from` and `to`: the length is kept, every `from` becomes `to` and every other character is unchanged |
| Strings.String.AsUnixPath | Gamma/Sources/String.hpp:92-96 | a fresh copy holds `UnixPath(str)`: same length, no backslash; the receiver is not modified (the method has no modifies clause) |
| Strings.UnixPathCharwise | Gamma/Sources/String.hpp:92-96 | each backslash becomes '/', every other character stays, the length is kept, no backslash remains |
| Strings.UnixPathIdentity | Gamma/Sources/String.hpp:92-96 | a string without backslashes is returned unchanged |
| Strings.UnixPathIdempotent | Gamma/Sources/String.hpp:92-96 | converting twice is the same as converting once |
| FilePaths.FromText | Gamma/Sources/FilePath.hpp:9-11 | the stored path is the input with each backslash replaced by '/', of the same length; an input without backslashes is stored and returned by `FullPath` verbatim |
| FilePaths.FilePath.FullPath | Gamma/Sources/FilePath.hpp:13-15 | the stored path, which never contains a backslash |
| FilePaths.FilePath.FileNameStart | Gamma/Sources/FilePath.hpp:18-19 | `find_last_of("/") + 1` in size_t arithmetic: 0 iff there is no '/' (npos + 1 wraps around), otherwise one past the last '/' |
| FilePaths.FilePath.FileName | Gamma/Sources/FilePath.hpp:17-20 | the suffix after the last '/'; it contains no '/', and it is the whole path when there is no '/' |
| FilePaths.FilePath.FolderPath | Gamma/Sources/FilePath.hpp:22-25 | the prefix up to and including the last '/'; empty iff there is no '/', otherwise ending in '/' |
| FilePaths.FolderThenFileName | Gamma/Sources/FilePath.hpp:13-25 | `folderPath() + fileName() == fullPath()` |
| TextureTypes.TexTypeToName | Gamma/Sources/utils.hpp:27-44 | total over all texture types; every name starts with "tex_" |
| TextureTypes.NameToTexType | Gamma/Sources/utils.hpp:28-41 | the reverse table: a name that reads back names a listed type whose name it is |
| TextureTypes.NameRoundTrip | Gamma/Sources/utils.hpp:28-41 | each listed type reads back from its name |
| TextureTypes.NameToTexTypeOnlyTable | Gamma/Sources/utils.hpp:28-41 | only names from the table read back, and all of them start with "tex_" |
| TextureTypes.NamesDistinct | Gamma/Sources/utils.hpp:28-40 | the listed types have pairwise distinct names |
| TextureTypes.UnknownName | Gamma/Sources/utils.hpp:41-42 | the name is "tex_unknown" iff the type is UNKNOWN or not in the table |
| Materials.Bit | Gamma/Sources/Material.hpp:15-23 | every TextureMask value is a single bit below 128 |
| Materials.BitIsShift | Gamma/Sources/Material.hpp:15-23 | each value is `1U << i` for its index i, 0 to 6 |
| Materials.MaskBitsDistinct | Gamma/Sources/Material.hpp:15-23 | distinct values are distinct bits and share none |
| Materials.TexTypeToMask | Gamma/Sources/Material.hpp:25-36 | the result is 0 or a single bit, below 128 |
| Materials.MaskToTexType | Gamma/Sources/Material.hpp:27-33 | each mask value has a texture type that maps to it |
| Materials.TexTypeToMaskInverse | Gamma/Sources/Material.hpp:27-33 | a type maps to a mask value iff it is that value's type: DIFFUSE, NORMALS, SHININESS, UNKNOWN, HEIGHT, DISPLACEMENT and EMISSIVE to DIFFUSE, NORMAL, SHININESS, METALLIC, BUMP, DISPLACEMENT and EMISSION |
| Materials.TexTypeToMaskZero | Gamma/Sources/Material.hpp:34 | exactly the types without a case map to 0 |
| Materials.DefaultMaterial | Gamma/Sources/Material.hpp:12 | Kd is 0.6 on each channel, metallic and alpha are 0.5, texMask is 0 |
| Vectors.Min3 | Gamma/Sources/AABB.cpp:4 | `glm::min`: the component-wise greatest lower bound of the two vectors |
| Vectors.Max3 | Gamma/Sources/AABB.cpp:5 | `glm::max`: the component-wise least upper bound of the two vectors |
| Bounds.EmptyBox | Gamma/Sources/AABB.hpp:8 | mins FLT_MAX and maxs -FLT_MAX on every axis; it contains no point |
| Bounds.Grow | Gamma/Sources/AABB.cpp:3-6 | the grown box contains the point and covers the old box; a box that already contains the point is unchanged |
| Bounds.GrowIsLeast | Gamma/Sources/AABB.cpp:3-6 | every box that covers the old box and contains the point covers the grown box |
| Bounds.GrowIdempotent | Gamma/Sources/AABB.cpp:3-6 | growing by the same point twice is growing once |
| Bounds.GrowEmpty | Gamma/Sources/AABB.cpp:3-6 | the default box grown by a finite point is the box with mins = maxs = that point |
| Bounds.GrowCommutes | Gamma/Sources/AABB.cpp:3-6 | growing by two points in either order gives the same box |
| Bounds.GrowAll | Gamma/Sources/AABB.cpp:3-6 | growing by a list of points covers the start box and contains every point |
| Bounds.GrowAllPermutation | Gamma/Sources/AABB.cpp:3-6 | growing by a rearrangement of the points gives the same box |
| Bounds.ExpandByBox | Gamma/Sources/AABB.cpp:8-11 | the result covers the old box and contains both corners of the other; it covers the other box when that box is not inverted |
| Bounds.ExpandAll | Gamma/Sources/Model.cpp:190-195 | folding `expand(box)` over the mesh boxes covers the start box and contains both corners of every mesh box |
| Bounds.ExpandAllIsGrowAll | Gamma/Sources/AABB.cpp:8-11 | expanding by boxes is growing by their corners, mins then maxs, in order |
| Bounds.ExpandAllPermutation | Gamma/Sources/Model.cpp:190-195 | the bounding box does not depend on the order of the meshes |
| Bounds.AABB.constructor | Gamma/Sources/AABB.hpp:8 | the default box is the empty box |
| Bounds.AABB.FromCorners | Gamma/Sources/AABB.hpp:9 | the two-corner constructor stores the corners verbatim |
| Bounds.AABB.Expand | Gamma/Sources/AABB.cpp:3-6 | `expand(p)`: the new box is `Grow(old box, p)` |
| Bounds.AABB.ExpandBox | Gamma/Sources/AABB.cpp:8-11 | `expand(box)` for a distinct box is `ExpandByBox`; for the box itself the second call reads the maxs the first call already moved, and a non-inverted box expanded by itself is unchanged |
| Scenes.DefaultLight | Gamma/Sources/Light.hpp:7 | the default light is positional, at the origin, with emission 5 |
| Scenes.SortByW | Gamma/Sources/Scene.cpp:30 | the result is sorted ascending by `vector.w` and is a permutation of the input |
| Scenes.InsertByW | Gamma/Sources/Scene.cpp:30 | inserting into a sorted list keeps it sorted and adds exactly that light |
| Scenes.DirectionalFirst | Gamma/Sources/Light.hpp:5 | in a list sorted by w with no negative w, every directional light (w = 0) comes before every positional one |
| Scenes.NegativeWSplitsKinds | Gamma/Sources/Scene.cpp:28-30 | with lights of w = -1, 0 and 1 (Light.hpp:5 makes both non-zero ones positional), every sorted rearrangement, so whatever `std::sort` returns, has a positional light first and the directional one second |
| Scenes.Scene.SetMaxLights | Gamma/Sources/Scene.cpp:9-19 | MAX_LIGHTS becomes `max`; a list that fits is unchanged; a longer one keeps its first `max` lights and deletes exactly those from index `max` on; size ≤ MAX_LIGHTS afterwards, and sortedness is kept |
| Scenes.Scene.AddLight | Gamma/Sources/Scene.cpp:22-31 | a full list is unchanged; otherwise it grows by one, holds the old lights plus the new one and is sorted by w; size ≤ MAX_LIGHTS and sortedness are kept |
| Scenes.Scene.ClearLights | Gamma/Sources/Scene.cpp:33-38 | every light is deleted in order and the list is empty |
| Models.PreOrder | Gamma/Sources/Model.cpp:67-75 | the pre-order of a node starts with the node's own mesh indices |
| Models.PreOrderLeaf | Gamma/Sources/Model.cpp:68-71 | a node without children contributes exactly its own meshes |
| Models.PreOrderLength | Gamma/Sources/Model.cpp:67-75 | the walk yields one mesh per mesh reference in the tree |
| Models.PreOrderInRange | Gamma/Sources/Model.cpp:69 | in a scene whose node indices are in range, every index of the walk names a scene mesh |
| Models.FindCached | Gamma/Sources/Model.cpp:134-136 | `std::find_if` over the cache: None iff no entry has the path, otherwise the first entry with that path |
| Models.LoadStep | Gamma/Sources/Model.cpp:129-148 | one slot: the target gets exactly one texture, with the slot's path, and it is a cache entry; a cached path leaves the cache unchanged; a new path appends `Texture(path, type)` to the cache |
| Models.LoadAll | Gamma/Sources/Model.cpp:129-149 | the target gets one texture per slot, in slot order (its paths are the old paths followed by the slot paths); target and cache only grow at the end |
| Models.LoadSlot | Gamma/Sources/Model.cpp:130-148 | one pass of the loop body computes `LoadStep`, and the log of opened files stays the files of the cache |
| Models.LoadSlots | Gamma/Sources/Model.cpp:129-149 | the slot loop computes `LoadAll` and logs one opened file per new cache entry |
| Models.Model.LoadTextures | Gamma/Sources/Model.cpp:123-150 | the returned target and the new cache are `LoadAll` of the old target and cache over the type's slots; meshes, dirPath and the box are unchanged; the cache invariant is kept |
| Models.LoadAllTargetsCached | Gamma/Sources/Model.cpp:143-147 | every texture pushed to the target is a cache entry |
| Models.LoadAllNewKinds | Gamma/Sources/Model.cpp:139-144 | every entry a run adds to the cache has that run's texture type, so its mask is `texTypeToMask(type)` |
| Models.NewPaths | Gamma/Sources/Model.cpp:134-145 | the reference list of what a run loads: the slot paths not yet known, each once, in order of first use |
| Models.LoadAllAddsNewPaths | Gamma/Sources/Model.cpp:134-145 | the cache's paths grow by exactly `NewPaths`: one load per new distinct path, none for a cached one |
| Models.LoadAllKeepsNoDup | Gamma/Sources/Model.cpp:134-145 | a cache without duplicate paths never gets one |
| Models.LoadAllCachedOnly | Gamma/Sources/Model.cpp:146-148 | slots whose paths are all cached leave the cache unchanged |
| Models.FindCachedUnique | Gamma/Sources/Model.cpp:134-136 | in a duplicate-free cache, looking up an entry's path finds that very entry |
| Models.LoadAllTargetsFromCache | Gamma/Sources/Model.cpp:134-148 | from an empty target: the target's paths are the slot paths, and each target texture is the cache entry for its path, so a repeated path reuses the loaded texture |
| Models.MaskOf | Gamma/Sources/Model.cpp:118 | the OR of the texture masks is below 128 |
| Models.MaskOfBit | Gamma/Sources/Model.cpp:118 | a bit is set in the OR iff some texture's type mask has it |
| Models.AccumulateMask | Gamma/Sources/Model.cpp:118 | the `for_each` loop leaves `mask \| MaskOf(textures)` |
| Models.TextureFileInjective | Gamma/Sources/Model.cpp:153-154 | within one directory, different texture paths name different files |
| Models.TextureFile | Gamma/Sources/Model.cpp:153-154 | `this->dirPath + '/' + filename`: the directory, then one '/', then the texture path |
| Models.FilesNoDup | Gamma/Sources/Model.cpp:138-140 | a cache without duplicate paths opens no file twice |
| Models.DirPathAsWritten | Gamma/Sources/Model.cpp:62 | `path.substr(0, path.find_last_of('/'))`: the text before the last '/', or the whole path when there is none |
| Models.DirPath | Gamma/Sources/Model.cpp:62 | the text before the last '/', or "." when the path has no '/' |
| Models.TextureBesideModel | Gamma/Sources/Model.cpp:153-154 | with `DirPath`, a texture's file is the model's own folder followed by the texture path |
| Models.DirPathAsWrittenMisplacesTextures | Gamma/Sources/Model.cpp:62 | as written, "model.obj" with texture "wood.png" opens "model.obj/wood.png", not "./wood.png" |
| Models.MaterialOf | Gamma/Sources/Model.cpp:111-118 | the default material with Kd and alpha overridden by the diffuse colour and shininess the source material has, and texMask the OR of the texture masks |
| Models.LoadMeshTextures | Gamma/Sources/Model.cpp:115-117 | the target's paths are the diffuse slots, then the normal-map slots, then the shininess slots; the cache only grows at the end |
| Models.LoadMeshTexturesCached | Gamma/Sources/Model.cpp:115-117 | every texture of the mesh is an entry of the cache afterwards |
| Models.LoadMeshTexturesKeepsNoDup | Gamma/Sources/Model.cpp:115-117 | loading a material's textures never caches a path twice |
| Models.Model.LoadMaterialTextures | Gamma/Sources/Model.cpp:115-117 | the three `loadTextures` calls compute `LoadMeshTextures`; all the textures are cached; the invariant is kept |
| Models.CreatedMeshBuilt | Gamma/Sources/Model.cpp:110-120 | the mesh createMesh makes has the source mesh's box, one texture per slot of the diffuse, then normal-map, then shininess paths, and the material `MaterialOf` those textures; its textures are entries of the cache it leaves |
| Models.CacheAfterMesh | Gamma/Sources/Model.cpp:115-117 | the cache after createMesh starts with the cache before it |
| Models.CreatedMesh | Gamma/Sources/Model.cpp:78-121 | createMesh on values: the source mesh's box, one texture per slot of the diffuse, normal-map and shininess paths, and a texMask that is the OR of those textures' masks |
| Models.Model.BuildMaterial | Gamma/Sources/Model.cpp:112-118 | the default material, the source's diffuse colour and shininess set where it has them, then the texture masks OR-ed in, is `MaterialOf` the textures |
| Models.Model.CreateMesh | Gamma/Sources/Model.cpp:78-121 | the mesh and the new cache are exactly `CreatedMesh` and `LoadMeshTextures` of the old cache; the textures are cached; the invariant is kept |
| Models.Model.AddMesh | Gamma/Sources/Model.cpp:70 | `meshes.push_back(createMesh(...))`: exactly one mesh, `CreatedMesh` of the old cache, is appended, and the cache becomes `CacheAfterMesh` of the old one |
| Models.Fold | Gamma/Sources/Model.cpp:67-75 | createMesh applied index by index, each call seeing the cache the previous one left, makes one mesh per index |
| Models.BuildMeshes | Gamma/Sources/Model.cpp:67-75 | the recurseNodes fold of createMesh over a list of scene mesh indices, from a given cache: one mesh per index |
| Models.FoldNext | Gamma/Sources/Model.cpp:68-71 | one more index appends the mesh made from the cache so far and moves on to the cache it leaves |
| Models.FoldAppend | Gamma/Sources/Model.cpp:67-75 | folding over a concatenation is folding over the first part, then over the second from the cache the first left |
| Models.FoldChildrenNext | Gamma/Sources/Model.cpp:72-74 | the fold over the first j+1 children's pre-orders is the fold over the first j, followed by child j's from the cache they left |
| Models.BuildMeshesBuilt | Gamma/Sources/Model.cpp:67-121 | each mesh of the fold is what createMesh makes of the scene mesh at that place of the order, and the final cache starts with the first |
| Models.Model.AddMeshes | Gamma/Sources/Model.cpp:68-71 | the node's mesh loop appends exactly the fold over the node's mesh indices, and leaves the fold's final cache |
| Models.Model.AddChildren | Gamma/Sources/Model.cpp:72-74 | the child loop appends exactly the fold over the children's pre-orders, one child after another, and leaves the fold's final cache |
| Models.Model.RecurseNodes | Gamma/Sources/Model.cpp:67-75 | the meshes appended and the new cache are exactly the fold of createMesh over the node's pre-order, from the old cache; the invariant is kept |
| Models.Model.ImportMesh | Gamma/Sources/Model.cpp:52-64 | fails iff there is no scene, it is flagged incomplete or it has no root, and then nothing changes; otherwise dirPath is `DirPathAsWritten` of the path, and the meshes and the cache are exactly `BuildMeshes` from an empty cache over the root's pre-order, each built from its scene mesh |
| Models.Model.CalculateAABB | Gamma/Sources/Model.cpp:190-195 | the box becomes `ExpandAll` of the old box over the mesh boxes, in mesh order |
| Models.CachedTexturesOpened | Gamma/Sources/Model.cpp:138-144 | the file of every texture of every mesh was opened |
| Models.LoadModel | Gamma/Sources/Model.cpp:12-17 | `Model(path)`: no model iff the import fails (the source throws); otherwise dirPath is `DirPathAsWritten` of the path, the meshes are `BuildMeshes` over the root's pre-order, the box covers all mesh boxes from the empty box, the cache is empty again, the files opened are those of the fold's final cache in load order, none twice, and every mesh texture's file was opened |
| Models.ImportFails | Gamma/Sources/Model.cpp:56 | the failure test of importMesh; a scene that passes exists, is not flagged incomplete and has a root node |
| Models.Model.constructor | Gamma/Sources/Model.cpp:12-17 | the members before the body of `Model(path)` runs: no meshes, an empty cache, no file opened, an empty dirPath and a fresh default (empty) box |

## Left out

- Strings.String.Replace: requires a non-empty `from`. With an empty `from` the source loop never ends (see Findings and Strings.ReplaceEmptyFromStalls).
- `gma::String` conversions and indexing (`String.hpp:24-39`): plain accessors of the stored text. The commented-out `asUnixPath2` is not code.
- Scenes.Scene.AddLight: the contract does not say how `std::sort` orders lights of equal w. The standard does not promise an order, since `std::sort` is not stable. `SortByW` is one sorted permutation; the method promises only sortedness and the permutation.
- Lights are values, not owned `Light*`. `delete` is recorded in the ghost log `deleted`. The destructor `Scene::~Scene` (`Scene.cpp:3-7`) only frees memory and is not modelled.
- The `Scene.hpp` in this repository declares a different `Scene` class, with `Scene() = default`, a `storage` member and no `MAX_LIGHTS`. `Scenes.Scene.constructor` (with `maxLights`) has no counterpart in the source: it stands for the light list and capacity a scene holds before `setMaxLights` or `addLight` runs.
- Floating point: `glm::vec3`, `float` and `FLT_MAX` are reals. Component-wise min and max are exact on floats, and NaN is not modelled. Bounds.GrowEmpty asks for a point within ±FLT_MAX: an infinite component would be clamped to ±FLT_MAX by the start box, so the result would not be the point.
- `AABB::maxDim` is declared in `AABB.hpp:13` but defined in no source file, so it is not modelled.
- `textureFromFile` (`Model.cpp:152-188`): the GL texture id, stb_image decoding, the image-format checks and their exceptions are left out. Only the file name it opens is modelled, in the ghost log `openedFiles`.
- A texture stores the texture type it was loaded for, not the bit. Its mask is `TexTypeToMask(kind)`, the value the source stores in `type`. Textures are values, so the sharing of one `shared_ptr<Texture>` between the target and the cache is not visible.
- `createMesh`'s vertex, normal, texture-coordinate and index copying (`Model.cpp:79-108`) is left out. A source mesh is reduced to the box its mesh reports and its material index. `Mesh::getAABB` is called at `Model.cpp:192` but is defined in no source file of this model, so the box is an input.
- Console output is not modelled: the warning `loadTextures` prints for several textures of one type (`Model.cpp:126-127`), the assimp error message (`Model.cpp:57`), the resize notice of `setMaxLights` (`Scene.cpp:13`) and the full-list notice of `addLight` (`Scene.cpp:24`).
- `Model::render`, `setMaterial`, `getMaterials`, `scale`, `translate` and the transform `M` (`Model.cpp:13`, `19-50`) are rendering and transform code outside this core.
- Models.Model.ImportMesh: requires a model with no meshes, an empty cache and no opened files. The source calls it only from the constructor, where that holds.
- Models.Model.RecurseNodes: requires mesh and material indices in range. The assimp importer guarantees this for the scenes it returns.
- Models.LoadModel: an import failure returns None where the source throws `std::runtime_error`.

## Findings

| source | as written | input that shows it | evidently intended | confidence | as-written member | corrected member |
|---|---|---|---|---|---|---|
| Gamma/Sources/Model.cpp:62 | `dirPath = path.substr(0, path.find_last_of('/'))` keeps the whole path when it has no '/', because `substr(0, npos)` takes everything | model path "model.obj", texture "wood.png": `textureFromFile` opens "model.obj/wood.png" | textures are looked up beside the model: dirPath "." and file "./wood.png" | not executed; medium | Models.DirPathAsWrittenMisplacesTextures | Models.TextureBesideModel |
| Gamma/Sources/String.hpp:83-89 | `replace` loops while `find(from, startPos)` succeeds, and `find("")` succeeds at `startPos` itself | `replace("", "x")` on any string: the string grows by "x" forever; `replace("", "")` spins in place | `replace` with an empty `from` returns (or is refused) | not executed; high | Strings.ReplaceEmptyFromStalls | Strings.String.Replace |
| Gamma/Sources/Scene.cpp:28-30 | lights are sorted by `vector.w` to group them by type, but Light.hpp:5 makes every non-zero w positional, negative ones included | lights with w = -1, 0 and 1: the directional light sorts between two positional ones | every directional light precedes every positional one, which holds when no w is negative | not executed; low | Scenes.NegativeWSplitsKinds | Scenes.DirectionalFirst |

The `Model` class follows the source as written: `ImportMesh` and `LoadModel` set
`dirPath` to `DirPathAsWritten`. `DirPath` and `TextureBesideModel` state the
intended directory and prove that textures are then found beside the model.
`Strings.String.Replace` refuses an empty `from`. For every other input it ends and
computes `ReplaceAll`. `Scenes.DirectionalFirst` proves the grouping by kind for
lights whose w is not negative.
