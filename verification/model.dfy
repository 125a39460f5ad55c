/**
 * Model loading (Gamma/Sources/Model.cpp): the meshes of an imported scene
 * collected in pre-order, their textures loaded once per path through a
 * cache, their texture masks OR-ed together, and the bounds of all meshes.
 *
 * The importer (assimp) is abstracted as the `ImportedScene` value it
 * produces; the texture loader is abstracted as a ghost log of the files it
 * opens.
 */
module Models {
  import opened Wrappers
  import opened Strings
  import opened Vectors
  import opened Bounds
  import opened TextureTypes
  import opened Materials

  // ---------------------------------------------------------------------------
  // The imported scene

  /** aiSceneFlags bit that marks an incomplete import. */
  const AI_SCENE_FLAGS_INCOMPLETE: bv32 := 0x1

  /** The parts of an aiMaterial the loader reads: two properties and the texture paths per type. */
  datatype SourceMaterial = SourceMaterial(
    diffuse: Option<Vec3>,
    shininess: Option<real>,
    textures: map<TextureType, seq<string>>)

  /** An aiMesh, reduced to the box its mesh reports and the index of its material. */
  datatype SourceMesh = SourceMesh(bounds: Box, materialIndex: nat)

  /** An aiNode: indices of its meshes and its child nodes. */
  datatype Node = Node(meshes: seq<nat>, children: seq<Node>)

  /** An aiScene: flags, the root node (null when absent), meshes and materials. */
  datatype ImportedScene = ImportedScene(
    flags: bv32,
    root: Option<Node>,
    meshes: seq<SourceMesh>,
    materials: seq<SourceMaterial>)

  /** GetTextureCount / GetTexture: the texture paths of one type, in slot order. */
  function Slots(mat: SourceMaterial, t: TextureType): (paths: seq<string>)
    ensures t !in mat.textures ==> paths == []
  {
    if t in mat.textures then mat.textures[t] else []
  }

  /** importMesh's failure test: no scene, an incomplete one, or one without a root. */
  predicate ImportFails(scene: Option<ImportedScene>)
    ensures !ImportFails(scene) ==> scene.Some? && scene.value.root.Some?
    ensures !ImportFails(scene) ==> scene.value.flags & AI_SCENE_FLAGS_INCOMPLETE == 0
  {
    scene.None? || scene.value.flags & AI_SCENE_FLAGS_INCOMPLETE != 0 || scene.value.root.None?
  }

  /** Node mesh indices and mesh material indices are in range (the importer guarantees it). */
  predicate NodeIndicesIn(n: Node, meshCount: nat)
    decreases n, 1
  {
    (forall k :: 0 <= k < |n.meshes| ==> n.meshes[k] < meshCount)
    && ChildrenIndicesIn(n, |n.children|, meshCount)
  }

  predicate ChildrenIndicesIn(n: Node, k: nat, meshCount: nat)
    requires k <= |n.children|
    decreases n, 0, k
  {
    k == 0 || (ChildrenIndicesIn(n, k - 1, meshCount) && NodeIndicesIn(n.children[k - 1], meshCount))
  }

  predicate WellFormed(scene: ImportedScene)
  {
    (forall k :: 0 <= k < |scene.meshes| ==> scene.meshes[k].materialIndex < |scene.materials|)
    && (scene.root.Some? ==> NodeIndicesIn(scene.root.value, |scene.meshes|))
  }

  // ---------------------------------------------------------------------------
  // Pre-order traversal

  /** The mesh indices of a node tree in pre-order: a node's own, then each child's in turn. */
  function PreOrder(n: Node): (order: seq<nat>)
    ensures |order| >= |n.meshes| && order[..|n.meshes|] == n.meshes
    decreases n, 1
  {
    n.meshes + ChildrenPreOrder(n, |n.children|)
  }

  /** The pre-order of the first `k` children of `n`, one after another. */
  function ChildrenPreOrder(n: Node, k: nat): (order: seq<nat>)
    requires k <= |n.children|
    decreases n, 0, k
  {
    if k == 0 then [] else ChildrenPreOrder(n, k - 1) + PreOrder(n.children[k - 1])
  }

  /** Every index in the pre-order of a well-formed tree is a valid mesh index. */
  lemma {:induction false} PreOrderInRange(n: Node, meshCount: nat)
    requires NodeIndicesIn(n, meshCount)
    ensures forall k :: 0 <= k < |PreOrder(n)| ==> PreOrder(n)[k] < meshCount
    decreases n, 1
  {
    ChildrenPreOrderInRange(n, |n.children|, meshCount);
  }

  lemma {:induction false} ChildrenPreOrderInRange(n: Node, k: nat, meshCount: nat)
    requires k <= |n.children| && ChildrenIndicesIn(n, k, meshCount)
    ensures forall j :: 0 <= j < |ChildrenPreOrder(n, k)| ==> ChildrenPreOrder(n, k)[j] < meshCount
    decreases n, 0, k
  {
    if k > 0 {
      ChildrenPreOrderInRange(n, k - 1, meshCount);
      PreOrderInRange(n.children[k - 1], meshCount);
    }
  }

  /** A leaf contributes exactly its own meshes. */
  lemma {:induction false} PreOrderLeaf(n: Node)
    requires n.children == []
    ensures PreOrder(n) == n.meshes
  {
  }

  /** The pre-order visits every mesh reference of the tree once: its length is their number. */
  function MeshRefCount(n: Node): (c: nat)
    decreases n, 1
  {
    |n.meshes| + ChildrenMeshRefCount(n, |n.children|)
  }

  function ChildrenMeshRefCount(n: Node, k: nat): (c: nat)
    requires k <= |n.children|
    decreases n, 0, k
  {
    if k == 0 then 0 else ChildrenMeshRefCount(n, k - 1) + MeshRefCount(n.children[k - 1])
  }

  lemma {:induction false} PreOrderLength(n: Node)
    ensures |PreOrder(n)| == MeshRefCount(n)
    decreases n, 1
  {
    ChildrenPreOrderLength(n, |n.children|);
  }

  lemma {:induction false} ChildrenPreOrderLength(n: Node, k: nat)
    requires k <= |n.children|
    ensures |ChildrenPreOrder(n, k)| == ChildrenMeshRefCount(n, k)
    decreases n, 0, k
  {
    if k > 0 {
      ChildrenPreOrderLength(n, k - 1);
      PreOrderLength(n.children[k - 1]);
    }
  }

  // ---------------------------------------------------------------------------
  // Texture cache

  /**
   * A loaded texture: the path it was loaded under and the texture type it
   * was loaded for; its mask, TexTypeToMask(kind), is the value the source stores.
   */
  datatype Texture = Texture(path: string, kind: TextureType)

  function Paths(ts: seq<Texture>): (ps: seq<string>)
    ensures |ps| == |ts| && forall i :: 0 <= i < |ts| ==> ps[i] == ts[i].path
  {
    seq(|ts|, i requires 0 <= i < |ts| => ts[i].path)
  }

  lemma {:induction false} PathsSnoc(ts: seq<Texture>, t: Texture)
    ensures Paths(ts + [t]) == Paths(ts) + [t.path]
  {
  }

  predicate NoDup<T(==)>(xs: seq<T>)
  {
    forall i, j :: 0 <= i < j < |xs| ==> xs[i] != xs[j]
  }

  /** std::find_if over the cache: the first texture with the given path. */
  function FindCached(cache: seq<Texture>, path: string): (r: Option<nat>)
    ensures r.None? <==> path !in Paths(cache)
    ensures r.Some? ==> r.value < |cache| && cache[r.value].path == path
    ensures r.Some? ==> forall j :: 0 <= j < r.value ==> cache[j].path != path
    decreases |cache|
  {
    if cache == [] then None
    else if cache[0].path == path then Some(0)
    else
      var r := FindCached(cache[1..], path);
      assert Paths(cache) == [cache[0].path] + Paths(cache[1..]);
      if r.None? then None else Some(r.value + 1)
  }

  /** The textures pushed to the target so far and the cache after them. */
  datatype Loaded = Loaded(target: seq<Texture>, cache: seq<Texture>)

  /**
   * One slot of loadTextures: a cached path pushes the cached texture and
   * leaves the cache alone; a new path makes a texture of the slot's type
   * and appends it to both.
   */
  function LoadStep(prev: Loaded, path: string, kind: TextureType): (r: Loaded)
    ensures Paths(r.target) == Paths(prev.target) + [path]
    ensures |r.target| == |prev.target| + 1 && r.target[..|prev.target|] == prev.target
    ensures r.target[|prev.target|] in r.cache
    ensures path in Paths(prev.cache) ==> r.cache == prev.cache
    ensures path !in Paths(prev.cache) ==> r.cache == prev.cache + [Texture(path, kind)]
  {
    var hit := FindCached(prev.cache, path);
    var t := if hit.Some? then prev.cache[hit.value] else Texture(path, kind);
    PathsSnoc(prev.target, t);
    Loaded(prev.target + [t], if hit.Some? then prev.cache else prev.cache + [t])
  }

  /**
   * loadTextures over slots in order, starting from the target and cache in
   * `start`: the target gets one texture per slot, the cache one per new path.
   */
  function LoadAll(start: Loaded, paths: seq<string>, kind: TextureType): (r: Loaded)
    ensures Paths(r.target) == Paths(start.target) + paths
    ensures |start.target| <= |r.target| && r.target[..|start.target|] == start.target
    ensures |start.cache| <= |r.cache| && r.cache[..|start.cache|] == start.cache
    decreases |paths|
  {
    if paths == [] then start
    else
      var prev := LoadAll(start, paths[..|paths| - 1], kind);
      var r := LoadStep(prev, paths[|paths| - 1], kind);
      SnocAssoc(Paths(start.target), paths);
      PrefixTrans(start.target, prev.target, r.target);
      PrefixTrans(start.cache, prev.cache, r.cache);
      r
  }

  /** LoadStep spelled out for a hit and for a miss. */
  lemma {:induction false} LoadStepCases(prev: Loaded, path: string, kind: TextureType)
    ensures FindCached(prev.cache, path).None? ==>
      LoadStep(prev, path, kind) == Loaded(prev.target + [Texture(path, kind)], prev.cache + [Texture(path, kind)])
    ensures FindCached(prev.cache, path).Some? ==>
      LoadStep(prev, path, kind) == Loaded(prev.target + [prev.cache[FindCached(prev.cache, path).value]], prev.cache)
  {
  }

  /** One more slot is one more LoadStep. */
  lemma {:induction false} LoadAllNext(start: Loaded, paths: seq<string>, i: nat, kind: TextureType, state: Loaded)
    requires i < |paths| && state == LoadAll(start, paths[..i], kind)
    ensures LoadStep(state, paths[i], kind) == LoadAll(start, paths[..i + 1], kind)
  {
    assert paths[..i + 1][..i] == paths[..i];
  }

  /**
   * The body of loadTextures' loop for one slot: std::find_if looks the path
   * up in the cache; a miss opens the file (textureFromFile, logged in
   * `files`), makes a texture of the slot's type and pushes it to the target
   * and the cache; a hit pushes the cached texture to the target.
   */
  method LoadSlot(result: seq<Texture>, cache: seq<Texture>, path: string, kind: TextureType,
                  dirPath: string, ghost files: seq<string>)
    returns (result': seq<Texture>, cache': seq<Texture>, ghost files': seq<string>)
    requires files == Files(dirPath, cache)
    ensures Loaded(result', cache') == LoadStep(Loaded(result, cache), path, kind)
    ensures files' == Files(dirPath, cache')
  {
    LoadStepCases(Loaded(result, cache), path, kind);
    var hit := FindCached(cache, path);
    if hit.None? {
      var texture := Texture(path, kind);
      FilesSnoc(dirPath, cache, texture);
      files' := files + [TextureFile(dirPath, path)];
      result' := result + [texture];
      cache' := cache + [texture];
    } else {
      result' := result + [cache[hit.value]];
      cache' := cache;
      files' := files;
    }
  }

  /**
   * The loop of loadTextures over the slot paths, on the target and the
   * cache as values: the result is LoadAll of the slots.
   */
  method LoadSlots(paths: seq<string>, kind: TextureType, target: seq<Texture>, cache0: seq<Texture>,
                   dirPath: string, ghost files0: seq<string>)
    returns (result: seq<Texture>, cache: seq<Texture>, ghost files: seq<string>)
    requires files0 == Files(dirPath, cache0)
    ensures Loaded(result, cache) == LoadAll(Loaded(target, cache0), paths, kind)
    ensures files == Files(dirPath, cache)
  {
    ghost var start := Loaded(target, cache0);
    result, cache, files := target, cache0, files0;
    var i := 0;
    while i < |paths|
      invariant i <= |paths|
      invariant Loaded(result, cache) == LoadAll(start, paths[..i], kind)
      invariant files == Files(dirPath, cache)
    {
      LoadAllNext(start, paths, i, kind, Loaded(result, cache));
      result, cache, files := LoadSlot(result, cache, paths[i], kind, dirPath, files);
      i := i + 1;
    }
    assert paths[..i] == paths;
  }

  /** Every texture of `ts` is an entry of `cache`. */
  predicate AllIn(ts: seq<Texture>, cache: seq<Texture>)
  {
    forall t :: t in ts ==> t in cache
  }

  /** The entries of `c` from index `from` on were all loaded as `kind`. */
  predicate KindsFrom(c: seq<Texture>, from: nat, kind: TextureType)
  {
    forall k :: from <= k < |c| ==> c[k].kind == kind
  }

  /** Every texture pushed to the target is an entry of the cache. */
  lemma {:induction false} LoadAllTargetsCached(start: Loaded, paths: seq<string>, kind: TextureType)
    requires AllIn(start.target, start.cache)
    ensures AllIn(LoadAll(start, paths, kind).target, LoadAll(start, paths, kind).cache)
    decreases |paths|
  {
    if paths != [] {
      var prev := LoadAll(start, paths[..|paths| - 1], kind);
      var r := LoadAll(start, paths, kind);
      assert r == LoadStep(prev, paths[|paths| - 1], kind);
      LoadAllTargetsCached(start, paths[..|paths| - 1], kind);
      assert r.target == prev.target + [r.target[|prev.target|]];
      PrefixTrans(prev.cache, prev.cache, r.cache);
    }
  }

  /** The textures a run of slots adds to the cache all carry the run's texture type. */
  lemma {:induction false} LoadAllNewKinds(start: Loaded, paths: seq<string>, kind: TextureType)
    ensures KindsFrom(LoadAll(start, paths, kind).cache, |start.cache|, kind)
    decreases |paths|
  {
    if paths != [] {
      var p := paths[|paths| - 1];
      var prev := LoadAll(start, paths[..|paths| - 1], kind);
      var r := LoadAll(start, paths, kind);
      assert r == LoadStep(prev, p, kind);
      LoadAllNewKinds(start, paths[..|paths| - 1], kind);
      forall k | |start.cache| <= k < |r.cache|
        ensures r.cache[k].kind == kind
      {
        if k < |prev.cache| {
          assert r.cache[k] == prev.cache[k];
        } else {
          assert r.cache == prev.cache + [Texture(p, kind)];
        }
      }
    }
  }

  /**
   * Reference definition of the paths a run of slots adds to the cache: the
   * slot paths that are not known yet, each once, in order of first use.
   */
  function NewPaths(known: seq<string>, paths: seq<string>): (r: seq<string>)
    ensures NoDup(r)
    ensures forall p :: p in r <==> p in paths && p !in known
    decreases |paths|
  {
    if paths == [] then []
    else
      var prev := NewPaths(known, paths[..|paths| - 1]);
      var p := paths[|paths| - 1];
      assert paths == paths[..|paths| - 1] + [p];
      if p in known || p in prev then prev else prev + [p]
  }

  /** Splitting off the last element of `b` commutes with concatenation. */
  lemma {:induction false} SnocAssoc<T>(a: seq<T>, b: seq<T>)
    requires b != []
    ensures a + b == (a + b[..|b| - 1]) + [b[|b| - 1]]
  {
    assert b == b[..|b| - 1] + [b[|b| - 1]];
  }

  /** One slot's effect on the cached paths, given the paths cached before it. */
  lemma {:induction false} NewPathsStep(known: seq<string>, added: seq<string>, before: seq<string>, p: string, after: seq<string>)
    requires before == known + added
    requires p in before ==> after == before
    requires p !in before ==> after == before + [p]
    ensures after == known + (if p in known || p in added then added else added + [p])
  {
    if p !in before {
      assert (known + added) + [p] == known + (added + [p]);
    }
  }

  /** The cache grows by exactly the new paths of the slots, in order of first use. */
  lemma {:induction false} LoadAllAddsNewPaths(start: Loaded, paths: seq<string>, kind: TextureType)
    ensures Paths(LoadAll(start, paths, kind).cache) == Paths(start.cache) + NewPaths(Paths(start.cache), paths)
    decreases |paths|
  {
    if paths != [] {
      var init := paths[..|paths| - 1];
      var p := paths[|paths| - 1];
      var prev := LoadAll(start, init, kind);
      var next := LoadStep(prev, p, kind);
      assert LoadAll(start, paths, kind) == next;
      LoadAllAddsNewPaths(start, init, kind);
      if p !in Paths(prev.cache) {
        PathsSnoc(prev.cache, Texture(p, kind));
      }
      NewPathsStep(Paths(start.cache), NewPaths(Paths(start.cache), init), Paths(prev.cache), p, Paths(next.cache));
    }
  }

  /** Appending paths that are new and distinct keeps a duplicate-free list duplicate-free. */
  lemma {:induction false} NoDupAppend(known: seq<string>, extra: seq<string>)
    requires NoDup(known) && NoDup(extra)
    requires forall p :: p in extra ==> p !in known
    ensures NoDup(known + extra)
  {
    forall i, j | 0 <= i < j < |known + extra|
      ensures (known + extra)[i] != (known + extra)[j]
    {
      if j >= |known| && i < |known| {
        assert (known + extra)[j] in extra;
      }
    }
  }

  /** The cache never holds two textures with the same path, if it did not before. */
  lemma {:induction false} LoadAllKeepsNoDup(start: Loaded, paths: seq<string>, kind: TextureType)
    requires NoDup(Paths(start.cache))
    ensures NoDup(Paths(LoadAll(start, paths, kind).cache))
  {
    LoadAllAddsNewPaths(start, paths, kind);
    NoDupAppend(Paths(start.cache), NewPaths(Paths(start.cache), paths));
  }

  /** Slots whose paths are all known add no new path. */
  lemma {:induction false} NewPathsAllKnown(known: seq<string>, paths: seq<string>)
    requires forall p :: p in paths ==> p in known
    ensures NewPaths(known, paths) == []
    decreases |paths|
  {
    if paths != [] {
      NewPathsAllKnown(known, paths[..|paths| - 1]);
    }
  }

  /** Slots whose paths are all cached load nothing: the cache stays as it was. */
  lemma {:induction false} LoadAllCachedOnly(start: Loaded, paths: seq<string>, kind: TextureType)
    requires forall p :: p in paths ==> p in Paths(start.cache)
    ensures LoadAll(start, paths, kind).cache == start.cache
  {
    LoadAllAddsNewPaths(start, paths, kind);
    NewPathsAllKnown(Paths(start.cache), paths);
    var r := LoadAll(start, paths, kind).cache;
    assert |Paths(r)| == |Paths(start.cache)|;
    assert r == r[..|start.cache|];
  }

  /** In a duplicate-free cache, the search for an entry's path finds that entry. */
  lemma {:induction false} FindCachedUnique(cache: seq<Texture>, k: nat)
    requires NoDup(Paths(cache)) && k < |cache|
    ensures FindCached(cache, cache[k].path).Some? && FindCached(cache, cache[k].path).value == k
  {
    var ps := Paths(cache);
    assert ps[k] == cache[k].path;
    var r := FindCached(cache, cache[k].path);
    SameIndex(ps, r.value, k);
  }

  /** In a duplicate-free sequence equal elements sit at the same index. */
  lemma {:induction false} SameIndex<T>(xs: seq<T>, i: nat, j: nat)
    requires NoDup(xs) && i < |xs| && j < |xs| && xs[i] == xs[j]
    ensures i == j
  {
  }

  /** Every texture of the target is the one the cache search finds for its path. */
  predicate TargetsFromCache(r: Loaded)
  {
    forall i :: 0 <= i < |r.target| ==>
      FindCached(r.cache, r.target[i].path).Some? && r.target[i] == r.cache[FindCached(r.cache, r.target[i].path).value]
  }

  /** A target drawn from a duplicate-free cache is what the cache search finds. */
  lemma {:induction false} TargetsFromCacheHolds(r: Loaded)
    requires NoDup(Paths(r.cache)) && AllIn(r.target, r.cache)
    ensures TargetsFromCache(r)
  {
    forall i | 0 <= i < |r.target|
      ensures FindCached(r.cache, r.target[i].path).Some?
      ensures r.target[i] == r.cache[FindCached(r.cache, r.target[i].path).value]
    {
      assert r.target[i] in r.target;
      var k :| 0 <= k < |r.cache| && r.cache[k] == r.target[i];
      FindCachedUnique(r.cache, k);
    }
  }

  /** The textures the slots pushed are the cached textures of their paths. */
  lemma {:induction false} LoadAllTargetsFromCache(cache: seq<Texture>, paths: seq<string>, kind: TextureType)
    requires NoDup(Paths(cache))
    ensures Paths(LoadAll(Loaded([], cache), paths, kind).target) == paths
    ensures TargetsFromCache(LoadAll(Loaded([], cache), paths, kind))
  {
    var start := Loaded([], cache);
    LoadAllKeepsNoDup(start, paths, kind);
    LoadAllTargetsCached(start, paths, kind);
    TargetsFromCacheHolds(LoadAll(start, paths, kind));
    assert Paths(start.target) + paths == paths;
  }

  // ---------------------------------------------------------------------------
  // Texture mask

  /** The OR of the masks of `ts`, the value the for_each in createMesh adds to texMask. */
  function MaskOf(ts: seq<Texture>): (m: bv32)
    ensures m < 128
    decreases |ts|
  {
    if ts == [] then 0
    else
      var prev := MaskOf(ts[..|ts| - 1]);
      var last := TexTypeToMask(ts[|ts| - 1].kind);
      OrBelow(prev, last);
      prev | last
  }

  /** Some texture of `ts` has a bit of `bit` set. */
  predicate HasBit(ts: seq<Texture>, bit: bv32)
  {
    exists i :: 0 <= i < |ts| && Overlaps(TexTypeToMask(ts[i].kind), bit)
  }

  lemma {:induction false} HasBitSnoc(init: seq<Texture>, last: Texture, bit: bv32)
    ensures HasBit(init + [last], bit) <==> HasBit(init, bit) || Overlaps(TexTypeToMask(last.kind), bit)
  {
    var ts := init + [last];
    if HasBit(ts, bit) {
      var i :| 0 <= i < |ts| && Overlaps(TexTypeToMask(ts[i].kind), bit);
      if i < |init| {
        assert init[i] == ts[i];
      }
    }
    if HasBit(init, bit) {
      var i :| 0 <= i < |init| && Overlaps(TexTypeToMask(init[i].kind), bit);
      assert ts[i] == init[i];
    }
    assert ts[|init|] == last;
  }

  /** One step of the fold: the OR with one more mask overlaps `bit` when either part does. */
  lemma {:induction false} MaskStep(m: bv32, prev: bv32, last: bv32, bit: bv32, before: bool, after: bool)
    requires m == prev | last
    requires Overlaps(prev, bit) <==> before
    requires after <==> before || Overlaps(last, bit)
    ensures Overlaps(m, bit) <==> after
  {
    OrBit(prev, last, bit);
  }

  /** A bit is set in the OR exactly when some texture has it set. */
  lemma {:induction false} MaskOfBit(ts: seq<Texture>, bit: bv32)
    ensures Overlaps(MaskOf(ts), bit) <==> HasBit(ts, bit)
    decreases |ts|
  {
    if ts != [] {
      var init := ts[..|ts| - 1];
      var last := ts[|ts| - 1];
      assert ts == init + [last];
      MaskOfBit(init, bit);
      HasBitSnoc(init, last, bit);
      MaskStep(MaskOf(ts), MaskOf(init), TexTypeToMask(last.kind), bit, HasBit(init, bit), HasBit(ts, bit));
    }
  }

  // ---------------------------------------------------------------------------
  // Texture files

  /** The file textureFromFile opens for a texture path: the directory, '/', the path. */
  function TextureFile(dirPath: string, path: string): (file: string)
    ensures |file| == |dirPath| + 1 + |path|
    ensures file[..|dirPath|] == dirPath && file[|dirPath|] == '/' && file[|dirPath| + 1..] == path
  {
    dirPath + "/" + path
  }

  /** Within one directory, different texture paths name different files. */
  lemma {:induction false} TextureFileInjective(dirPath: string, p: string, q: string)
    requires TextureFile(dirPath, p) == TextureFile(dirPath, q)
    ensures p == q
  {
    assert p == TextureFile(dirPath, p)[|dirPath| + 1..];
  }

  /** The files opened for the textures `ts`, in order. */
  function Files(dirPath: string, ts: seq<Texture>): (fs: seq<string>)
    ensures |fs| == |ts| && forall i :: 0 <= i < |ts| ==> fs[i] == TextureFile(dirPath, ts[i].path)
  {
    seq(|ts|, i requires 0 <= i < |ts| => TextureFile(dirPath, ts[i].path))
  }

  /** Textures with distinct paths open distinct files. */
  lemma {:induction false} FilesNoDup(dirPath: string, ts: seq<Texture>)
    requires NoDup(Paths(ts))
    ensures NoDup(Files(dirPath, ts))
  {
    var fs := Files(dirPath, ts);
    forall i, j | 0 <= i < j < |fs|
      ensures fs[i] != fs[j]
    {
      assert Paths(ts)[i] != Paths(ts)[j];
      if fs[i] == fs[j] {
        TextureFileInjective(dirPath, ts[i].path, ts[j].path);
      }
    }
  }

  /**
   * dirPath as importMesh computes it: `path.substr(0, path.find_last_of('/'))`,
   * the text before the last '/', or, since substr(0, npos) keeps everything,
   * the whole path when there is no '/'.
   */
  function DirPathAsWritten(path: string): (dir: string)
    requires |path| < NPOS
    ensures '/' !in path ==> dir == path
    ensures '/' in path ==> |dir| < |path| && path[..|dir|] == dir && path[|dir|] == '/'
    ensures '/' in path ==> '/' !in path[|dir| + 1..]
  {
    var last := FindLastOf(path, '/');
    var dir := Substring(path, 0, SizeT(last)).value;
    assert dir == path[..|dir|];
    dir
  }

  /**
   * The directory textures are meant to be found in: the text before the last
   * '/', or the current directory "." when the model path names no directory.
   */
  function DirPath(path: string): (dir: string)
    requires |path| < NPOS
    ensures '/' in path ==> dir == DirPathAsWritten(path)
    ensures '/' !in path ==> dir == "."
  {
    if '/' in path then DirPathAsWritten(path) else "."
  }

  /**
   * The folder a model path names: everything up to and including the last
   * '/', or "./" when there is none.
   */
  function ModelFolder(path: string): (folder: string)
    ensures |folder| > 0 && folder[|folder| - 1] == '/'
    ensures '/' in path ==> |folder| <= |path| && path[..|folder|] == folder && '/' !in path[|folder|..]
  {
    var last := FindLastOf(path, '/');
    if last.Some? then path[..last.value + 1] else "./"
  }

  /** With the corrected dirPath, a texture is looked up in the model's own folder. */
  lemma {:induction false} TextureBesideModel(path: string, name: string)
    requires |path| < NPOS
    ensures TextureFile(DirPath(path), name) == ModelFolder(path) + name
  {
    if '/' in path {
      var last := FindLastOf(path, '/').value;
      var dir := DirPathAsWritten(path);
      assert |dir| == last;
      assert ModelFolder(path) == dir + "/";
    }
  }

  /**
   * As written, a model path without a '/' makes the texture directory the
   * model file itself: "model.obj" with texture "wood.png" opens
   * "model.obj/wood.png" instead of "./wood.png".
   */
  lemma {:induction false} DirPathAsWrittenMisplacesTextures()
    ensures TextureFile(DirPathAsWritten("model.obj"), "wood.png") == "model.obj/wood.png"
    ensures ModelFolder("model.obj") + "wood.png" == "./wood.png"
    ensures TextureFile(DirPathAsWritten("model.obj"), "wood.png") != ModelFolder("model.obj") + "wood.png"
  {
    var path := "model.obj";
    assert '/' !in path;
    assert TextureFile(DirPathAsWritten(path), "wood.png")[0] == 'm';
  }

  // ---------------------------------------------------------------------------
  // Meshes and bounds

  /** A mesh of the model: the box it reports, its textures and its material. */
  datatype Mesh = Mesh(bounds: Box, textures: seq<Texture>, material: Material)

  /**
   * The material createMesh builds: the defaults, overridden by the diffuse
   * colour and shininess the source material has, and the OR of the texture masks.
   */
  function MaterialOf(md: SourceMaterial, ts: seq<Texture>): (m: Material)
    ensures m.metallic == DefaultMaterial().metallic
    ensures m.kd == (if md.diffuse.Some? then md.diffuse.value else DefaultMaterial().kd)
    ensures m.alpha == (if md.shininess.Some? then md.shininess.value else DefaultMaterial().alpha)
    ensures m.texMask == MaskOf(ts)
  {
    var d := DefaultMaterial();
    d.(kd := if md.diffuse.Some? then md.diffuse.value else d.kd,
       alpha := if md.shininess.Some? then md.shininess.value else d.alpha,
       texMask := d.texMask | MaskOf(ts))
  }

  /** The texture slots createMesh loads, in order: diffuse, normals, shininess. */
  function MeshSlots(md: SourceMaterial): seq<string>
  {
    Slots(md, TextureType.Diffuse) + Slots(md, Normals) + Slots(md, TextureType.Shininess)
  }

  /**
   * The textures createMesh collects for a material and the cache after them:
   * the diffuse slots, then the normal-map slots, then the shininess slots,
   * each run with its own texture type, all pushed to one target.
   */
  function LoadMeshTextures(cache: seq<Texture>, md: SourceMaterial): (r: Loaded)
    ensures Paths(r.target) == MeshSlots(md)
    ensures |cache| <= |r.cache| && r.cache[..|cache|] == cache
  {
    var d := LoadAll(Loaded([], cache), Slots(md, TextureType.Diffuse), TextureType.Diffuse);
    var n := LoadAll(d, Slots(md, Normals), Normals);
    var s := LoadAll(n, Slots(md, TextureType.Shininess), TextureType.Shininess);
    assert Paths(d.target) == Slots(md, TextureType.Diffuse) by {
      assert Paths([]) == [];
      assert [] + Slots(md, TextureType.Diffuse) == Slots(md, TextureType.Diffuse);
    }
    assert Paths(n.target) == Slots(md, TextureType.Diffuse) + Slots(md, Normals);
    PrefixTrans(cache, d.cache, n.cache);
    PrefixTrans(cache, n.cache, s.cache);
    s
  }

  /** A mesh's textures are all entries of the cache after loading them. */
  lemma {:induction false} LoadMeshTexturesCached(cache: seq<Texture>, md: SourceMaterial)
    ensures AllIn(LoadMeshTextures(cache, md).target, LoadMeshTextures(cache, md).cache)
  {
    var d := LoadAll(Loaded([], cache), Slots(md, TextureType.Diffuse), TextureType.Diffuse);
    var n := LoadAll(d, Slots(md, Normals), Normals);
    LoadAllTargetsCached(Loaded([], cache), Slots(md, TextureType.Diffuse), TextureType.Diffuse);
    LoadAllTargetsCached(d, Slots(md, Normals), Normals);
    LoadAllTargetsCached(n, Slots(md, TextureType.Shininess), TextureType.Shininess);
  }

  /** Loading a material's textures never caches a path twice. */
  lemma {:induction false} LoadMeshTexturesKeepsNoDup(cache: seq<Texture>, md: SourceMaterial)
    requires NoDup(Paths(cache))
    ensures NoDup(Paths(LoadMeshTextures(cache, md).cache))
  {
    var d := LoadAll(Loaded([], cache), Slots(md, TextureType.Diffuse), TextureType.Diffuse);
    var n := LoadAll(d, Slots(md, Normals), Normals);
    LoadAllKeepsNoDup(Loaded([], cache), Slots(md, TextureType.Diffuse), TextureType.Diffuse);
    LoadAllKeepsNoDup(d, Slots(md, Normals), Normals);
    LoadAllKeepsNoDup(n, Slots(md, TextureType.Shininess), TextureType.Shininess);
  }

  /** `c` starts with `a` when it starts with `b` and `b` starts with `a`. */
  lemma {:induction false} PrefixTrans<T>(a: seq<T>, b: seq<T>, c: seq<T>)
    requires |a| <= |b| && b[..|a|] == a
    requires |b| <= |c| && c[..|b|] == b
    ensures |a| <= |c| && c[..|a|] == a
    ensures forall x :: x in b ==> x in c
  {
    assert c[..|a|] == c[..|b|][..|a|];
    forall x | x in b
      ensures x in c
    {
      var i :| 0 <= i < |b| && b[i] == x;
      assert c[i] == x;
    }
  }

  /** Mesh `m` is what createMesh makes of the scene mesh `src`. */
  predicate BuiltFrom(m: Mesh, src: SourceMesh, scene: ImportedScene)
  {
    src.materialIndex < |scene.materials|
    && var md := scene.materials[src.materialIndex];
    m.bounds == src.bounds
    && Paths(m.textures) == MeshSlots(md)
    && m.material == MaterialOf(md, m.textures)
  }

  /** Mesh `m` is what createMesh makes of scene mesh `idx`. */
  predicate Built(m: Mesh, scene: ImportedScene, idx: nat)
  {
    idx < |scene.meshes| && BuiltFrom(m, scene.meshes[idx], scene)
  }

  /** The meshes are what createMesh makes of the scene meshes `order`, one for one. */
  predicate BuiltSeq(ms: seq<Mesh>, scene: ImportedScene, order: seq<nat>)
  {
    |ms| == |order| && forall k :: 0 <= k < |ms| ==> Built(ms[k], scene, order[k])
  }

  lemma {:induction false} BuiltSeqAppend(ms1: seq<Mesh>, ms2: seq<Mesh>, scene: ImportedScene, o1: seq<nat>, o2: seq<nat>)
    requires BuiltSeq(ms1, scene, o1) && BuiltSeq(ms2, scene, o2)
    ensures BuiltSeq(ms1 + ms2, scene, o1 + o2)
  {
    forall k | 0 <= k < |ms1 + ms2|
      ensures Built((ms1 + ms2)[k], scene, (o1 + o2)[k])
    {
      if k >= |ms1| {
        assert (ms1 + ms2)[k] == ms2[k - |ms1|];
        assert (o1 + o2)[k] == o2[k - |ms1|];
      }
    }
  }

  /** Every index of `order` names one of `count` scene meshes. */
  predicate IndicesIn(order: seq<nat>, count: nat)
  {
    forall k :: 0 <= k < |order| ==> order[k] < count
  }

  /** The mesh createMesh makes of `src` while the texture cache holds `cache`. */
  function CreatedMesh(cache: seq<Texture>, src: SourceMesh, scene: ImportedScene): (m: Mesh)
    requires src.materialIndex < |scene.materials|
    ensures m.bounds == src.bounds
    ensures Paths(m.textures) == MeshSlots(scene.materials[src.materialIndex])
    ensures m.material.texMask == MaskOf(m.textures)
  {
    var md := scene.materials[src.materialIndex];
    var ts := LoadMeshTextures(cache, md).target;
    Mesh(src.bounds, ts, MaterialOf(md, ts))
  }

  /** The created mesh is built from `src`, and its textures are in the cache createMesh leaves. */
  lemma {:induction false} CreatedMeshBuilt(cache: seq<Texture>, src: SourceMesh, scene: ImportedScene)
    requires src.materialIndex < |scene.materials|
    ensures BuiltFrom(CreatedMesh(cache, src, scene), src, scene)
    ensures forall t :: t in CreatedMesh(cache, src, scene).textures ==> t in CacheAfterMesh(cache, src, scene)
  {
    LoadMeshTexturesCached(cache, scene.materials[src.materialIndex]);
  }

  /** The texture cache after createMesh has made the mesh of `src`. */
  function CacheAfterMesh(cache: seq<Texture>, src: SourceMesh, scene: ImportedScene): (c: seq<Texture>)
    requires src.materialIndex < |scene.materials|
    ensures |cache| <= |c| && c[..|cache|] == cache
  {
    LoadMeshTextures(cache, scene.materials[src.materialIndex]).cache
  }

  /** Meshes made so far and the texture cache after them. */
  datatype Imported = Imported(meshes: seq<Mesh>, cache: seq<Texture>)

  /** One createMesh call: the mesh made of a scene mesh index, and the cache after it. */
  type MeshStep = (seq<Texture>, nat) -> (Mesh, seq<Texture>)

  /**
   * createMesh on scene mesh `idx` with the cache `cache`. The placeholder for
   * an index out of range is never used: a well-formed tree holds none.
   */
  function CreateStep(scene: ImportedScene): MeshStep
  {
    (cache: seq<Texture>, idx: nat) =>
      if idx < |scene.meshes| && scene.meshes[idx].materialIndex < |scene.materials| then
        (CreatedMesh(cache, scene.meshes[idx], scene), CacheAfterMesh(cache, scene.meshes[idx], scene))
      else
        (Mesh(EmptyBox(), [], DefaultMaterial()), cache)
  }

  /**
   * `step` is createMesh on the meshes of `scene`: at every index in range it
   * makes the mesh CreatedMesh describes and leaves the cache CacheAfterMesh does.
   */
  ghost predicate IsCreateStep(step: MeshStep, scene: ImportedScene)
  {
    forall cache: seq<Texture>, i: nat {:trigger CreatedMesh(cache, scene.meshes[i], scene)} ::
      i < |scene.meshes| && scene.meshes[i].materialIndex < |scene.materials| ==>
        step(cache, i) == (CreatedMesh(cache, scene.meshes[i], scene), CacheAfterMesh(cache, scene.meshes[i], scene))
  }

  /** CreateStep is that step. */
  lemma {:induction false} CreateStepIsCreate(scene: ImportedScene)
    ensures IsCreateStep(CreateStep(scene), scene)
  {
  }

  /** `step` applied to the indices of `order` in turn, each seeing the cache the previous one left. */
  function Fold(step: MeshStep, cache: seq<Texture>, order: seq<nat>): (r: Imported)
    ensures |r.meshes| == |order|
    decreases |order|
  {
    if order == [] then Imported([], cache)
    else
      var prev := Fold(step, cache, order[..|order| - 1]);
      var next := step(prev.cache, order[|order| - 1]);
      Imported(prev.meshes + [next.0], next.1)
  }

  /** One more index after the first `i` of `order`. */
  lemma {:induction false} FoldNext(step: MeshStep, cache: seq<Texture>, order: seq<nat>, i: nat)
    requires i < |order|
    ensures var prev := Fold(step, cache, order[..i]);
      var next := step(prev.cache, order[i]);
      Fold(step, cache, order[..i + 1]) == Imported(prev.meshes + [next.0], next.1)
  {
    assert order[..i + 1][..i] == order[..i];
  }

  /** Folding over `a + b` is folding over `a`, then over `b` from the cache `a` left. */
  lemma {:induction false} FoldAppend(step: MeshStep, cache: seq<Texture>, a: seq<nat>, b: seq<nat>)
    ensures var ra := Fold(step, cache, a);
      var rb := Fold(step, ra.cache, b);
      Fold(step, cache, a + b) == Imported(ra.meshes + rb.meshes, rb.cache)
    decreases |b|
  {
    var ra := Fold(step, cache, a);
    if b == [] {
      assert a + b == a;
      assert ra.meshes + [] == ra.meshes;
    } else {
      var init := b[..|b| - 1];
      DropLastAppend(a, b);
      FoldAppend(step, cache, a, init);
      var ri := Fold(step, ra.cache, init);
      AppendAssoc(ra.meshes, ri.meshes, [step(ri.cache, b[|b| - 1]).0]);
    }
  }

  /** The meshes createMesh makes of the scene meshes `order`, one after another, and the final cache. */
  function BuildMeshes(cache: seq<Texture>, scene: ImportedScene, order: seq<nat>): (r: Imported)
    ensures |r.meshes| == |order|
  {
    Fold(CreateStep(scene), cache, order)
  }

  /**
   * Each mesh BuildMeshes makes is what createMesh makes of the scene mesh at
   * that place of `order`, and the cache only grows at the end.
   */
  lemma {:induction false} BuildMeshesBuilt(cache: seq<Texture>, scene: ImportedScene, order: seq<nat>)
    requires WellFormed(scene) && IndicesIn(order, |scene.meshes|)
    ensures BuiltSeq(BuildMeshes(cache, scene, order).meshes, scene, order)
    ensures var r := BuildMeshes(cache, scene, order);
      |cache| <= |r.cache| && r.cache[..|cache|] == cache
    decreases |order|
  {
    if order != [] {
      var init := order[..|order| - 1];
      var x := order[|order| - 1];
      var prev := BuildMeshes(cache, scene, init);
      var src := scene.meshes[x];
      BuildMeshesBuilt(cache, scene, init);
      CreatedMeshBuilt(prev.cache, src, scene);
      BuiltSeqAppend(prev.meshes, [CreatedMesh(prev.cache, src, scene)], scene, init, [x]);
      SplitLast(order);
      PrefixTrans(cache, prev.cache, CacheAfterMesh(prev.cache, src, scene));
    }
  }

  /** The boxes the meshes report, in mesh order. */
  function BoundsOf(ms: seq<Mesh>): (bs: seq<Box>)
    ensures |bs| == |ms| && forall i :: 0 <= i < |ms| ==> bs[i] == ms[i].bounds
  {
    seq(|ms|, i requires 0 <= i < |ms| => ms[i].bounds)
  }

  lemma {:induction false} BoundsOfPrefix(ms: seq<Mesh>, i: nat)
    requires i < |ms|
    ensures BoundsOf(ms[..i + 1]) == BoundsOf(ms[..i]) + [ms[i].bounds]
  {
  }

  /** Each mesh's textures are entries of the cache. */
  predicate TexturesCached(ms: seq<Mesh>, cache: seq<Texture>)
  {
    forall k, t :: 0 <= k < |ms| && t in ms[k].textures ==> t in cache
  }

  /** The files for `ts` followed by one more texture. */
  lemma {:induction false} FilesSnoc(dirPath: string, ts: seq<Texture>, t: Texture)
    ensures Files(dirPath, ts + [t]) == Files(dirPath, ts) + [TextureFile(dirPath, t.path)]
  {
  }

  /** The meshes of a node's first `j` children, extended by those of child `j`. */
  lemma {:induction false} FoldChildrenNext(step: MeshStep, cache: seq<Texture>, node: Node, j: nat,
                                            added: seq<Mesh>, mid: seq<Texture>, more: seq<Mesh>, after: seq<Texture>)
    requires j < |node.children|
    requires Imported(added, mid) == Fold(step, cache, ChildrenPreOrder(node, j))
    requires Imported(more, after) == Fold(step, mid, PreOrder(node.children[j]))
    ensures Imported(added + more, after) == Fold(step, cache, ChildrenPreOrder(node, j + 1))
  {
    FoldAppend(step, cache, ChildrenPreOrder(node, j), PreOrder(node.children[j]));
  }

  /** A node's children satisfy the index bound their parent does. */
  lemma {:induction false} ChildIndicesIn(n: Node, k: nat, j: nat, meshCount: nat)
    requires j < k <= |n.children| && ChildrenIndicesIn(n, k, meshCount)
    ensures NodeIndicesIn(n.children[j], meshCount)
    decreases k
  {
    if j < k - 1 {
      ChildIndicesIn(n, k - 1, j, meshCount);
    }
  }

  /** A non-empty sequence is its front followed by its last element. */
  lemma {:induction false} SplitLast<T>(s: seq<T>)
    requires s != []
    ensures s[..|s| - 1] + [s[|s| - 1]] == s
  {
  }

  /** Dropping the last element of `a + b`, for a non-empty `b`, drops it from `b`. */
  lemma {:induction false} DropLastAppend<T>(a: seq<T>, b: seq<T>)
    requires b != []
    ensures (a + b)[..|a + b| - 1] == a + b[..|b| - 1]
    ensures (a + b)[|a + b| - 1] == b[|b| - 1]
  {
  }

  lemma {:induction false} AppendAssoc<T>(a: seq<T>, b: seq<T>, c: seq<T>)
    ensures (a + b) + c == a + (b + c)
  {
  }

  /** A mesh whose textures are cached can join meshes whose textures are cached. */
  lemma {:induction false} TexturesCachedSnoc(ms: seq<Mesh>, m: Mesh, cache: seq<Texture>)
    requires TexturesCached(ms, cache) && forall t :: t in m.textures ==> t in cache
    ensures TexturesCached(ms + [m], cache)
  {
  }

  /** Every texture of every mesh had its file opened. */
  predicate TexturesOpened(ms: seq<Mesh>, dirPath: string, files: seq<string>)
  {
    forall k, t :: 0 <= k < |ms| && t in ms[k].textures ==> TextureFile(dirPath, t.path) in files
  }

  /** Meshes whose textures are cached had their files opened when the cache was filled. */
  lemma {:induction false} CachedTexturesOpened(ms: seq<Mesh>, dirPath: string, cache: seq<Texture>)
    requires TexturesCached(ms, cache)
    ensures TexturesOpened(ms, dirPath, Files(dirPath, cache))
  {
    forall k, t | 0 <= k < |ms| && t in ms[k].textures
      ensures TextureFile(dirPath, t.path) in Files(dirPath, cache)
    {
      assert t in cache;
      var c :| 0 <= c < |cache| && cache[c] == t;
      assert Files(dirPath, cache)[c] == TextureFile(dirPath, t.path);
    }
  }

  /**
   * No path is cached twice, every cached texture's file was opened once, in
   * cache order, and every mesh uses cached textures.
   */
  ghost predicate CacheInvariant(ms: seq<Mesh>, cache: seq<Texture>, dirPath: string, files: seq<string>)
  {
    NoDup(Paths(cache)) && files == Files(dirPath, cache) && TexturesCached(ms, cache)
  }

  /** Loading slots keeps the invariant, with the files of the new cache entries opened. */
  lemma {:induction false} LoadAllKeepsInvariant(ms: seq<Mesh>, dirPath: string, start: Loaded, paths: seq<string>, kind: TextureType,
                              r: Loaded, files: seq<string>)
    requires NoDup(Paths(start.cache)) && TexturesCached(ms, start.cache)
    requires r == LoadAll(start, paths, kind) && files == Files(dirPath, r.cache)
    ensures CacheInvariant(ms, r.cache, dirPath, files)
  {
    LoadAllKeepsNoDup(start, paths, kind);
    CachedGrow(ms, start.cache, r.cache);
  }

  /**
   * The Model object: the meshes created so far, the cache of loaded
   * textures, the directory textures are read from and the bounds of the
   * meshes. `openedFiles` is the log of image files textureFromFile has opened.
   */
  class Model {
    var meshes: seq<Mesh>
    var texCache: seq<Texture>
    var dirPath: string
    var aabb: AABB
    ghost var openedFiles: seq<string>

    /** The cache invariant holds of the current members. */
    ghost predicate Valid()
      reads this
    {
      CacheInvariant(meshes, texCache, dirPath, openedFiles)
    }

    /** The members before the constructor body runs: no meshes, an empty cache, the default box. */
    constructor ()
      ensures meshes == [] && texCache == [] && openedFiles == [] && dirPath == ""
      ensures fresh(aabb) && aabb.Value() == EmptyBox()
      ensures Valid()
    {
      meshes := [];
      texCache := [];
      dirPath := "";
      aabb := new AABB();
      openedFiles := [];
    }

    /**
     * loadTextures(mat, type, target): each texture path of the type, in slot
     * order, is looked up in the cache; a hit pushes the cached texture, a
     * miss opens the file and pushes a new texture of that type to both
     * `target` and the cache.
     */
    method LoadTextures(mat: SourceMaterial, t: TextureType, target: seq<Texture>) returns (result: seq<Texture>)
      requires Valid()
      modifies this
      ensures Loaded(result, texCache) == LoadAll(Loaded(target, old(texCache)), Slots(mat, t), t)
      ensures meshes == old(meshes) && dirPath == old(dirPath) && aabb == old(aabb)
      ensures Valid()
    {
      var cache;
      ghost var files;
      result, cache, files := LoadSlots(Slots(mat, t), t, target, texCache, dirPath, openedFiles);
      LoadAllKeepsInvariant(meshes, dirPath, Loaded(target, texCache), Slots(mat, t), t, Loaded(result, cache), files);
      texCache := cache;
      openedFiles := files;
    }

    /**
     * createMesh(mesh, scene): a default material takes the source material's
     * diffuse colour and shininess where it has them, the diffuse, normal-map
     * and shininess textures are loaded in that order, and their masks are
     * OR-ed into the material.
     */
    method CreateMesh(src: SourceMesh, scene: ImportedScene) returns (m: Mesh)
      requires src.materialIndex < |scene.materials|
      requires Valid()
      modifies this
      ensures Loaded(m.textures, texCache) == LoadMeshTextures(old(texCache), scene.materials[src.materialIndex])
      ensures m == CreatedMesh(old(texCache), src, scene)
      ensures forall t :: t in m.textures ==> t in texCache
      ensures meshes == old(meshes) && dirPath == old(dirPath) && aabb == old(aabb)
      ensures Valid()
    {
      var md := scene.materials[src.materialIndex];
      var textures := LoadMaterialTextures(md);
      var mat := BuildMaterial(md, textures);
      m := Mesh(src.bounds, textures, mat);
    }

    /**
     * The material part of createMesh: the defaults, the source material's
     * diffuse colour and shininess where it has them, then the texture masks OR-ed in.
     */
    method BuildMaterial(md: SourceMaterial, textures: seq<Texture>) returns (mat: Material)
      ensures mat == MaterialOf(md, textures)
    {
      mat := DefaultMaterial();
      if md.diffuse.Some? {
        mat := mat.(kd := md.diffuse.value);
      }
      if md.shininess.Some? {
        mat := mat.(alpha := md.shininess.value);
      }
      var mask := AccumulateMask(mat.texMask, textures);
      mat := mat.(texMask := mask);
    }

    /**
     * The three loadTextures calls of createMesh: diffuse, then normal-map,
     * then shininess textures, all pushed to one list.
     */
    method LoadMaterialTextures(md: SourceMaterial) returns (textures: seq<Texture>)
      requires Valid()
      modifies this
      ensures Loaded(textures, texCache) == LoadMeshTextures(old(texCache), md)
      ensures forall t :: t in textures ==> t in texCache
      ensures meshes == old(meshes) && dirPath == old(dirPath) && aabb == old(aabb)
      ensures Valid()
    {
      textures := LoadTextures(md, TextureType.Diffuse, []);
      textures := LoadTextures(md, Normals, textures);
      textures := LoadTextures(md, TextureType.Shininess, textures);
      LoadMeshTexturesCached(old(texCache), md);
    }

    /** meshes.push_back(createMesh(mesh, scene)): the created mesh goes at the end of the list. */
    method AddMesh(src: SourceMesh, scene: ImportedScene) returns (ghost m: Mesh)
      requires src.materialIndex < |scene.materials|
      requires Valid()
      modifies this
      ensures meshes == old(meshes) + [m]
      ensures m == CreatedMesh(old(texCache), src, scene)
      ensures texCache == CacheAfterMesh(old(texCache), src, scene)
      ensures dirPath == old(dirPath) && aabb == old(aabb)
      ensures Valid()
    {
      var created := CreateMesh(src, scene);
      CachedGrow(meshes, old(texCache), texCache);
      TexturesCachedSnoc(meshes, created, texCache);
      meshes := meshes + [created];
      m := created;
    }

    /** The mesh loop of recurseNodes: a mesh for each scene mesh index of `order`, in order. */
    method AddMeshes(order: seq<nat>, scene: ImportedScene, ghost step: MeshStep) returns (ghost added: seq<Mesh>)
      requires IndicesIn(order, |scene.meshes|) && WellFormed(scene) && IsCreateStep(step, scene)
      requires Valid()
      modifies this
      ensures meshes == old(meshes) + added
      ensures Imported(added, texCache) == Fold(step, old(texCache), order)
      ensures dirPath == old(dirPath) && aabb == old(aabb)
      ensures Valid()
    {
      added := [];
      var i := 0;
      while i < |order|
        invariant i <= |order|
        invariant meshes == old(meshes) + added
        invariant Imported(added, texCache) == Fold(step, old(texCache), order[..i])
        invariant dirPath == old(dirPath) && aabb == old(aabb)
        invariant Valid()
      {
        ghost var m := AddMesh(scene.meshes[order[i]], scene);
        FoldNext(step, old(texCache), order, i);
        AppendAssoc(old(meshes), added, [m]);
        added := added + [m];
        i := i + 1;
      }
      assert order[..i] == order;
    }

    /**
     * recurseNodes(node, scene): a mesh for each of the node's mesh indices,
     * then the same for each child in turn, so the meshes follow the
     * pre-order of the tree.
     */
    method RecurseNodes(node: Node, scene: ImportedScene, ghost step: MeshStep) returns (ghost added: seq<Mesh>)
      requires NodeIndicesIn(node, |scene.meshes|) && WellFormed(scene) && IsCreateStep(step, scene)
      requires Valid()
      modifies this
      ensures meshes == old(meshes) + added
      ensures Imported(added, texCache) == Fold(step, old(texCache), PreOrder(node))
      ensures dirPath == old(dirPath) && aabb == old(aabb)
      ensures Valid()
      decreases node, 1
    {
      ghost var own := AddMeshes(node.meshes, scene, step);
      ghost var mid := texCache;
      ghost var rest := AddChildren(node, scene, step);
      FoldAppend(step, old(texCache), node.meshes, ChildrenPreOrder(node, |node.children|));
      AppendAssoc(old(meshes), own, rest);
      added := own + rest;
    }

    /** The child loop of recurseNodes: each child's subtree in turn. */
    method AddChildren(node: Node, scene: ImportedScene, ghost step: MeshStep) returns (ghost added: seq<Mesh>)
      requires NodeIndicesIn(node, |scene.meshes|) && WellFormed(scene) && IsCreateStep(step, scene)
      requires Valid()
      modifies this
      ensures meshes == old(meshes) + added
      ensures Imported(added, texCache) == Fold(step, old(texCache), ChildrenPreOrder(node, |node.children|))
      ensures dirPath == old(dirPath) && aabb == old(aabb)
      ensures Valid()
      decreases node, 0
    {
      added := [];
      var j := 0;
      while j < |node.children|
        invariant j <= |node.children|
        invariant meshes == old(meshes) + added
        invariant Imported(added, texCache) == Fold(step, old(texCache), ChildrenPreOrder(node, j))
        invariant dirPath == old(dirPath) && aabb == old(aabb)
        invariant Valid()
      {
        ChildIndicesIn(node, |node.children|, j, |scene.meshes|);
        ghost var mid := texCache;
        ghost var more := RecurseNodes(node.children[j], scene, step);
        FoldChildrenNext(step, old(texCache), node, j, added, mid, more, texCache);
        AppendAssoc(old(meshes), added, more);
        added := added + more;
        j := j + 1;
      }
    }

    /**
     * importMesh(path, scene): a failed import (no scene, an incomplete one,
     * or one without a root node) is refused and nothing changes; otherwise the
     * texture directory is taken from the path and the tree is walked.
     */
    method ImportMesh(path: string, scene: Option<ImportedScene>) returns (ok: bool)
      requires |path| < NPOS
      requires !ImportFails(scene) ==> WellFormed(scene.value)
      requires meshes == [] && texCache == [] && openedFiles == []
      modifies this
      ensures ok <==> !ImportFails(scene)
      ensures !ok ==> meshes == [] && texCache == [] && openedFiles == [] && dirPath == old(dirPath)
      ensures ok ==> dirPath == DirPathAsWritten(path)
      ensures ok ==> Imported(meshes, texCache) == BuildMeshes([], scene.value, PreOrder(scene.value.root.value))
      ensures ok ==> BuiltSeq(meshes, scene.value, PreOrder(scene.value.root.value))
      ensures aabb == old(aabb)
      ensures Valid()
    {
      if ImportFails(scene) {
        return false;
      }
      dirPath := DirPathAsWritten(path);
      CreateStepIsCreate(scene.value);
      ghost var added := RecurseNodes(scene.value.root.value, scene.value, CreateStep(scene.value));
      PreOrderInRange(scene.value.root.value, |scene.value.meshes|);
      BuildMeshesBuilt([], scene.value, PreOrder(scene.value.root.value));
      ok := true;
    }

    /** calculateAABB(): the box is expanded by each mesh's box, in mesh order. */
    method CalculateAABB()
      modifies aabb
      ensures aabb.Value() == ExpandAll(old(aabb.Value()), BoundsOf(meshes))
    {
      var i := 0;
      while i < |meshes|
        invariant i <= |meshes|
        invariant aabb.Value() == ExpandAll(old(aabb.Value()), BoundsOf(meshes[..i]))
      {
        var box := new AABB.FromCorners(meshes[i].bounds.mins, meshes[i].bounds.maxs);
        aabb.ExpandBox(box);
        BoundsOfPrefix(meshes, i);
        i := i + 1;
      }
      assert meshes[..i] == meshes;
    }
  }

  /** Textures already cached stay cached while the cache only grows. */
  lemma {:induction false} CachedGrow(ms: seq<Mesh>, c0: seq<Texture>, c1: seq<Texture>)
    requires TexturesCached(ms, c0) && |c0| <= |c1| && c1[..|c0|] == c0
    ensures TexturesCached(ms, c1)
  {
    PrefixTrans(c0, c0, c1);
  }

  /** The for_each of createMesh: `mask |= t->type` for every texture, in order. */
  method AccumulateMask(mask: bv32, ts: seq<Texture>) returns (r: bv32)
    ensures r == mask | MaskOf(ts)
  {
    r := mask;
    var i := 0;
    while i < |ts|
      invariant i <= |ts|
      invariant r == mask | MaskOf(ts[..i])
    {
      assert ts[..i + 1][..i] == ts[..i];
      r := r | TexTypeToMask(ts[i].kind);
      i := i + 1;
    }
    assert ts[..i] == ts;
  }

  /**
   * Model(path): the members start out empty, the scene is imported, the
   * bounds are computed and the cache is cleared. A failed import throws in
   * the source; here it yields None.
   */
  method LoadModel(path: string, scene: Option<ImportedScene>) returns (model: Option<Model>)
    requires |path| < NPOS
    requires !ImportFails(scene) ==> WellFormed(scene.value)
    ensures model.None? <==> ImportFails(scene)
    ensures model.Some? ==> fresh(model.value)
    ensures model.Some? ==> var m := model.value;
      m.dirPath == DirPathAsWritten(path)
      && m.meshes == BuildMeshes([], scene.value, PreOrder(scene.value.root.value)).meshes
      && m.openedFiles == Files(m.dirPath, BuildMeshes([], scene.value, PreOrder(scene.value.root.value)).cache)
      && BuiltSeq(m.meshes, scene.value, PreOrder(scene.value.root.value))
      && m.aabb.Value() == ExpandAll(EmptyBox(), BoundsOf(m.meshes))
      && m.texCache == []
      && NoDup(m.openedFiles)
      && TexturesOpened(m.meshes, m.dirPath, m.openedFiles)
  {
    var m := new Model();
    var ok := m.ImportMesh(path, scene);
    if !ok {
      return None;
    }
    m.CalculateAABB();
    FilesNoDup(m.dirPath, m.texCache);
    CachedTexturesOpened(m.meshes, m.dirPath, m.texCache);
    m.texCache := [];
    model := Some(m);
  }
}
