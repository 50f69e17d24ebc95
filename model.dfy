/**
 * The bookkeeping of model import in src/renderer/model.c: the FNV-1a hash, the vertex and index
 * fill loops of CreateMeshFromAssimp, the pre-order walk of ProcessAssimpNode and the path
 * building of LoadModelFromAssimp.
 *
 * The importer's scene is an input: meshes as sequences, nodes as a tree. Float components are
 * opaque 32-bit patterns that are only copied.
 */
module ModelImport {
  import opened Wrappers

  // ---------------------------------------------------------------------------------------------
  // fnv_1a

  const FnvOffsetBasis: bv64 := 2166136261
  const FnvPrime: bv64 := 16777619

  /** One round: xor the byte in, multiply by the prime, wrapping at 2^64 (the u64 accumulator). */
  function FnvStep(hash: bv64, b: bv8): bv64
  {
    (hash ^ (b as bv64)) * FnvPrime
  }

  /** FNV-1a of `s` with the 32-bit constants in a 64-bit accumulator, folded from the left. */
  function Fnv(s: seq<bv8>): bv64
  {
    if s == [] then FnvOffsetBasis else FnvStep(Fnv(s[..|s| - 1]), s[|s| - 1])
  }

  /** The hash of no bytes is the offset basis. */
  lemma FnvEmpty()
    ensures Fnv([]) == 2166136261
  {
  }

  /** Nothing truncates the accumulator to 32 bits: already one zero byte sets bits above bit 31. */
  lemma FnvNotTruncated()
    ensures Fnv([0]) == 2166136261 * 16777619
    ensures Fnv([0]) & 0xFFFF_FFFF_0000_0000 != 0
  {
  }

  /** fnv_1a as written: the loop counter is a u8, which wraps from 255 to 0, so the loop ends only
      when `size` is at most 255 (see U8CounterNeverExits). */
  method Fnv1a(data: array<bv8>, size: nat) returns (hash: bv64)
    requires size <= data.Length
    requires size < 256
    ensures hash == Fnv(data[..size])
  {
    hash := FnvOffsetBasis;
    var index: nat := 0;
    while index < size
      invariant index <= size
      invariant hash == Fnv(data[..index])
      decreases size - index
    {
      assert data[..index + 1][..index] == data[..index];
      hash := FnvStep(hash, data[index]);
      index := (index + 1) % 256;
    }
  }

  /** With 256 or more bytes, every value of the u8 counter, and the value it wraps to, is below
      `size`: the loop condition never fails. */
  lemma U8CounterNeverExits(size: nat, index: nat)
    requires size >= 256
    requires index < 256
    ensures index < size && (index + 1) % 256 < size
  {
  }

  /** fnv_1a with a counter as wide as `size`: hashes any number of bytes. */
  method Fnv1aWide(data: array<bv8>, size: nat) returns (hash: bv64)
    requires size <= data.Length
    ensures hash == Fnv(data[..size])
  {
    hash := FnvOffsetBasis;
    var index: nat := 0;
    while index < size
      invariant index <= size
      invariant hash == Fnv(data[..index])
    {
      assert data[..index + 1][..index] == data[..index];
      hash := FnvStep(hash, data[index]);
      index := index + 1;
    }
  }

  // ---------------------------------------------------------------------------------------------
  // The importer's scene

  /** A single-precision float, as its bit pattern: only ever copied. */
  datatype Float = Float(bits: bv32)
  const ZeroFloat: Float := Float(0)

  datatype Vec2 = Vec2(x: Float, y: Float)
  datatype Vec3 = Vec3(x: Float, y: Float, z: Float)

  datatype Vertex = Vertex(position: Vec3, normal: Vec3, texCoords: Vec2)

  datatype AiFace = AiFace(indices: seq<nat>)

  /** An aiMesh: positions, normals, the first UV channel if there is one, and the faces. */
  datatype AiMesh = AiMesh(vertices: seq<Vec3>, normals: seq<Vec3>, textureCoords0: Option<seq<Vec3>>, faces: seq<AiFace>)

  /** An aiNode: indices into the scene's meshes, and child nodes. */
  datatype AiNode = AiNode(meshes: seq<nat>, children: seq<AiNode>)

  /** An aiScene: its flags, its meshes and its root node. */
  datatype AiScene = AiScene(flags: bv32, meshes: seq<AiMesh>, root: AiNode)

  /** Every face has at least three indices (the import asks for triangulation). */
  predicate Triangulated(faces: seq<AiFace>)
  {
    forall k :: 0 <= k < |faces| ==> |faces[k].indices| >= 3
  }

  /** Normals and UVs come per vertex, and the faces are triangles. */
  predicate MeshWellFormed(m: AiMesh)
  {
    |m.normals| == |m.vertices| &&
    (m.textureCoords0.Some? ==> |m.textureCoords0.value| == |m.vertices|) &&
    Triangulated(m.faces)
  }

  predicate SceneWellFormed(scene: AiScene)
  {
    forall i :: 0 <= i < |scene.meshes| ==> MeshWellFormed(scene.meshes[i])
  }

  // ---------------------------------------------------------------------------------------------
  // CreateMeshFromAssimp: the vertex and index fill loops

  /** Vertex i of a mesh: position and normal copied, UVs from channel 0 or (0, 0) without one. */
  function VertexOf(m: AiMesh, i: nat): Vertex
    requires MeshWellFormed(m) && i < |m.vertices|
  {
    Vertex(m.vertices[i], m.normals[i],
           if m.textureCoords0.Some? then Vec2(m.textureCoords0.value[i].x, m.textureCoords0.value[i].y)
           else Vec2(ZeroFloat, ZeroFloat))
  }

  /** The first three indices of every face, in face order. */
  function Flatten(faces: seq<AiFace>): seq<nat>
    requires Triangulated(faces)
  {
    if faces == [] then []
    else
      var f := faces[|faces| - 1];
      Flatten(faces[..|faces| - 1]) + [f.indices[0], f.indices[1], f.indices[2]]
  }

  /** The flattened index list has three entries per face, and entry 3k+j is index j of face k. */
  lemma {:induction false} FlattenAt(faces: seq<AiFace>, k: nat, j: nat)
    requires Triangulated(faces)
    requires k < |faces| && j < 3
    ensures |Flatten(faces)| == 3 * |faces|
    ensures Flatten(faces)[3 * k + j] == faces[k].indices[j]
  {
    var init := faces[..|faces| - 1];
    if k < |faces| - 1 {
      FlattenAt(init, k, j);
    } else if init != [] {
      FlattenAt(init, 0, 0);
    }
  }

  /** A mesh as the renderer keeps it: its counts, the contents of its index array (written once,
      when the mesh is made), and the vertex data uploaded to its vertex buffer. */
  datatype Mesh = Mesh(vertexCount: nat, indexCount: nat, indices: seq<nat>, vertexBuffer: seq<Vertex>)

  /** `m` is what CreateMeshFromAssimp makes of `src`. */
  predicate MeshBuiltFrom(m: Mesh, src: AiMesh)
    requires MeshWellFormed(src)
  {
    m.vertexCount == |src.vertices| &&
    m.indexCount == 3 * |src.faces| &&
    m.indices == Flatten(src.faces) &&
    |m.vertexBuffer| == |src.vertices| &&
    forall i :: 0 <= i < |src.vertices| ==> m.vertexBuffer[i] == VertexOf(src, i)
  }

  /** The vertex loop of CreateMeshFromAssimp: vertex i takes position and normal i, and the UVs of
      channel 0 when the mesh has one, (0, 0) otherwise. */
  method FillVertices(mesh: AiMesh) returns (vertexBuffer: seq<Vertex>)
    requires MeshWellFormed(mesh)
    ensures |vertexBuffer| == |mesh.vertices|
    ensures forall i :: 0 <= i < |mesh.vertices| ==> vertexBuffer[i] == VertexOf(mesh, i)
  {
    var vertexCount := |mesh.vertices|;
    var zero := Vec3(ZeroFloat, ZeroFloat, ZeroFloat);
    var vertices := new Vertex[vertexCount](_ => Vertex(zero, zero, Vec2(ZeroFloat, ZeroFloat)));
    var vertexIndex := 0;
    while vertexIndex < vertexCount
      invariant 0 <= vertexIndex <= vertexCount
      invariant forall i :: 0 <= i < vertexIndex ==> vertices[i] == VertexOf(mesh, i)
    {
      var texCoords;
      if mesh.textureCoords0.Some? {
        texCoords := Vec2(mesh.textureCoords0.value[vertexIndex].x, mesh.textureCoords0.value[vertexIndex].y);
      } else {
        texCoords := Vec2(ZeroFloat, ZeroFloat);
      }
      vertices[vertexIndex] := Vertex(mesh.vertices[vertexIndex], mesh.normals[vertexIndex], texCoords);
      vertexIndex := vertexIndex + 1;
    }
    vertexBuffer := vertices[..];
  }

  /** The index loop of CreateMeshFromAssimp: step through the index array three at a time, writing
      the first three indices of face indice_index / 3 through an advancing cursor. */
  method FillIndices(mesh: AiMesh) returns (indexArray: seq<nat>)
    requires MeshWellFormed(mesh)
    ensures |indexArray| == 3 * |mesh.faces|
    ensures indexArray == Flatten(mesh.faces)
  {
    var indexCount := |mesh.faces| * 3;
    var indices := new nat[indexCount];
    var indice := 0;
    var indiceIndex := 0;
    ghost var faceCount := 0;
    while indiceIndex < indexCount
      invariant 0 <= faceCount <= |mesh.faces|
      invariant indiceIndex == 3 * faceCount && indice == indiceIndex
      invariant indices[..indice] == Flatten(mesh.faces[..faceCount])
    {
      var k := indiceIndex / 3;
      assert k == faceCount;
      var face := mesh.faces[k];
      ghost var written := indices[..indice];
      indices[indice] := face.indices[0];
      indice := indice + 1;
      indices[indice] := face.indices[1];
      indice := indice + 1;
      indices[indice] := face.indices[2];
      indice := indice + 1;
      assert indices[..indice] == written + [face.indices[0], face.indices[1], face.indices[2]];
      assert mesh.faces[..faceCount + 1][..faceCount] == mesh.faces[..faceCount];
      indiceIndex := indiceIndex + 3;
      faceCount := faceCount + 1;
    }
    assert indices[..] == indices[..indice];
    assert mesh.faces[..faceCount] == mesh.faces;
    indexArray := indices[..];
  }

  /** CreateMeshFromAssimp, without the material and GL calls: the counts (three indices per
      face), then the vertex loop and the index loop. */
  method CreateMeshFromAssimp(mesh: AiMesh) returns (result: Mesh)
    requires MeshWellFormed(mesh)
    ensures MeshBuiltFrom(result, mesh)
  {
    var vertexCount := |mesh.vertices|;
    var indexCount := |mesh.faces| * 3;
    var vertexBuffer := FillVertices(mesh);
    var indices := FillIndices(mesh);
    result := Mesh(vertexCount, indexCount, indices, vertexBuffer);
  }

  // ---------------------------------------------------------------------------------------------
  // ProcessAssimpNode: pre-order mesh collection

  /** The mesh references of a subtree in the order ProcessAssimpNode visits them: the node's own
      meshes, then each child's subtree from left to right. */
  function PreOrder(node: AiNode): seq<nat>
    decreases node, |node.children| + 1
  {
    node.meshes + ChildrenPreOrder(node, |node.children|)
  }

  /** The references of the subtrees of the first `c` children of `node`. */
  function ChildrenPreOrder(node: AiNode, c: nat): seq<nat>
    requires c <= |node.children|
    decreases node, c
  {
    if c == 0 then [] else ChildrenPreOrder(node, c - 1) + PreOrder(node.children[c - 1])
  }

  /** Every mesh reference in the subtree names one of the scene's `n` meshes. */
  predicate RefsBelow(node: AiNode, n: nat)
  {
    (forall r :: r in node.meshes ==> r < n) &&
    forall c :: c in node.children ==> RefsBelow(c, n)
  }

  /** Visiting child `c` after the node's own meshes and the first `c` children extends the
      visited references by that child's subtree. */
  lemma VisitStep(node: AiNode, c: nat)
    requires c < |node.children|
    ensures node.meshes + ChildrenPreOrder(node, c + 1) == node.meshes + ChildrenPreOrder(node, c) + PreOrder(node.children[c])
  {
  }

  /** The references of fewer children are a prefix of those of more children. */
  lemma {:induction false} ChildrenPreOrderPrefix(node: AiNode, c: nat, d: nat)
    requires c <= d <= |node.children|
    ensures ChildrenPreOrder(node, c) <= ChildrenPreOrder(node, d)
    decreases d - c
  {
    if c < d {
      ChildrenPreOrderPrefix(node, c, d - 1);
    }
  }

  /** Every reference collected from a tree whose references name scene meshes names a scene mesh. */
  lemma {:induction false} PreOrderRefsBelow(node: AiNode, n: nat)
    requires RefsBelow(node, n)
    ensures forall k :: 0 <= k < |PreOrder(node)| ==> PreOrder(node)[k] < n
    decreases node, |node.children| + 1
  {
    var below := ChildrenPreOrder(node, |node.children|);
    ChildrenRefsBelow(node, n, |node.children|);
    forall k | 0 <= k < |PreOrder(node)|
      ensures PreOrder(node)[k] < n
    {
      if k < |node.meshes| {
        assert node.meshes[k] in node.meshes;
      } else {
        assert PreOrder(node)[k] == below[k - |node.meshes|];
      }
    }
  }

  lemma {:induction false} ChildrenRefsBelow(node: AiNode, n: nat, c: nat)
    requires RefsBelow(node, n) && c <= |node.children|
    ensures forall k :: 0 <= k < |ChildrenPreOrder(node, c)| ==> ChildrenPreOrder(node, c)[k] < n
    decreases node, c
  {
    if c > 0 {
      var front := ChildrenPreOrder(node, c - 1);
      var last := node.children[c - 1];
      ChildrenRefsBelow(node, n, c - 1);
      assert last in node.children;
      PreOrderRefsBelow(last, n);
      forall k | 0 <= k < |ChildrenPreOrder(node, c)|
        ensures ChildrenPreOrder(node, c)[k] < n
      {
        if k < |front| {
          assert ChildrenPreOrder(node, c)[k] == front[k];
        } else {
          assert ChildrenPreOrder(node, c)[k] == PreOrder(last)[k - |front|];
        }
      }
    }
  }

  /** Order on a small tree: a root holding mesh 0 with children (mesh 1, with a child holding
      mesh 2) and (mesh 3) is visited as 0, 1, 2, 3: depth first, parents before children. */
  lemma PreOrderExample()
    ensures PreOrder(AiNode([0], [AiNode([1], [AiNode([2], [])]), AiNode([3], [])])) == [0, 1, 2, 3]
  {
  }

  /** Two references to one mesh: the walk makes two meshes though the scene, which sizes the
      array, has only one. */
  lemma InstancedMeshOutgrowsArray()
    ensures var scene := AiScene(0, [AiMesh([], [], None, [])], AiNode([0, 0], []));
            RefsBelow(scene.root, |scene.meshes|) && |PreOrder(scene.root)| > |scene.meshes|
  {
    var root := AiNode([0, 0], []);
    assert PreOrder(root) == [0, 0];
  }

  /** The model being loaded: its mesh array, how many meshes are set, and its folder path. */
  class Model {
    var meshes: array<Mesh>
    var meshCount: nat
    var modelFolderPath: string

    /** `Model result = {0}`. */
    constructor ()
      ensures meshes.Length == 0 && meshCount == 0 && modelFolderPath == ""
    {
      meshes := new Mesh[0];
      meshCount := 0;
      modelFolderPath := "";
    }

    /** `model->meshes[model->meshCount++] = ...`: the mesh goes into the first free slot. */
    method StoreMesh(mesh: Mesh)
      requires meshCount < meshes.Length
      modifies this`meshCount, meshes
      ensures meshCount == old(meshCount) + 1
      ensures meshes[..] == old(meshes[..])[old(meshCount) := mesh]
    {
      meshes[meshCount] := mesh;
      meshCount := meshCount + 1;
    }
  }

  /** Slots `start` to `start + |refs| - 1` of `ms` hold the meshes made from the scene meshes
      that `refs` names, in order. */
  predicate BuiltRange(ms: seq<Mesh>, start: nat, refs: seq<nat>, scene: AiScene)
    requires SceneWellFormed(scene)
  {
    start + |refs| <= |ms| &&
    (forall j :: 0 <= j < |refs| ==> refs[j] < |scene.meshes|) &&
    forall j :: 0 <= j < |refs| ==> MeshBuiltFrom(ms[start + j], scene.meshes[refs[j]])
  }

  /** A built range survives changes outside it. */
  lemma BuiltRangeFrame(ms0: seq<Mesh>, ms1: seq<Mesh>, start: nat, refs: seq<nat>, scene: AiScene)
    requires SceneWellFormed(scene)
    requires BuiltRange(ms0, start, refs, scene)
    requires |ms1| == |ms0| && ms1[start..start + |refs|] == ms0[start..start + |refs|]
    ensures BuiltRange(ms1, start, refs, scene)
  {
  }

  /** Two adjacent built ranges make one. */
  lemma BuiltRangeAppend(ms: seq<Mesh>, start: nat, refs: seq<nat>, more: seq<nat>, scene: AiScene)
    requires SceneWellFormed(scene)
    requires BuiltRange(ms, start, refs, scene) && BuiltRange(ms, start + |refs|, more, scene)
    ensures BuiltRange(ms, start, refs + more, scene)
  {
  }

  /** One step of ProcessAssimpNode: slots `start` up to `before` hold the meshes of `visited`, and a
      step fills the next `|added|` slots with the meshes of `added` and changes nothing else. Then
      the meshes of `visited + added` sit from `start` on and everything outside is as it was. */
  lemma ExtendBuilt(original: seq<Mesh>, ms0: seq<Mesh>, ms1: seq<Mesh>, start: nat, before: nat,
                    visited: seq<nat>, added: seq<nat>, scene: AiScene)
    requires SceneWellFormed(scene)
    requires before == start + |visited| && before + |added| <= |ms0|
    requires |ms0| == |original| && |ms1| == |ms0|
    requires ms0[..start] == original[..start] && ms0[before..] == original[before..]
    requires BuiltRange(ms0, start, visited, scene)
    requires ms1[..before] == ms0[..before] && ms1[before + |added|..] == ms0[before..][|added|..]
    requires BuiltRange(ms1, before, added, scene)
    ensures ms1[..start] == original[..start]
    ensures ms1[before + |added|..] == original[before + |added|..]
    ensures BuiltRange(ms1, start, visited + added, scene)
  {
  }

  /** One pass of the first loop of ProcessAssimpNode: make the mesh for `reference` and store it
      in the first free slot, which extends the built range by one and leaves every other slot
      as it was. */
  method AppendNodeMesh(model: Model, reference: nat, scene: AiScene,
                        ghost start: nat, ghost original: seq<Mesh>, ghost visited: seq<nat>)
    requires SceneWellFormed(scene) && reference < |scene.meshes|
    requires model.meshCount == start + |visited| < model.meshes.Length == |original|
    requires model.meshes[..start] == original[..start]
    requires model.meshes[model.meshCount..] == original[model.meshCount..]
    requires BuiltRange(model.meshes[..], start, visited, scene)
    modifies model`meshCount, model.meshes
    ensures model.meshCount == old(model.meshCount) + 1
    ensures model.meshes[..start] == original[..start]
    ensures model.meshes[model.meshCount..] == original[model.meshCount..]
    ensures BuiltRange(model.meshes[..], start, visited + [reference], scene)
  {
    var created := CreateMeshFromAssimp(scene.meshes[reference]);
    ghost var ms0 := model.meshes[..];
    ghost var before := model.meshCount;
    model.StoreMesh(created);
    ghost var ms1 := model.meshes[..];
    assert BuiltRange(ms1, before, [reference], scene);
    ExtendBuilt(original, ms0, ms1, start, before, visited, [reference], scene);
  }

  /** The first loop of ProcessAssimpNode: make a mesh for each of the node's own references, in
      order, in the slots after the last one set. */
  method AppendNodeMeshes(model: Model, node: AiNode, scene: AiScene)
    requires SceneWellFormed(scene)
    requires forall r :: r in node.meshes ==> r < |scene.meshes|
    requires model.meshCount + |node.meshes| <= model.meshes.Length
    modifies model`meshCount, model.meshes
    ensures model.meshCount == old(model.meshCount) + |node.meshes|
    ensures model.meshes[..old(model.meshCount)] == old(model.meshes[..model.meshCount])
    ensures model.meshes[model.meshCount..] == old(model.meshes[model.meshCount..])[|node.meshes|..]
    ensures BuiltRange(model.meshes[..], old(model.meshCount), node.meshes, scene)
  {
    ghost var start := model.meshCount;
    ghost var original := model.meshes[..];
    ghost var visited: seq<nat> := [];

    var nodeMeshIndex := 0;
    while nodeMeshIndex < |node.meshes|
      invariant 0 <= nodeMeshIndex <= |node.meshes|
      invariant visited == node.meshes[..nodeMeshIndex]
      invariant model.meshCount == start + |visited|
      invariant model.meshes[..start] == original[..start]
      invariant model.meshes[model.meshCount..] == original[model.meshCount..]
      invariant BuiltRange(model.meshes[..], start, visited, scene)
    {
      var reference := node.meshes[nodeMeshIndex];
      assert reference in node.meshes;
      AppendNodeMesh(model, reference, scene, start, original, visited);
      visited := visited + [reference];
      assert node.meshes[..nodeMeshIndex + 1] == node.meshes[..nodeMeshIndex] + [reference];
      nodeMeshIndex := nodeMeshIndex + 1;
    }
    assert visited == node.meshes;
    assert model.meshes[model.meshCount..] == original[start..][|node.meshes|..];
  }

  /** ProcessAssimpNode: append a mesh for each of the node's own references, then recurse into
      the children left to right. Nothing checks the array's capacity. */
  method ProcessAssimpNode(model: Model, node: AiNode, scene: AiScene)
    requires SceneWellFormed(scene)
    requires RefsBelow(node, |scene.meshes|)
    requires model.meshCount + |PreOrder(node)| <= model.meshes.Length
    modifies model`meshCount, model.meshes
    ensures model.meshCount == old(model.meshCount) + |PreOrder(node)|
    ensures model.meshes[..old(model.meshCount)] == old(model.meshes[..model.meshCount])
    ensures model.meshes[model.meshCount..] == old(model.meshes[model.meshCount..])[|PreOrder(node)|..]
    ensures BuiltRange(model.meshes[..], old(model.meshCount), PreOrder(node), scene)
    decreases node
  {
    ghost var start := model.meshCount;
    ghost var original := model.meshes[..];
    ChildrenPreOrderPrefix(node, 0, |node.children|);
    AppendNodeMeshes(model, node, scene);
    ghost var visited := node.meshes;
    assert visited == node.meshes + ChildrenPreOrder(node, 0);
    assert model.meshes[model.meshCount..] == original[model.meshCount..];

    var childIndex := 0;
    while childIndex < |node.children|
      invariant 0 <= childIndex <= |node.children|
      invariant visited == node.meshes + ChildrenPreOrder(node, childIndex)
      invariant model.meshCount == start + |visited|
      invariant model.meshCount <= start + |PreOrder(node)| <= model.meshes.Length
      invariant model.meshes[..start] == original[..start]
      invariant model.meshes[model.meshCount..] == original[model.meshCount..]
      invariant BuiltRange(model.meshes[..], start, visited, scene)
    {
      var child := node.children[childIndex];
      assert child in node.children;
      ChildrenPreOrderPrefix(node, childIndex + 1, |node.children|);
      VisitStep(node, childIndex);
      ghost var ms0 := model.meshes[..];
      ghost var before := model.meshCount;
      ProcessAssimpNode(model, child, scene);
      ExtendBuilt(original, ms0, model.meshes[..], start, before, visited, PreOrder(child), scene);
      visited := visited + PreOrder(child);
      childIndex := childIndex + 1;
    }
    assert visited == PreOrder(node);
    assert model.meshes[model.meshCount..] == original[start..][|PreOrder(node)|..];
  }

  // ---------------------------------------------------------------------------------------------
  // LoadModelFromAssimp: paths, the scene check, and the walk from the root

  /** A C string's characters: no terminator among them. */
  predicate NulFree(s: string)
  {
    forall i :: 0 <= i < |s| ==> s[i] != '\0'
  }

  /** `buf` holds the C string `s`: its characters followed by a terminator. */
  ghost predicate Holds(buf: array<char>, s: string)
    reads buf
  {
    |s| < buf.Length && buf[..|s|] == s && buf[|s|] == '\0'
  }

  /** strcpy into a buffer large enough for the string and its terminator. */
  method StrCpy(dst: array<char>, src: string)
    requires NulFree(src)
    requires |src| < dst.Length
    modifies dst
    ensures Holds(dst, src)
  {
    var i := 0;
    while i < |src|
      invariant 0 <= i <= |src|
      invariant dst[..i] == src[..i]
    {
      dst[i] := src[i];
      i := i + 1;
    }
    dst[i] := '\0';
    assert dst[..|src|] == src[..|src|];
  }

  /** strcat: find the terminator of the string in `dst`, copy `src` over it, terminate again. The
      buffer must have room for both strings and the terminator. */
  method StrCat(dst: array<char>, ghost prefix: string, src: string)
    requires NulFree(prefix) && NulFree(src)
    requires Holds(dst, prefix)
    requires |prefix| + |src| < dst.Length
    modifies dst
    ensures Holds(dst, prefix + src)
  {
    assert forall i :: 0 <= i < |prefix| ==> dst[i] == prefix[i] by {
      forall i | 0 <= i < |prefix|
        ensures dst[i] == prefix[i]
      {
        assert dst[..|prefix|][i] == prefix[i];
      }
    }
    var n := 0;
    while dst[n] != '\0'
      invariant 0 <= n <= |prefix|
      decreases |prefix| - n
    {
      n := n + 1;
    }
    assert n == |prefix|;
    var i := 0;
    while i < |src|
      invariant 0 <= i <= |src|
      invariant dst[..n] == prefix
      invariant dst[n..n + i] == src[..i]
    {
      dst[n + i] := src[i];
      i := i + 1;
      assert dst[..n] == prefix;
    }
    dst[n + i] := '\0';
    assert dst[..|prefix + src|] == dst[..n] + dst[n..n + i];
  }

  const AssetsFolder: string := "assets\\"
  const PathSeparator: string := "\\"

  /** The model's folder relative to the working directory: "assets\<folder>\". */
  function ModelFolderPath(modelFolder: string): string
  {
    AssetsFolder + modelFolder + PathSeparator
  }

  /** AI_SCENE_FLAGS_INCOMPLETE. */
  const SceneFlagsIncomplete: bv32 := 1

  /** The scene check as written, `mFlags | AI_SCENE_FLAGS_INCOMPLETE`. */
  predicate IncompleteCheckAsWritten(flags: bv32)
  {
    flags | SceneFlagsIncomplete != 0
  }

  /** As written the check passes for every scene, including one flagged incomplete. */
  lemma IncompleteCheckAlwaysPasses(flags: bv32)
    ensures IncompleteCheckAsWritten(flags)
    ensures IncompleteCheckAsWritten(flags | SceneFlagsIncomplete)
  {
  }

  /** The corrected check: the incomplete flag is clear. */
  predicate SceneComplete(flags: bv32)
  {
    flags & SceneFlagsIncomplete == 0
  }

  /** The corrected check rejects every scene flagged incomplete and accepts every other. */
  lemma CorrectedCheckRejectsIncomplete(flags: bv32)
    ensures !SceneComplete(flags | SceneFlagsIncomplete)
    ensures SceneComplete(flags & !SceneFlagsIncomplete)
  {
  }

  /** Texture path in CreateMeshFromAssimp: the model folder path and the texture's file name,
      built in a 256-character buffer. */
  method TexturePath(modelFolderPath: string, fileName: string) returns (path: string)
    requires NulFree(modelFolderPath) && NulFree(fileName)
    requires |modelFolderPath| + |fileName| < 256
    ensures path == modelFolderPath + fileName
  {
    var texturePath := new char[256];
    StrCpy(texturePath, modelFolderPath);
    StrCat(texturePath, modelFolderPath, fileName);
    path := texturePath[..|modelFolderPath| + |fileName|];
  }

  /** LoadModelFromAssimp: build "assets\<folder>\" and the import path in a 512-character buffer,
      take the scene the importer returns for that path, size the mesh array by the scene's mesh
      count, and collect the meshes from the root. The assert on the scene's flags is the one as
      written, which every scene passes, an incomplete one included. */
  method LoadModelFromAssimp(modelFolder: string, modelName: string, scene: AiScene)
    returns (model: Model, importPath: string)
    requires NulFree(modelFolder) && NulFree(modelName)
    requires |ModelFolderPath(modelFolder)| + |modelName| < 512
    requires SceneWellFormed(scene)
    requires RefsBelow(scene.root, |scene.meshes|)
    requires |PreOrder(scene.root)| <= |scene.meshes|
    ensures model.modelFolderPath == ModelFolderPath(modelFolder)
    ensures importPath == ModelFolderPath(modelFolder) + modelName
    ensures model.meshes.Length == |scene.meshes|
    ensures model.meshCount == |PreOrder(scene.root)|
    ensures forall k :: 0 <= k < model.meshCount ==>
              PreOrder(scene.root)[k] < |scene.meshes| &&
              MeshBuiltFrom(model.meshes[k], scene.meshes[PreOrder(scene.root)[k]])
  {
    var modelPath := new char[512];
    StrCpy(modelPath, AssetsFolder);
    StrCat(modelPath, AssetsFolder, modelFolder);
    StrCat(modelPath, AssetsFolder + modelFolder, PathSeparator);
    var folderPath := ModelFolderPath(modelFolder);
    model := new Model();
    model.modelFolderPath := modelPath[..|folderPath|];
    StrCat(modelPath, folderPath, modelName);
    importPath := modelPath[..|folderPath| + |modelName|];
    IncompleteCheckAlwaysPasses(scene.flags);
    assert IncompleteCheckAsWritten(scene.flags);

    model.meshCount := 0;
    var blank := Mesh(0, 0, [], []);
    model.meshes := new Mesh[|scene.meshes|](_ => blank);
    ProcessAssimpNode(model, scene.root, scene);
  }
}
