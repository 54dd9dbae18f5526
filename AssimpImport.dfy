/** What `SCOModel.ImportAssimp` appends to a model for a scene the Assimp library
    has read: each mesh's vertices, its texture coordinates and its faces, whose
    vertex indices are moved past the vertices already in the model, then one
    material per scene material. */
module AssimpImport {
  import opened Text
  import opened Geometry
  import opened MatFormat

  /** The parts of an Assimp mesh the import reads: its vertices, the X and Y of its
      first texture coordinate channel, and the index list of each face. */
  datatype Mesh = Mesh(vertices: seq<Vector3>, uvs: seq<Vector2>, faces: seq<seq<int32>>)

  /** The parts of an Assimp material the import reads: its name and the file path of
      its diffuse texture (`null` when it has none). */
  datatype SceneMaterial = SceneMaterial(name: string, diffusePath: Option<string>)

  datatype Scene = Scene(meshes: seq<Mesh>, materials: seq<SceneMaterial>)

  /** Why an import stopped: a face with fewer than three indices, a mesh with a face
      whose index is not a material index (the material is looked up by the mesh's
      position), or a material without a diffuse texture path. */
  datatype ImportError =
    | IndexMissing(mesh: nat, face: nat)
    | MaterialMissing(mesh: nat)
    | TexturePathMissing(material: nat)

  /** A model and its materials after an import, and the error that stopped it, if
      any. The C# lists are changed in place, so what was appended before an error
      stays. */
  datatype Imported = Imported(model: ModelData, materials: seq<MaterialFields>, error: Option<ImportError>)

  // ---------------------------------------------------------------------------
  // The texture file name

  /** `s.LastIndexOf(c)`: the position of the last `c`, or -1. */
  function LastIndexOf(s: string, c: char): (k: int)
    ensures -1 <= k < |s|
    ensures k >= 0 ==> s[k] == c
    ensures forall i :: k < i < |s| ==> s[i] != c
    decreases |s|
  {
    if |s| == 0 then -1
    else if s[|s| - 1] == c then |s| - 1
    else LastIndexOf(s[..|s| - 1], c)
  }

  /** `path.Substring(path.LastIndexOf('\\') + 1)`. */
  function FileName(path: string): string {
    path[LastIndexOf(path, '\\') + 1..]
  }

  /** The file name is the end of the path after its last backslash, or the whole path
      when it has none, and holds no backslash. */
  lemma {:induction false} FileNameAfterLastBackslash(path: string)
    ensures var k := |path| - |FileName(path)|;
      && 0 <= k <= |path|
      && FileName(path) == path[k..]
      && (k == 0 || path[k - 1] == '\\')
      && (k == 0 ==> Free(path, {'\\'}))
      && Free(FileName(path), {'\\'})
  {
    var k := LastIndexOf(path, '\\') + 1;
    forall i | 0 <= i < |FileName(path)|
      ensures FileName(path)[i] !in {'\\'}
    {
      assert FileName(path)[i] == path[k + i];
    }
  }

  // ---------------------------------------------------------------------------
  // The loops of the import

  /** The face the loop body makes from face `f` of mesh `m`, whose vertices start at
      `base` in the model: `Indices[0]`, `[1]` and `[2]` plus `base` (C# `int`
      addition), and the name of the material at the mesh's position. */
  function ImportFace(ix: seq<int32>, base: int, m: nat, f: nat, scene: Scene): Result<Face, ImportError> {
    if |ix| < 3 then Err(IndexMissing(m, f))
    else if m >= |scene.materials| then Err(MaterialMissing(m))
    else Ok(Face(Wrap32(ix[0] + base), Wrap32(ix[1] + base), Wrap32(ix[2] + base), scene.materials[m].name))
  }

  /** The face loop of mesh `m` over its first `|fs|` faces: the faces it appended, and
      the error that stopped it. */
  function MeshFaces(fs: seq<seq<int32>>, base: int, m: nat, scene: Scene): (r: (seq<Face>, Option<ImportError>))
    ensures |r.0| <= |fs|
    ensures r.1 == None ==> |r.0| == |fs|
    decreases |fs|
  {
    if |fs| == 0 then ([], None)
    else
      var p := MeshFaces(fs[..|fs| - 1], base, m, scene);
      if p.1.Some? then p
      else match ImportFace(fs[|fs| - 1], base, m, |fs| - 1, scene)
        case Err(e) => (p.0, Some(e))
        case Ok(face) => (p.0 + [face], None)
  }

  /** One pass of the mesh loop: the mesh's vertices, its texture coordinates, then
      its faces, offset by the number of vertices the model had before. */
  function ImportMesh(st: Imported, scene: Scene, m: nat): Imported
    requires m < |scene.meshes|
  {
    var mesh := scene.meshes[m];
    var r := MeshFaces(mesh.faces, |st.model.vertices|, m, scene);
    Imported(st.model.(vertices := st.model.vertices + mesh.vertices,
                       textureCoordinates := st.model.textureCoordinates + mesh.uvs,
                       faces := st.model.faces + r.0),
             st.materials, r.1)
  }

  /** The mesh loop after its first `k` passes. */
  function AfterMeshes(st: Imported, scene: Scene, k: nat): Imported
    requires k <= |scene.meshes|
  {
    if k == 0 then st
    else
      var p := AfterMeshes(st, scene, k - 1);
      if p.error.Some? then p else ImportMesh(p, scene, k - 1)
  }

  /** The material the import makes from a scene material with a texture path: its
      name, the flags "texture_gouraud_", opacity 255, the texture file name and a
      white colour; the other fields keep the values of a `new Material()`. */
  function MadeMaterial(sm: SceneMaterial): MaterialFields
    requires sm.diffusePath.Some?
  {
    DefaultFields.(name := Some(sm.name), flags := Some("texture_gouraud_"), opacity := 255,
                   texture := Some(FileName(sm.diffusePath.value)), colour := Vector3(255.0, 255.0, 255.0))
  }

  /** One pass of the material loop on scene material `i`: the material made from it,
      or the error a missing texture path raises. */
  function ImportMaterial(sm: SceneMaterial, i: nat): Result<MaterialFields, ImportError> {
    match sm.diffusePath
    case None => Err(TexturePathMissing(i))
    case Some(_) => Ok(MadeMaterial(sm))
  }

  /** The material loop after its first `k` passes. */
  function AfterMaterials(st: Imported, scene: Scene, k: nat): Imported
    requires k <= |scene.materials|
  {
    if k == 0 then st
    else
      var p := AfterMaterials(st, scene, k - 1);
      if p.error.Some? then p
      else match ImportMaterial(scene.materials[k - 1], k - 1)
        case Err(e) => p.(error := Some(e))
        case Ok(mf) => p.(materials := p.materials + [mf])
  }

  /** `SCOModel.ImportAssimp` on a scene, from a model and its materials. */
  function ImportSpec(model: ModelData, mats: seq<MaterialFields>, scene: Scene): Imported {
    AfterMaterials(AfterMeshes(Imported(model, mats, None), scene, |scene.meshes|), scene, |scene.materials|)
  }

  // ---------------------------------------------------------------------------
  // What the import appends

  /** The face loop of a mesh succeeds exactly when each face has three indices and,
      if the mesh has a face, its position is a material index; each face it appends
      is the face's first three indices moved by `base`, tagged with that material's
      name. */
  lemma {:induction false} MeshFacesAppend(fs: seq<seq<int32>>, base: int, m: nat, scene: Scene)
    ensures var r := MeshFaces(fs, base, m, scene);
      && (r.1 == None <==> (forall f :: 0 <= f < |fs| ==> |fs[f]| >= 3) && (|fs| == 0 || m < |scene.materials|))
      && (r.1 == None ==> forall f :: 0 <= f < |fs| ==>
            r.0[f] == Face(Wrap32(fs[f][0] + base), Wrap32(fs[f][1] + base), Wrap32(fs[f][2] + base), scene.materials[m].name))
    decreases |fs|
  {
    if |fs| > 0 {
      var n := |fs| - 1;
      MeshFacesAppend(fs[..n], base, m, scene);
      forall f | 0 <= f < n
        ensures fs[..n][f] == fs[f]
      {
      }
    }
  }

  /** One more pass of the face loop: the face made from face `f` is appended, or its
      error stops the loop. */
  lemma MeshFacesStep(fs: seq<seq<int32>>, base: int, m: nat, scene: Scene, f: nat)
    requires f < |fs| && MeshFaces(fs[..f], base, m, scene).1 == None
    ensures var p := MeshFaces(fs[..f], base, m, scene).0;
      MeshFaces(fs[..f + 1], base, m, scene) == match ImportFace(fs[f], base, m, f, scene)
        case Err(e) => (p, Some(e))
        case Ok(face) => (p + [face], None)
  {
    assert fs[..f + 1][..f] == fs[..f] && fs[..f + 1][f] == fs[f];
  }

  /** Once a face stops the face loop, the faces after it change nothing. */
  lemma {:induction false} MeshFacesStopped(fs: seq<seq<int32>>, base: int, m: nat, scene: Scene, k: nat)
    requires k <= |fs| && MeshFaces(fs[..k], base, m, scene).1.Some?
    ensures MeshFaces(fs, base, m, scene) == MeshFaces(fs[..k], base, m, scene)
    decreases |fs|
  {
    if k < |fs| {
      var n := |fs| - 1;
      assert fs[..n][..k] == fs[..k];
      MeshFacesStopped(fs[..n], base, m, scene, k);
    } else {
      assert fs[..k] == fs;
    }
  }

  /** Mesh `m` imports without error: each of its faces has three indices, and a mesh
      with a face has a material at its position. */
  predicate MeshImports(scene: Scene, m: nat)
    requires m < |scene.meshes|
  {
    && (forall f :: 0 <= f < |scene.meshes[m].faces| ==> |scene.meshes[m].faces[f]| >= 3)
    && (|scene.meshes[m].faces| == 0 || m < |scene.materials|)
  }

  /** The mesh loop gets through its first `k` passes exactly when each of those
      meshes imports without error. */
  lemma {:induction false} AfterMeshesSucceeds(st: Imported, scene: Scene, k: nat)
    requires k <= |scene.meshes| && st.error == None
    ensures AfterMeshes(st, scene, k).error == None <==> forall m :: 0 <= m < k ==> MeshImports(scene, m)
  {
    if k > 0 {
      AfterMeshesSucceeds(st, scene, k - 1);
      var p := AfterMeshes(st, scene, k - 1);
      if p.error == None {
        var mesh := scene.meshes[k - 1];
        MeshFacesAppend(mesh.faces, |p.model.vertices|, k - 1, scene);
        assert AfterMeshes(st, scene, k) == ImportMesh(p, scene, k - 1);
        assert (AfterMeshes(st, scene, k).error == None) == MeshImports(scene, k - 1);
      }
    }
  }

  /** Once a mesh stops the mesh loop, the meshes after it change nothing. */
  lemma {:induction false} AfterMeshesStopped(st: Imported, scene: Scene, k: nat, n: nat)
    requires k <= n <= |scene.meshes| && AfterMeshes(st, scene, k).error.Some?
    ensures AfterMeshes(st, scene, n) == AfterMeshes(st, scene, k)
    decreases n
  {
    if k < n {
      AfterMeshesStopped(st, scene, k, n - 1);
    }
  }

  /** The number of vertices and of faces in the first `k` meshes. */
  function VerticesBefore(scene: Scene, k: nat): nat
    requires k <= |scene.meshes|
  {
    if k == 0 then 0 else VerticesBefore(scene, k - 1) + |scene.meshes[k - 1].vertices|
  }

  function FacesBefore(scene: Scene, k: nat): nat
    requires k <= |scene.meshes|
  {
    if k == 0 then 0 else FacesBefore(scene, k - 1) + |scene.meshes[k - 1].faces|
  }

  /** The mesh loop only appends: after any number of passes the model's lists and the
      materials begin with what they held before, and when no pass failed each list has
      grown by the counts of the meshes passed. */
  lemma {:induction false} AfterMeshesGrows(st: Imported, scene: Scene, k: nat)
    requires k <= |scene.meshes| && st.error == None
    ensures var p := AfterMeshes(st, scene, k);
      && |st.model.vertices| <= |p.model.vertices| && p.model.vertices[..|st.model.vertices|] == st.model.vertices
      && |st.model.faces| <= |p.model.faces| && p.model.faces[..|st.model.faces|] == st.model.faces
      && |st.model.textureCoordinates| <= |p.model.textureCoordinates|
      && p.model.textureCoordinates[..|st.model.textureCoordinates|] == st.model.textureCoordinates
      && p.model.name == st.model.name && p.materials == st.materials
      && (p.error == None ==>
            && |p.model.vertices| == |st.model.vertices| + VerticesBefore(scene, k)
            && |p.model.faces| == |st.model.faces| + FacesBefore(scene, k))
  {
    if k > 0 {
      AfterMeshesGrows(st, scene, k - 1);
      var p := AfterMeshes(st, scene, k - 1);
      if p.error == None {
        var q := ImportMesh(p, scene, k - 1);
        assert q.model.vertices[..|p.model.vertices|] == p.model.vertices;
        assert q.model.faces[..|p.model.faces|] == p.model.faces;
        assert q.model.textureCoordinates[..|p.model.textureCoordinates|] == p.model.textureCoordinates;
        assert q.model.vertices[..|st.model.vertices|] == p.model.vertices[..|st.model.vertices|];
        assert q.model.faces[..|st.model.faces|] == p.model.faces[..|st.model.faces|];
        assert q.model.textureCoordinates[..|st.model.textureCoordinates|]
            == p.model.textureCoordinates[..|st.model.textureCoordinates|];
      }
    }
  }

  /** Once the mesh loop fails it stays failed: a later state without error means every
      earlier one had none, and the earlier state's lists begin the later one's. */
  lemma {:induction false} AfterMeshesMonotone(st: Imported, scene: Scene, k: nat, n: nat)
    requires k <= n <= |scene.meshes| && st.error == None
    requires AfterMeshes(st, scene, n).error == None
    ensures AfterMeshes(st, scene, k).error == None
    ensures var p, q := AfterMeshes(st, scene, k), AfterMeshes(st, scene, n);
      && |p.model.vertices| <= |q.model.vertices| && q.model.vertices[..|p.model.vertices|] == p.model.vertices
      && |p.model.faces| <= |q.model.faces| && q.model.faces[..|p.model.faces|] == p.model.faces
    decreases n - k
  {
    if k < n {
      var r := AfterMeshes(st, scene, n - 1);
      assert r.error == None;
      AfterMeshesMonotone(st, scene, k, n - 1);
      var q := AfterMeshes(st, scene, n);
      var p := AfterMeshes(st, scene, k);
      assert q == ImportMesh(r, scene, n - 1);
      assert q.model.vertices[..|r.model.vertices|] == r.model.vertices;
      assert q.model.faces[..|r.model.faces|] == r.model.faces;
      assert q.model.vertices[..|p.model.vertices|] == r.model.vertices[..|p.model.vertices|];
      assert q.model.faces[..|p.model.faces|] == r.model.faces[..|p.model.faces|];
    }
  }

  /** The import's model is the one the mesh loop left, and a successful import had
      a successful mesh loop. */
  lemma {:induction false} ImportSpecMeshes(model: ModelData, mats: seq<MaterialFields>, scene: Scene)
    ensures var s := AfterMeshes(Imported(model, mats, None), scene, |scene.meshes|);
      && ImportSpec(model, mats, scene).model == s.model
      && (ImportSpec(model, mats, scene).error == None ==> s.error == None)
  {
    var s := AfterMeshes(Imported(model, mats, None), scene, |scene.meshes|);
    AfterMaterialsKeeps(s, scene, |scene.materials|);
  }

  /** Where the lists stand before and after pass `m` of a mesh loop that succeeds:
      pass `m` starts from the counts of the meshes before it, and what it leaves
      begins the lists the whole loop leaves. */
  lemma {:induction false} MeshPass(st: Imported, scene: Scene, m: nat)
    requires st.error == None && m < |scene.meshes|
    requires AfterMeshes(st, scene, |scene.meshes|).error == None
    ensures var p, q := AfterMeshes(st, scene, m), AfterMeshes(st, scene, m + 1);
      var r := AfterMeshes(st, scene, |scene.meshes|).model;
      && p.error == None && q == ImportMesh(p, scene, m) && q.error == None
      && |p.model.vertices| == |st.model.vertices| + VerticesBefore(scene, m)
      && |p.model.faces| == |st.model.faces| + FacesBefore(scene, m)
      && |q.model.vertices| <= |r.vertices| && r.vertices[..|q.model.vertices|] == q.model.vertices
      && |q.model.faces| <= |r.faces| && r.faces[..|q.model.faces|] == q.model.faces
  {
    AfterMeshesMonotone(st, scene, m + 1, |scene.meshes|);
    AfterMeshesMonotone(st, scene, m, m + 1);
    AfterMeshesGrows(st, scene, m);
  }

  /** A mesh loop that succeeds places face `f` of mesh `m` at the old face count plus
      the faces of the meshes before it, as the face loop of that mesh made it with the
      old vertex count plus the vertices of the meshes before as its offset. */
  lemma {:induction false} MeshPlacesFace(st: Imported, scene: Scene, m: nat, f: nat)
    requires st.error == None && AfterMeshes(st, scene, |scene.meshes|).error == None
    requires m < |scene.meshes| && f < |scene.meshes[m].faces|
    ensures var r := AfterMeshes(st, scene, |scene.meshes|).model;
      var at := |st.model.faces| + FacesBefore(scene, m) + f;
      var fs := MeshFaces(scene.meshes[m].faces, |st.model.vertices| + VerticesBefore(scene, m), m, scene);
      && fs.1 == None && at < |r.faces| && r.faces[at] == fs.0[f]
  {
    MeshPass(st, scene, m);
    var p, q := AfterMeshes(st, scene, m), AfterMeshes(st, scene, m + 1);
    var r := AfterMeshes(st, scene, |scene.meshes|).model;
    var at := |st.model.faces| + FacesBefore(scene, m) + f;
    assert r.faces[at] == q.model.faces[at];
  }

  /** A mesh loop that succeeds places vertex `i` of mesh `m` after the old vertices
      and the vertices of the meshes before it. */
  lemma {:induction false} MeshPlacesVertex(st: Imported, scene: Scene, m: nat, i: nat)
    requires st.error == None && AfterMeshes(st, scene, |scene.meshes|).error == None
    requires m < |scene.meshes| && i < |scene.meshes[m].vertices|
    ensures var r := AfterMeshes(st, scene, |scene.meshes|).model;
      var at := |st.model.vertices| + VerticesBefore(scene, m) + i;
      at < |r.vertices| && r.vertices[at] == scene.meshes[m].vertices[i]
  {
    MeshPass(st, scene, m);
    var q := AfterMeshes(st, scene, m + 1);
    var at := |st.model.vertices| + VerticesBefore(scene, m) + i;
    var r := AfterMeshes(st, scene, |scene.meshes|).model;
    assert r.vertices[at] == q.model.vertices[at];
  }

  /** Vertex `c` (0, 1 or 2) of a face. */
  function FaceVertex(f: Face, c: nat): int32
    requires c < 3
  {
    if c == 0 then f.vertex1 else if c == 1 then f.vertex2 else f.vertex3
  }

  /** Vertex `c` of a face made from an index list moved by `base` is index `c` moved. */
  lemma {:induction false} MovedFaceVertex(ix: seq<int32>, base: int, name: string, c: nat)
    requires c < 3 <= |ix|
    ensures FaceVertex(Face(Wrap32(ix[0] + base), Wrap32(ix[1] + base), Wrap32(ix[2] + base), name), c) == Wrap32(ix[c] + base)
  {
  }

  /** Corner `c` of face `f` of mesh `m` is, after a mesh loop that succeeds, the
      scene's index moved past the vertices placed before the mesh. */
  lemma {:induction false} MeshFaceVertex(st: Imported, scene: Scene, m: nat, f: nat, c: nat)
    requires st.error == None && AfterMeshes(st, scene, |scene.meshes|).error == None
    requires m < |scene.meshes| && f < |scene.meshes[m].faces| && c < 3 && c < |scene.meshes[m].faces[f]|
    ensures var r := AfterMeshes(st, scene, |scene.meshes|).model;
      var at := |st.model.faces| + FacesBefore(scene, m) + f;
      var base := |st.model.vertices| + VerticesBefore(scene, m);
      at < |r.faces| && FaceVertex(r.faces[at], c) == Wrap32(scene.meshes[m].faces[f][c] + base)
  {
    var mesh := scene.meshes[m];
    var base := |st.model.vertices| + VerticesBefore(scene, m);
    var fs := MeshFaces(mesh.faces, base, m, scene);
    var r := AfterMeshes(st, scene, |scene.meshes|).model;
    var at := |st.model.faces| + FacesBefore(scene, m) + f;
    var ix := mesh.faces[f];
    assert fs.1 == None && at < |r.faces| && r.faces[at] == fs.0[f] by {
      MeshPlacesFace(st, scene, m, f);
    }
    assert fs.0[f] == Face(Wrap32(ix[0] + base), Wrap32(ix[1] + base), Wrap32(ix[2] + base), scene.materials[m].name) by {
      MeshFacesAppend(mesh.faces, base, m, scene);
    }
    MovedFaceVertex(ix, base, scene.materials[m].name, c);
  }

  /** A mesh loop that succeeds keeps each mesh's geometry: when the vertex list it
      leaves stays within the `int` range, every index of a scene face that addresses a
      vertex of its mesh becomes an index that addresses the same vertex in the list. */
  lemma {:induction false} MeshKeepsGeometry(st: Imported, scene: Scene, m: nat, f: nat, c: nat)
    requires st.error == None && AfterMeshes(st, scene, |scene.meshes|).error == None
    requires |AfterMeshes(st, scene, |scene.meshes|).model.vertices| <= Int32Max + 1
    requires m < |scene.meshes| && f < |scene.meshes[m].faces| && c < 3
    requires c < |scene.meshes[m].faces[f]| && 0 <= scene.meshes[m].faces[f][c] < |scene.meshes[m].vertices|
    ensures var r := AfterMeshes(st, scene, |scene.meshes|).model;
      var at := |st.model.faces| + FacesBefore(scene, m) + f;
      && at < |r.faces|
      && 0 <= FaceVertex(r.faces[at], c) < |r.vertices|
      && r.vertices[FaceVertex(r.faces[at], c)] == scene.meshes[m].vertices[scene.meshes[m].faces[f][c]]
  {
    var ix := scene.meshes[m].faces[f][c];
    var base := |st.model.vertices| + VerticesBefore(scene, m);
    MeshFaceVertex(st, scene, m, f, c);
    MeshPlacesVertex(st, scene, m, ix);
    assert Wrap32(ix + base) == base + ix;
  }

  /** The import keeps each mesh's geometry: when the model's vertex list stays within
      the `int` range, every index of a scene face that addresses a vertex of its mesh
      becomes an index that addresses the same vertex in the model. */
  lemma {:induction false} ImportKeepsGeometry(model: ModelData, mats: seq<MaterialFields>, scene: Scene, m: nat, f: nat, c: nat)
    requires ImportSpec(model, mats, scene).error == None
    requires |ImportSpec(model, mats, scene).model.vertices| <= Int32Max + 1
    requires m < |scene.meshes| && f < |scene.meshes[m].faces| && c < 3
    requires c < |scene.meshes[m].faces[f]| && 0 <= scene.meshes[m].faces[f][c] < |scene.meshes[m].vertices|
    ensures var r := ImportSpec(model, mats, scene).model;
      var at := |model.faces| + FacesBefore(scene, m) + f;
      && at < |r.faces|
      && 0 <= FaceVertex(r.faces[at], c) < |r.vertices|
      && r.vertices[FaceVertex(r.faces[at], c)] == scene.meshes[m].vertices[scene.meshes[m].faces[f][c]]
  {
    ImportSpecMeshes(model, mats, scene);
    MeshKeepsGeometry(Imported(model, mats, None), scene, m, f, c);
  }

  /** Appending to a list keeps each of its prefixes. */
  lemma SnocKeepsPrefix<T>(a: seq<T>, x: T, n: nat)
    requires n <= |a|
    ensures (a + [x])[..n] == a[..n]
  {
  }

  /** The material loop leaves the model alone and only appends materials. */
  lemma {:induction false} AfterMaterialsKeeps(st: Imported, scene: Scene, k: nat)
    requires k <= |scene.materials|
    ensures var p := AfterMaterials(st, scene, k);
      && p.model == st.model
      && |st.materials| <= |p.materials| && p.materials[..|st.materials|] == st.materials
      && (st.error.Some? ==> p == st)
  {
    if st.error.Some? {
      AfterMaterialsStopped(st, scene, 0, k);
    } else if k == 0 {
      assert st.materials[..|st.materials|] == st.materials;
    } else {
      AfterMaterialsKeeps(st, scene, k - 1);
      var q := AfterMaterials(st, scene, k - 1);
      var p := AfterMaterials(st, scene, k);
      if q.error == None && scene.materials[k - 1].diffusePath.Some? {
        assert p.materials == q.materials + [MadeMaterial(scene.materials[k - 1])];
        SnocKeepsPrefix(q.materials, MadeMaterial(scene.materials[k - 1]), |st.materials|);
      } else {
        assert p.materials == q.materials;
      }
    }
  }

  /** Once a material stops the material loop, the materials after it change
      nothing. */
  lemma {:induction false} AfterMaterialsStopped(st: Imported, scene: Scene, k: nat, n: nat)
    requires k <= n <= |scene.materials| && AfterMaterials(st, scene, k).error.Some?
    ensures AfterMaterials(st, scene, n) == AfterMaterials(st, scene, k)
    decreases n
  {
    if k < n {
      AfterMaterialsStopped(st, scene, k, n - 1);
    }
  }

  /** The material loop has nothing left to do once it has passed every material or
      stopped. */
  lemma {:induction false} AfterMaterialsDone(st: Imported, scene: Scene, k: nat)
    requires k <= |scene.materials|
    requires k == |scene.materials| || AfterMaterials(st, scene, k).error.Some?
    ensures AfterMaterials(st, scene, |scene.materials|) == AfterMaterials(st, scene, k)
  {
    if k < |scene.materials| {
      AfterMaterialsStopped(st, scene, k, |scene.materials|);
    }
  }

  /** The material loop succeeds exactly when every scene material it passes has a
      diffuse texture path. */
  lemma {:induction false} AfterMaterialsSucceeds(st: Imported, scene: Scene, k: nat)
    requires k <= |scene.materials| && st.error == None
    ensures AfterMaterials(st, scene, k).error == None <==> forall i :: 0 <= i < k ==> scene.materials[i].diffusePath.Some?
  {
    if k > 0 {
      AfterMaterialsSucceeds(st, scene, k - 1);
      var q := AfterMaterials(st, scene, k - 1);
      if q.error == None && scene.materials[k - 1].diffusePath.None? {
        assert AfterMaterials(st, scene, k).error == Some(TexturePathMissing(k - 1));
      }
    }
  }

  /** A material loop that succeeds appends the materials made from the scene
      materials it passes, in order. */
  lemma {:induction false} AfterMaterialsMakes(st: Imported, scene: Scene, k: nat)
    requires k <= |scene.materials| && st.error == None && AfterMaterials(st, scene, k).error == None
    ensures var p := AfterMaterials(st, scene, k);
      && |p.materials| == |st.materials| + k
      && forall i :: 0 <= i < k ==> scene.materials[i].diffusePath.Some? && p.materials[|st.materials| + i] == MadeMaterial(scene.materials[i])
  {
    if k > 0 {
      var q := AfterMaterials(st, scene, k - 1);
      var p := AfterMaterials(st, scene, k);
      assert q.error == None;
      AfterMaterialsMakes(st, scene, k - 1);
      var sm := scene.materials[k - 1];
      assert sm.diffusePath.Some?;
      assert p.materials == q.materials + [MadeMaterial(sm)];
      var n := |st.materials|;
      forall i | 0 <= i < k
        ensures scene.materials[i].diffusePath.Some? && p.materials[n + i] == MadeMaterial(scene.materials[i])
      {
        if i < k - 1 {
          assert p.materials[n + i] == q.materials[n + i];
        }
      }
    }
  }

  /** The material loop succeeds exactly when every scene material it passes has a
      diffuse texture path, and then appends the materials made from them in order. */
  lemma {:induction false} AfterMaterialsAppend(st: Imported, scene: Scene, k: nat)
    requires k <= |scene.materials| && st.error == None
    ensures var p := AfterMaterials(st, scene, k);
      && (p.error == None <==> forall i :: 0 <= i < k ==> scene.materials[i].diffusePath.Some?)
      && (p.error == None ==>
            && |p.materials| == |st.materials| + k
            && forall i :: 0 <= i < k ==> p.materials[|st.materials| + i] == MadeMaterial(scene.materials[i]))
  {
    AfterMaterialsSucceeds(st, scene, k);
    if AfterMaterials(st, scene, k).error == None {
      AfterMaterialsMakes(st, scene, k);
    }
  }

  /** The import succeeds exactly when every mesh imports without error and every
      scene material has a diffuse texture path. */
  lemma {:induction false} ImportSucceeds(model: ModelData, mats: seq<MaterialFields>, scene: Scene)
    ensures ImportSpec(model, mats, scene).error == None
      <==> ((forall m :: 0 <= m < |scene.meshes| ==> MeshImports(scene, m))
            && (forall i :: 0 <= i < |scene.materials| ==> scene.materials[i].diffusePath.Some?))
  {
    var s := AfterMeshes(Imported(model, mats, None), scene, |scene.meshes|);
    AfterMeshesSucceeds(Imported(model, mats, None), scene, |scene.meshes|);
    AfterMaterialsKeeps(s, scene, |scene.materials|);
    if s.error == None {
      AfterMaterialsAppend(s, scene, |scene.materials|);
    }
  }

  /** A successful import appends the scene's materials, made in order, after the
      materials the model had. */
  lemma {:induction false} ImportAppendsMaterials(model: ModelData, mats: seq<MaterialFields>, scene: Scene)
    requires ImportSpec(model, mats, scene).error == None
    ensures var r := ImportSpec(model, mats, scene).materials;
      && |r| == |mats| + |scene.materials| && r[..|mats|] == mats
      && forall i :: 0 <= i < |scene.materials| ==> scene.materials[i].diffusePath.Some? && r[|mats| + i] == MadeMaterial(scene.materials[i])
  {
    var s := AfterMeshes(Imported(model, mats, None), scene, |scene.meshes|);
    assert s.materials == mats && s.error == None by {
      ImportSpecMeshes(model, mats, scene);
      AfterMeshesGrows(Imported(model, mats, None), scene, |scene.meshes|);
    }
    AfterMaterialsKeeps(s, scene, |scene.materials|);
    AfterMaterialsMakes(s, scene, |scene.materials|);
  }
}
