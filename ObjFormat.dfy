/** The Wavefront OBJ text `SCOModel.ExportOBJ` writes: the vertices, the texture
    coordinates, the object name and one face line per face. OBJ numbers vertices and
    texture coordinates from 1, and a face corner is written `vertex/texture`. */
module ObjFormat {
  import opened Text
  import opened Geometry

  /** `$"v {vertex.X} {vertex.Y} {vertex.Z}"`. */
  function ObjVertexLine(v: Vector3, ft: FloatText): string {
    Join(["v", ft.format(v.x), ft.format(v.y), ft.format(v.z)], ' ')
  }

  /** `$"vt {textureCoordinate.X} {textureCoordinate.Y}"`. */
  function ObjTexLine(t: Vector2, ft: FloatText): string {
    Join(["vt", ft.format(t.x), ft.format(t.y)], ' ')
  }

  /** One corner of a face line: the vertex index plus one (C# `int` addition), a
      slash, and the texture coordinate number. */
  function CornerRef(vertex: int32, texture: int32): string {
    IntToString(Wrap32(vertex + 1)) + "/" + IntToString(texture)
  }

  /** The face line written with the counter `index`: its corners refer to texture
      coordinates `index`, `index + 1` and `index + 2`. */
  function ObjFaceLine(f: Face, index: int32): string {
    Join(["f", CornerRef(f.vertex1, index), CornerRef(f.vertex2, Wrap32(index + 1)),
          CornerRef(f.vertex3, Wrap32(index + 2))], ' ')
  }

  /** The counter before face `i`: it starts at 1 and grows by 3 per face, as a C# `int`. */
  function FaceCounter(i: nat): int32 {
    if i == 0 then 1 else Wrap32(FaceCounter(i - 1) + 3)
  }

  /** The lines of the first `n` vertices. */
  function VertexLinesUpTo(vs: seq<Vector3>, n: nat, ft: FloatText): (r: seq<string>)
    requires n <= |vs|
    ensures |r| == n
  {
    if n == 0 then [] else VertexLinesUpTo(vs, n - 1, ft) + [ObjVertexLine(vs[n - 1], ft)]
  }

  lemma {:induction false} VertexLineAt(vs: seq<Vector3>, n: nat, i: nat, ft: FloatText)
    requires i < n <= |vs|
    ensures VertexLinesUpTo(vs, n, ft)[i] == ObjVertexLine(vs[i], ft)
  {
    if i < n - 1 {
      assert VertexLinesUpTo(vs, n, ft)[i] == VertexLinesUpTo(vs, n - 1, ft)[i];
      VertexLineAt(vs, n - 1, i, ft);
    }
  }

  /** The vertex block: its heading, then one line per vertex. */
  function VertexBlock(m: ModelData, ft: FloatText): (b: seq<string>)
    ensures |b| == 1 + |m.vertices| && b[0] == "# Vertex Data"
  {
    ["# Vertex Data"] + VertexLinesUpTo(m.vertices, |m.vertices|, ft)
  }

  /** The lines of the first `n` texture coordinates. */
  function TexLinesUpTo(ts: seq<Vector2>, n: nat, ft: FloatText): (r: seq<string>)
    requires n <= |ts|
    ensures |r| == n
  {
    if n == 0 then [] else TexLinesUpTo(ts, n - 1, ft) + [ObjTexLine(ts[n - 1], ft)]
  }

  lemma {:induction false} TexLineAt(ts: seq<Vector2>, n: nat, i: nat, ft: FloatText)
    requires i < n <= |ts|
    ensures TexLinesUpTo(ts, n, ft)[i] == ObjTexLine(ts[i], ft)
  {
    if i < n - 1 {
      assert TexLinesUpTo(ts, n, ft)[i] == TexLinesUpTo(ts, n - 1, ft)[i];
      TexLineAt(ts, n - 1, i, ft);
    }
  }

  /** The texture block: an empty line, its heading, then one line per texture
      coordinate. A `WriteLine` of a text that starts with a line break writes an empty
      line before it; that break is "\n" whatever the writer's newline, so with "\r\n"
      the lines are the same but the text is not. */
  function TexBlock(m: ModelData, ft: FloatText): (b: seq<string>)
    ensures |b| == 2 + |m.textureCoordinates| && b[0] == "" && b[1] == "# Texture Coordinate Data"
  {
    ["", "# Texture Coordinate Data"] + TexLinesUpTo(m.textureCoordinates, |m.textureCoordinates|, ft)
  }

  /** The values of `f` at 0, 1, ..., n - 1, in order. */
  function Listing<T>(f: nat -> T, n: nat): (r: seq<T>)
    ensures |r| == n
  {
    if n == 0 then [] else Listing(f, n - 1) + [f(n - 1)]
  }

  lemma {:induction false} ListingAt<T>(f: nat -> T, n: nat, j: nat)
    requires j < n
    ensures Listing(f, n)[j] == f(j)
  {
    if j < n - 1 {
      assert Listing(f, n)[j] == Listing(f, n - 1)[j];
      ListingAt(f, n - 1, j);
    }
  }

  /** One more value of `f` extends the listing by one. */
  lemma ListingSnoc<T>(f: nat -> T, n: nat)
    ensures Listing(f, n + 1) == Listing(f, n) + [f(n)]
  {
  }

  /** Face `j` written with the counter's value before it (no line past the last
      face). */
  function FaceLineText(faces: seq<Face>, j: nat): string {
    if j < |faces| then ObjFaceLine(faces[j], FaceCounter(j)) else ""
  }

  function FaceLineOf(faces: seq<Face>): nat -> string {
    (j: nat) => FaceLineText(faces, j)
  }

  /** The lines of the first `n` faces. */
  function FaceLinesUpTo(faces: seq<Face>, n: nat): (r: seq<string>)
    ensures |r| == n
  {
    Listing(FaceLineOf(faces), n)
  }

  /** Line `j` of the face lines is face `j` written with the counter's value before
      it. */
  lemma FaceLineAt(faces: seq<Face>, n: nat, j: nat)
    requires j < n <= |faces|
    ensures FaceLinesUpTo(faces, n)[j] == ObjFaceLine(faces[j], FaceCounter(j))
  {
    ListingAt(FaceLineOf(faces), n, j);
  }

  /** One step of the face loop: the counter the loop keeps, after its `+= 3`, is the
      counter of the next face. */
  lemma FaceCounterStep(j: nat, index: int32)
    requires index == FaceCounter(j)
    ensures FaceCounter(j + 1) == Wrap32(index + 3)
  {
  }

  /** The next face line is written with the counter's current value. */
  lemma FaceLinesStep(faces: seq<Face>, j: nat, index: int32)
    requires j < |faces| && index == FaceCounter(j)
    ensures FaceLinesUpTo(faces, j + 1) == FaceLinesUpTo(faces, j) + [ObjFaceLine(faces[j], index)]
  {
    ListingSnoc(FaceLineOf(faces), j);
  }

  /** The face block: an empty line, its heading, the object name, then the face
      lines. The empty line comes from a leading "\n", as in the texture block. */
  function FaceBlock(m: ModelData, ft: FloatText): (b: seq<string>)
    ensures |b| == 3 + |m.faces|
    ensures b[0] == "" && b[1] == "# Face Data" && b[2] == "o " + NameText(m.name)
  {
    ["", "# Face Data", "o " + NameText(m.name)] + FaceLinesUpTo(m.faces, |m.faces|)
  }

  /** `SCOModel.ExportOBJ`: the lines of the file. */
  function ExportObjSpec(m: ModelData, ft: FloatText): seq<string> {
    VertexBlock(m, ft) + TexBlock(m, ft) + FaceBlock(m, ft)
  }

  /** Where the lines of each block land in the file. */
  lemma InFirst<T>(a: seq<T>, b: seq<T>, c: seq<T>, k: nat)
    requires k < |a|
    ensures (a + b + c)[k] == a[k]
  {
  }

  lemma InSecond<T>(a: seq<T>, b: seq<T>, c: seq<T>, k: nat)
    requires k < |b|
    ensures (a + b + c)[|a| + k] == b[k]
  {
  }

  lemma InThird<T>(a: seq<T>, b: seq<T>, c: seq<T>, k: nat)
    requires k < |c|
    ensures (a + b + c)[|a| + |b| + k] == c[k]
  {
  }

  /** The lines after a block's head. */
  lemma AfterHead<T>(h: seq<T>, s: seq<T>, i: nat)
    requires i < |s|
    ensures (h + s)[|h| + i] == s[i]
  {
  }

  /** The lines after the head of the third block. */
  lemma InThirdAfterHead<T>(a: seq<T>, b: seq<T>, h: seq<T>, s: seq<T>, k: nat)
    requires k < |s|
    ensures (a + b + (h + s))[|a| + |b| + |h| + k] == s[k]
  {
  }

  /** The file's length and its headings: the vertex heading on line 0, then after the
      vertex lines an empty line and the texture heading, then after the texture
      coordinate lines an empty line, the face heading and the object name. */
  lemma ExportObjLayout(m: ModelData, ft: FloatText)
    ensures var lines, nv, nt := ExportObjSpec(m, ft), |m.vertices|, |m.textureCoordinates|;
      && |lines| == 6 + nv + nt + |m.faces|
      && lines[0] == "# Vertex Data"
      && lines[1 + nv] == "" && lines[2 + nv] == "# Texture Coordinate Data"
      && lines[3 + nv + nt] == "" && lines[4 + nv + nt] == "# Face Data"
      && lines[5 + nv + nt] == "o " + NameText(m.name)
  {
    var a, b, c := VertexBlock(m, ft), TexBlock(m, ft), FaceBlock(m, ft);
    InFirst(a, b, c, 0);
    InSecond(a, b, c, 0);
    InSecond(a, b, c, 1);
    InThird(a, b, c, 0);
    InThird(a, b, c, 1);
    InThird(a, b, c, 2);
  }

  /** Vertex `i` is on line 1 + i. */
  lemma ExportObjVertex(m: ModelData, ft: FloatText, i: nat)
    requires i < |m.vertices|
    ensures ExportObjSpec(m, ft)[1 + i] == ObjVertexLine(m.vertices[i], ft)
  {
    var a := VertexBlock(m, ft);
    InFirst(a, TexBlock(m, ft), FaceBlock(m, ft), 1 + i);
    AfterHead(["# Vertex Data"], VertexLinesUpTo(m.vertices, |m.vertices|, ft), i);
    VertexLineAt(m.vertices, |m.vertices|, i, ft);
  }

  /** Texture coordinate `t` is on line 3 + (vertex count) + t. */
  lemma ExportObjTexture(m: ModelData, ft: FloatText, t: nat)
    requires t < |m.textureCoordinates|
    ensures ExportObjSpec(m, ft)[3 + |m.vertices| + t] == ObjTexLine(m.textureCoordinates[t], ft)
  {
    var b := TexBlock(m, ft);
    InSecond(VertexBlock(m, ft), b, FaceBlock(m, ft), 2 + t);
    AfterHead(["", "# Texture Coordinate Data"], TexLinesUpTo(m.textureCoordinates, |m.textureCoordinates|, ft), t);
    TexLineAt(m.textureCoordinates, |m.textureCoordinates|, t, ft);
  }

  /** Face `j` is on line 6 + (vertex count) + (texture coordinate count) + j, written
      with the counter's value before it. */
  lemma ExportObjFace(m: ModelData, ft: FloatText, j: nat)
    requires j < |m.faces|
    ensures ExportObjSpec(m, ft)[6 + |m.vertices| + |m.textureCoordinates| + j]
      == ObjFaceLine(m.faces[j], FaceCounter(j))
  {
    InThirdAfterHead(VertexBlock(m, ft), TexBlock(m, ft), ["", "# Face Data", "o " + NameText(m.name)],
                     FaceLinesUpTo(m.faces, |m.faces|), j);
    FaceLineAt(m.faces, |m.faces|, j);
  }

  /** The counter before face `i` is 3i + 1 while that fits in an `int`. */
  lemma {:induction false} FaceCounterValue(i: nat)
    requires 3 * i + 1 <= Int32Max
    ensures FaceCounter(i) == 3 * i + 1
  {
    if i > 0 {
      FaceCounterValue(i - 1);
    }
  }

  // ---------------------------------------------------------------------------
  // Reading a face line back

  /** A corner `vertex/texture` as an OBJ reader takes it apart. */
  function ReadCorner(s: string): (r: Option<(int32, int32)>)
    ensures r.Some? ==> |Split(s, '/')| == 2
  {
    var parts := Split(s, '/');
    if |parts| == 2 && ParseInt32(parts[0]).Some? && ParseInt32(parts[1]).Some? then
      Some((ParseInt32(parts[0]).value, ParseInt32(parts[1]).value))
    else None
  }

  /** A face line `f a/b c/d e/f` as an OBJ reader takes it apart: the vertex and
      texture number of each of its three corners. */
  function ReadObjFace(line: string): (r: Option<seq<(int32, int32)>>)
    ensures r.Some? ==> |r.value| == 3
  {
    var ts := Split(line, ' ');
    if |ts| == 4 && ts[0] == "f" && ReadCorner(ts[1]).Some? && ReadCorner(ts[2]).Some? && ReadCorner(ts[3]).Some? then
      Some([ReadCorner(ts[1]).value, ReadCorner(ts[2]).value, ReadCorner(ts[3]).value])
    else None
  }

  lemma {:induction false} ReadCornerRef(vertex: int32, texture: int32)
    ensures ReadCorner(CornerRef(vertex, texture)) == Some((Wrap32(vertex + 1), texture))
    ensures Free(CornerRef(vertex, texture), {' '})
  {
    var a, b := IntToString(Wrap32(vertex + 1)), IntToString(texture);
    IntToStringToken(Wrap32(vertex + 1));
    IntToStringToken(texture);
    assert Free(a, {'/'}) && Free(b, {'/'});
    assert CornerRef(vertex, texture) == Join([a, b], '/');
    SplitJoin([a, b], '/', {'/'});
    ParseIntToString(Wrap32(vertex + 1));
    ParseIntToString(texture);
    assert Free(a, {' '}) && Free(b, {' '});
    FreeConcat(a, "/", {' '});
    FreeConcat(a + "/", b, {' '});
  }

  lemma {:induction false} SplitFaceLine(c1: string, c2: string, c3: string)
    requires Free(c1, {' '}) && Free(c2, {' '}) && Free(c3, {' '})
    ensures Split(Join(["f", c1, c2, c3], ' '), ' ') == ["f", c1, c2, c3]
  {
    var ts := ["f", c1, c2, c3];
    forall i | 0 <= i < |ts|
      ensures Free(ts[i], {' '})
    {
      if i == 0 {
        assert ts[0] == ['f'];
      }
    }
    SplitJoin(ts, ' ', {' '});
  }

  lemma {:induction false} ReadJoinedFace(c1: string, c2: string, c3: string)
    requires Free(c1, {' '}) && Free(c2, {' '}) && Free(c3, {' '})
    requires ReadCorner(c1).Some? && ReadCorner(c2).Some? && ReadCorner(c3).Some?
    ensures ReadObjFace(Join(["f", c1, c2, c3], ' ')) == Some([ReadCorner(c1).value, ReadCorner(c2).value, ReadCorner(c3).value])
  {
    SplitFaceLine(c1, c2, c3);
  }

  /** An OBJ reader finds in a face line the face's three vertex indices, each plus
      one, and the counter and its two successors as texture numbers. */
  lemma {:induction false} ObjFaceReads(f: Face, index: int32)
    ensures ReadObjFace(ObjFaceLine(f, index))
      == Some([(Wrap32(f.vertex1 + 1), index), (Wrap32(f.vertex2 + 1), Wrap32(index + 1)), (Wrap32(f.vertex3 + 1), Wrap32(index + 2))])
  {
    ReadCornerRef(f.vertex1, index);
    ReadCornerRef(f.vertex2, Wrap32(index + 1));
    ReadCornerRef(f.vertex3, Wrap32(index + 2));
    ReadJoinedFace(CornerRef(f.vertex1, index), CornerRef(f.vertex2, Wrap32(index + 1)), CornerRef(f.vertex3, Wrap32(index + 2)));
  }

  /** An OBJ reader finds in the line written for face `j` the face's three vertex
      indices, each plus one, and texture coordinates 3j + 1, 3j + 2 and 3j + 3: the
      numbers, counted from 1, of the three corners `SCOModel.LoadModel` appended for
      the `j`-th face line of a model it read into empty lists. */
  lemma {:induction false} ObjFaceReadsBack(f: Face, j: nat)
    requires 3 * j + 3 <= Int32Max
    ensures ReadObjFace(ObjFaceLine(f, FaceCounter(j)))
      == Some([(Wrap32(f.vertex1 + 1), 3 * j + 1), (Wrap32(f.vertex2 + 1), 3 * j + 2), (Wrap32(f.vertex3 + 1), 3 * j + 3)])
  {
    FaceCounterValue(j);
    ObjFaceReads(f, FaceCounter(j));
  }
}
