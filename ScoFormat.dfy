/** The SCO model text format: what `SCOModel.LoadModel` does to a model for
    given lines, and the lines `SCOModel.SaveModel` writes. The file is
    position-based: the name on line 1, the vertex count on line 3, the vertex
    lines from line 4, then the face count and the face lines. */
module ScoFormat {
  import opened Text
  import opened Geometry

  /** Why a load stopped, with the index of the line being read: the array index
      past the end, `Substring` past the end of a line, a token index past the end of
      a split line, or a number `int.Parse`/`float.Parse` rejects. */
  datatype LoadError =
    | LineMissing(line: int)
    | LineTooShort(line: int)
    | TokenMissing(line: int)
    | NotANumber(line: int)

  /** A model after a load, and the error that stopped the load, if any. The C#
      lists are changed in place, so what was appended before an error stays. */
  datatype Loaded = Loaded(model: ModelData, error: Option<LoadError>)

  /** `lines[index].Substring(skip)`. */
  function LineSuffix(lines: seq<string>, index: int, skip: nat): (r: Result<string, LoadError>)
    ensures r.Ok? <==> 0 <= index < |lines| && skip <= |lines[index]|
    ensures r.Ok? ==> lines[index] == lines[index][..skip] + r.value
  {
    if !(0 <= index < |lines|) then Err(LineMissing(index))
    else if |lines[index]| < skip then Err(LineTooShort(index))
    else Ok(lines[index][skip..])
  }

  /** `int.Parse(lines[index].Substring(7))`: the count after "Verts= " or "Faces= ". */
  function CountAt(lines: seq<string>, index: int, lx: Lexer): (r: Result<int32, LoadError>)
    ensures r.Ok? ==> 0 <= index < |lines|
  {
    var s :- LineSuffix(lines, index, 7);
    if lx.parseInt(s).Some? then Ok(lx.parseInt(s).value) else Err(NotANumber(index))
  }

  /** `int.Parse(ts[k])`. */
  function IntAt(ts: seq<string>, k: nat, line: int, lx: Lexer): Result<int32, LoadError> {
    if k >= |ts| then Err(TokenMissing(line))
    else if lx.parseInt(ts[k]).Some? then Ok(lx.parseInt(ts[k]).value)
    else Err(NotANumber(line))
  }

  /** `float.Parse(ts[k])`. */
  function FloatAt(ts: seq<string>, k: nat, line: int, ft: FloatText): Result<real, LoadError> {
    if k >= |ts| then Err(TokenMissing(line))
    else if ft.parse(ts[k]).Some? then Ok(ft.parse(ts[k]).value)
    else Err(NotANumber(line))
  }

  /** A vertex line: split at single spaces, then tokens 0, 1 and 2 are the coordinates. */
  function VertexAt(lines: seq<string>, index: int, ft: FloatText, lx: Lexer): Result<Vector3, LoadError> {
    if !(0 <= index < |lines|) then Err(LineMissing(index))
    else
      var ts := lx.fields(lines[index]);
      var x :- FloatAt(ts, 0, index, ft);
      var y :- FloatAt(ts, 1, index, ft);
      var z :- FloatAt(ts, 2, index, ft);
      Ok(Vector3(x, y, z))
  }

  /** The blank-separated tokens of a face line (a missing line has none). */
  function FaceTokens(lines: seq<string>, index: int, lx: Lexer): seq<string> {
    if 0 <= index < |lines| then lx.words(lines[index]) else []
  }

  /** The face of a face line: token 0 (the corner count) is skipped, tokens 1-3 are
      the vertex indices and token 4 the material name. */
  function FaceAt(lines: seq<string>, index: int, lx: Lexer): (r: Result<Face, LoadError>)
    ensures r.Ok? ==> 0 <= index < |lines|
    ensures r.Err? ==> r.error.line == index
  {
    if !(0 <= index < |lines|) then Err(LineMissing(index))
    else
      var ts := FaceTokens(lines, index, lx);
      var v1 :- IntAt(ts, 1, index, lx);
      var v2 :- IntAt(ts, 2, index, lx);
      var v3 :- IntAt(ts, 3, index, lx);
      if |ts| < 5 then Err(TokenMissing(index)) else Ok(Face(v1, v2, v3, ts[4]))
  }

  /** Corner `c` of a face line: tokens 5 + 2c and 6 + 2c, the second taken as its
      absolute value. */
  function CornerAt(lines: seq<string>, index: int, c: nat, ft: FloatText, lx: Lexer): (r: Result<Vector2, LoadError>)
    requires c < 3
    ensures r.Ok? ==> r.value.y >= 0.0
    ensures r.Ok? ==> 7 + 2 * c <= |FaceTokens(lines, index, lx)|
    ensures r.Err? ==> r.error.line == index
  {
    var ts := FaceTokens(lines, index, lx);
    var u :- FloatAt(ts, 5 + 2 * c, index, ft);
    var v :- FloatAt(ts, 6 + 2 * c, index, ft);
    Ok(Vector2(u, Abs(v)))
  }

  // ---------------------------------------------------------------------------
  // The effect of the loader's loops

  /** A vertex read appended to a model; a failed read stops the load. */
  function AppendVertex(l: Loaded, v: Result<Vector3, LoadError>): Loaded {
    match v
    case Err(e) => l.(error := Some(e))
    case Ok(v) => l.(model := l.model.(vertices := l.model.vertices + [v]))
  }

  /** What the vertex loop reads from the `count` lines from `x` on, line by line. */
  function VertexLines(lines: seq<string>, x: int, count: nat, ft: FloatText, lx: Lexer): (r: seq<Result<Vector3, LoadError>>)
    ensures |r| == count
  {
    seq(count, j => VertexAt(lines, x + j, ft, lx))
  }

  /** The vertex loop over the given reads: each appends its vertex, and the loop stops
      at the first one that failed. */
  function VertexLoop(l: Loaded, vs: seq<Result<Vector3, LoadError>>): Loaded
    decreases |vs|
  {
    if l.error.Some? || |vs| == 0 then l else VertexLoop(AppendVertex(l, vs[0]), vs[1..])
  }

  /** What a run of face lines appends: faces, texture coordinates, and the error
      that stopped the reading, if any. */
  datatype Appended = Appended(faces: seq<Face>, corners: seq<Vector2>, error: Option<LoadError>)

  /** What was read appended to a loaded model, as the loop body appends it in place. */
  function Absorb(l: Loaded, r: Appended): Loaded {
    Loaded(l.model.(faces := l.model.faces + r.faces,
                    textureCoordinates := l.model.textureCoordinates + r.corners), r.error)
  }

  /** How far one pass of the face loop's body got on its line. It appends the face
      first, then the corners one by one, so a line that fails part-way leaves its face
      and the corners read before the failure. */
  datatype LineRead =
    | NoFace(error: LoadError)
    | FaceOnly(face: Face, error: LoadError)
    | OneCorner(face: Face, a: Vector2, error: LoadError)
    | TwoCorners(face: Face, a: Vector2, b: Vector2, error: LoadError)
    | Whole(face: Face, a: Vector2, b: Vector2, c: Vector2)
  {
    function Faces(): seq<Face> {
      if NoFace? then [] else [face]
    }

    function Corners(): seq<Vector2> {
      match this
      case NoFace(_) => []
      case FaceOnly(_, _) => []
      case OneCorner(_, a, _) => [a]
      case TwoCorners(_, a, b, _) => [a, b]
      case Whole(_, a, b, c) => [a, b, c]
    }

    function Stop(): Option<LoadError> {
      if Whole? then None else Some(error)
    }

    function Appends(): Appended {
      Appended(Faces(), Corners(), Stop())
    }
  }

  /** One pass of the face loop's body over the line at `index`. */
  function ReadFaceLine(lines: seq<string>, index: int, ft: FloatText, lx: Lexer): (r: LineRead)
    ensures r.Whole? <==> FaceLineLoads(lines, index, ft, lx)
    ensures !r.Whole? ==> r.error.line == index
    ensures !r.NoFace? <==> FaceAt(lines, index, lx).Ok?
    ensures !r.NoFace? ==> FaceAt(lines, index, lx) == Ok(r.face)
    ensures forall c :: 0 <= c < |r.Corners()| ==> CornerAt(lines, index, c, ft, lx) == Ok(r.Corners()[c])
  {
    match FaceAt(lines, index, lx)
    case Err(e) => NoFace(e)
    case Ok(f) =>
      match CornerAt(lines, index, 0, ft, lx)
      case Err(e) => FaceOnly(f, e)
      case Ok(a) =>
        match CornerAt(lines, index, 1, ft, lx)
        case Err(e) => OneCorner(f, a, e)
        case Ok(b) =>
          match CornerAt(lines, index, 2, ft, lx)
          case Err(e) => TwoCorners(f, a, b, e)
          case Ok(c) => Whole(f, a, b, c)
  }

  /** A face line the loader reads to the end: its face and all three corners parse. */
  predicate FaceLineLoads(lines: seq<string>, index: int, ft: FloatText, lx: Lexer) {
    FaceAt(lines, index, lx).Ok? && CornerAt(lines, index, 0, ft, lx).Ok?
    && CornerAt(lines, index, 1, ft, lx).Ok? && CornerAt(lines, index, 2, ft, lx).Ok?
  }

  /** What the face loop reads from the `count` lines from `x` on, line by line. */
  function FaceLines(lines: seq<string>, x: int, count: nat, ft: FloatText, lx: Lexer): (r: seq<LineRead>)
    ensures |r| == count
  {
    seq(count, j => ReadFaceLine(lines, x + j, ft, lx))
  }

  /** The face loop over the given reads: each appends what its line read, and the loop
      stops at the first line that did not load. */
  function FaceLoop(l: Loaded, rs: seq<LineRead>): Loaded
    decreases |rs|
  {
    if l.error.Some? || |rs| == 0 then l else FaceLoop(Absorb(l, rs[0].Appends()), rs[1..])
  }

  function NonNegative(n: int): nat { if n < 0 then 0 else n }

  /** `SCOModel.LoadModel` on the lines of a file, from the model `m`. */
  function LoadModelSpec(m: ModelData, lines: seq<string>, ft: FloatText, lx: Lexer): Loaded {
    match LineSuffix(lines, 1, 6)
    case Err(e) => Loaded(m, Some(e))
    case Ok(name) =>
      var named := m.(name := Some(name));
      match CountAt(lines, 3, lx)
      case Err(e) => Loaded(named, Some(e))
      case Ok(vertCount) =>
        var l := VertexLoop(Loaded(named, None), VertexLines(lines, 4, NonNegative(vertCount), ft, lx));
        if l.error.Some? then l
        else match CountAt(lines, 4 + vertCount as int, lx)
          case Err(e) => l.(error := Some(e))
          case Ok(faceCount) =>
            FaceLoop(l, FaceLines(lines, 5 + vertCount as int, NonNegative(faceCount), ft, lx))
  }

  // ---------------------------------------------------------------------------
  // What the loader's loops append

  /** The vertex loop appends the vertices read in order and stops at the first read
      that failed, reporting its error. */
  lemma {:induction false} VertexLoopAppends(m: ModelData, vs: seq<Result<Vector3, LoadError>>)
    ensures var l := VertexLoop(Loaded(m, None), vs);
      var base := |m.vertices|;
      var k := |l.model.vertices| - base;
      && l.model == m.(vertices := l.model.vertices)
      && 0 <= k <= |vs|
      && l.model.vertices[..base] == m.vertices
      && (forall p :: base <= p < |l.model.vertices| ==> vs[p - base] == Ok(l.model.vertices[p]))
      && (l.error.None? <==> k == |vs|)
      && (l.error.Some? ==> vs[k] == Err(l.error.value))
    decreases |vs|
  {
    if |vs| > 0 && vs[0].Ok? {
      var m' := m.(vertices := m.vertices + [vs[0].value]);
      VertexLoopAppends(m', vs[1..]);
      var ws := VertexLoop(Loaded(m', None), vs[1..]).model.vertices;
      var base := |m.vertices|;
      assert ws[..base + 1] == m'.vertices;
      assert ws[..base] == m.vertices by {
        assert m'.vertices[..base] == m.vertices;
      }
      forall p | base <= p < |ws|
        ensures vs[p - base] == Ok(ws[p])
      {
        if p == base {
          assert ws[p] == m'.vertices[base];
        } else {
          assert vs[1..][p - (base + 1)] == vs[p - base];
        }
      }
    }
  }

  /** The reads of a run of face lines, up to and including the first one that stops:
      what they append, all together. */
  function ReadLines(rs: seq<LineRead>): Appended
    decreases |rs|
  {
    if |rs| == 0 then Appended([], [], None)
    else if !rs[0].Whole? then rs[0].Appends()
    else
      var rest := ReadLines(rs[1..]);
      Appended(rs[0].Faces() + rest.faces, rs[0].Corners() + rest.corners, rest.error)
  }

  /** The face loop appends exactly what its lines read, one after another, and stops
      with the error of the first line that does not load. */
  lemma {:induction false} FaceLoopReads(m: ModelData, rs: seq<LineRead>)
    ensures FaceLoop(Loaded(m, None), rs) == Absorb(Loaded(m, None), ReadLines(rs))
    decreases |rs|
  {
    if |rs| > 0 && rs[0].Whole? {
      var m' := Absorb(Loaded(m, None), rs[0].Appends()).model;
      FaceLoopReads(m', rs[1..]);
      var rest := ReadLines(rs[1..]);
      assert m'.faces + rest.faces == m.faces + (rs[0].Faces() + rest.faces);
      assert m'.textureCoordinates + rest.corners == m.textureCoordinates + (rs[0].Corners() + rest.corners);
    }
  }

  /** How many of the face lines read load one after another before the first one that
      stops. */
  function LoadingRun(rs: seq<LineRead>): (k: nat)
    ensures k <= |rs|
    ensures k < |rs| ==> !rs[k].Whole?
    ensures forall y :: 0 <= y < k ==> rs[y].Whole?
    decreases |rs|
  {
    if |rs| == 0 || !rs[0].Whole? then 0 else 1 + LoadingRun(rs[1..])
  }

  /** Face lines read one after another: they all load exactly when the reading
      reports no error, and then there is one face and three corners per line.
      Otherwise the error is that of the first line that stops, which adds at most its
      face and fewer than three corners to those of the lines before it. */
  lemma {:induction false} ReadLinesStops(rs: seq<LineRead>)
    ensures var b := ReadLines(rs);
      var k := LoadingRun(rs);
      && (b.error.None? <==> k == |rs|)
      && (b.error.None? ==> |b.faces| == |rs| && |b.corners| == 3 * |rs|)
      && (b.error.Some? ==>
            && b.error == Some(rs[k].error)
            && k <= |b.faces| <= k + 1
            && 3 * k <= |b.corners| < 3 * k + 3)
    decreases |rs|
  {
    if |rs| > 0 && rs[0].Whole? {
      ReadLinesStops(rs[1..]);
    }
  }

  /** Face `j` of face lines read one after another is the face of the `j`-th line. */
  lemma {:induction false} ReadLinesFace(rs: seq<LineRead>, j: nat)
    requires j < |ReadLines(rs).faces|
    ensures j < |rs| && !rs[j].NoFace? && ReadLines(rs).faces[j] == rs[j].face
    decreases |rs|
  {
    if rs[0].Whole? && j > 0 {
      ReadLinesFace(rs[1..], j - 1);
      assert rs[1..][j - 1] == rs[j];
    }
  }

  /** A position past the start of the texture coordinates as face `j`, corner `c`. */
  lemma {:induction false} DivideByThree(d: nat) returns (j: nat, c: nat)
    ensures d == 3 * j + c && c < 3
  {
    j, c := d / 3, d % 3;
  }

  /** Texture coordinate `c` of the `j`-th face in a list whose faces' coordinates start
      at `base`: the loader keeps the three corners of a face together. */
  function CornerOf(uvs: seq<Vector2>, base: int, j: int, c: int): Vector2
    requires 0 <= base + 3 * j + c < |uvs|
  {
    uvs[base + 3 * j + c]
  }

  /** Corner `c` of the `j`-th of face lines read one after another is corner `c` of
      that line. */
  lemma {:induction false} ReadLinesCorner(rs: seq<LineRead>, j: nat, c: nat)
    requires c < 3 && 3 * j + c < |ReadLines(rs).corners|
    ensures j < |rs| && c < |rs[j].Corners()| && CornerOf(ReadLines(rs).corners, 0, j, c) == rs[j].Corners()[c]
    decreases |rs|
  {
    if rs[0].Whole? && j > 0 {
      var rest := ReadLines(rs[1..]);
      assert ReadLines(rs).corners == rs[0].Corners() + rest.corners;
      ReadLinesCorner(rs[1..], j - 1, c);
      assert rs[1..][j - 1] == rs[j];
    }
  }

  /** The face loop keeps the model's other fields and the faces and texture
      coordinates it had. It completes exactly when all of its lines load, appending one
      face and three texture coordinates per line; otherwise it stops with the error of
      the first line that does not load, after the faces and corners of the lines
      before it and at most the face and fewer than three corners of that line. */
  lemma {:induction false} FaceLoopEnds(m: ModelData, rs: seq<LineRead>)
    ensures var l := FaceLoop(Loaded(m, None), rs);
      var k := LoadingRun(rs);
      var fb, ub := |m.faces|, |m.textureCoordinates|;
      && l.model == m.(faces := l.model.faces, textureCoordinates := l.model.textureCoordinates)
      && fb <= |l.model.faces| && ub <= |l.model.textureCoordinates|
      && l.model.faces[..fb] == m.faces
      && l.model.textureCoordinates[..ub] == m.textureCoordinates
      && (l.error.None? <==> k == |rs|)
      && (l.error.None? ==> |l.model.faces| == fb + |rs| && |l.model.textureCoordinates| == ub + 3 * |rs|)
      && (l.error.Some? ==>
            && l.error == Some(rs[k].error)
            && k <= |l.model.faces| - fb <= k + 1
            && 3 * k <= |l.model.textureCoordinates| - ub < 3 * k + 3)
  {
    FaceLoopReads(m, rs);
    ReadLinesStops(rs);
    var b := ReadLines(rs);
    var l := FaceLoop(Loaded(m, None), rs);
    assert l.model.faces[..|m.faces|] == m.faces;
    assert l.model.textureCoordinates[..|m.textureCoordinates|] == m.textureCoordinates;
  }

  /** The `j`-th face the face loop appends is the face its `j`-th line reads. */
  lemma {:induction false} LoopFace(m: ModelData, rs: seq<LineRead>, j: nat)
    requires |m.faces| + j < |FaceLoop(Loaded(m, None), rs).model.faces|
    ensures j < |rs| && !rs[j].NoFace?
    ensures FaceLoop(Loaded(m, None), rs).model.faces[|m.faces| + j] == rs[j].face
  {
    FaceLoopReads(m, rs);
    ReadLinesFace(rs, j);
  }

  /** Corner `c` of the `j`-th line the face loop reads sits at 3j + c past the old end
      of the texture coordinates. */
  lemma {:induction false} LoopCorner(m: ModelData, rs: seq<LineRead>, j: nat, c: nat)
    requires c < 3 && |m.textureCoordinates| + 3 * j + c < |FaceLoop(Loaded(m, None), rs).model.textureCoordinates|
    ensures j < |rs| && c < |rs[j].Corners()|
    ensures CornerOf(FaceLoop(Loaded(m, None), rs).model.textureCoordinates, |m.textureCoordinates|, j, c)
            == rs[j].Corners()[c]
  {
    FaceLoopReads(m, rs);
    var b := ReadLines(rs);
    var uvs := FaceLoop(Loaded(m, None), rs).model.textureCoordinates;
    assert uvs == m.textureCoordinates + b.corners;
    assert CornerOf(uvs, |m.textureCoordinates|, j, c) == CornerOf(b.corners, 0, j, c);
    ReadLinesCorner(rs, j, c);
  }

  /** The face loop over `count` lines from `start` keeps the model's other fields and
      the faces and texture coordinates it had; when it completes, it has appended one
      face and three texture coordinates per line. */
  lemma {:induction false} FaceRunKeeps(m: ModelData, lines: seq<string>, start: int, count: nat, ft: FloatText, lx: Lexer)
    ensures var l := FaceLoop(Loaded(m, None), FaceLines(lines, start, count, ft, lx));
      var fb, ub := |m.faces|, |m.textureCoordinates|;
      && l.model == m.(faces := l.model.faces, textureCoordinates := l.model.textureCoordinates)
      && fb <= |l.model.faces| && ub <= |l.model.textureCoordinates|
      && l.model.faces[..fb] == m.faces
      && l.model.textureCoordinates[..ub] == m.textureCoordinates
      && (l.error.None? ==> |l.model.faces| == fb + count && |l.model.textureCoordinates| == ub + 3 * count)
  {
    FaceLoopEnds(m, FaceLines(lines, start, count, ft, lx));
  }

  /** The face loop over `count` lines from `start` completes exactly when every one of
      its lines loads. */
  lemma {:induction false} FaceRunLoads(m: ModelData, lines: seq<string>, start: int, count: nat, ft: FloatText, lx: Lexer)
    ensures FaceLoop(Loaded(m, None), FaceLines(lines, start, count, ft, lx)).error.None?
            <==> forall y :: start <= y < start + count ==> FaceLineLoads(lines, y, ft, lx)
  {
    var rs := FaceLines(lines, start, count, ft, lx);
    FaceLoopEnds(m, rs);
    if FaceLoop(Loaded(m, None), rs).error.None? {
      forall y | start <= y < start + count
        ensures FaceLineLoads(lines, y, ft, lx)
      {
        assert rs[y - start] == ReadFaceLine(lines, y, ft, lx);
      }
    } else {
      var k := LoadingRun(rs);
      assert rs[k] == ReadFaceLine(lines, start + k, ft, lx);
    }
  }

  /** When the face loop stops early, it stops at the first of its lines that does not
      load: the lines before it have each added a face and three texture coordinates,
      the failing line at most its face and fewer than three, and the error names it. */
  lemma {:induction false} FaceRunStops(m: ModelData, lines: seq<string>, start: int, count: nat, ft: FloatText, lx: Lexer)
    ensures var l := FaceLoop(Loaded(m, None), FaceLines(lines, start, count, ft, lx));
      var k := LoadingRun(FaceLines(lines, start, count, ft, lx));
      l.error.Some? ==>
        && k < count
        && l.error.value.line == start + k
        && !FaceLineLoads(lines, start + k, ft, lx)
        && (forall y :: start <= y < start + k ==> FaceLineLoads(lines, y, ft, lx))
        && k <= |l.model.faces| - |m.faces| <= k + 1
        && 3 * k <= |l.model.textureCoordinates| - |m.textureCoordinates| < 3 * k + 3
  {
    var rs := FaceLines(lines, start, count, ft, lx);
    FaceLoopEnds(m, rs);
    var l := FaceLoop(Loaded(m, None), rs);
    if l.error.Some? {
      var k := LoadingRun(rs);
      assert rs[k] == ReadFaceLine(lines, start + k, ft, lx);
      forall y | start <= y < start + k
        ensures FaceLineLoads(lines, y, ft, lx)
      {
        assert rs[y - start] == ReadFaceLine(lines, y, ft, lx);
      }
    }
  }

  /** Every face the face loop appends is the face of its line: the `j`-th appended face
      comes from line start + j. */
  lemma {:induction false} FaceRunFaces(m: ModelData, lines: seq<string>, start: int, count: nat, ft: FloatText, lx: Lexer)
    ensures var fs := FaceLoop(Loaded(m, None), FaceLines(lines, start, count, ft, lx)).model.faces;
      forall p :: |m.faces| <= p < |fs| ==> FaceAt(lines, start + (p - |m.faces|), lx) == Ok(fs[p])
  {
    var rs := FaceLines(lines, start, count, ft, lx);
    var fs := FaceLoop(Loaded(m, None), rs).model.faces;
    forall p | |m.faces| <= p < |fs|
      ensures FaceAt(lines, start + (p - |m.faces|), lx) == Ok(fs[p])
    {
      LoopFace(m, rs, p - |m.faces|);
      assert rs[p - |m.faces|] == ReadFaceLine(lines, start + (p - |m.faces|), ft, lx);
    }
  }

  /** Texture coordinate 3j + c past the old end, as the face loop appends it, is
      corner `c` of line start + j. */
  lemma {:induction false} FaceRunCorner(m: ModelData, lines: seq<string>, start: int, count: nat, ft: FloatText, lx: Lexer, j: nat, c: nat)
    requires c < 3
    requires |m.textureCoordinates| + 3 * j + c
             < |FaceLoop(Loaded(m, None), FaceLines(lines, start, count, ft, lx)).model.textureCoordinates|
    ensures var uvs := FaceLoop(Loaded(m, None), FaceLines(lines, start, count, ft, lx)).model.textureCoordinates;
      CornerAt(lines, start + j, c, ft, lx) == Ok(CornerOf(uvs, |m.textureCoordinates|, j, c))
  {
    var rs := FaceLines(lines, start, count, ft, lx);
    LoopCorner(m, rs, j, c);
    assert rs[j] == ReadFaceLine(lines, start + j, ft, lx);
  }

  /** Every texture coordinate the face loop appends is a corner of its line: the
      coordinates the `j`-th line appends sit together, corner `c` of them at 3j + c
      past the old end. */
  lemma {:induction false} FaceRunCorners(m: ModelData, lines: seq<string>, start: int, count: nat, ft: FloatText, lx: Lexer)
    ensures var uvs := FaceLoop(Loaded(m, None), FaceLines(lines, start, count, ft, lx)).model.textureCoordinates;
      var ub := |m.textureCoordinates|;
      forall j, c :: 0 <= j && 0 <= c < 3 && ub + 3 * j + c < |uvs| ==>
        CornerAt(lines, start + j, c, ft, lx) == Ok(CornerOf(uvs, ub, j, c))
  {
    var uvs := FaceLoop(Loaded(m, None), FaceLines(lines, start, count, ft, lx)).model.textureCoordinates;
    var ub := |m.textureCoordinates|;
    forall j, c | 0 <= j && 0 <= c < 3 && ub + 3 * j + c < |uvs|
      ensures CornerAt(lines, start + j, c, ft, lx) == Ok(CornerOf(uvs, ub, j, c))
    {
      FaceRunCorner(m, lines, start, count, ft, lx, j, c);
    }
  }

  /** Every texture coordinate the face loop appends has a non-negative V. */
  lemma {:induction false} FaceRunAbsolute(m: ModelData, lines: seq<string>, start: int, count: nat, ft: FloatText, lx: Lexer)
    ensures var uvs := FaceLoop(Loaded(m, None), FaceLines(lines, start, count, ft, lx)).model.textureCoordinates;
      forall p :: |m.textureCoordinates| <= p < |uvs| ==> uvs[p].y >= 0.0
  {
    var uvs := FaceLoop(Loaded(m, None), FaceLines(lines, start, count, ft, lx)).model.textureCoordinates;
    var ub := |m.textureCoordinates|;
    forall p | ub <= p < |uvs|
      ensures uvs[p].y >= 0.0
    {
      var j, c := DivideByThree(p - ub);
      FaceRunCorner(m, lines, start, count, ft, lx, j, c);
    }
  }

  /** A load that succeeds has read the name, the vertex count, every vertex line and
      the face count, and ends with the face loop from the line after the face count. */
  lemma {:induction false} LoadModelSteps(m: ModelData, lines: seq<string>, ft: FloatText, lx: Lexer)
    requires LoadModelSpec(m, lines, ft, lx).error.None?
    ensures LineSuffix(lines, 1, 6).Ok? && CountAt(lines, 3, lx).Ok?
    ensures var vertCount := CountAt(lines, 3, lx).value as int;
      var lv := VertexLoop(Loaded(m.(name := Some(lines[1][6..])), None), VertexLines(lines, 4, NonNegative(vertCount), ft, lx));
      && lv.error.None?
      && CountAt(lines, 4 + vertCount, lx).Ok?
      && LoadModelSpec(m, lines, ft, lx)
         == FaceLoop(Loaded(lv.model, None),
                     FaceLines(lines, 5 + vertCount, NonNegative(CountAt(lines, 4 + vertCount, lx).value as int), ft, lx))
  {
  }

  /** `SCOModel.LoadModel` sets the name from line 1 past its 6-character label before
      it reads anything else, and keeps it whether or not the rest of the load
      succeeds; when that line cannot be read, the model is left as it was. */
  lemma {:induction false} LoadModelNames(m: ModelData, lines: seq<string>, ft: FloatText, lx: Lexer)
    ensures var l := LoadModelSpec(m, lines, ft, lx);
      && (LineSuffix(lines, 1, 6).Ok? ==> l.model.name == Some(lines[1][6..]))
      && (LineSuffix(lines, 1, 6).Err? ==> l == Loaded(m, Some(LineSuffix(lines, 1, 6).error)))
  {
    if LineSuffix(lines, 1, 6).Ok? {
      var named := m.(name := Some(lines[1][6..]));
      if CountAt(lines, 3, lx).Ok? {
        var vertCount := CountAt(lines, 3, lx).value as int;
        var vs := VertexLines(lines, 4, NonNegative(vertCount), ft, lx);
        VertexLoopAppends(named, vs);
        var lv := VertexLoop(Loaded(named, None), vs);
        if lv.error.None? && CountAt(lines, 4 + vertCount, lx).Ok? {
          var faceCount := CountAt(lines, 4 + vertCount, lx).value as int;
          FaceLoopEnds(lv.model, FaceLines(lines, 5 + vertCount, NonNegative(faceCount), ft, lx));
        }
      }
    }
  }

  /** `SCOModel.LoadModel` only appends to the model's lists, whether or not it
      succeeds, and every texture coordinate it appends has a non-negative V. */
  lemma {:induction false} LoadModelAppends(m: ModelData, lines: seq<string>, ft: FloatText, lx: Lexer)
    ensures var l := LoadModelSpec(m, lines, ft, lx);
      var vb, fb, ub := |m.vertices|, |m.faces|, |m.textureCoordinates|;
      && vb <= |l.model.vertices| && fb <= |l.model.faces| && ub <= |l.model.textureCoordinates|
      && l.model.vertices[..vb] == m.vertices
      && l.model.faces[..fb] == m.faces
      && l.model.textureCoordinates[..ub] == m.textureCoordinates
      && (forall p :: ub <= p < |l.model.textureCoordinates| ==> l.model.textureCoordinates[p].y >= 0.0)
  {
    if LineSuffix(lines, 1, 6).Ok? {
      var named := m.(name := Some(lines[1][6..]));
      if CountAt(lines, 3, lx).Ok? {
        var vertCount := CountAt(lines, 3, lx).value as int;
        var vs := VertexLines(lines, 4, NonNegative(vertCount), ft, lx);
        VertexLoopAppends(named, vs);
        var lv := VertexLoop(Loaded(named, None), vs);
        if lv.error.None? && CountAt(lines, 4 + vertCount, lx).Ok? {
          var faceCount := CountAt(lines, 4 + vertCount, lx).value as int;
          FaceLoopEnds(lv.model, FaceLines(lines, 5 + vertCount, NonNegative(faceCount), ft, lx));
          FaceRunAbsolute(lv.model, lines, 5 + vertCount, NonNegative(faceCount), ft, lx);
        }
      }
    }
  }

  /** A successful `SCOModel.LoadModel` reads the vertex count from line 3 past its
      7-character label and the face count from the line after the vertex lines, and
      appends exactly that many vertices, faces and three times as many texture
      coordinates; the file has at least 5 + vertCount + faceCount lines (a negative
      count reads no lines, but the face count is still read after it). */
  lemma {:induction false} LoadModelCounts(m: ModelData, lines: seq<string>, ft: FloatText, lx: Lexer)
    requires LoadModelSpec(m, lines, ft, lx).error.None?
    ensures CountAt(lines, 3, lx).Ok?
    ensures var vertCount := CountAt(lines, 3, lx).value as int;
      var l := LoadModelSpec(m, lines, ft, lx);
      && CountAt(lines, 4 + vertCount, lx).Ok?
      && var faceCount := CountAt(lines, 4 + vertCount, lx).value as int;
      && |l.model.vertices| == |m.vertices| + NonNegative(vertCount)
      && |l.model.faces| == |m.faces| + NonNegative(faceCount)
      && |l.model.textureCoordinates| == |m.textureCoordinates| + 3 * NonNegative(faceCount)
      && vertCount >= -4 && |lines| >= 5 + vertCount + NonNegative(faceCount)
  {
    LoadModelSteps(m, lines, ft, lx);
    var named := m.(name := Some(lines[1][6..]));
    var vertCount := CountAt(lines, 3, lx).value as int;
    var vs := VertexLines(lines, 4, NonNegative(vertCount), ft, lx);
    VertexLoopAppends(named, vs);
    var lv := VertexLoop(Loaded(named, None), vs);
    var faceCount := CountAt(lines, 4 + vertCount, lx).value as int;
    var start := 5 + vertCount;
    FaceRunKeeps(lv.model, lines, start, NonNegative(faceCount), ft, lx);
    FaceRunLoads(lv.model, lines, start, NonNegative(faceCount), ft, lx);
    if faceCount > 0 {
      assert FaceLineLoads(lines, start + (faceCount - 1), ft, lx);
    }
  }

  /** After a successful `SCOModel.LoadModel`, the `j`-th vertex it appended is the
      vertex of line 4 + j. */
  lemma {:induction false} LoadModelVertices(m: ModelData, lines: seq<string>, ft: FloatText, lx: Lexer)
    requires LoadModelSpec(m, lines, ft, lx).error.None?
    ensures var vs := LoadModelSpec(m, lines, ft, lx).model.vertices;
      forall p :: |m.vertices| <= p < |vs| ==> VertexAt(lines, 4 + (p - |m.vertices|), ft, lx) == Ok(vs[p])
  {
    LoadModelSteps(m, lines, ft, lx);
    var named := m.(name := Some(lines[1][6..]));
    var vertCount := CountAt(lines, 3, lx).value as int;
    var vls := VertexLines(lines, 4, NonNegative(vertCount), ft, lx);
    VertexLoopAppends(named, vls);
    var lv := VertexLoop(Loaded(named, None), vls);
    var faceCount := CountAt(lines, 4 + vertCount, lx).value as int;
    FaceLoopEnds(lv.model, FaceLines(lines, 5 + vertCount, NonNegative(faceCount), ft, lx));
    var vs := LoadModelSpec(m, lines, ft, lx).model.vertices;
    assert vs == lv.model.vertices;
    forall p | |m.vertices| <= p < |vs|
      ensures VertexAt(lines, 4 + (p - |m.vertices|), ft, lx) == Ok(vs[p])
    {
      assert vls[p - |m.vertices|] == VertexAt(lines, 4 + (p - |m.vertices|), ft, lx);
    }
  }

  /** After a successful `SCOModel.LoadModel`, the `j`-th face it appended is the face of
      the `j`-th line after the face count. */
  lemma {:induction false} LoadModelFaces(m: ModelData, lines: seq<string>, ft: FloatText, lx: Lexer)
    requires LoadModelSpec(m, lines, ft, lx).error.None?
    ensures CountAt(lines, 3, lx).Ok?
    ensures var start := 5 + CountAt(lines, 3, lx).value as int;
      var fs := LoadModelSpec(m, lines, ft, lx).model.faces;
      forall p :: |m.faces| <= p < |fs| ==> FaceAt(lines, start + (p - |m.faces|), lx) == Ok(fs[p])
  {
    LoadModelSteps(m, lines, ft, lx);
    var named := m.(name := Some(lines[1][6..]));
    var vertCount := CountAt(lines, 3, lx).value as int;
    var vs := VertexLines(lines, 4, NonNegative(vertCount), ft, lx);
    VertexLoopAppends(named, vs);
    var lv := VertexLoop(Loaded(named, None), vs);
    assert lv.model.faces == m.faces;
    var faceCount := CountAt(lines, 4 + vertCount, lx).value as int;
    FaceRunFaces(lv.model, lines, 5 + vertCount, NonNegative(faceCount), ft, lx);
  }

  /** After a successful `SCOModel.LoadModel`, texture coordinates 3j, 3j + 1 and 3j + 2
      past the old end are the three corners of the `j`-th line after the face count. */
  lemma {:induction false} LoadModelCorners(m: ModelData, lines: seq<string>, ft: FloatText, lx: Lexer)
    requires LoadModelSpec(m, lines, ft, lx).error.None?
    ensures CountAt(lines, 3, lx).Ok?
    ensures var start := 5 + CountAt(lines, 3, lx).value as int;
      var uvs := LoadModelSpec(m, lines, ft, lx).model.textureCoordinates;
      var ub := |m.textureCoordinates|;
      forall j, c :: 0 <= j && 0 <= c < 3 && ub + 3 * j + c < |uvs| ==>
        CornerAt(lines, start + j, c, ft, lx) == Ok(CornerOf(uvs, ub, j, c))
  {
    LoadModelSteps(m, lines, ft, lx);
    var named := m.(name := Some(lines[1][6..]));
    var vertCount := CountAt(lines, 3, lx).value as int;
    var vs := VertexLines(lines, 4, NonNegative(vertCount), ft, lx);
    VertexLoopAppends(named, vs);
    var lv := VertexLoop(Loaded(named, None), vs);
    assert lv.model.textureCoordinates == m.textureCoordinates;
    var faceCount := CountAt(lines, 4 + vertCount, lx).value as int;
    FaceRunCorners(lv.model, lines, 5 + vertCount, NonNegative(faceCount), ft, lx);
  }

  // ---------------------------------------------------------------------------
  // The lines `SCOModel.SaveModel` writes

  /** `$"{vertex.X} {vertex.Y} {vertex.Z}"`. */
  function VertexLine(v: Vector3, ft: FloatText): string {
    Join([ft.format(v.x), ft.format(v.y), ft.format(v.z)], ' ')
  }

  /** The face's three vertex indices also index the texture coordinates on save. */
  predicate TexturedFace(f: Face, uvCount: nat) {
    0 <= f.vertex1 < uvCount && 0 <= f.vertex2 < uvCount && 0 <= f.vertex3 < uvCount
  }

  /** The saved face line: "3", the vertex indices, the material, then U and -V of the
      texture coordinates at the three vertex indices. The first -V and the second U
      are written with nothing between them, so they form one token. */
  function SavedFaceLine(f: Face, uvs: seq<Vector2>, ft: FloatText): string
    requires TexturedFace(f, |uvs|)
  {
    Join(SavedFaceTokens(f, uvs, ft), ' ')
  }

  /** The pieces of a saved face line, joined with blanks. */
  function SavedFaceTokens(f: Face, uvs: seq<Vector2>, ft: FloatText): seq<string>
    requires TexturedFace(f, |uvs|)
  {
    var a, b, c := uvs[f.vertex1], uvs[f.vertex2], uvs[f.vertex3];
    ["3", IntToString(f.vertex1), IntToString(f.vertex2), IntToString(f.vertex3), f.material,
     ft.format(a.x), ft.format(-a.y) + ft.format(b.x), ft.format(-b.y),
     ft.format(c.x), ft.format(-c.y)]
  }

  /** How many faces, from the first, can be written before one indexes past the
      texture coordinates. */
  function LeadingTextured(faces: seq<Face>, uvCount: nat): (k: nat)
    ensures k <= |faces|
    ensures forall j :: 0 <= j < k ==> TexturedFace(faces[j], uvCount)
    ensures k < |faces| ==> !TexturedFace(faces[k], uvCount)
  {
    if |faces| == 0 || !TexturedFace(faces[0], uvCount) then 0
    else 1 + LeadingTextured(faces[1..], uvCount)
  }

  /** `TextureCoordinates[Faces[face].VertexN]` was past the end of the list. */
  datatype SaveError = TexCoordMissing(face: nat)

  function SaveModelHeader(m: ModelData, ft: FloatText): seq<string> {
    ["[ObjectBegin]", "Name= " + NameText(m.name), "CentralPoint= 0 0 0",
     "Verts= " + IntToString(|m.vertices|)]
    + seq(|m.vertices|, i requires 0 <= i < |m.vertices| => VertexLine(m.vertices[i], ft))
    + ["Faces= " + IntToString(|m.faces|)]
  }

  /** `SCOModel.SaveModel`: the header, the vertex block, the face block and the
      footer; a face whose vertex index is not a texture coordinate index stops the
      save after the lines of the faces before it. */
  function SaveModelSpec(m: ModelData, ft: FloatText): Written<SaveError> {
    var k := LeadingTextured(m.faces, |m.textureCoordinates|);
    var faceLines := seq(k, j requires 0 <= j < k => SavedFaceLine(m.faces[j], m.textureCoordinates, ft));
    if k == |m.faces| then Written(SaveModelHeader(m, ft) + faceLines + ["[ObjectEnd]"], None)
    else Written(SaveModelHeader(m, ft) + faceLines, Some(TexCoordMissing(k)))
  }

  // ---------------------------------------------------------------------------
  // What `SCOModel.SaveModel` writes, and what the loader makes of it

  /** The save stops exactly at the first face that indexes past the texture
      coordinates, and succeeds when there is none. */
  lemma {:induction false} SaveModelStops(m: ModelData, ft: FloatText)
    ensures var w := SaveModelSpec(m, ft);
      && (w.error == None <==> forall j :: 0 <= j < |m.faces| ==> TexturedFace(m.faces[j], |m.textureCoordinates|))
      && (w.error.Some? ==>
            var k := w.error.value.face;
            && k < |m.faces| && !TexturedFace(m.faces[k], |m.textureCoordinates|)
            && forall j :: 0 <= j < k ==> TexturedFace(m.faces[j], |m.textureCoordinates|))
  {
  }

  /** Where each line of a save goes: the four header lines, the vertex count on line
      3, vertex `i` on line 4 + i, the face count after the vertices, face `j` on the
      `j`-th line after it, and the footer last; a failed save has the lines of the
      faces before the failing one and no footer. */
  lemma {:induction false} SaveModelLayout(m: ModelData, ft: FloatText)
    ensures var w := SaveModelSpec(m, ft);
      var nv, nf := |m.vertices|, |m.faces|;
      var k := if w.error.Some? then w.error.value.face else nf;
      && k <= nf
      && |w.lines| == 5 + nv + k + (if w.error == None then 1 else 0)
      && w.lines[0] == "[ObjectBegin]"
      && w.lines[1] == "Name= " + NameText(m.name)
      && w.lines[2] == "CentralPoint= 0 0 0"
      && w.lines[3] == "Verts= " + IntToString(nv)
      && (forall i :: 0 <= i < nv ==> w.lines[4 + i] == VertexLine(m.vertices[i], ft))
      && w.lines[4 + nv] == "Faces= " + IntToString(nf)
      && (forall j :: 0 <= j < k ==>
            TexturedFace(m.faces[j], |m.textureCoordinates|)
            && w.lines[5 + nv + j] == SavedFaceLine(m.faces[j], m.textureCoordinates, ft))
      && (w.error == None ==> w.lines[5 + nv + nf] == "[ObjectEnd]")
  {
    var w := SaveModelSpec(m, ft);
    var header := SaveModelHeader(m, ft);
    var nv := |m.vertices|;
    var k := LeadingTextured(m.faces, |m.textureCoordinates|);
    assert |header| == 5 + nv;
    assert w.lines[..5 + nv] == header;
    forall i | 0 <= i < nv
      ensures w.lines[4 + i] == VertexLine(m.vertices[i], ft)
    {
      assert w.lines[4 + i] == header[4 + i];
    }
  }

  /** The loader reads back the name from line 1 and the two counts the save wrote,
      for lists that `int` can count. */
  lemma {:induction false} SaveLoadCounts(m: ModelData, ft: FloatText, lx: Lexer)
    requires ParsesIntegers(lx)
    requires |m.vertices| <= Int32Max && |m.faces| <= Int32Max
    ensures var w := SaveModelSpec(m, ft);
      && LineSuffix(w.lines, 1, 6) == Ok(NameText(m.name))
      && CountAt(w.lines, 3, lx) == Ok(|m.vertices| as int32)
      && CountAt(w.lines, 4 + |m.vertices|, lx) == Ok(|m.faces| as int32)
  {
    SaveModelLayout(m, ft);
    var w := SaveModelSpec(m, ft);
    var nv := |m.vertices|;
    assert w.lines[3][7..] == IntToString(nv);
    assert w.lines[4 + nv][7..] == IntToString(|m.faces|);
    assert w.lines[1][6..] == NameText(m.name);
    assert lx.parseInt(IntToString(nv as int32)) == Some(nv as int32);
    assert lx.parseInt(IntToString(|m.faces| as int32)) == Some(|m.faces| as int32);
  }

  /** A line and the text after its label read the same whatever lines follow. */
  lemma {:induction false} LineSuffixPrefix(a: seq<string>, b: seq<string>, index: int, skip: nat)
    requires 0 <= index < |a|
    ensures LineSuffix(a + b, index, skip) == LineSuffix(a, index, skip)
  {
    assert (a + b)[index] == a[index];
  }

  /** A count reads the same whatever lines follow its line. */
  lemma {:induction false} CountAtPrefix(a: seq<string>, b: seq<string>, index: int, lx: Lexer)
    requires 0 <= index < |a|
    ensures CountAt(a + b, index, lx) == CountAt(a, index, lx)
  {
    LineSuffixPrefix(a, b, index, 7);
  }

  lemma {:induction false} VertexLineUnbroken(v: Vector3, ft: FloatText)
    requires WritesTokens(ft)
    ensures Free(VertexLine(v, ft), {'\n', '\r'})
  {
    var ts := [ft.format(v.x), ft.format(v.y), ft.format(v.z)];
    forall k | 0 <= k < 3
      ensures Free(ts[k], {'\n', '\r'})
    {
      assert Free(ts[k], {' ', '\t', '\n', '\r'});
    }
    JoinUnbroken(ts, ' ');
  }

  /** The header of a save holds no line break when the name holds none and numbers
      are written as single tokens. */
  lemma {:induction false} HeaderUnbroken(m: ModelData, ft: FloatText)
    requires WritesTokens(ft) && Free(NameText(m.name), {'\n', '\r'})
    ensures Unbroken(SaveModelHeader(m, ft))
  {
    var seps := {'\n', '\r'};
    var nv := |m.vertices|;
    var first := ["[ObjectBegin]", "Name= " + NameText(m.name), "CentralPoint= 0 0 0", "Verts= " + IntToString(nv)];
    var verts := seq(nv, i requires 0 <= i < nv => VertexLine(m.vertices[i], ft));
    var last := ["Faces= " + IntToString(|m.faces|)];
    HeaderLabelsUnbroken();
    FreeConcat("Name= ", NameText(m.name), seps);
    IntToStringToken(nv);
    FreeConcat("Verts= ", IntToString(nv), seps);
    IntToStringToken(|m.faces|);
    FreeConcat("Faces= ", IntToString(|m.faces|), seps);
    assert Unbroken(first) && Unbroken(last);
    forall i | 0 <= i < nv
      ensures Free(verts[i], seps)
    {
      VertexLineUnbroken(m.vertices[i], ft);
    }
    UnbrokenConcat(first, verts);
    UnbrokenConcat(first + verts, last);
    assert SaveModelHeader(m, ft) == first + verts + last;
  }

  lemma {:induction false} HeaderLabelsUnbroken()
    ensures Free("[ObjectBegin]", {'\n', '\r'}) && Free("CentralPoint= 0 0 0", {'\n', '\r'})
    ensures Free("Name= ", {'\n', '\r'}) && Free("Verts= ", {'\n', '\r'}) && Free("Faces= ", {'\n', '\r'})
  {
  }

  /** The loader reads back the name and the two counts from the text of a save, with
      either newline convention, when the name holds no line break, numbers are
      written as single tokens and the lists are ones `int` can count. */
  lemma {:induction false} SaveLoadCountsFile(m: ModelData, newLine: string, ft: FloatText, lx: Lexer)
    requires ParsesIntegers(lx) && WritesTokens(ft)
    requires newLine == "\n" || newLine == "\r\n"
    requires |m.vertices| <= Int32Max && |m.faces| <= Int32Max
    requires Free(NameText(m.name), {'\n', '\r'})
    ensures var lines := ReadAllLines(WriteAllLines(SaveModelSpec(m, ft).lines, newLine));
      && LineSuffix(lines, 1, 6) == Ok(NameText(m.name))
      && CountAt(lines, 3, lx) == Ok(|m.vertices| as int32)
      && CountAt(lines, 4 + |m.vertices|, lx) == Ok(|m.faces| as int32)
  {
    var w := SaveModelSpec(m, ft);
    var h := SaveModelHeader(m, ft);
    var nv := |m.vertices|;
    var tail := w.lines[|h|..];
    assert |h| == 5 + nv;
    assert w.lines == h + tail;
    SaveLoadCounts(m, ft, lx);
    HeaderUnbroken(m, ft);
    ReadWritePrefix(h, tail, newLine);
    var rest := ReadAllLines(WriteAllLines(tail, newLine));
    LineSuffixPrefix(h, tail, 1, 6);
    LineSuffixPrefix(h, rest, 1, 6);
    CountAtPrefix(h, tail, 3, lx);
    CountAtPrefix(h, rest, 3, lx);
    CountAtPrefix(h, tail, 4 + nv, lx);
    CountAtPrefix(h, rest, 4 + nv, lx);
  }

  /** A written vertex line reads back as the vertex, when numbers are written as single
      tokens that `float.Parse` reads back and the coordinates are values a `float`
      holds. */
  lemma {:induction false} VertexLineReads(lines: seq<string>, index: int, v: Vector3, ft: FloatText, lx: Lexer)
    requires WritesTokens(ft) && ReadsBack(ft) && SplitsFields(lx) && ParsedVertex(ft, v)
    requires 0 <= index < |lines| && lines[index] == VertexLine(v, ft)
    ensures VertexAt(lines, index, ft, lx) == Ok(v)
  {
    var ts := [ft.format(v.x), ft.format(v.y), ft.format(v.z)];
    forall i | 0 <= i < |ts|
      ensures Free(ts[i], {' '})
    {
      assert Free(ts[i], {' ', '\t', '\n', '\r'});
    }
    assert lx.fields(lines[index]) == ts;
    var sx :| ft.parse(sx) == Some(v.x);
    var sy :| ft.parse(sy) == Some(v.y);
    var sz :| ft.parse(sz) == Some(v.z);
    assert ft.parse(ft.format(v.x)) == Some(v.x);
    assert ft.parse(ft.format(v.y)) == Some(v.y);
    assert ft.parse(ft.format(v.z)) == Some(v.z);
  }

  /** Vertex `i` of a save is written on line 4 + i. */
  lemma {:induction false} SavedVertexAt(m: ModelData, ft: FloatText, i: nat)
    requires i < |m.vertices|
    ensures 4 + i < |SaveModelSpec(m, ft).lines| && SaveModelSpec(m, ft).lines[4 + i] == VertexLine(m.vertices[i], ft)
  {
    SaveModelLayout(m, ft);
  }

  /** Vertex `i` of a save reads back from line 4 + i as that vertex, when its
      coordinates are values a `float` holds. */
  lemma {:induction false} SaveLoadVertices(m: ModelData, ft: FloatText, lx: Lexer)
    requires WritesTokens(ft) && ReadsBack(ft) && SplitsFields(lx)
    requires forall i :: 0 <= i < |m.vertices| ==> ParsedVertex(ft, m.vertices[i])
    ensures var w := SaveModelSpec(m, ft);
      forall i :: 0 <= i < |m.vertices| ==> VertexAt(w.lines, 4 + i, ft, lx) == Ok(m.vertices[i])
  {
    var w := SaveModelSpec(m, ft);
    forall i | 0 <= i < |m.vertices|
      ensures VertexAt(w.lines, 4 + i, ft, lx) == Ok(m.vertices[i])
    {
      SavedVertexAt(m, ft, i);
      VertexLineReads(w.lines, 4 + i, m.vertices[i], ft, lx);
    }
  }

  lemma {:induction false} FreeNumber(ft: FloatText, x: real)
    requires WritesTokens(ft)
    ensures ft.format(x) != "" && Free(ft.format(x), {' ', '\t'})
  {
    assert Free(ft.format(x), {' ', '\t', '\n', '\r'});
  }

  lemma {:induction false} FreeInt(n: int)
    ensures IntToString(n) != "" && Free(IntToString(n), {' ', '\t'})
  {
    IntToStringToken(n);
  }

  /** The missing blank: a saved face line whose material is non-empty and holds no
      blank or tab has ten tokens, not the eleven the loader reads, because the V of
      the first corner and the U of the second are written together as one token. A
      material with a blank adds tokens, so such a line can load, with the wrong
      material and the wrong texture coordinates. */
  lemma {:induction false} SavedFaceLineTokens(f: Face, uvs: seq<Vector2>, ft: FloatText, lx: Lexer)
    requires TexturedFace(f, |uvs|)
    requires WritesTokens(ft) && SplitsWords(lx)
    requires f.material != "" && Free(f.material, {' ', '\t'})
    ensures |lx.words(SavedFaceLine(f, uvs, ft))| == 10
  {
    var a, b, c := uvs[f.vertex1], uvs[f.vertex2], uvs[f.vertex3];
    FreeInt(f.vertex1);
    FreeInt(f.vertex2);
    FreeInt(f.vertex3);
    FreeNumber(ft, a.x);
    FreeNumber(ft, -a.y);
    FreeNumber(ft, b.x);
    FreeNumber(ft, -b.y);
    FreeNumber(ft, c.x);
    FreeNumber(ft, -c.y);
    FreeConcat(ft.format(-a.y), ft.format(b.x), {' ', '\t'});
    var ts := SavedFaceTokens(f, uvs, ft);
    assert Free("3", {' ', '\t'});
    assert forall i :: 0 <= i < |ts| ==> ts[i] != "" && Free(ts[i], {' ', '\t'});
  }

  /** So the loader cannot read the third corner of a saved face line whose material
      is non-empty and holds no blank or tab. */
  lemma {:induction false} SavedFaceLineFails(m: ModelData, j: nat, ft: FloatText, lx: Lexer)
    requires j < |m.faces| && TexturedFace(m.faces[j], |m.textureCoordinates|)
    requires WritesTokens(ft) && SplitsWords(lx)
    requires m.faces[j].material != "" && Free(m.faces[j].material, {' ', '\t'})
    requires SaveModelSpec(m, ft).error.Some? ==> j < SaveModelSpec(m, ft).error.value.face
    ensures CornerAt(SaveModelSpec(m, ft).lines, 5 + |m.vertices| + j, 2, ft, lx).Err?
  {
    SaveModelLayout(m, ft);
    SavedFaceLineTokens(m.faces[j], m.textureCoordinates, ft, lx);
  }

  /** Saving a model with a face and loading the file back fails, into any model, when
      the first face's material is non-empty and holds no blank or tab: the first face
      line stops the load. */
  lemma {:induction false} SaveThenLoadFails(m: ModelData, m0: ModelData, ft: FloatText, lx: Lexer)
    requires |m.faces| >= 1 && SaveModelSpec(m, ft).error == None
    requires |m.vertices| <= Int32Max && |m.faces| <= Int32Max
    requires WritesTokens(ft) && ParsesIntegers(lx) && SplitsWords(lx)
    requires m.faces[0].material != "" && Free(m.faces[0].material, {' ', '\t'})
    ensures LoadModelSpec(m0, SaveModelSpec(m, ft).lines, ft, lx).error.Some?
  {
    var lines := SaveModelSpec(m, ft).lines;
    var nv := |m.vertices|;
    assert !FaceLineLoads(lines, 5 + nv, ft, lx) by {
      SaveModelStops(m, ft);
      SavedFaceLineFails(m, 0, ft, lx);
    }
    if LoadModelSpec(m0, lines, ft, lx).error.None? {
      SaveLoadCounts(m, ft, lx);
      LoadModelSteps(m0, lines, ft, lx);
      var lv := VertexLoop(Loaded(m0.(name := Some(lines[1][6..])), None), VertexLines(lines, 4, nv, ft, lx));
      FaceRunLoads(lv.model, lines, 5 + nv, |m.faces|, ft, lx);
      assert false;
    }
  }
}
