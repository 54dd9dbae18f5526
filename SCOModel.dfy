/** `BigRigsLib.SCOModel`: a model (its name, vertices, texture coordinates and
    faces) and its material list, with the operations that load, save, export and
    import them. The lists are changed in place; each operation is proved against the
    function that states its effect (`LoadModelSpec`, `LoadMaterialsSpec`,
    `SaveModelSpec`, `SaveMaterialsSpec`, `ExportObjSpec`, `ImportSpec`). File
    contents come in as their lines and go out as the lines written. */
module Sco {
  import opened Text
  import opened Geometry
  import opened ScoFormat
  import opened MatFormat
  import opened ObjFormat
  import opened AssimpImport

  /** `SCOModel.Material`: a reference type, so the material list may hold the same
      object twice, and a change to it shows in both places. */
  class Material {
    var name: Option<string>
    var flags: Option<string>
    var opacity: int32
    var texture: Option<string>
    var alphaMask: Option<string>
    var colour: Vector3
    var normalMap: Option<string>
    var environmentMap: Option<string>
    var environmentMapPower: int32

    /** The contents of the object. */
    function Fields(): MaterialFields
      reads this
    {
      MaterialFields(name, flags, opacity, texture, alphaMask, colour, normalMap, environmentMap, environmentMapPower)
    }

    /** `new Material()`. */
    constructor ()
      ensures Fields() == DefaultFields
    {
      name, flags, opacity, texture, alphaMask := None, None, 0, None, None;
      colour, normalMap, environmentMap, environmentMapPower := Vector3(0.0, 0.0, 0.0), None, None, 0;
    }

    /** `new Material { ... }` with the given contents. */
    constructor Of(m: MaterialFields)
      ensures Fields() == m
    {
      name, flags, opacity, texture, alphaMask := m.name, m.flags, m.opacity, m.texture, m.alphaMask;
      colour, normalMap, environmentMap, environmentMapPower := m.colour, m.normalMap, m.environmentMap, m.environmentMapPower;
    }
  }

  /** The contents of a list of materials, in list order. */
  function FieldsOf(ms: seq<Material>): (r: seq<MaterialFields>)
    reads ms
    ensures |r| == |ms|
    ensures forall k :: 0 <= k < |ms| ==> r[k] == ms[k].Fields()
  {
    if |ms| == 0 then [] else FieldsOf(ms[..|ms| - 1]) + [ms[|ms| - 1].Fields()]
  }

  /** The objects `made` lists at the positions `at`, in that order. */
  function Listed(made: seq<Material>, at: seq<nat>): (r: seq<Material>)
    requires forall k :: 0 <= k < |at| ==> at[k] < |made|
    ensures |r| == |at|
    ensures forall k :: 0 <= k < |at| ==> r[k] == made[at[k]]
  {
    if |at| == 0 then [] else Listed(made, at[..|at| - 1]) + [made[at[|at| - 1]]]
  }

  /** Objects created later do not change what earlier positions list. */
  lemma {:induction false} ListedGrow(made: seq<Material>, extra: seq<Material>, at: seq<nat>)
    requires forall k :: 0 <= k < |at| ==> at[k] < |made|
    ensures Listed(made + extra, at) == Listed(made, at)
  {
    if |at| > 0 {
      ListedGrow(made, extra, at[..|at| - 1]);
    }
  }

  /** The objects a material load created mirror its state: one object per entry
      of `objs`, holding that entry's contents, and `material` is the current one,
      which no other entry refers to. */
  ghost predicate Mirrors(made: seq<Material>, material: Material, st: LoadState)
    reads made
  {
    && st.Valid() && |made| == |st.objs| && made[st.current] == material
    && (forall k :: 0 <= k < |made| ==> made[k].Fields() == st.objs[k])
    && (forall k :: 0 <= k < |made| && k != st.current ==> made[k] != material)
  }

  /** `material = new Material()` on `[MaterialBegin]`: a new object, all defaults,
      becomes the current one. */
  method NewMaterial(ghost made: seq<Material>, ghost current: Material, ghost st: LoadState, ghost index: int,
                     ghost ft: FloatText, ghost lx: Lexer)
      returns (material: Material)
    requires Mirrors(made, current, st)
    ensures fresh(material)
    ensures Mirrors(made + [material], material, Step(st, index, Begin, ft, lx))
  {
    material := new Material();
    assert forall k :: 0 <= k < |made| ==> made[k] != material;
  }

  /** A line that sets a field of the current material: every kind but `Begin`,
      `End`, an unrecognised line and a blank one. */
  predicate SetsField(c: MatLine) {
    !(c.Begin? || c.End? || c.Unhandled? || c.Blank?)
  }

  /** The body of `LoadMaterials` on a line that sets a field: the current material
      gets the new value, or, when `int.Parse` or `float.Parse` throws, the load stops
      with the material unchanged. */
  method SetField(material: Material, ghost made: seq<Material>, ghost st: LoadState, c: MatLine, index: int,
                  ft: FloatText, lx: Lexer)
      returns (error: Option<MatError>)
    requires Mirrors(made, material, st) && st.error == None && SetsField(c)
    modifies material
    ensures error == Step(st, index, c, ft, lx).error
    ensures Mirrors(made, material, Step(st, index, c, ft, lx))
  {
    error := SetFieldOf(material, st, c, index, ft, lx);
    var next := Step(st, index, c, ft, lx);
    forall k | 0 <= k < |made|
      ensures made[k].Fields() == next.objs[k]
    {
      if k != st.current {
        assert made[k] != material;
      }
    }
  }

  /** What `SetField` does to the object itself. */
  method SetFieldOf(material: Material, ghost st: LoadState, c: MatLine, index: int, ft: FloatText, lx: Lexer)
      returns (error: Option<MatError>)
    requires st.Valid() && st.error == None && SetsField(c)
    requires material.Fields() == st.objs[st.current]
    modifies material
    ensures var next := Step(st, index, c, ft, lx);
      && error == next.error
      && next == st.(objs := st.objs[st.current := material.Fields()], error := error)
  {
    error := None;
    match c {
      case SetName(v) =>
        material.name := Some(v);
      case SetFlags(v) =>
        material.flags := Some(v);
      case SetOpacity(v) =>
        if lx.parseInt(v).None? {
          return Some(MatError.NotANumber(index));
        }
        material.opacity := lx.parseInt(v).value;
      case SetTexture(v) =>
        material.texture := Some(v);
      case SetAlphaMask(v) =>
        material.alphaMask := Some(v);
      case SetNormalMap(v) =>
        material.normalMap := Some(v);
      case SetColour(fs) =>
        match ColourOf(fs, index, ft) {
          case Err(e) =>
            return Some(e);
          case Ok(colour) =>
            material.colour := colour;
        }
      case SetEnvMap(v) =>
        material.environmentMap := Some(v);
      case SetEnvPower(v) =>
        if lx.parseInt(v).None? {
          return Some(MatError.NotANumber(index));
        }
        material.environmentMapPower := lx.parseInt(v).value;
    }
  }

  /** A prefix of a prefix is a prefix. */
  lemma PrefixOfPrefix<T>(a: seq<T>, b: seq<T>, c: seq<T>)
    requires |a| <= |b| <= |c| && b[..|a|] == a && c[..|b|] == b
    ensures c[..|a|] == a
  {
    assert c[..|a|] == c[..|b|][..|a|];
  }

  class SCOModel {
    var name: Option<string>
    var vertices: seq<Vector3>
    var textureCoordinates: seq<Vector2>
    var faces: seq<Face>
    var materials: seq<Material>

    /** The model part of the object. */
    function Data(): ModelData
      reads this
    {
      ModelData(name, vertices, textureCoordinates, faces)
    }

    /** The contents of the material list. */
    function MaterialData(): seq<MaterialFields>
      reads this, materials
    {
      FieldsOf(materials)
    }

    /** `new SCOModel()`: no name and empty lists. */
    constructor ()
      ensures Data() == EmptyModel && materials == []
    {
      name, vertices, textureCoordinates, faces, materials := None, [], [], [], [];
    }

    // -------------------------------------------------------------------------
    // LoadModel

    /** `LoadModel` on the lines of a file: the name from line 1, the vertices, then
        the faces and their texture coordinates, appended to the lists in place. An
        error stops the load and leaves what was appended before it. */
    method LoadModel(lines: seq<string>, ft: FloatText, lx: Lexer) returns (error: Option<LoadError>)
      modifies this
      ensures Loaded(Data(), error) == LoadModelSpec(old(Data()), lines, ft, lx)
      ensures materials == old(materials)
    {
      match LineSuffix(lines, 1, 6) {
        case Err(e) => return Some(e);
        case Ok(s) => name := Some(s);
      }
      var vertCount: int32;
      match CountAt(lines, 3, lx) {
        case Err(e) => return Some(e);
        case Ok(n) => vertCount := n;
      }
      error := LoadVertices(lines, vertCount, ft, lx);
      if error.Some? {
        return;
      }
      var faceCount: int32;
      match CountAt(lines, 4 + vertCount as int, lx) {
        case Err(e) => return Some(e);
        case Ok(n) => faceCount := n;
      }
      error := LoadFaces(lines, 5 + vertCount as int, faceCount, ft, lx);
    }

    /** The vertex loop: `count` vertex lines from line 4 on, each vertex appended as
        soon as it is read. */
    method LoadVertices(lines: seq<string>, count: int32, ft: FloatText, lx: Lexer) returns (error: Option<LoadError>)
      modifies this
      ensures Loaded(Data(), error) == VertexLoop(Loaded(old(Data()), None), VertexLines(lines, 4, NonNegative(count), ft, lx))
      ensures materials == old(materials)
    {
      ghost var vs := VertexLines(lines, 4, NonNegative(count), ft, lx);
      var i := 0;
      while i < count
        invariant 0 <= i <= NonNegative(count)
        invariant VertexLoop(Loaded(Data(), None), vs[i..]) == VertexLoop(Loaded(old(Data()), None), vs)
        invariant materials == old(materials)
      {
        assert vs[i..] == [vs[i]] + vs[i + 1..];
        match VertexAt(lines, 4 + i, ft, lx) {
          case Err(e) =>
            return Some(e);
          case Ok(v) =>
            vertices := vertices + [v];
        }
        i := i + 1;
      }
      assert vs[i..] == [];
      return None;
    }

    /** The face loop: `count` face lines from line `start` on. */
    method LoadFaces(lines: seq<string>, start: int, count: int32, ft: FloatText, lx: Lexer) returns (error: Option<LoadError>)
      modifies this
      ensures Loaded(Data(), error) == FaceLoop(Loaded(old(Data()), None), FaceLines(lines, start, NonNegative(count), ft, lx))
      ensures materials == old(materials)
    {
      ghost var rs := FaceLines(lines, start, NonNegative(count), ft, lx);
      error := None;
      var j := 0;
      while j < count
        invariant 0 <= j <= NonNegative(count)
        invariant FaceLoop(Loaded(Data(), None), rs[j..]) == FaceLoop(Loaded(old(Data()), None), rs)
        invariant error == None && materials == old(materials)
      {
        assert rs[j..] == [rs[j]] + rs[j + 1..];
        assert rs[j] == ReadFaceLine(lines, start + j, ft, lx);
        error := LoadFaceLine(lines, start + j, ft, lx);
        if error.Some? {
          return;
        }
        j := j + 1;
      }
      assert rs[j..] == [];
    }

    /** One pass of the face loop's body: the face, then its three texture
        coordinates, each appended as soon as it is read. */
    method LoadFaceLine(lines: seq<string>, index: int, ft: FloatText, lx: Lexer) returns (error: Option<LoadError>)
      modifies this
      ensures Loaded(Data(), error) == Absorb(Loaded(old(Data()), None), ReadFaceLine(lines, index, ft, lx).Appends())
      ensures materials == old(materials)
    {
      match FaceAt(lines, index, lx) {
        case Err(e) => return Some(e);
        case Ok(f) => faces := faces + [f];
      }
      match CornerAt(lines, index, 0, ft, lx) {
        case Err(e) => return Some(e);
        case Ok(a) => textureCoordinates := textureCoordinates + [a];
      }
      match CornerAt(lines, index, 1, ft, lx) {
        case Err(e) => return Some(e);
        case Ok(b) => textureCoordinates := textureCoordinates + [b];
      }
      match CornerAt(lines, index, 2, ft, lx) {
        case Err(e) => return Some(e);
        case Ok(c) => textureCoordinates := textureCoordinates + [c];
      }
      return None;
    }
  
    // -------------------------------------------------------------------------
    // LoadMaterials

    /** `LoadMaterials` on the lines of a file. `made` lists every `Material` object
        the load created, in creation order, the first being the one made before the
        loop: they are new, each holds the contents the state machine gives it, and
        the material list gains the objects `[MaterialEnd]` lines appended, so one
        object appended twice sits in the list twice. The old entries keep their
        place and, not being written, their contents. The warnings are the first
        fields of the lines the load did not recognise. */
    method LoadMaterials(lines: seq<string>, ft: FloatText, lx: Lexer)
        returns (error: Option<MatError>, warnings: seq<string>, ghost made: seq<Material>)
      modifies this
      ensures var st := LoadMaterialsSpec(lines, ft, lx);
        && error == st.error && warnings == st.warnings
        && |made| == |st.objs|
        && (forall k :: 0 <= k < |made| ==> fresh(made[k]) && made[k].Fields() == st.objs[k])
        && materials == old(materials) + Listed(made, st.appended)
      ensures Data() == old(Data())
    {
      ghost var ks := Kinds(lines, lx);
      ghost var st := Start;
      var material := new Material();
      made := [material];
      error, warnings := None, [];
      var i := 0;
      while i < |lines|
        invariant 0 <= i <= |lines|
        invariant Holds(made, material, warnings, st, old(materials)) && st.error == None && error == None
        invariant Run(st, ks[i..], i, ft, lx) == LoadMaterialsSpec(lines, ft, lx)
        invariant forall k :: 0 <= k < |made| ==> fresh(made[k])
        invariant Data() == old(Data())
      {
        var c := Classify(lines[i], lx);
        assert ks[i..] == [c] + ks[i + 1..];
        ghost var next := Step(st, i, c, ft, lx);
        ghost var before := made;
        material, made, error, warnings := LoadLine(c, i, material, made, st, old(materials), warnings, ft, lx);
        assert forall k :: 0 <= k < |made| ==> fresh(made[k]) by {
          assert forall k :: 0 <= k < |before| ==> made[k] == before[k];
        }
        st := next;
        if error.Some? {
          return;
        }
        i := i + 1;
      }
    }

    /** The state of `LoadMaterials` between two lines, as the objects, the
        material list and the warnings hold it: `made` mirrors `st`, and the list is
        `base` followed by the objects `st` says were appended. */
    ghost predicate Holds(made: seq<Material>, material: Material, warnings: seq<string>, st: LoadState, base: seq<Material>)
      reads this, made
    {
      && Mirrors(made, material, st) && warnings == st.warnings
      && materials == base + Listed(made, st.appended)
    }

    /** One pass of the loop body of `LoadMaterials` over a line read as `c`: the
        objects, the material list and the warnings move on as `Step` moves the
        state, and objects made earlier keep their place in `made`. */
    method LoadLine(c: MatLine, index: int, material: Material, ghost made: seq<Material>, ghost st: LoadState,
                    ghost base: seq<Material>, warnings: seq<string>, ft: FloatText, lx: Lexer)
        returns (material': Material, ghost made': seq<Material>, error: Option<MatError>, warnings': seq<string>)
      requires Holds(made, material, warnings, st, base) && st.error == None
      modifies this, material
      ensures Holds(made', material', warnings', Step(st, index, c, ft, lx), base)
      ensures error == Step(st, index, c, ft, lx).error
      ensures |made| <= |made'| && made'[..|made|] == made
      ensures forall k :: |made| <= k < |made'| ==> fresh(made'[k])
      ensures Data() == old(Data())
    {
      if c == Begin {
        material', made' := OnBegin(material, made, st, base, warnings, index, ft, lx);
        error, warnings' := None, warnings;
      } else if c == End {
        OnEnd(material, made, st, base, warnings, index, ft, lx);
        material', made', error, warnings' := material, made, None, warnings;
      } else {
        error, warnings' := OnOther(c, material, made, st, base, warnings, index, ft, lx);
        material', made' := material, made;
      }
    }

    /** `[MaterialBegin]`: a new current object. */
    method OnBegin(material: Material, ghost made: seq<Material>, ghost st: LoadState, ghost base: seq<Material>,
                     warnings: seq<string>, index: int, ft: FloatText, lx: Lexer)
        returns (material': Material, ghost made': seq<Material>)
      requires Holds(made, material, warnings, st, base) && st.error == None
      ensures Holds(made', material', warnings, Step(st, index, Begin, ft, lx), base)
      ensures Step(st, index, Begin, ft, lx).error == None
      ensures made' == made + [material'] && fresh(material')
    {
      material' := NewMaterial(made, material, st, index, ft, lx);
      ListedGrow(made, [material'], st.appended);
      made' := made + [material'];
    }

    /** `[MaterialEnd]`: the current object appended to the list. */
    method OnEnd(material: Material, ghost made: seq<Material>, ghost st: LoadState, ghost base: seq<Material>,
                   warnings: seq<string>, index: int, ft: FloatText, lx: Lexer)
      requires Holds(made, material, warnings, st, base) && st.error == None
      modifies this
      ensures Holds(made, material, warnings, Step(st, index, End, ft, lx), base)
      ensures Step(st, index, End, ft, lx).error == None
      ensures Data() == old(Data())
    {
      materials := materials + [material];
      assert Listed(made, st.appended + [st.current]) == Listed(made, st.appended) + [material];
    }

    /** Any other line: a field set, a warning, or nothing. */
    method OnOther(c: MatLine, material: Material, ghost made: seq<Material>, ghost st: LoadState,
                     ghost base: seq<Material>, warnings: seq<string>, index: int, ft: FloatText, lx: Lexer)
        returns (error: Option<MatError>, warnings': seq<string>)
      requires Holds(made, material, warnings, st, base) && st.error == None
      requires c != Begin && c != End
      modifies material
      ensures Holds(made, material, warnings', Step(st, index, c, ft, lx), base)
      ensures error == Step(st, index, c, ft, lx).error
    {
      error, warnings' := None, warnings;
      if c.Unhandled? {
        warnings' := warnings + [c.key];
      } else if SetsField(c) {
        error := SetField(material, made, st, c, index, ft, lx);
      }
    }

    // -------------------------------------------------------------------------
    // SaveModel

    /** `SaveModel`: the lines written, and the face whose texture coordinate lookup
        threw, which stops the save after the lines of the faces before it. */
    method SaveModel(ft: FloatText) returns (lines: seq<string>, error: Option<SaveError>)
      ensures Written(lines, error) == SaveModelSpec(Data(), ft)
    {
      ghost var header := SaveModelHeader(Data(), ft);
      lines := ["[ObjectBegin]", "Name= " + NameText(name), "CentralPoint= 0 0 0", "Verts= " + IntToString(|vertices|)];
      var i := 0;
      while i < |vertices|
        invariant 0 <= i <= |vertices|
        invariant |lines| == 4 + i && lines == header[..4 + i]
      {
        lines := lines + [VertexLine(vertices[i], ft)];
        i := i + 1;
      }
      lines := lines + ["Faces= " + IntToString(|faces|)];
      assert lines == header;
      ghost var fs, uvs := faces, textureCoordinates;
      ghost var k := LeadingTextured(fs, |uvs|);
      ghost var faceLines := seq(k, j requires 0 <= j < k => SavedFaceLine(fs[j], uvs, ft));
      var j := 0;
      while j < |faces|
        invariant 0 <= j <= k
        invariant lines == header + faceLines[..j]
      {
        if !TexturedFace(faces[j], |textureCoordinates|) {
          assert faceLines[..j] == faceLines;
          return lines, Some(TexCoordMissing(j));
        }
        lines := lines + [SavedFaceLine(faces[j], textureCoordinates, ft)];
        j := j + 1;
      }
      assert faceLines[..j] == faceLines;
      lines := lines + ["[ObjectEnd]"];
      error := None;
    }

    // -------------------------------------------------------------------------
    // SaveMaterials

    /** `SaveMaterials`: the lines written, and the material whose colour
        `Convert.ToInt32` could not convert, which stops the save after that
        material's field lines. */
    method SaveMaterials() returns (lines: seq<string>, error: Option<MatSaveError>)
      ensures Written(lines, error) == SaveMaterialsSpec(MaterialData())
    {
      ghost var ms := MaterialData();
      lines := [];
      var i := 0;
      while i < |materials|
        invariant 0 <= i <= |materials|
        invariant Written(lines, None) == SaveMaterialsSpec(ms[..i])
      {
        ghost var before := lines;
        lines, error := SaveBlock(lines, materials[i], i);
        SaveMaterialsStep(ms, i, before, lines, error);
        if error.Some? {
          SaveMaterialsStopped(ms, i + 1);
          return;
        }
        i := i + 1;
      }
      assert ms[..i] == ms;
      error := None;
    }

    /** One pass of the loop of `SaveMaterials` over the material at `index`: its
        opening line, its field lines, then the colour line, which stops the save
        when a component does not convert, and the closing lines. */
    static method SaveBlock(lines: seq<string>, m: Material, index: nat) returns (lines': seq<string>, error: Option<MatSaveError>)
      ensures match RoundedColour(m.Fields().colour)
        case None => lines' == lines + [BeginLine] + FieldLines(m.Fields()) && error == Some(ColourOverflow(index))
        case Some(r) => lines' == lines + Block(m.Fields(), r) && error == None
    {
      var fields := SaveFields(m);
      lines' := lines + [BeginLine] + fields;
      var x := ToInt32(m.colour.x);
      if x.None? {
        return lines', Some(ColourOverflow(index));
      }
      var y := ToInt32(m.colour.y);
      if y.None? {
        return lines', Some(ColourOverflow(index));
      }
      var z := ToInt32(m.colour.z);
      if z.None? {
        return lines', Some(ColourOverflow(index));
      }
      var r := (x.value, y.value, z.value);
      assert lines' + [ColourLine(r), EndLine, ""] == lines + Block(m.Fields(), r);
      lines' := lines' + [ColourLine(r), EndLine, ""];
      error := None;
    }

    /** The field lines of one material: a line per field that is set, in the order
        the save writes them. */
    static method SaveFields(m: Material) returns (lines: seq<string>)
      ensures lines == FieldLines(m.Fields())
    {
      lines := WriteText([], Name, m.name);
      assert lines == TextLine(Name, m.name);
      lines := WriteText(lines, Flags, m.flags);
      lines := WriteNumber(lines, Opacity, m.opacity);
      lines := WriteText(lines, Texture, m.texture);
      lines := WriteText(lines, EnvMap, m.environmentMap);
      lines := WriteNumber(lines, EnvPower, m.environmentMapPower);
      lines := WriteText(lines, AlphaMask, m.alphaMask);
      lines := WriteText(lines, NormalMap, m.normalMap);
      FieldLinesInOrder(m.Fields());
    }

    /** `if (v != null) WriteLine($"{key}{v}")`. */
    static method WriteText(lines: seq<string>, f: Field, v: Option<string>) returns (r: seq<string>)
      ensures r == lines + TextLine(f, v)
    {
      r := lines;
      if v.Some? {
        r := r + [Key(f) + v.value];
      }
    }

    /** `if (n != 0) WriteLine($"{key}{n}")`. */
    static method WriteNumber(lines: seq<string>, f: Field, n: int32) returns (r: seq<string>)
      ensures r == lines + NumberLine(f, n)
    {
      r := lines;
      if n != 0 {
        r := r + [Key(f) + IntToString(n)];
      }
    }

    // -------------------------------------------------------------------------
    // ExportOBJ

    /** `ExportOBJ`: the lines of the OBJ file, face `i` written with a counter that
        starts at 1 and grows by 3 per face. */
    method ExportOBJ(ft: FloatText) returns (lines: seq<string>)
      ensures lines == ExportObjSpec(Data(), ft)
    {
      lines := WriteVertices(["# Vertex Data"], ft);
      lines := WriteTexCoords(lines + ["", "# Texture Coordinate Data"], ft);
      lines := WriteFaces(lines + ["", "# Face Data", "o " + NameText(name)]);
    }

    /** The vertex loop of `ExportOBJ`: a `v` line per vertex. */
    method WriteVertices(lines: seq<string>, ft: FloatText) returns (lines': seq<string>)
      ensures lines' == lines + VertexLinesUpTo(vertices, |vertices|, ft)
    {
      lines' := lines;
      var i := 0;
      while i < |vertices|
        invariant 0 <= i <= |vertices|
        invariant lines' == lines + VertexLinesUpTo(vertices, i, ft)
      {
        lines' := lines' + [ObjVertexLine(vertices[i], ft)];
        i := i + 1;
      }
    }

    /** The texture coordinate loop of `ExportOBJ`: a `vt` line per coordinate. */
    method WriteTexCoords(lines: seq<string>, ft: FloatText) returns (lines': seq<string>)
      ensures lines' == lines + TexLinesUpTo(textureCoordinates, |textureCoordinates|, ft)
    {
      lines' := lines;
      var t := 0;
      while t < |textureCoordinates|
        invariant 0 <= t <= |textureCoordinates|
        invariant lines' == lines + TexLinesUpTo(textureCoordinates, t, ft)
      {
        lines' := lines' + [ObjTexLine(textureCoordinates[t], ft)];
        t := t + 1;
      }
    }

    /** The face loop of `ExportOBJ`: an `f` line per face, the counter starting at 1
        and growing by 3 per face. */
    method WriteFaces(lines: seq<string>) returns (lines': seq<string>)
      ensures lines' == lines + FaceLinesUpTo(faces, |faces|)
    {
      lines' := lines;
      var index: int32 := 1;
      var j := 0;
      while j < |faces|
        invariant 0 <= j <= |faces| && index == FaceCounter(j)
        invariant lines' == lines + FaceLinesUpTo(faces, j)
      {
        FaceLinesStep(faces, j, index);
        lines' := lines' + [ObjFaceLine(faces[j], index)];
        FaceCounterStep(j, index);
        index := Wrap32(index + 3);
        j := j + 1;
      }
    }

    // -------------------------------------------------------------------------
    // ImportAssimp

    /** `ImportAssimp` on the scene the Assimp library read: the mesh loop, then the
        material loop, appending to the lists in place. An exception stops the import
        and leaves what was appended before it. The material list keeps its objects
        and gains only new ones. */
    method ImportAssimp(scene: Scene) returns (error: Option<ImportError>)
      modifies this
      ensures var r := ImportSpec(old(Data()), old(MaterialData()), scene);
        Data() == r.model && MaterialData() == r.materials && error == r.error
      ensures |old(materials)| <= |materials| && materials[..|old(materials)|] == old(materials)
      ensures forall m :: m in materials ==> m in old(materials) || fresh(m)
    {
      ghost var st := Imported(Data(), MaterialData(), None);
      error := ImportMeshes(scene);
      if error.Some? {
        AfterMaterialsKeeps(AfterMeshes(st, scene, |scene.meshes|), scene, |scene.materials|);
        return;
      }
      error := ImportMaterials(scene);
    }

    /** The mesh loop of `ImportAssimp`. */
    method ImportMeshes(scene: Scene) returns (error: Option<ImportError>)
      modifies this
      ensures var r := AfterMeshes(Imported(old(Data()), old(MaterialData()), None), scene, |scene.meshes|);
        Data() == r.model && MaterialData() == r.materials && error == r.error
      ensures materials == old(materials)
    {
      ghost var st := Imported(Data(), MaterialData(), None);
      var m := 0;
      while m < |scene.meshes|
        invariant 0 <= m <= |scene.meshes| && materials == old(materials)
        invariant AfterMeshes(st, scene, m) == Imported(Data(), st.materials, None)
      {
        error := ImportMeshAt(scene, m);
        if error.Some? {
          AfterMeshesStopped(st, scene, m + 1, |scene.meshes|);
          return;
        }
        m := m + 1;
      }
      error := None;
    }

    /** Pass `m` of the mesh loop: the mesh's vertices, the X and Y of its texture
        coordinates, then its faces, whose indices are moved by the vertex count before
        the pass. */
    method ImportMeshAt(scene: Scene, m: nat) returns (error: Option<ImportError>)
      requires m < |scene.meshes|
      modifies this
      ensures var r := ImportMesh(Imported(old(Data()), [], None), scene, m);
        Data() == r.model && error == r.error
      ensures materials == old(materials)
    {
      var mesh := scene.meshes[m];
      var previousVertexCount := |vertices|;
      var i := 0;
      while i < |mesh.vertices|
        invariant 0 <= i <= |mesh.vertices| && vertices == old(vertices) + mesh.vertices[..i]
        invariant name == old(name) && textureCoordinates == old(textureCoordinates)
        invariant faces == old(faces) && materials == old(materials)
      {
        vertices := vertices + [mesh.vertices[i]];
        i := i + 1;
      }
      assert mesh.vertices[..i] == mesh.vertices;
      i := 0;
      while i < |mesh.uvs|
        invariant 0 <= i <= |mesh.uvs| && textureCoordinates == old(textureCoordinates) + mesh.uvs[..i]
        invariant name == old(name) && vertices == old(vertices) + mesh.vertices
        invariant faces == old(faces) && materials == old(materials)
      {
        textureCoordinates := textureCoordinates + [mesh.uvs[i]];
        i := i + 1;
      }
      assert mesh.uvs[..i] == mesh.uvs;
      error := ImportFaces(mesh.faces, previousVertexCount, m, scene);
    }

    /** The face loop of pass `m`: a face per index list, its first three indices
        moved by `base`, tagged with the name of the material at the mesh's position. A
        list of fewer than three indices, or a missing material, throws. */
    method ImportFaces(fs: seq<seq<int32>>, base: int, m: nat, scene: Scene) returns (error: Option<ImportError>)
      modifies this
      ensures var r := MeshFaces(fs, base, m, scene);
        faces == old(faces) + r.0 && error == r.1
      ensures name == old(name) && vertices == old(vertices) && textureCoordinates == old(textureCoordinates)
      ensures materials == old(materials)
    {
      var f := 0;
      while f < |fs|
        invariant 0 <= f <= |fs|
        invariant faces == old(faces) + MeshFaces(fs[..f], base, m, scene).0
        invariant MeshFaces(fs[..f], base, m, scene).1 == None
        invariant name == old(name) && vertices == old(vertices) && textureCoordinates == old(textureCoordinates)
        invariant materials == old(materials)
      {
        MeshFacesStep(fs, base, m, scene, f);
        var ix := fs[f];
        if |ix| < 3 {
          error := Some(IndexMissing(m, f));
          MeshFacesStopped(fs, base, m, scene, f + 1);
          return;
        }
        if m >= |scene.materials| {
          error := Some(MaterialMissing(m));
          MeshFacesStopped(fs, base, m, scene, f + 1);
          return;
        }
        faces := faces + [Face(Wrap32(ix[0] + base), Wrap32(ix[1] + base), Wrap32(ix[2] + base), scene.materials[m].name)];
        f := f + 1;
      }
      assert fs[..f] == fs;
      error := None;
    }

    /** The material loop of `ImportAssimp`: per scene material, a new `Material` with
        its name, the flags "texture_gouraud_", opacity 255, the file name of its
        diffuse texture and a white colour. A texture without a path throws. */
    method ImportMaterials(scene: Scene) returns (error: Option<ImportError>)
      modifies this
      ensures var r := AfterMaterials(Imported(old(Data()), old(MaterialData()), None), scene, |scene.materials|);
        Data() == r.model && MaterialData() == r.materials && error == r.error
      ensures |old(materials)| <= |materials| && materials[..|old(materials)|] == old(materials)
      ensures forall m :: m in materials ==> m in old(materials) || fresh(m)
    {
      ghost var st := Imported(old(Data()), old(MaterialData()), None);
      var i := 0;
      error := None;
      while i < |scene.materials| && error == None
        invariant 0 <= i <= |scene.materials| && Data() == st.model
        invariant AfterMaterials(st, scene, i) == Imported(st.model, MaterialData(), error)
        invariant |old(materials)| <= |materials| && materials[..|old(materials)|] == old(materials)
        invariant forall m :: m in materials ==> m in old(materials) || fresh(m)
      {
        ghost var before := materials;
        error := ImportMaterialAt(scene, i, st);
        PrefixOfPrefix(old(materials), before, materials);
        i := i + 1;
      }
      AfterMaterialsDone(st, scene, i);
    }

    /** Pass `i` of the material loop: the material made from scene material `i` is
        appended, or its missing texture path stops the loop. */
    method ImportMaterialAt(scene: Scene, i: nat, ghost st: Imported) returns (error: Option<ImportError>)
      requires i < |scene.materials|
      requires AfterMaterials(st, scene, i) == Imported(st.model, MaterialData(), None)
      modifies this
      ensures AfterMaterials(st, scene, i + 1) == Imported(st.model, MaterialData(), error)
      ensures Data() == old(Data())
      ensures |old(materials)| <= |materials| && materials[..|old(materials)|] == old(materials)
      ensures forall m :: m in materials ==> m in old(materials) || fresh(m)
    {
      var sm := scene.materials[i];
      if sm.diffusePath.None? {
        return Some(TexturePathMissing(i));
      }
      var material := NewImported(sm, i);
      AddMaterial(material);
      error := None;
    }

    /** The object initializer of the material loop: a `new Material()` whose name,
        flags, opacity, texture and colour are then set. */
    static method NewImported(sm: SceneMaterial, index: nat) returns (material: Material)
      requires sm.diffusePath.Some?
      ensures fresh(material)
      ensures ImportMaterial(sm, index) == Ok(material.Fields())
    {
      var path := sm.diffusePath.value;
      material := new Material();
      material.name := Some(sm.name);
      material.flags := Some("texture_gouraud_");
      material.opacity := 255;
      material.texture := Some(FileName(path));
      material.colour := Vector3(255.0, 255.0, 255.0);
    }

    /** `Materials.Add(material)` for a material not in the list. */
    method AddMaterial(material: Material)
      requires material !in materials
      modifies this
      ensures materials == old(materials) + [material]
      ensures MaterialData() == old(MaterialData()) + [material.Fields()]
      ensures Data() == old(Data())
    {
      materials := materials + [material];
      assert materials[..|materials| - 1] == old(materials);
    }
  }
}
