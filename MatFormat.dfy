/** The MAT material library format: what `SCOModel.LoadMaterials` does with the
    lines of a material file, the lines `SCOModel.SaveMaterials` writes, and how the
    two fit together. A material file is a list of blocks: `[MaterialBegin]`, one
    `Key= value` line per field that is set, and `[MaterialEnd]`. */
module MatFormat {
  import opened Text
  import opened Geometry

  /** The fields of an `SCOModel.Material`; a `None` string is a `null` one. */
  datatype MaterialFields = MaterialFields(
    name: Option<string>,
    flags: Option<string>,
    opacity: int32,
    texture: Option<string>,
    alphaMask: Option<string>,
    colour: Vector3,
    normalMap: Option<string>,
    environmentMap: Option<string>,
    environmentMapPower: int32)

  /** A `new Material()`: null strings, zero numbers, a black colour. */
  const DefaultFields := MaterialFields(None, None, 0, None, None, Vector3(0.0, 0.0, 0.0), None, None, 0)

  // ---------------------------------------------------------------------------
  // Convert.ToInt32

  /** The C# cast `(int)x` of a double in range: the integer part, toward zero. */
  function Truncate(x: real): (t: int)
    ensures x >= 0.0 ==> t as real <= x < t as real + 1.0
    ensures x < 0.0 ==> t as real - 1.0 < x <= t as real
  {
    if x >= 0.0 then x.Floor else -((-x).Floor)
  }

  /** `Convert.ToInt32(double)`: the cast, then a step away from zero when the dropped
      part is over a half, or exactly a half with an odd cast. `None` is the
      `OverflowException` it throws outside [-2147483648.5, 2147483647.5). */
  function ToInt32(x: real): Option<int32> {
    if !(-2147483648.5 <= x < 2147483647.5) then None
    else
      var t := Truncate(x);
      var d := x - t as real;
      if d > 0.5 || (d == 0.5 && t % 2 != 0) then Some(t + 1)
      else if d < -0.5 || (d == -0.5 && t % 2 != 0) then Some(t - 1)
      else Some(t)
  }

  /** `Convert.ToInt32` rounds to the nearest integer and a half to the even one: no
      integer is nearer to `x` than the result, and a tie goes to the even neighbour. It
      fails exactly outside the `int` range widened by a half below. */
  lemma {:induction false} ToInt32Nearest(x: real)
    ensures ToInt32(x).Some? <==> -2147483648.5 <= x < 2147483647.5
    ensures ToInt32(x).Some? ==>
      var r := ToInt32(x).value as real;
      && -0.5 <= x - r <= 0.5
      && ((x - r == 0.5 || x - r == -0.5) ==> ToInt32(x).value % 2 == 0)
  {
  }

  /** A whole number converts to itself. */
  lemma {:induction false} ToInt32OfInteger(n: int32)
    ensures ToInt32(n as real) == Some(n)
  {
    var x := n as real;
    assert Truncate(x) == n by {
      if x >= 0.0 {
        assert x.Floor == n;
      } else {
        assert (-x).Floor == -(n as int);
      }
    }
  }

  // ---------------------------------------------------------------------------
  // What one line of a material file does

  /** The fields a `Key= value` line sets, with their keys. */
  datatype Field = Name | Flags | Opacity | Texture | AlphaMask | NormalMap | Colour | EnvMap | EnvPower

  function Key(f: Field): string {
    match f
    case Name => "Name= "
    case Flags => "Flags= "
    case Opacity => "Opacity= "
    case Texture => "Texture= "
    case AlphaMask => "AlphaMask= "
    case NormalMap => "NormalMap= "
    case Colour => "Color24= "
    case EnvMap => "EnvMap= "
    case EnvPower => "EnvPower= "
  }

  const BeginLine := "[MaterialBegin]"
  const EndLine := "[MaterialEnd]"

  /** How `SCOModel.LoadMaterials` reads a line: the tests run in the order below and
      the first that holds decides. A field line carries the text after its key (for
      the colour, the line split at spaces); any other non-blank line is reported by
      its first space-separated field. */
  datatype MatLine =
    | Begin
    | SetName(value: string)
    | SetFlags(value: string)
    | SetOpacity(value: string)
    | SetTexture(value: string)
    | SetAlphaMask(value: string)
    | SetNormalMap(value: string)
    | SetColour(fields: seq<string>)
    | SetEnvMap(value: string)
    | SetEnvPower(value: string)
    | End
    | Unhandled(key: string)
    | Blank

  function Classify(line: string, lx: Lexer): MatLine {
    if line == BeginLine then Begin
    else if StartsWith(line, "Name= ") then SetName(line[6..])
    else if StartsWith(line, "Flags= ") then SetFlags(line[7..])
    else if StartsWith(line, "Opacity= ") then SetOpacity(line[9..])
    else if StartsWith(line, "Texture= ") then SetTexture(line[9..])
    else if StartsWith(line, "AlphaMask= ") then SetAlphaMask(line[11..])
    else if StartsWith(line, "NormalMap= ") then SetNormalMap(line[11..])
    else if StartsWith(line, "Color24= ") then SetColour(lx.fields(line))
    else if StartsWith(line, "EnvMap= ") then SetEnvMap(line[8..])
    else if StartsWith(line, "EnvPower= ") then SetEnvPower(line[10..])
    else if line == EndLine then End
    else if line != "" then Unhandled(Split(line, ' ')[0])
    else Blank
  }

  /** Why a load stopped, with the index of the line: a number `int.Parse` or
      `float.Parse` rejects, or a colour line with fewer than four fields. */
  datatype MatError = NotANumber(line: int) | TokenMissing(line: int)

  /** `float.Parse(fs[k])`. */
  function NumberAt(fs: seq<string>, k: nat, index: int, ft: FloatText): Result<real, MatError> {
    if k >= |fs| then Err(TokenMissing(index))
    else if ft.parse(fs[k]).Some? then Ok(ft.parse(fs[k]).value)
    else Err(NotANumber(index))
  }

  /** The colour of a `Color24= ` line from its fields 1, 2 and 3, read in that order. */
  function ColourOf(fs: seq<string>, index: int, ft: FloatText): Result<Vector3, MatError> {
    var x :- NumberAt(fs, 1, index, ft);
    var y :- NumberAt(fs, 2, index, ft);
    var z :- NumberAt(fs, 3, index, ft);
    Ok(Vector3(x, y, z))
  }

  /** The state of `SCOModel.LoadMaterials` between two lines. Materials are objects:
      `objs` holds the contents of every object the load has created, in creation
      order (the first is the one made before the loop), `current` is the object the
      `material` variable refers to, and `appended` lists the object each
      `Materials.Add` appended, so an object appended twice is listed twice. */
  datatype LoadState = LoadState(
    objs: seq<MaterialFields>,
    current: nat,
    appended: seq<nat>,
    warnings: seq<string>,
    error: Option<MatError>)
  {
    predicate Valid() {
      current < |objs| && forall j :: 0 <= j < |appended| ==> appended[j] < |objs|
    }
  }

  const Start := LoadState([DefaultFields], 0, [], [], None)

  /** The current material's contents replaced. */
  function Update(st: LoadState, m: MaterialFields): (r: LoadState)
    requires st.Valid()
    ensures r.Valid()
  {
    st.(objs := st.objs[st.current := m])
  }

  /** One pass of the loop body over the line at `index`, read as `c`. */
  function Step(st: LoadState, index: int, c: MatLine, ft: FloatText, lx: Lexer): (r: LoadState)
    requires st.Valid()
    ensures r.Valid()
  {
    var m := st.objs[st.current];
    match c
    case Begin => st.(objs := st.objs + [DefaultFields], current := |st.objs|)
    case SetName(s) => Update(st, m.(name := Some(s)))
    case SetFlags(s) => Update(st, m.(flags := Some(s)))
    case SetOpacity(s) =>
      if lx.parseInt(s).Some? then Update(st, m.(opacity := lx.parseInt(s).value))
      else st.(error := Some(NotANumber(index)))
    case SetTexture(s) => Update(st, m.(texture := Some(s)))
    case SetAlphaMask(s) => Update(st, m.(alphaMask := Some(s)))
    case SetNormalMap(s) => Update(st, m.(normalMap := Some(s)))
    case SetColour(fs) =>
      (match ColourOf(fs, index, ft)
       case Ok(v) => Update(st, m.(colour := v))
       case Err(e) => st.(error := Some(e)))
    case SetEnvMap(s) => Update(st, m.(environmentMap := Some(s)))
    case SetEnvPower(s) =>
      if lx.parseInt(s).Some? then Update(st, m.(environmentMapPower := lx.parseInt(s).value))
      else st.(error := Some(NotANumber(index)))
    case End => st.(appended := st.appended + [st.current])
    case Unhandled(key) => st.(warnings := st.warnings + [key])
    case Blank => st
  }

  /** The lines of a file, each read as `Classify` reads it. */
  function Kinds(lines: seq<string>, lx: Lexer): (r: seq<MatLine>)
    ensures |r| == |lines|
  {
    seq(|lines|, i requires 0 <= i < |lines| => Classify(lines[i], lx))
  }

  /** The loop over lines read as `cs`, the first of which has index `at`; it stops
      at the first line that fails. */
  function Run(st: LoadState, cs: seq<MatLine>, at: int, ft: FloatText, lx: Lexer): (r: LoadState)
    requires st.Valid()
    ensures r.Valid()
    decreases |cs|
  {
    if st.error.Some? || |cs| == 0 then st
    else Run(Step(st, at, cs[0], ft, lx), cs[1..], at + 1, ft, lx)
  }

  /** `SCOModel.LoadMaterials` on the lines of a file. */
  function LoadMaterialsSpec(lines: seq<string>, ft: FloatText, lx: Lexer): (r: LoadState)
    ensures r.Valid()
  {
    Run(Start, Kinds(lines, lx), 0, ft, lx)
  }

  // ---------------------------------------------------------------------------
  // The lines `SCOModel.SaveMaterials` writes

  /** The line of a string field, written only when the field is not null. */
  function TextLine(f: Field, v: Option<string>): seq<string> {
    if v.Some? then [Key(f) + v.value] else []
  }

  /** The line of an `int` field, written only when the field is not zero. */
  function NumberLine(f: Field, n: int32): seq<string> {
    if n != 0 then [Key(f) + IntToString(n)] else []
  }

  /** The line `SCOModel.SaveMaterials` writes for one field, if any. The colour is
      always written and has a line of its own. */
  function FieldLine(f: Field, m: MaterialFields): seq<string> {
    match f
    case Name => TextLine(f, m.name)
    case Flags => TextLine(f, m.flags)
    case Opacity => NumberLine(f, m.opacity)
    case Texture => TextLine(f, m.texture)
    case AlphaMask => TextLine(f, m.alphaMask)
    case NormalMap => TextLine(f, m.normalMap)
    case Colour => []
    case EnvMap => TextLine(f, m.environmentMap)
    case EnvPower => NumberLine(f, m.environmentMapPower)
  }

  /** The order the optional fields are written in (not the order the loader tests
      their keys in). */
  const SavedOrder: seq<Field> := [Name, Flags, Opacity, Texture, EnvMap, EnvPower, AlphaMask, NormalMap]

  /** The lines of the fields `fs` of `m`, in that order. */
  function LinesOf(fs: seq<Field>, m: MaterialFields): seq<string> {
    if |fs| == 0 then [] else FieldLine(fs[0], m) + LinesOf(fs[1..], m)
  }

  /** The field lines of a block. */
  function FieldLines(m: MaterialFields): seq<string> {
    LinesOf(SavedOrder, m)
  }

  /** The lines of eight fields, one field after the other. */
  lemma {:induction false} LinesOfEight(fs: seq<Field>, m: MaterialFields)
    requires |fs| == 8
    ensures LinesOf(fs, m)
      == FieldLine(fs[0], m) + (FieldLine(fs[1], m) + (FieldLine(fs[2], m) + (FieldLine(fs[3], m)
         + (FieldLine(fs[4], m) + (FieldLine(fs[5], m) + (FieldLine(fs[6], m) + FieldLine(fs[7], m)))))))
  {
    assert fs[7..][1..] == fs[8..];
    assert LinesOf(fs[7..], m) == FieldLine(fs[7], m) + LinesOf(fs[8..], m);
    assert fs[6..][1..] == fs[7..];
    assert LinesOf(fs[6..], m) == FieldLine(fs[6], m) + LinesOf(fs[7..], m);
    assert fs[5..][1..] == fs[6..];
    assert LinesOf(fs[5..], m) == FieldLine(fs[5], m) + LinesOf(fs[6..], m);
    assert fs[4..][1..] == fs[5..];
    assert LinesOf(fs[4..], m) == FieldLine(fs[4], m) + LinesOf(fs[5..], m);
    assert fs[3..][1..] == fs[4..];
    assert LinesOf(fs[3..], m) == FieldLine(fs[3], m) + LinesOf(fs[4..], m);
    assert fs[2..][1..] == fs[3..];
    assert LinesOf(fs[2..], m) == FieldLine(fs[2], m) + LinesOf(fs[3..], m);
    assert fs[1..][1..] == fs[2..];
    assert LinesOf(fs[1..], m) == FieldLine(fs[1], m) + LinesOf(fs[2..], m);
    assert fs[0..][1..] == fs[1..];
    assert LinesOf(fs[0..], m) == FieldLine(fs[0], m) + LinesOf(fs[1..], m);
    assert LinesOf(fs[8..], m) == [];
    assert FieldLine(fs[7], m) + [] == FieldLine(fs[7], m);
    assert fs[0..] == fs;
  }

  /** The field lines of a block, field by field in the saved order. */
  lemma {:induction false} FieldLinesInOrder(m: MaterialFields)
    ensures FieldLines(m)
      == TextLine(Name, m.name) + TextLine(Flags, m.flags) + NumberLine(Opacity, m.opacity)
         + TextLine(Texture, m.texture) + TextLine(EnvMap, m.environmentMap)
         + NumberLine(EnvPower, m.environmentMapPower) + TextLine(AlphaMask, m.alphaMask)
         + TextLine(NormalMap, m.normalMap)
  {
    LinesOfEight(SavedOrder, m);
    Regroup(TextLine(Name, m.name), TextLine(Flags, m.flags), NumberLine(Opacity, m.opacity),
            TextLine(Texture, m.texture), TextLine(EnvMap, m.environmentMap),
            NumberLine(EnvPower, m.environmentMapPower), TextLine(AlphaMask, m.alphaMask),
            TextLine(NormalMap, m.normalMap));
  }

  /** Eight pieces joined from the right are the same lines as joined from the left. */
  lemma {:induction false} Regroup(a: seq<string>, b: seq<string>, c: seq<string>, d: seq<string>,
                                   e: seq<string>, f: seq<string>, g: seq<string>, h: seq<string>)
    ensures a + (b + (c + (d + (e + (f + (g + h)))))) == a + b + c + d + e + f + g + h
  {
    assert f + (g + h) == f + g + h;
    assert e + (f + g + h) == e + f + g + h;
    assert d + (e + f + g + h) == d + e + f + g + h;
    assert c + (d + e + f + g + h) == c + d + e + f + g + h;
    assert b + (c + d + e + f + g + h) == b + c + d + e + f + g + h;
  }

  /** The colour as `Convert.ToInt32` makes it, or `None` when a component overflows. */
  function RoundedColour(c: Vector3): Option<(int32, int32, int32)> {
    if ToInt32(c.x).Some? && ToInt32(c.y).Some? && ToInt32(c.z).Some? then
      Some((ToInt32(c.x).value, ToInt32(c.y).value, ToInt32(c.z).value))
    else None
  }

  /** `$"Color24= {x} {y} {z}"` for the rounded components. */
  function ColourLine(r: (int32, int32, int32)): string {
    "Color24= " + IntToString(r.0) + " " + IntToString(r.1) + " " + IntToString(r.2)
  }

  /** A whole block. `WriteLine("[MaterialEnd]\n")` writes two lines, the second one
      blank. */
  function Block(m: MaterialFields, r: (int32, int32, int32)): seq<string> {
    [BeginLine] + FieldLines(m) + [ColourLine(r), EndLine, ""]
  }

  /** `Convert.ToInt32` threw on the colour of the material at this index. */
  datatype MatSaveError = ColourOverflow(material: nat)

  /** `SCOModel.SaveMaterials`: one block per material in list order. A colour that
      does not convert stops the save after that block's field lines. */
  function SaveMaterialsSpec(ms: seq<MaterialFields>): Written<MatSaveError>
    decreases |ms|
  {
    if |ms| == 0 then Written([], None)
    else
      var before := SaveMaterialsSpec(ms[..|ms| - 1]);
      var m := ms[|ms| - 1];
      if before.error.Some? then before
      else match RoundedColour(m.colour)
        case None => Written(before.lines + [BeginLine] + FieldLines(m), Some(ColourOverflow(|ms| - 1)))
        case Some(r) => Written(before.lines + Block(m, r), None)
  }

  /** A colour that converts, and whose rounded components a `float` holds exactly. */
  predicate SmallColour(c: Vector3) {
    RoundedColour(c).Some?
    && ExactInFloat(RoundedColour(c).value.0)
    && ExactInFloat(RoundedColour(c).value.1)
    && ExactInFloat(RoundedColour(c).value.2)
  }

  /** A material as it reads back: its colour rounded as it was written. */
  function Restored(m: MaterialFields): MaterialFields {
    match RoundedColour(m.colour)
    case Some(r) => m.(colour := ReadColour(r))
    case None => m
  }

  // ---------------------------------------------------------------------------
  // How the loader reads the lines the saver writes

  lemma {:induction false} Differs(s: string, k: string, i: nat)
    requires i < |k| && i < |s| && s[i] != k[i]
    ensures !StartsWith(s, k)
  {
  }

  /** A line a key starts is read as a line of that field, whatever the value: no key
      is a prefix of another or of `[MaterialBegin]`, so the loader's order of tests
      does not matter. */
  lemma {:induction false} ClassifyField(f: Field, v: string, lx: Lexer)
    requires f != Colour
    ensures Classify(Key(f) + v, lx) == match f
      case Name => SetName(v)
      case Flags => SetFlags(v)
      case Opacity => SetOpacity(v)
      case Texture => SetTexture(v)
      case AlphaMask => SetAlphaMask(v)
      case NormalMap => SetNormalMap(v)
      case EnvMap => SetEnvMap(v)
      case EnvPower => SetEnvPower(v)
      case Colour => Blank
  {
    var line := Key(f) + v;
    assert line[..|Key(f)|] == Key(f);
    assert line[|Key(f)|..] == v;
    assert line != BeginLine by { assert line[0] != BeginLine[0]; }
    match f
    case Name =>
    case Flags => Differs(line, "Name= ", 0);
    case Opacity => Differs(line, "Name= ", 0); Differs(line, "Flags= ", 0);
    case Texture => Differs(line, "Name= ", 0); Differs(line, "Flags= ", 0); Differs(line, "Opacity= ", 0);
    case AlphaMask => Differs(line, "Name= ", 0); Differs(line, "Flags= ", 0); Differs(line, "Opacity= ", 0);
      Differs(line, "Texture= ", 0);
    case NormalMap => Differs(line, "Name= ", 1); Differs(line, "Flags= ", 0); Differs(line, "Opacity= ", 0);
      Differs(line, "Texture= ", 0); Differs(line, "AlphaMask= ", 0);
    case EnvMap => Differs(line, "Name= ", 0); Differs(line, "Flags= ", 0); Differs(line, "Opacity= ", 0);
      Differs(line, "Texture= ", 0); Differs(line, "AlphaMask= ", 0); Differs(line, "NormalMap= ", 0);
      Differs(line, "Color24= ", 0);
    case EnvPower => Differs(line, "Name= ", 0); Differs(line, "Flags= ", 0); Differs(line, "Opacity= ", 0);
      Differs(line, "Texture= ", 0); Differs(line, "AlphaMask= ", 0); Differs(line, "NormalMap= ", 0);
      Differs(line, "Color24= ", 0); Differs(line, "EnvMap= ", 3);
  }

  lemma {:induction false} FieldsOfFour(t0: string, t1: string, t2: string, t3: string, lx: Lexer)
    requires SplitsFields(lx)
    requires Free(t0, {' '}) && Free(t1, {' '}) && Free(t2, {' '}) && Free(t3, {' '})
    ensures lx.fields(Join([t0, t1, t2, t3], ' ')) == [t0, t1, t2, t3]
  {
    var ts := [t0, t1, t2, t3];
    assert forall i :: 0 <= i < |ts| ==> ts[i] in {t0, t1, t2, t3};
  }

  lemma {:induction false} ColourKeyFree()
    ensures Free("Color24=", {' '})
  {
    var s := "Color24=";
    forall i | 0 <= i < |s|
      ensures s[i] != ' '
    {
      assert s[i] in {'C', 'o', 'l', 'r', '2', '4', '='};
    }
  }

  /** The space-separated fields of a written colour line. */
  function ColourFields(r: (int32, int32, int32)): seq<string> {
    ["Color24=", IntToString(r.0), IntToString(r.1), IntToString(r.2)]
  }

  /** The colour line is its fields joined with single spaces. */
  lemma {:induction false} ColourLineJoined(r: (int32, int32, int32))
    ensures ColourLine(r) == Join(ColourFields(r), ' ')
  {
    var ts := ColourFields(r);
    assert Join(ts[3..], ' ') == ts[3];
    assert Join(ts[2..], ' ') == ts[2] + " " + ts[3];
    assert Join(ts[1..], ' ') == ts[1] + " " + ts[2] + " " + ts[3];
  }

  /** A written colour line is read as a colour line whose fields 1 to 3 are the
      written numbers. */
  lemma {:induction false} ClassifyColour(r: (int32, int32, int32), lx: Lexer)
    requires SplitsFields(lx)
    ensures Classify(ColourLine(r), lx) == SetColour(ColourFields(r))
  {
    var ts := ColourFields(r);
    var line := ColourLine(r);
    ColourLineJoined(r);
    assert line[..9] == "Color24= ";
    assert line != BeginLine by { assert line[0] != BeginLine[0]; }
    Differs(line, "Name= ", 0); Differs(line, "Flags= ", 0); Differs(line, "Opacity= ", 0);
    Differs(line, "Texture= ", 0); Differs(line, "AlphaMask= ", 0); Differs(line, "NormalMap= ", 0);
    var a, b, c := IntToString(r.0), IntToString(r.1), IntToString(r.2);
    ColourKeyFree();
    IntToStringToken(r.0); IntToStringToken(r.1); IntToStringToken(r.2);
    assert Free(a, {' '}) && Free(b, {' '}) && Free(c, {' '});
    FieldsOfFour("Color24=", a, b, c, lx);
  }

  /** `[MaterialEnd]` and the blank line are read as themselves. */
  lemma {:induction false} ClassifyEnd(lx: Lexer)
    ensures Classify(EndLine, lx) == End && Classify("", lx) == Blank
  {
    var line := EndLine;
    assert line != BeginLine by { assert line[9] != BeginLine[9]; }
    Differs(line, "Name= ", 0); Differs(line, "Flags= ", 0); Differs(line, "Opacity= ", 0);
    Differs(line, "Texture= ", 0); Differs(line, "AlphaMask= ", 0); Differs(line, "NormalMap= ", 0);
    Differs(line, "Color24= ", 0); Differs(line, "EnvMap= ", 0); Differs(line, "EnvPower= ", 0);
  }

  /** How the loader reads the line of field `f` of `m`, if there is one. */
  function FieldKinds(f: Field, m: MaterialFields): seq<MatLine> {
    match f
    case Name => if m.name.Some? then [SetName(m.name.value)] else []
    case Flags => if m.flags.Some? then [SetFlags(m.flags.value)] else []
    case Opacity => if m.opacity != 0 then [SetOpacity(IntToString(m.opacity))] else []
    case Texture => if m.texture.Some? then [SetTexture(m.texture.value)] else []
    case AlphaMask => if m.alphaMask.Some? then [SetAlphaMask(m.alphaMask.value)] else []
    case NormalMap => if m.normalMap.Some? then [SetNormalMap(m.normalMap.value)] else []
    case Colour => []
    case EnvMap => if m.environmentMap.Some? then [SetEnvMap(m.environmentMap.value)] else []
    case EnvPower => if m.environmentMapPower != 0 then [SetEnvPower(IntToString(m.environmentMapPower))] else []
  }

  function KindsOf(fs: seq<Field>, m: MaterialFields): seq<MatLine> {
    if |fs| == 0 then [] else FieldKinds(fs[0], m) + KindsOf(fs[1..], m)
  }

  /** How the loader reads a whole written block. */
  function BlockKinds(m: MaterialFields, r: (int32, int32, int32)): seq<MatLine> {
    [Begin] + KindsOf(SavedOrder, m) + [SetColour(ColourFields(r)), End, Blank]
  }

  /** Reading two runs of lines one after the other reads each on its own. */
  lemma {:induction false} KindsConcat(a: seq<string>, b: seq<string>, lx: Lexer)
    ensures Kinds(a + b, lx) == Kinds(a, lx) + Kinds(b, lx)
  {
    var k := Kinds(a + b, lx);
    forall i | 0 <= i < |k|
      ensures k[i] == (Kinds(a, lx) + Kinds(b, lx))[i]
    {
      if i < |a| {
        assert (a + b)[i] == a[i];
      } else {
        assert (a + b)[i] == b[i - |a|];
      }
    }
  }

  lemma {:induction false} KindsOfField(f: Field, m: MaterialFields, lx: Lexer)
    ensures Kinds(FieldLine(f, m), lx) == FieldKinds(f, m)
  {
    if FieldLine(f, m) != [] {
      match f
      case Name => ClassifyField(f, m.name.value, lx);
      case Flags => ClassifyField(f, m.flags.value, lx);
      case Opacity => ClassifyField(f, IntToString(m.opacity), lx);
      case Texture => ClassifyField(f, m.texture.value, lx);
      case AlphaMask => ClassifyField(f, m.alphaMask.value, lx);
      case NormalMap => ClassifyField(f, m.normalMap.value, lx);
      case EnvMap => ClassifyField(f, m.environmentMap.value, lx);
      case EnvPower => ClassifyField(f, IntToString(m.environmentMapPower), lx);
    }
  }

  lemma {:induction false} KindsOfFields(fs: seq<Field>, m: MaterialFields, lx: Lexer)
    ensures Kinds(LinesOf(fs, m), lx) == KindsOf(fs, m)
    decreases |fs|
  {
    if |fs| > 0 {
      KindsConcat(FieldLine(fs[0], m), LinesOf(fs[1..], m), lx);
      KindsOfField(fs[0], m, lx);
      KindsOfFields(fs[1..], m, lx);
    }
  }

  lemma {:induction false} KindsOfBlockEnd(r: (int32, int32, int32), lx: Lexer)
    requires SplitsFields(lx)
    ensures Kinds([ColourLine(r), EndLine, ""], lx) == [SetColour(ColourFields(r)), End, Blank]
  {
    var tail := [ColourLine(r), EndLine, ""];
    ClassifyColour(r, lx);
    ClassifyEnd(lx);
    var kt := Kinds(tail, lx);
    var want := [SetColour(ColourFields(r)), End, Blank];
    forall i | 0 <= i < 3
      ensures kt[i] == want[i]
    {
      assert kt[i] == Classify(tail[i], lx);
    }
  }

  /** Every line of a written block is read as the saver meant it: the keys, the
      numbers and the colour fields all come back. */
  lemma {:induction false} KindsOfBlock(m: MaterialFields, r: (int32, int32, int32), lx: Lexer)
    requires SplitsFields(lx)
    ensures Kinds(Block(m, r), lx) == BlockKinds(m, r)
  {
    var fl := FieldLines(m);
    var tail := [ColourLine(r), EndLine, ""];
    assert Block(m, r) == [BeginLine] + fl + tail;
    KindsConcat([BeginLine] + fl, tail, lx);
    KindsConcat([BeginLine], fl, lx);
    KindsOfFields(SavedOrder, m, lx);
    assert Kinds([BeginLine], lx) == [Begin];
    KindsOfBlockEnd(r, lx);
  }

  // ---------------------------------------------------------------------------
  // What the loader does with a written block

  /** What the line of field `f` of `m`, if `m` has one, does to the material `o`:
      the field is copied from `m`. */
  function Carry(o: MaterialFields, f: Field, m: MaterialFields): MaterialFields {
    match f
    case Name => o.(name := if m.name.Some? then m.name else o.name)
    case Flags => o.(flags := if m.flags.Some? then m.flags else o.flags)
    case Opacity => o.(opacity := if m.opacity != 0 then m.opacity else o.opacity)
    case Texture => o.(texture := if m.texture.Some? then m.texture else o.texture)
    case AlphaMask => o.(alphaMask := if m.alphaMask.Some? then m.alphaMask else o.alphaMask)
    case NormalMap => o.(normalMap := if m.normalMap.Some? then m.normalMap else o.normalMap)
    case Colour => o
    case EnvMap => o.(environmentMap := if m.environmentMap.Some? then m.environmentMap else o.environmentMap)
    case EnvPower =>
      o.(environmentMapPower := if m.environmentMapPower != 0 then m.environmentMapPower else o.environmentMapPower)
  }

  /** `Carry` for each field of `fs` in turn. */
  function CarryAll(o: MaterialFields, fs: seq<Field>, m: MaterialFields): MaterialFields
    decreases |fs|
  {
    if |fs| == 0 then o else CarryAll(Carry(o, fs[0], m), fs[1..], m)
  }

  /** The loop over two runs of lines is the loop over the first, then over the second. */
  lemma {:induction false} RunConcat(st: LoadState, a: seq<MatLine>, b: seq<MatLine>, at: int, ft: FloatText, lx: Lexer)
    requires st.Valid()
    ensures Run(st, a + b, at, ft, lx) == Run(Run(st, a, at, ft, lx), b, at + |a|, ft, lx)
    decreases |a|
  {
    if st.error == None && |a| > 0 {
      assert (a + b)[0] == a[0];
      assert (a + b)[1..] == a[1..] + b;
      RunConcat(Step(st, at, a[0], ft, lx), a[1..], b, at + 1, ft, lx);
    } else if st.error == None {
      assert a + b == b;
    }
  }

  /** Reading the line of one field, if `m` has one, copies that field into the
      current material and does nothing else. */
  lemma {:induction false} ReadField(st: LoadState, f: Field, m: MaterialFields, at: int, ft: FloatText, lx: Lexer)
    requires st.Valid() && st.error == None && ParsesIntegers(lx)
    ensures Run(st, FieldKinds(f, m), at, ft, lx) == Update(st, Carry(st.objs[st.current], f, m))
  {
    var ks := FieldKinds(f, m);
    var o := st.objs[st.current];
    if |ks| == 0 {
      assert Carry(o, f, m) == o;
      assert st.objs[st.current := o] == st.objs;
    } else {
      assert ks[1..] == [];
    }
  }

  /** Reading the field lines of `fs` copies each of those fields of `m` that has a
      line into the current material. */
  lemma {:induction false} ReadFields(st: LoadState, fs: seq<Field>, m: MaterialFields, at: int, ft: FloatText, lx: Lexer)
    requires st.Valid() && st.error == None && ParsesIntegers(lx)
    ensures Run(st, KindsOf(fs, m), at, ft, lx) == Update(st, CarryAll(st.objs[st.current], fs, m))
    decreases |fs|
  {
    var o := st.objs[st.current];
    if |fs| == 0 {
      assert st.objs[st.current := o] == st.objs;
    } else {
      var first := FieldKinds(fs[0], m);
      RunConcat(st, first, KindsOf(fs[1..], m), at, ft, lx);
      ReadField(st, fs[0], m, at, ft, lx);
      var next := Update(st, Carry(o, fs[0], m));
      ReadFields(next, fs[1..], m, at + |first|, ft, lx);
      assert next.objs[next.current] == Carry(o, fs[0], m);
    }
  }

  /** A new material that reads all the field lines of `m` holds `m`, its colour aside:
      a field without a line keeps its default, which is exactly the value that is
      not written. */
  lemma {:induction false} CarryDefaults(m: MaterialFields)
    ensures CarryAll(DefaultFields, SavedOrder, m) == m.(colour := DefaultFields.colour)
  {
    var o := DefaultFields;
    var o1 := Carry(o, Name, m);
    var o2 := Carry(o1, Flags, m);
    var o3 := Carry(o2, Opacity, m);
    var o4 := Carry(o3, Texture, m);
    var o5 := Carry(o4, EnvMap, m);
    var o6 := Carry(o5, EnvPower, m);
    var o7 := Carry(o6, AlphaMask, m);
    var o8 := Carry(o7, NormalMap, m);
    assert SavedOrder[1..][1..][1..][1..][1..][1..][1..][1..] == [];
    assert CarryAll(o, SavedOrder, m) == o8;
  }

  /** The colour `Convert.ToInt32` wrote, as `float.Parse` reads it back. */
  function ReadColour(r: (int32, int32, int32)): Vector3 {
    Vector3(r.0 as real, r.1 as real, r.2 as real)
  }

  /** The fields of a written colour line read back as the rounded colour. */
  lemma {:induction false} ReadColourLine(r: (int32, int32, int32), index: int, ft: FloatText)
    requires ReadsIntegers(ft)
    requires ExactInFloat(r.0) && ExactInFloat(r.1) && ExactInFloat(r.2)
    ensures ColourOf(ColourFields(r), index, ft) == Ok(ReadColour(r))
  {
    assert ft.parse(IntToString(r.0)) == Some(r.0 as real);
    assert ft.parse(IntToString(r.1)) == Some(r.1 as real);
    assert ft.parse(IntToString(r.2)) == Some(r.2 as real);
  }

  /** `[MaterialBegin]` and the field lines of `m` leave a new current material that
      holds `m`, its colour aside. */
  lemma {:induction false} ReadBlockStart(st: LoadState, m: MaterialFields, at: int, ft: FloatText, lx: Lexer)
    requires st.Valid() && st.error == None && ParsesIntegers(lx)
    ensures Run(st, [Begin] + KindsOf(SavedOrder, m), at, ft, lx)
      == st.(objs := st.objs + [m.(colour := DefaultFields.colour)], current := |st.objs|)
  {
    var fields := KindsOf(SavedOrder, m);
    RunConcat(st, [Begin], fields, at, ft, lx);
    var s1 := Step(st, at, Begin, ft, lx);
    assert Run(st, [Begin], at, ft, lx) == s1 by {
      assert Run(st, [Begin], at, ft, lx) == Run(s1, [Begin][1..], at + 1, ft, lx);
      assert [Begin][1..] == [];
    }
    assert s1.objs[s1.current] == DefaultFields;
    ReadFields(s1, SavedOrder, m, at + 1, ft, lx);
    CarryDefaults(m);
  }

  /** The lines after the field lines of a block set the colour, append the current
      material and change nothing else. */
  lemma {:induction false} ReadBlockEnd(st: LoadState, r: (int32, int32, int32), at: int, ft: FloatText, lx: Lexer)
    requires st.Valid() && st.error == None && ReadsIntegers(ft)
    requires ExactInFloat(r.0) && ExactInFloat(r.1) && ExactInFloat(r.2)
    ensures Run(st, [SetColour(ColourFields(r)), End, Blank], at, ft, lx)
      == Update(st, st.objs[st.current].(colour := ReadColour(r))).(appended := st.appended + [st.current])
  {
    var ks := [SetColour(ColourFields(r)), End, Blank];
    ReadColourLine(r, at, ft);
    var s1 := Update(st, st.objs[st.current].(colour := ReadColour(r)));
    assert Step(st, at, ks[0], ft, lx) == s1;
    var s2 := s1.(appended := s1.appended + [s1.current]);
    assert Step(s1, at + 1, ks[1], ft, lx) == s2;
    assert Step(s2, at + 2, ks[2], ft, lx) == s2;
    assert Run(st, ks, at, ft, lx) == Run(s1, ks[1..], at + 1, ft, lx);
    assert Run(s1, ks[1..], at + 1, ft, lx) == Run(s2, ks[1..][1..], at + 2, ft, lx);
    assert Run(s2, ks[1..][1..], at + 2, ft, lx) == Run(s2, ks[1..][1..][1..], at + 3, ft, lx);
    assert ks[1..][1..][1..] == [];
  }

  /** The state after a block that made a new material `m` and appended it once, with
      no warning and no error. */
  function WithBlock(st: LoadState, m: MaterialFields): LoadState {
    LoadState(st.objs + [m], |st.objs|, st.appended + [|st.objs|], st.warnings, None)
  }

  /** A whole block read by the loader: a new material holding `m` with the written
      colour, appended once, and no warning. */
  lemma {:induction false} ReadBlock(st: LoadState, m: MaterialFields, r: (int32, int32, int32), at: int, ft: FloatText, lx: Lexer)
    requires st.Valid() && st.error == None && ParsesIntegers(lx) && ReadsIntegers(ft)
    requires ExactInFloat(r.0) && ExactInFloat(r.1) && ExactInFloat(r.2)
    ensures Run(st, BlockKinds(m, r), at, ft, lx)
      == WithBlock(st, m.(colour := ReadColour(r)))
  {
    var start := [Begin] + KindsOf(SavedOrder, m);
    var tail := [SetColour(ColourFields(r)), End, Blank];
    RunConcat(st, start, tail, at, ft, lx);
    ReadBlockStart(st, m, at, ft, lx);
    var s2 := st.(objs := st.objs + [m.(colour := DefaultFields.colour)], current := |st.objs|);
    ReadBlockEnd(s2, r, at + |start|, ft, lx);
    assert s2.objs[s2.current := m.(colour := ReadColour(r))] == st.objs + [m.(colour := ReadColour(r))];
  }

  // ---------------------------------------------------------------------------
  // The round trip

  /** Loading a file with one more written block at its end gives one more
      material, appended once. */
  lemma {:induction false} LoadAppendBlock(lines: seq<string>, m: MaterialFields, r: (int32, int32, int32), ft: FloatText, lx: Lexer)
    requires ParsesIntegers(lx) && SplitsFields(lx) && ReadsIntegers(ft)
    requires ExactInFloat(r.0) && ExactInFloat(r.1) && ExactInFloat(r.2)
    requires LoadMaterialsSpec(lines, ft, lx).error == None
    ensures var st := LoadMaterialsSpec(lines, ft, lx);
      LoadMaterialsSpec(lines + Block(m, r), ft, lx)
      == WithBlock(st, m.(colour := ReadColour(r)))
  {
    LoadConcat(lines, Block(m, r), ft, lx);
    KindsOfBlock(m, r, lx);
    ReadBlock(LoadMaterialsSpec(lines, ft, lx), m, r, |lines|, ft, lx);
  }

  /** Loading two runs of lines one after the other: the second run starts from
      where the first left the load. */
  lemma {:induction false} LoadConcat(lines: seq<string>, more: seq<string>, ft: FloatText, lx: Lexer)
    ensures LoadMaterialsSpec(lines + more, ft, lx) == Run(LoadMaterialsSpec(lines, ft, lx), Kinds(more, lx), |lines|, ft, lx)
  {
    KindsConcat(lines, more, lx);
    RunSplit(Start, Kinds(lines + more, lx), Kinds(lines, lx), Kinds(more, lx), 0, |lines|, ft, lx);
  }

  /** `RunConcat` for a run of lines already known to be the two parts joined;
      `next` is the index of the first line of `b`. */
  lemma {:induction false} RunSplit(st: LoadState, k: seq<MatLine>, a: seq<MatLine>, b: seq<MatLine>, at: int, next: int, ft: FloatText, lx: Lexer)
    requires st.Valid() && k == a + b && next == at + |a|
    ensures Run(st, k, at, ft, lx) == Run(Run(st, a, at, ft, lx), b, next, ft, lx)
  {
    RunConcat(st, a, b, at, ft, lx);
  }

  /** What loading saved materials should give: the object made before the loop,
      untouched, then one object per saved material holding it with its colour
      rounded, each appended once in order, no warning and no error. */
  function Reloaded(ms: seq<MaterialFields>): (st: LoadState)
    ensures st.Valid()
  {
    LoadState([DefaultFields] + seq(|ms|, j requires 0 <= j < |ms| => Restored(ms[j])), |ms|,
      seq(|ms|, j => j + 1), [], None)
  }

  lemma {:induction false} ReloadedSnoc(ms: seq<MaterialFields>, m: MaterialFields)
    ensures var st := Reloaded(ms);
      Reloaded(ms + [m])
      == WithBlock(st, Restored(m))
  {
    var a := Reloaded(ms + [m]).objs;
    var b := Reloaded(ms).objs + [Restored(m)];
    assert |a| == |b|;
    forall j | 0 <= j < |a|
      ensures a[j] == b[j]
    {
      if 0 < j <= |ms| {
        assert (ms + [m])[j - 1] == ms[j - 1];
      }
    }
    assert a == b;
    var c := Reloaded(ms + [m]).appended;
    var d := Reloaded(ms).appended + [|ms| + 1];
    assert |c| == |d|;
    forall j | 0 <= j < |c|
      ensures c[j] == d[j]
    {
    }
    assert c == d;
  }

  /** A material read back converts to the same whole numbers again, so saving it
      writes the colour line it was read from: rounding is done once. */
  lemma {:induction false} RestoredStable(m: MaterialFields)
    requires RoundedColour(m.colour).Some?
    ensures RoundedColour(Restored(m).colour) == RoundedColour(m.colour)
  {
    var r := RoundedColour(m.colour).value;
    ToInt32OfInteger(r.0);
    ToInt32OfInteger(r.1);
    ToInt32OfInteger(r.2);
  }

  /** Saving materials and loading the file back gives one new material per saved
      one, in order, each appended once, equal to the saved one but for its colour,
      which comes back rounded to whole numbers; the first object, the one the loader
      makes before its loop, is never appended. */
  lemma {:induction false} SaveLoadRoundTrip(ms: seq<MaterialFields>, ft: FloatText, lx: Lexer)
    requires ParsesIntegers(lx) && SplitsFields(lx) && ReadsIntegers(ft)
    requires forall j :: 0 <= j < |ms| ==> SmallColour(ms[j].colour)
    ensures SaveMaterialsSpec(ms).error == None
    ensures LoadMaterialsSpec(SaveMaterialsSpec(ms).lines, ft, lx) == Reloaded(ms)
    decreases |ms|
  {
    if |ms| == 0 {
      assert Reloaded(ms) == Start;
    } else {
      var n := |ms| - 1;
      var prev := SaveMaterialsSpec(ms[..n]);
      SaveLoadRoundTrip(ms[..n], ft, lx);
      var m := ms[n];
      var r := RoundedColour(m.colour).value;
      assert SaveMaterialsSpec(ms) == Written(prev.lines + Block(m, r), None);
      LoadAppendBlock(prev.lines, m, r, ft, lx);
      ReloadedSnoc(ms[..n], m);
      assert ms[..n] + [m] == ms;
    }
  }

  // ---------------------------------------------------------------------------
  // The round trip through a file

  /** A string field that is null or holds no line break. */
  predicate OneLineText(v: Option<string>) {
    v.Some? ==> Free(v.value, {'\n', '\r'})
  }

  /** No string field of `m` holds a line break. */
  predicate OneLine(m: MaterialFields) {
    && OneLineText(m.name) && OneLineText(m.flags) && OneLineText(m.texture)
    && OneLineText(m.alphaMask) && OneLineText(m.normalMap) && OneLineText(m.environmentMap)
  }

  lemma {:induction false} KeyUnbroken(f: Field)
    ensures Free(Key(f), {'\n', '\r'})
  {
  }

  lemma {:induction false} FieldLineUnbroken(f: Field, m: MaterialFields)
    requires OneLine(m)
    ensures Unbroken(FieldLine(f, m))
  {
    KeyUnbroken(f);
    match f
    case Opacity =>
      IntToStringToken(m.opacity);
      FreeConcat(Key(f), IntToString(m.opacity), {'\n', '\r'});
    case EnvPower =>
      IntToStringToken(m.environmentMapPower);
      FreeConcat(Key(f), IntToString(m.environmentMapPower), {'\n', '\r'});
    case Colour =>
    case Name => FreeConcat(Key(f), NameText(m.name), {'\n', '\r'});
    case Flags => FreeConcat(Key(f), NameText(m.flags), {'\n', '\r'});
    case Texture => FreeConcat(Key(f), NameText(m.texture), {'\n', '\r'});
    case AlphaMask => FreeConcat(Key(f), NameText(m.alphaMask), {'\n', '\r'});
    case NormalMap => FreeConcat(Key(f), NameText(m.normalMap), {'\n', '\r'});
    case EnvMap => FreeConcat(Key(f), NameText(m.environmentMap), {'\n', '\r'});
  }

  lemma {:induction false} LinesOfUnbroken(fs: seq<Field>, m: MaterialFields)
    requires OneLine(m)
    ensures Unbroken(LinesOf(fs, m))
    decreases |fs|
  {
    if |fs| > 0 {
      FieldLineUnbroken(fs[0], m);
      LinesOfUnbroken(fs[1..], m);
      UnbrokenConcat(FieldLine(fs[0], m), LinesOf(fs[1..], m));
    }
  }

  lemma {:induction false} ColourLineUnbroken(r: (int32, int32, int32))
    ensures Free(ColourLine(r), {'\n', '\r'})
  {
    var seps := {'\n', '\r'};
    IntToStringToken(r.0);
    IntToStringToken(r.1);
    IntToStringToken(r.2);
    KeyUnbroken(Colour);
    assert Free(" ", seps);
    FreeConcat("Color24= ", IntToString(r.0), seps);
    FreeConcat("Color24= " + IntToString(r.0), " ", seps);
    FreeConcat("Color24= " + IntToString(r.0) + " ", IntToString(r.1), seps);
    FreeConcat("Color24= " + IntToString(r.0) + " " + IntToString(r.1), " ", seps);
    FreeConcat("Color24= " + IntToString(r.0) + " " + IntToString(r.1) + " ", IntToString(r.2), seps);
  }

  /** The lines of a block, whole or cut short after its field lines, hold no line
      break when no string field of the material holds one. */
  lemma {:induction false} BlockUnbroken(m: MaterialFields, r: (int32, int32, int32))
    requires OneLine(m)
    ensures Unbroken([BeginLine] + FieldLines(m)) && Unbroken(Block(m, r))
  {
    LinesOfUnbroken(SavedOrder, m);
    ColourLineUnbroken(r);
    assert Unbroken([BeginLine]) && Unbroken([ColourLine(r), EndLine, ""]);
    UnbrokenConcat([BeginLine], FieldLines(m));
    UnbrokenConcat([BeginLine] + FieldLines(m), [ColourLine(r), EndLine, ""]);
  }

  /** One more material keeps the lines of a save free of line breaks. */
  lemma {:induction false} SavedUnbrokenStep(ms: seq<MaterialFields>)
    requires |ms| > 0 && OneLine(ms[|ms| - 1])
    requires Unbroken(SaveMaterialsSpec(ms[..|ms| - 1]).lines)
    ensures Unbroken(SaveMaterialsSpec(ms).lines)
  {
    var before := SaveMaterialsSpec(ms[..|ms| - 1]);
    var m := ms[|ms| - 1];
    if before.error.Some? {
      SaveMaterialsKeepsError(ms);
    } else {
      match RoundedColour(m.colour)
      case None =>
        BlockUnbroken(m, (0, 0, 0));
        UnbrokenConcat(before.lines, [BeginLine] + FieldLines(m));
        assert before.lines + [BeginLine] + FieldLines(m) == before.lines + ([BeginLine] + FieldLines(m));
      case Some(r) =>
        BlockUnbroken(m, r);
        UnbrokenConcat(before.lines, Block(m, r));
    }
  }

  /** The lines of a save hold no line break when no string field of a saved
      material holds one. */
  lemma {:induction false} SavedUnbroken(ms: seq<MaterialFields>)
    requires forall j :: 0 <= j < |ms| ==> OneLine(ms[j])
    ensures Unbroken(SaveMaterialsSpec(ms).lines)
    decreases |ms|
  {
    if |ms| > 0 {
      SavedUnbroken(ms[..|ms| - 1]);
      SavedUnbrokenStep(ms);
    }
  }

  /** Saving materials to a file and reading the file back gives one new material per
      saved one, as `SaveLoadRoundTrip` states, with either newline convention, when
      no string field holds a line break. The text is `WriteAllLines` of the saved
      lines: with "\r\n", `WriteLine("[MaterialEnd]\n")` writes "\n\r\n" where this
      text has "\r\n\r\n", which `File.ReadAllLines` reads as the same two lines. */
  lemma {:induction false} SaveLoadFile(ms: seq<MaterialFields>, newLine: string, ft: FloatText, lx: Lexer)
    requires ParsesIntegers(lx) && SplitsFields(lx) && ReadsIntegers(ft)
    requires newLine == "\n" || newLine == "\r\n"
    requires forall j :: 0 <= j < |ms| ==> SmallColour(ms[j].colour) && OneLine(ms[j])
    ensures SaveMaterialsSpec(ms).error == None
    ensures LoadMaterialsSpec(ReadAllLines(WriteAllLines(SaveMaterialsSpec(ms).lines, newLine)), ft, lx) == Reloaded(ms)
  {
    SaveLoadRoundTrip(ms, ft, lx);
    SavedUnbroken(ms);
    ReadWriteRoundTrip(SaveMaterialsSpec(ms).lines, newLine);
  }

  /** A block written after the lines of a file reads back from the file's text as
      one more material, when no line holds a line break. As in `SaveLoadFile`, the
      text writes the block's blank line with the chosen newline, not with the "\n"
      the program writes, which reads back the same. */
  lemma {:induction false} LoadAppendBlockFile(lines: seq<string>, m: MaterialFields, r: (int32, int32, int32), newLine: string, ft: FloatText, lx: Lexer)
    requires ParsesIntegers(lx) && SplitsFields(lx) && ReadsIntegers(ft)
    requires newLine == "\n" || newLine == "\r\n"
    requires ExactInFloat(r.0) && ExactInFloat(r.1) && ExactInFloat(r.2)
    requires Unbroken(lines) && OneLine(m)
    requires LoadMaterialsSpec(ReadAllLines(WriteAllLines(lines, newLine)), ft, lx).error == None
    ensures var st := LoadMaterialsSpec(ReadAllLines(WriteAllLines(lines, newLine)), ft, lx);
      LoadMaterialsSpec(ReadAllLines(WriteAllLines(lines + Block(m, r), newLine)), ft, lx)
      == WithBlock(st, m.(colour := ReadColour(r)))
  {
    BlockUnbroken(m, r);
    UnbrokenConcat(lines, Block(m, r));
    ReadWriteRoundTrip(lines, newLine);
    ReadWriteRoundTrip(lines + Block(m, r), newLine);
    LoadAppendBlock(lines, m, r, ft, lx);
  }

  // ---------------------------------------------------------------------------
  // What the loader does with any file

  /** A line on which `int.Parse` or `float.Parse` throws, or a colour line with fewer
      than four fields. */
  predicate Fails(c: MatLine, ft: FloatText, lx: Lexer) {
    match c
    case SetOpacity(s) => lx.parseInt(s).None?
    case SetEnvPower(s) => lx.parseInt(s).None?
    case SetColour(fs) => ColourOf(fs, 0, ft).Err?
    case _ => false
  }

  /** A step fails exactly on a failing line, and the error names that line. */
  lemma {:induction false} StepFails(st: LoadState, index: int, c: MatLine, ft: FloatText, lx: Lexer)
    requires st.Valid() && st.error == None
    ensures Step(st, index, c, ft, lx).error.Some? <==> Fails(c, ft, lx)
    ensures Step(st, index, c, ft, lx).error.Some? ==> Step(st, index, c, ft, lx).error.value.line == index
  {
    if c.SetColour? {
      var fs := c.fields;
      assert ColourOf(fs, index, ft).Err? <==> ColourOf(fs, 0, ft).Err?;
    }
  }

  /** The loop ends without an error exactly when no line fails. */
  lemma {:induction false} RunSucceeds(st: LoadState, cs: seq<MatLine>, at: int, ft: FloatText, lx: Lexer)
    requires st.Valid() && st.error == None
    ensures Run(st, cs, at, ft, lx).error == None <==> forall i :: 0 <= i < |cs| ==> !Fails(cs[i], ft, lx)
    decreases |cs|
  {
    if |cs| > 0 {
      var next := Step(st, at, cs[0], ft, lx);
      StepFails(st, at, cs[0], ft, lx);
      if next.error == None {
        RunSucceeds(next, cs[1..], at + 1, ft, lx);
        forall i | 1 <= i < |cs|
          ensures cs[i] == cs[1..][i - 1]
        {
        }
      }
    }
  }

  /** The loop stops at the first failing line and at no other: an error names a line
      that fails, and no line before it fails. */
  lemma {:induction false} RunStopsAtFirst(st: LoadState, cs: seq<MatLine>, at: int, ft: FloatText, lx: Lexer)
    requires st.Valid() && st.error == None
    ensures var r := Run(st, cs, at, ft, lx);
      r.error.Some? ==>
        && at <= r.error.value.line < at + |cs|
        && Fails(cs[r.error.value.line - at], ft, lx)
        && forall i :: 0 <= i < r.error.value.line - at ==> !Fails(cs[i], ft, lx)
    decreases |cs|
  {
    if |cs| > 0 {
      var next := Step(st, at, cs[0], ft, lx);
      StepFails(st, at, cs[0], ft, lx);
      if next.error == None {
        RunStopsAtFirst(next, cs[1..], at + 1, ft, lx);
        forall i | 1 <= i < |cs|
          ensures cs[i] == cs[1..][i - 1]
        {
        }
      }
    }
  }

  /** The number of `[MaterialEnd]` lines. */
  function Ends(cs: seq<MatLine>): nat {
    if |cs| == 0 then 0 else (if cs[0] == End then 1 else 0) + Ends(cs[1..])
  }

  /** Each `[MaterialEnd]` appends one material and nothing else appends one: a load
      without error appends as many materials as the file has `[MaterialEnd]` lines. */
  lemma {:induction false} RunAppendsPerEnd(st: LoadState, cs: seq<MatLine>, at: int, ft: FloatText, lx: Lexer)
    requires st.Valid()
    ensures var r := Run(st, cs, at, ft, lx);
      r.error == None ==> |r.appended| == |st.appended| + Ends(cs)
    ensures |st.appended| <= |Run(st, cs, at, ft, lx).appended|
    ensures Run(st, cs, at, ft, lx).appended[..|st.appended|] == st.appended
    decreases |cs|
  {
    if st.error == None && |cs| > 0 {
      var next := Step(st, at, cs[0], ft, lx);
      RunAppendsPerEnd(next, cs[1..], at + 1, ft, lx);
      assert next.appended[..|st.appended|] == st.appended;
      var r := Run(next, cs[1..], at + 1, ft, lx);
      assert r.appended[..|st.appended|] == r.appended[..|next.appended|][..|st.appended|];
    }
  }

  /** A blank line and a line the loader does not know change no material and append
      none; an unknown line adds one warning, its first space-separated field. */
  lemma {:induction false} StepNeutral(st: LoadState, index: int, line: string, ft: FloatText, lx: Lexer)
    requires st.Valid()
    requires Classify(line, lx).Unhandled? || Classify(line, lx).Blank?
    ensures var r := Step(st, index, Classify(line, lx), ft, lx);
      && r.objs == st.objs && r.current == st.current && r.appended == st.appended && r.error == st.error
      && r.warnings == st.warnings + (if line == "" then [] else [Split(line, ' ')[0]])
  {
  }

  /** Exactly the non-blank lines that are neither block markers nor start with a key
      are reported as unknown. */
  lemma {:induction false} ClassifyUnhandled(line: string, lx: Lexer)
    ensures Classify(line, lx).Unhandled? <==>
      && line != "" && line != BeginLine && line != EndLine
      && forall f: Field :: !StartsWith(line, Key(f))
  {
    if Classify(line, lx).Unhandled? {
      forall f: Field
        ensures !StartsWith(line, Key(f))
      {
      }
    } else if line != "" && line != BeginLine && line != EndLine {
      var keyed := StartsWith(line, Key(Name)) || StartsWith(line, Key(Flags)) || StartsWith(line, Key(Opacity))
        || StartsWith(line, Key(Texture)) || StartsWith(line, Key(AlphaMask)) || StartsWith(line, Key(NormalMap))
        || StartsWith(line, Key(Colour)) || StartsWith(line, Key(EnvMap)) || StartsWith(line, Key(EnvPower));
      assert keyed;
    }
  }

  /** Every `[MaterialEnd]` comes after a `[MaterialBegin]` with no other
      `[MaterialEnd]` between them; `open` says whether the current material has not
      been appended yet. */
  predicate Bracketed(cs: seq<MatLine>, open: bool) {
    if |cs| == 0 then true
    else match cs[0]
      case Begin => Bracketed(cs[1..], true)
      case End => open && Bracketed(cs[1..], false)
      case _ => Bracketed(cs[1..], open)
  }

  /** The same material appears at most once in the list. */
  predicate Distinct(xs: seq<nat>) {
    forall i, j :: 0 <= i < j < |xs| ==> xs[i] != xs[j]
  }

  /** In a file whose blocks are well bracketed no material object is appended twice,
      so editing one entry of the list never edits another. */
  lemma {:induction false} BracketedDistinct(st: LoadState, cs: seq<MatLine>, open: bool, at: int, ft: FloatText, lx: Lexer)
    requires st.Valid() && Distinct(st.appended)
    requires open ==> st.current !in st.appended
    requires Bracketed(cs, open)
    ensures Distinct(Run(st, cs, at, ft, lx).appended)
    decreases |cs|
  {
    if st.error == None && |cs| > 0 {
      var next := Step(st, at, cs[0], ft, lx);
      match cs[0]
      case Begin =>
        assert next.current == |st.objs|;
        BracketedDistinct(next, cs[1..], true, at + 1, ft, lx);
      case End =>
        BracketedDistinct(next, cs[1..], false, at + 1, ft, lx);
      case _ =>
        BracketedDistinct(next, cs[1..], open, at + 1, ft, lx);
    }
  }

  /** A load without `[MaterialBegin]` between two `[MaterialEnd]` lines appends the
      same object twice, and a field line after the first end edits the entry already
      in the list. */
  lemma {:induction false} AliasExample(ft: FloatText, lx: Lexer)
    ensures var st := LoadMaterialsSpec([EndLine, "Name= a", EndLine], ft, lx);
      st.appended == [0, 0] && st.objs[0].name == Some("a")
  {
    var lines := [EndLine, "Name= a", EndLine];
    ClassifyEnd(lx);
    ClassifyField(Name, "a", lx);
    assert Key(Name) + "a" == "Name= a";
    var ks := Kinds(lines, lx);
    assert ks[0] == End && ks[1] == SetName("a") && ks[2] == End;
    var s1 := Step(Start, 0, End, ft, lx);
    var s2 := Step(s1, 1, SetName("a"), ft, lx);
    var s3 := Step(s2, 2, End, ft, lx);
    assert Run(Start, ks, 0, ft, lx) == Run(s1, ks[1..], 1, ft, lx);
    assert Run(s1, ks[1..], 1, ft, lx) == Run(s2, ks[1..][1..], 2, ft, lx);
    assert Run(s2, ks[1..][1..], 2, ft, lx) == Run(s3, ks[1..][1..][1..], 3, ft, lx);
    assert ks[1..][1..][1..] == [];
  }

  /** The error of `SaveMaterialsSpec`, computed without its lines. */
  function SaveError(ms: seq<MaterialFields>): Option<MatSaveError>
    decreases |ms|
  {
    if |ms| == 0 then None
    else if SaveError(ms[..|ms| - 1]).Some? then SaveError(ms[..|ms| - 1])
    else if RoundedColour(ms[|ms| - 1].colour).None? then Some(ColourOverflow(|ms| - 1))
    else None
  }

  lemma {:induction false} SaveErrorIs(ms: seq<MaterialFields>)
    ensures SaveMaterialsSpec(ms).error == SaveError(ms)
    decreases |ms|
  {
    if |ms| > 0 {
      SaveErrorIs(ms[..|ms| - 1]);
    }
  }

  /** The save fails exactly when some colour does not convert, and it then names the
      first such material. */
  lemma {:induction false} SaveMaterialsStops(ms: seq<MaterialFields>)
    ensures var w := SaveMaterialsSpec(ms);
      && (w.error == None <==> forall j :: 0 <= j < |ms| ==> RoundedColour(ms[j].colour).Some?)
      && (w.error.Some? ==>
            var k := w.error.value.material;
            && 0 <= k < |ms|
            && RoundedColour(ms[k].colour).None?
            && forall j :: 0 <= j < k ==> RoundedColour(ms[j].colour).Some?)
  {
    SaveErrorIs(ms);
    SaveErrorFirst(ms);
  }

  lemma {:induction false} SaveErrorFirst(ms: seq<MaterialFields>)
    ensures var w := SaveError(ms);
      && (w == None <==> forall j :: 0 <= j < |ms| ==> RoundedColour(ms[j].colour).Some?)
      && (w.Some? ==>
            var k := w.value.material;
            && 0 <= k < |ms|
            && RoundedColour(ms[k].colour).None?
            && forall j :: 0 <= j < k ==> RoundedColour(ms[j].colour).Some?)
    decreases |ms|
  {
    if |ms| > 0 {
      var n := |ms| - 1;
      SaveErrorFirst(ms[..n]);
      forall j | 0 <= j < n
        ensures ms[..n][j] == ms[j]
      {
      }
    }
  }

  /** A prefix of a prefix. */
  lemma TakeOfTake<T>(s: seq<T>, n: nat, k: nat)
    requires k <= n <= |s|
    ensures s[..n][..k] == s[..k]
  {
  }

  lemma TakeAll<T>(s: seq<T>)
    ensures s[..|s|] == s
  {
  }

  /** A save that has stopped before the last material writes nothing for it. */
  lemma SaveMaterialsKeepsError(ms: seq<MaterialFields>)
    requires |ms| > 0 && SaveMaterialsSpec(ms[..|ms| - 1]).error.Some?
    ensures SaveMaterialsSpec(ms) == SaveMaterialsSpec(ms[..|ms| - 1])
  {
  }

  /** Once a save has stopped, the materials after the one that stopped it change
      nothing. */
  lemma {:induction false} SaveMaterialsStopped(ms: seq<MaterialFields>, k: nat)
    requires k <= |ms| && SaveMaterialsSpec(ms[..k]).error.Some?
    ensures SaveMaterialsSpec(ms) == SaveMaterialsSpec(ms[..k])
    decreases |ms|
  {
    if k < |ms| {
      var n := |ms| - 1;
      TakeOfTake(ms, n, k);
      SaveMaterialsStopped(ms[..n], k);
      SaveMaterialsKeepsError(ms);
    } else {
      TakeAll(ms);
    }
  }

  /** One material's pass of the save loop, after the materials before it were
      written without error: the lines so far are those of the save of one more
      material. */
  lemma SaveMaterialsStep(ms: seq<MaterialFields>, i: nat, lines: seq<string>, lines': seq<string>, error: Option<MatSaveError>)
    requires i < |ms| && SaveMaterialsSpec(ms[..i]) == Written(lines, None)
    requires match RoundedColour(ms[i].colour)
      case None => lines' == lines + [BeginLine] + FieldLines(ms[i]) && error == Some(ColourOverflow(i))
      case Some(r) => lines' == lines + Block(ms[i], r) && error == None
    ensures SaveMaterialsSpec(ms[..i + 1]) == Written(lines', error)
  {
    assert ms[..i + 1][..i] == ms[..i] && ms[..i + 1][i] == ms[i];
  }

  /** A failed save has written every block before the failing material in full, and
      that material's field lines, and nothing after them. */
  lemma {:induction false} SaveMaterialsStopLines(ms: seq<MaterialFields>)
    requires SaveMaterialsSpec(ms).error.Some?
    ensures var k := SaveMaterialsSpec(ms).error.value.material;
      && k < |ms|
      && SaveMaterialsSpec(ms).lines == SaveMaterialsSpec(ms[..k]).lines + [BeginLine] + FieldLines(ms[k])
    decreases |ms|
  {
    var n := |ms| - 1;
    var before := SaveMaterialsSpec(ms[..n]);
    if before.error.Some? {
      SaveMaterialsStopLines(ms[..n]);
      var k := before.error.value.material;
      assert SaveMaterialsSpec(ms) == before;
      assert ms[..n][..k] == ms[..k];
      assert ms[..n][k] == ms[k];
    } else {
      assert ms[..n] == ms[..n];
      assert SaveMaterialsSpec(ms).error.value.material == n;
    }
  }
}
