/** The value types shared by the model codec, the OBJ export and the import
    adapter: vectors, faces, the geometry of a model, and the number text
    conventions the codecs are parameterised by. */
module Geometry {
  import opened Text

  datatype Vector3 = Vector3(x: real, y: real, z: real)

  datatype Vector2 = Vector2(x: real, y: real)

  /** A triangle: three indices into the vertex list and the name of its material. */
  datatype Face = Face(vertex1: int32, vertex2: int32, vertex3: int32, material: string)

  /** Everything an `SCOModel` holds except its materials. */
  datatype ModelData = ModelData(
    name: Option<string>,
    vertices: seq<Vector3>,
    textureCoordinates: seq<Vector2>,
    faces: seq<Face>)

  const EmptyModel := ModelData(None, [], [], [])

  /** `float.Parse` and the text a `float` is written as (culture-dependent .NET code,
      so a parameter of the model rather than a definition). */
  datatype FloatText = FloatText(parse: string -> Option<real>, format: real -> string)

  /** Every written number is one non-empty token without blanks or line breaks. */
  ghost predicate WritesTokens(ft: FloatText) {
    forall x: real :: ft.format(x) != "" && Free(ft.format(x), {' ', '\t', '\n', '\r'})
  }

  /** `float.Parse` reads back the text written for every number it can produce
      (round-trip formatting of the values a `float` holds). */
  ghost predicate ReadsBack(ft: FloatText) {
    forall s: string, x: real {:trigger ft.parse(s), ft.format(x)} :: ft.parse(s) == Some(x) ==> ft.parse(ft.format(x)) == Some(x)
  }

  /** `x` is a value `float.Parse` produces for some text: a value a `float` holds. */
  ghost predicate Parsed(ft: FloatText, x: real) {
    exists s: string :: ft.parse(s) == Some(x)
  }

  /** Each coordinate of `v` is a value a `float` holds. */
  ghost predicate ParsedVertex(ft: FloatText, v: Vector3) {
    Parsed(ft, v.x) && Parsed(ft, v.y) && Parsed(ft, v.z)
  }

  /** The integers a `float` holds exactly: magnitude at most 2^24. */
  predicate ExactInFloat(n: int) {
    -16777216 <= n <= 16777216
  }

  /** `float.Parse` reads an `int` written by `int.ToString` as that integer, for the
      integers a `float` holds exactly. */
  ghost predicate ReadsIntegers(ft: FloatText) {
    forall n: int32 :: ExactInFloat(n) ==> ft.parse(IntToString(n)) == Some(n as real)
  }

  /** A number text that reads and writes only the integers a `float` holds exactly;
      it meets every law above, so none of them is contradictory. */
  function IntegerFloats(): FloatText {
    FloatText((s: string) => var r := ParseInt32(s); if r.Some? && ExactInFloat(r.value) then Some(r.value as real) else None,
              (x: real) => IntToString(x.Floor))
  }

  lemma {:induction false} IntegerFloatsLaws()
    ensures WritesTokens(IntegerFloats()) && ReadsBack(IntegerFloats()) && ReadsIntegers(IntegerFloats())
  {
    var ft := IntegerFloats();
    forall x: real
      ensures ft.format(x) != "" && Free(ft.format(x), {' ', '\t', '\n', '\r'})
    {
      IntToStringToken(x.Floor);
    }
    forall s: string, x: real | ft.parse(s) == Some(x)
      ensures ft.parse(ft.format(x)) == Some(x)
    {
      var n := ParseInt32(s).value;
      assert x == n as real && x.Floor == n;
      ParseIntToString(n);
    }
    forall n: int32 | ExactInFloat(n)
      ensures ft.parse(IntToString(n)) == Some(n as real)
    {
      ParseIntToString(n);
    }
  }

  /** `Math.Abs`. */
  function Abs(r: real): (a: real)
    ensures a >= 0.0 && (a == r || a == -r)
  {
    if r < 0.0 then -r else r
  }

  /** A string interpolated into text: `null` writes nothing. */
  function NameText(name: Option<string>): string {
    if name.Some? then name.value else ""
  }
}
