# Big Rigs model and map descriptor files, in Dafny

This project models the file handling at the heart of BigRigsLib, a C# library for the
data files of the game *Big Rigs: Over the Road Racing*:

- `SCOModel` holds a 3D model and its material list. Its fields are a name, vertices,
  texture coordinates, faces and materials. It can:
  - load a model from an SCO text file and save one back;
  - load a MAT material library and save one back;
  - export the model as a Wavefront OBJ file;
  - import a scene that the Assimp library has read.
- `MapDescriptor` (a DSC file) is a plain list of file references, one per line. It
  can be loaded and saved.

Both classes change their lists in place, and so does the model. `SCOModel` and
`MapDescriptor` are Dafny classes. Their fields are `seq` values that the methods
reassign. A `Material` is its own class, because the C# material is a reference type:
the loader can put one object into the list twice.

Each method is proved against a function that states its whole effect:
- `LoadModelSpec`, `LoadMaterialsSpec`, `SaveModelSpec` and `SaveMaterialsSpec`;
- `ExportObjSpec` and `ImportSpec`;
- `ReadAllLines` and `WriteAllLines` for the map descriptor.

What the source promises is then proved about those functions as lemmas.

The modules follow the program:

- `Text`: the .NET behaviour the code relies on:
  - C# `int` wrap-around;
  - `Split`, `int.Parse` and `int.ToString`;
  - `File.ReadAllLines` and `StreamWriter.WriteLine`.
- `Geometry`: vectors, faces, a model's geometry, and the `float` text conventions.
- `ScoFormat`: the SCO format.
- `MatFormat`: the MAT format and `Convert.ToInt32`.
- `ObjFormat`: the OBJ export.
- `AssimpImport`: the effect of the import.
- `Sco`: the `SCOModel` and `Material` classes.
- `Dsc`: the `MapDescriptor` class.

The C# code stops at the first exception and keeps everything it had already appended.
The model does the same:
- every operation returns the error that stopped it, if any;
- the state it states is the partial state.

The loaders take a file's lines and the savers return the lines they write. The map
descriptor works on the whole file text, so its save/load round trip is stated over
line splitting.

## Model

| member | source | states |
|---|---|---|
| Sco.SCOModel.constructor | BigRigsLib/SCOModel.cs:17 | A new model has no name, no vertices, texture coordinates or faces, and no materials. |
| Sco.Material.constructor | BigRigsLib/SCOModel.cs:48-59 | A new material has null strings, zero opacity and zero power, and a black colour. |
| Sco.SCOModel.LoadModel | BigRigsLib/SCOModel.cs:71-113 | The new model and the error are exactly `LoadModelSpec` of the old model and the file's lines. The materials are untouched. |
| Sco.SCOModel.LoadVertices | BigRigsLib/SCOModel.cs:80-85 | The vertex loop appends, in place, exactly what `VertexLoop` says: one vertex per line from line 4 on, stopping at the first line that does not parse. |
| Sco.SCOModel.LoadFaces | BigRigsLib/SCOModel.cs:88-112 | The face loop appends, in place, exactly what `FaceLoop` says for the face lines from line 5 + vertCount on. |
| Sco.SCOModel.LoadFaceLine | BigRigsLib/SCOModel.cs:91-111 | One pass of the face loop appends the face, then the corners it could read, and stops at the first token that fails. |
| ScoFormat.LineSuffix | BigRigsLib/SCOModel.cs:77 | `Substring` succeeds exactly when the line exists and is long enough. The line is then the skipped prefix followed by the result. |
| ScoFormat.FaceAt | BigRigsLib/SCOModel.cs:91-100 | A face read succeeds only on an existing line. A failure names the line being read. |
| ScoFormat.CornerAt | BigRigsLib/SCOModel.cs:104-111 | A texture coordinate read from a face line has a V that is never negative (`Math.Abs`). It needs tokens up to 6 + 2c. A failure names the line. |
| ScoFormat.ReadFaceLine | BigRigsLib/SCOModel.cs:91-111 | A face line loads whole exactly when its face and all three corners parse. It has a face exactly when `FaceAt` succeeds. Each corner it keeps is `CornerAt` of that line. |
| ScoFormat.VertexLoopAppends | BigRigsLib/SCOModel.cs:80-85 | The vertex loop keeps the old vertices and appends vertex p from line 4 + p. It changes nothing else. It fails exactly when some line fails, and reports the first such line's error. |
| ScoFormat.FaceLoopEnds | BigRigsLib/SCOModel.cs:88-112 | The face loop keeps the old faces and coordinates. It adds one face and three coordinates per line when it succeeds. Otherwise it stops at the first line that does not load, with that line's error and the partial face and corners of that line. |
| ScoFormat.FaceRunLoads | BigRigsLib/SCOModel.cs:88-112 | The face loop succeeds if and only if every one of its lines loads. |
| ScoFormat.FaceRunStops | BigRigsLib/SCOModel.cs:88-112 | A failed face loop reports the first line that does not load; every earlier line loads. |
| ScoFormat.FaceRunKeeps | BigRigsLib/SCOModel.cs:88-112 | The face loop changes only faces and texture coordinates. It keeps what was there before. On success it adds `count` faces and 3·`count` coordinates. |
| ScoFormat.FaceRunFaces | BigRigsLib/SCOModel.cs:94-101 | Every face the loop appends is `FaceAt` of its own line. |
| ScoFormat.FaceRunCorners | BigRigsLib/SCOModel.cs:104-111 | Coordinate 3j + c that the loop appends is corner c of face line j. |
| ScoFormat.FaceRunAbsolute | BigRigsLib/SCOModel.cs:104-111 | Every coordinate the loop appends has a V that is not negative. |
| ScoFormat.LoadModelSteps | BigRigsLib/SCOModel.cs:77-89 | A successful load had: a name line; a vertex count on line 3 and a vertex loop that succeeded; a face count on line 4 + vertCount; and a face loop from line 5 + vertCount. |
| ScoFormat.LoadModelNames | BigRigsLib/SCOModel.cs:77 | The name is line 1 after its first six characters. Without such a line the load changes nothing and fails. |
| ScoFormat.LoadModelAppends | BigRigsLib/SCOModel.cs:71-113 | Whether or not the load fails, it keeps the old vertices, faces and coordinates as prefixes. Each coordinate it adds has a V that is not negative. |
| ScoFormat.LoadModelCounts | BigRigsLib/SCOModel.cs:80-89 | A successful load adds vertCount vertices (none for a negative count), faceCount faces and 3·faceCount coordinates. The vertex count is at least -4, because line 4 + vertCount holds the face count. Every successful load had at least 5 + vertCount + faceCount lines, a negative face count counting as zero. |
| ScoFormat.LoadModelVertices | BigRigsLib/SCOModel.cs:81-85 | After a successful load, vertex p is the one read from line 4 + p. |
| ScoFormat.LoadModelFaces | BigRigsLib/SCOModel.cs:89-101 | After a successful load, face p is the one read from line 5 + vertCount + p. |
| ScoFormat.LoadModelCorners | BigRigsLib/SCOModel.cs:103-111 | After a successful load, coordinate 3j + c is corner c of face line j. |
| Sco.SCOModel.SaveModel | BigRigsLib/SCOModel.cs:181-208 | The lines written and the error are exactly `SaveModelSpec` of the model. The model is untouched. |
| ScoFormat.LeadingTextured | BigRigsLib/SCOModel.cs:199-203 | It returns how many leading faces index only existing texture coordinates. All of those faces do, and the next one does not. |
| ScoFormat.SaveModelStops | BigRigsLib/SCOModel.cs:199-203 | The save fails if and only if some face indexes past the texture coordinates. It then names the first such face. |
| ScoFormat.SaveModelLayout | BigRigsLib/SCOModel.cs:186-206 | The saved lines are, in order: the header; the name; the central point; the vertex count; one line per vertex; the face count; one line per face; and the footer. The footer is written only on success. |
| ScoFormat.SaveLoadCounts | BigRigsLib/SCOModel.cs:187-191 | The loader reads back the model's name, its vertex count and its face count from the list of saved lines. |
| ScoFormat.HeaderUnbroken | BigRigsLib/SCOModel.cs:186-196 | The header lines of a save hold no line break when the name holds none and numbers are written as tokens. |
| ScoFormat.SaveLoadCountsFile | BigRigsLib/SCOModel.cs:74-88 | The loader reads back the name and both counts from the saved text after `File.ReadAllLines`, with "\n" or "\r\n". This needs a name without line breaks. |
| ScoFormat.VertexLineReads | BigRigsLib/SCOModel.cs:194 | The loader reads a saved vertex line back as the same vertex, when each coordinate is a value `float.Parse` can produce. |
| ScoFormat.SavedVertexAt | BigRigsLib/SCOModel.cs:192-195 | Vertex i is written on line 4 + i. |
| ScoFormat.SaveLoadVertices | BigRigsLib/SCOModel.cs:192-195 | Every saved vertex reads back as itself at line 4 + i, when its coordinates are values `float.Parse` can produce. |
| ScoFormat.SavedFaceLineTokens | BigRigsLib/SCOModel.cs:201-202 | A saved face line whose material is non-empty and holds no blank or tab splits into 10 blank-separated tokens, not 11. The first -V and the second U are joined. |
| ScoFormat.SavedFaceLineFails | BigRigsLib/SCOModel.cs:201-202 | The loader cannot read the third corner of a saved face line whose material is non-empty and holds no blank or tab. |
| ScoFormat.SaveThenLoadFails | BigRigsLib/SCOModel.cs:199-203 | Loading the saved lines of a model with a face fails, whatever the model loaded into, when face 0's material is non-empty and holds no blank or tab. |
| Sco.SCOModel.LoadMaterials | BigRigsLib/SCOModel.cs:119-175 | The error and warnings are those of `LoadMaterialsSpec`. It creates one fresh object per material the load makes, and that object holds the made contents. It appends to the list the objects `[MaterialEnd]` appended, in order, and the same object again when appended twice. The model is untouched. |
| Sco.SCOModel.LoadLine | BigRigsLib/SCOModel.cs:126-174 | One pass of the loop keeps the objects, the current material and the list in step with one `Step` of the specification. |
| Sco.SCOModel.OnBegin | BigRigsLib/SCOModel.cs:129 | `[MaterialBegin]` makes a fresh default material current. |
| Sco.SCOModel.OnEnd | BigRigsLib/SCOModel.cs:163 | `[MaterialEnd]` appends the current object to the list. |
| Sco.SCOModel.OnOther | BigRigsLib/SCOModel.cs:132-173 | A field line changes only the current object. An unhandled line adds a warning. |
| Sco.NewMaterial | BigRigsLib/SCOModel.cs:129 | The new current material is a fresh object whose contents are the specification's new default entry. |
| Sco.SetField | BigRigsLib/SCOModel.cs:132-160 | A field line sets that field of the current object as `Step` does, or fails on an unparsable number. |
| Sco.SetFieldOf | BigRigsLib/SCOModel.cs:132-160 | Setting a field updates exactly the current entry of the specification state. |
| MatFormat.ClassifyField | BigRigsLib/SCOModel.cs:129-160 | A line made of a field's key and a value is read as that field with that value, whatever the value. The order of the key tests never misreads it. |
| MatFormat.ClassifyColour | BigRigsLib/SCOModel.cs:150-154 | A written colour line is read as a colour with its four space-separated fields. |
| MatFormat.ClassifyEnd | BigRigsLib/SCOModel.cs:163-168 | `[MaterialEnd]` is an end line and a blank line is ignored. |
| MatFormat.ClassifyUnhandled | BigRigsLib/SCOModel.cs:166-172 | A line draws a warning if and only if it is not blank, is neither bracket line, and starts with no field key. |
| MatFormat.StepNeutral | BigRigsLib/SCOModel.cs:166-173 | A blank or unhandled line changes no material. An unhandled line adds its first field as a warning. |
| MatFormat.StepFails | BigRigsLib/SCOModel.cs:138-160 | From a state without error, one line fails the load exactly when its number does not parse, or a colour field is missing or does not parse. The failure names that line. |
| MatFormat.RunSucceeds | BigRigsLib/SCOModel.cs:126-174 | The load succeeds if and only if no line fails. |
| MatFormat.RunStopsAtFirst | BigRigsLib/SCOModel.cs:126-174 | A failed load reports the first failing line. No earlier line fails. |
| MatFormat.RunAppendsPerEnd | BigRigsLib/SCOModel.cs:163 | The list only grows. A successful load appends one entry per `[MaterialEnd]`. |
| MatFormat.BracketedDistinct | BigRigsLib/SCOModel.cs:129-163 | When every end follows its own begin, no material object is in the list twice. |
| MatFormat.AliasExample | BigRigsLib/SCOModel.cs:123-163 | Two ends with no begin between them append the same object twice. A field line between them edits the entry already appended. |
| Sco.SCOModel.SaveMaterials | BigRigsLib/SCOModel.cs:214-238 | The lines and the error are exactly `SaveMaterialsSpec` of the materials' contents. Nothing changes. |
| Sco.SCOModel.SaveBlock | BigRigsLib/SCOModel.cs:220-235 | One block: the begin line, the field lines, the colour line, the end line and a blank line. Or, when the colour overflows, only the begin and field lines and the error. |
| Sco.SCOModel.SaveFields | BigRigsLib/SCOModel.cs:224-231 | The field lines of a material, in the order the saver writes them. |
| MatFormat.FieldLinesInOrder | BigRigsLib/SCOModel.cs:224-231 | The field lines are: name, flags, opacity, texture, environment map, power, alpha mask, normal map. Null strings and zero numbers are skipped. |
| MatFormat.ToInt32Nearest | BigRigsLib/SCOModel.cs:232 | `Convert.ToInt32` is within a half of its input and rounds a tie to even. It fails exactly outside [-2147483648.5, 2147483647.5). |
| MatFormat.ToInt32OfInteger | BigRigsLib/SCOModel.cs:232 | A whole number converts to itself. |
| MatFormat.RestoredStable | BigRigsLib/SCOModel.cs:232 | A colour read back from a saved colour line converts to the same whole numbers again, so rounding happens once. |
| MatFormat.SaveMaterialsStops | BigRigsLib/SCOModel.cs:218-236 | The save fails if and only if some colour overflows. It then names the first such material. |
| MatFormat.SaveMaterialsStopLines | BigRigsLib/SCOModel.cs:218-236 | A failed save wrote the blocks before the failing material, then that material's begin line and field lines. |
| MatFormat.LoadAppendBlock | BigRigsLib/SCOModel.cs:119-175 | When the earlier lines load without error, loading them followed by one saved block appends exactly one new material. Its contents are the saved ones with the colour rounded. |
| MatFormat.LoadAppendBlockFile | BigRigsLib/SCOModel.cs:122-175 | The same through the written text and `File.ReadAllLines`, when no line and no string field holds a line break. |
| MatFormat.SaveLoadRoundTrip | BigRigsLib/SCOModel.cs:214-238 | Loading the list of lines the saver writes gives back every material in order, its colour rounded. Each is a new object appended once, with no warning and no error. This holds for colours that convert and that a `float` holds. |
| MatFormat.SavedUnbroken | BigRigsLib/SCOModel.cs:218-236 | The saved lines hold no line break when no string field of a material holds one. |
| MatFormat.SaveLoadFile | BigRigsLib/SCOModel.cs:122-238 | The same round trip through the saved text and `File.ReadAllLines`, with "\n" or "\r\n". This needs string fields without line breaks. |
| MatFormat.CarryDefaults | BigRigsLib/SCOModel.cs:224-231 | Reading a block's field lines into a new material recovers every field but the colour. |
| MatFormat.ReadColourLine | BigRigsLib/SCOModel.cs:153 | A written colour line reads back as the rounded colour. |
| Sco.SCOModel.ExportOBJ | BigRigsLib/SCOModel.cs:244-271 | The lines written are exactly `ExportObjSpec` of the model. The model is untouched. |
| Sco.SCOModel.WriteVertices | BigRigsLib/SCOModel.cs:250-252 | Appends one `v` line per vertex, in order. |
| Sco.SCOModel.WriteTexCoords | BigRigsLib/SCOModel.cs:255-259 | Appends one `vt` line per texture coordinate, in order. |
| Sco.SCOModel.WriteFaces | BigRigsLib/SCOModel.cs:262-269 | Appends one `f` line per face, in order. Face j refers to texture coordinate `FaceCounter(j)` and the next two. |
| ObjFormat.ExportObjLayout | BigRigsLib/SCOModel.cs:250-264 | The export has 6 + vertices + coordinates + faces lines. Its headings, blank lines and `o` line are at fixed places. |
| ObjFormat.ExportObjVertex | BigRigsLib/SCOModel.cs:251-252 | Line 1 + i is vertex i's `v` line. |
| ObjFormat.ExportObjTexture | BigRigsLib/SCOModel.cs:256-259 | Line 3 + vertices + t is coordinate t's `vt` line. |
| ObjFormat.ExportObjFace | BigRigsLib/SCOModel.cs:265-269 | Line 6 + vertices + coordinates + j is face j's `f` line with counter `FaceCounter(j)`. |
| ObjFormat.FaceCounterValue | BigRigsLib/SCOModel.cs:262-268 | While it does not overflow, face i's counter is 3i + 1. |
| ObjFormat.ObjFaceReads | BigRigsLib/SCOModel.cs:267 | Face line j reads back as the three one-based vertex indices, with texture indices counter, counter + 1 and counter + 2. |
| ObjFormat.ObjFaceReadsBack | BigRigsLib/SCOModel.cs:262-269 | While 3i + 3 fits an `int`, face i references texture coordinates 3i + 1, 3i + 2 and 3i + 3, and its vertices plus one. Past that bound the counter wraps. |
| ObjFormat.ReadCornerRef | BigRigsLib/SCOModel.cs:267 | A `vertex/texture` pair reads back as the vertex plus one and the texture index. |
| Sco.SCOModel.ImportAssimp | BigRigsLib/SCOModel.cs:277-330 | The new model, the materials' contents and the error are exactly `ImportSpec` of the old ones and the scene. The old material objects stay, in order, as a prefix. Every other object is new. |
| Sco.SCOModel.ImportMeshes | BigRigsLib/SCOModel.cs:283-314 | The mesh loop does what `AfterMeshes` says. The materials are untouched. |
| Sco.SCOModel.ImportMeshAt | BigRigsLib/SCOModel.cs:286-313 | One mesh appends its vertices and its coordinates, then its faces offset by the old vertex count. |
| Sco.SCOModel.ImportFaces | BigRigsLib/SCOModel.cs:303-313 | The face loop appends exactly the faces of `MeshFaces` and stops on its error. Nothing else changes. |
| Sco.SCOModel.ImportMaterials | BigRigsLib/SCOModel.cs:317-329 | The material loop does what `AfterMaterials` says. It keeps the old objects and adds new ones. |
| Sco.SCOModel.ImportMaterialAt | BigRigsLib/SCOModel.cs:319-328 | One pass of the material loop appends one new material, or fails when the texture path is missing. |
| Sco.SCOModel.NewImported | BigRigsLib/SCOModel.cs:320-327 | The new object holds the material `ImportMaterial` makes. |
| Sco.SCOModel.AddMaterial | BigRigsLib/SCOModel.cs:328 | Appends one object and its contents. The model is untouched. |
| AssimpImport.LastIndexOf | BigRigsLib/SCOModel.cs:325 | The last position of the character, or -1. No later position holds it. |
| AssimpImport.FileNameAfterLastBackslash | BigRigsLib/SCOModel.cs:325 | The texture is the end of the path after its last backslash, or the whole path when it has none. The texture holds no backslash. |
| AssimpImport.MeshFacesAppend | BigRigsLib/SCOModel.cs:303-313 | A mesh's faces import if and only if every face has at least three indices and, when there is a face, `Materials[m]` exists. Face f is then indices 0-2 plus the offset, named after `Materials[m]`. |
| AssimpImport.MeshFacesStopped | BigRigsLib/SCOModel.cs:303-313 | Once a face fails, the later faces change nothing. |
| AssimpImport.AfterMeshesSucceeds | BigRigsLib/SCOModel.cs:283-314 | The mesh loop succeeds if and only if every mesh's faces import. |
| AssimpImport.AfterMeshesGrows | BigRigsLib/SCOModel.cs:283-314 | The mesh loop keeps the old vertices, faces and coordinates as prefixes. It leaves the name and materials alone. On success it adds every mesh's vertices and faces. |
| AssimpImport.AfterMeshesMonotone | BigRigsLib/SCOModel.cs:283-314 | The vertex and face lists after fewer meshes are prefixes of those after more, when the later pass succeeded. |
| AssimpImport.ImportSpecMeshes | BigRigsLib/SCOModel.cs:277-330 | The import's model is the mesh loop's model. The material loop does not touch it. |
| AssimpImport.MeshPlacesVertex | BigRigsLib/SCOModel.cs:286-292 | Vertex i of mesh m lands after the vertices already there and those of earlier meshes. |
| AssimpImport.MeshPlacesFace | BigRigsLib/SCOModel.cs:303-313 | Face f of mesh m lands after the faces already there and those of earlier meshes. |
| AssimpImport.MeshKeepsGeometry | BigRigsLib/SCOModel.cs:286-313 | When the scene index addresses a vertex of its own mesh and the resulting vertex list fits the `int` range, an imported face's corner is a valid index into the model's vertices. It points to the same vertex the mesh's face pointed to. The program checks neither condition. |
| AssimpImport.ImportKeepsGeometry | BigRigsLib/SCOModel.cs:277-330 | The same, for the whole import, under the same two conditions: a scene index that addresses a vertex of its own mesh stays valid and points at the same vertex, while the model's vertex list fits the `int` range. |
| AssimpImport.AfterMaterialsKeeps | BigRigsLib/SCOModel.cs:317-329 | The material loop keeps the model and the old materials. It does nothing after an earlier error. |
| AssimpImport.AfterMaterialsStopped | BigRigsLib/SCOModel.cs:317-329 | Once a material fails, the later materials change nothing. |
| AssimpImport.AfterMaterialsSucceeds | BigRigsLib/SCOModel.cs:317-329 | The material loop succeeds if and only if every material it passes has a texture path. |
| AssimpImport.AfterMaterialsMakes | BigRigsLib/SCOModel.cs:317-329 | A successful material loop appends `MadeMaterial` of each scene material it passes, in order. |
| AssimpImport.AfterMaterialsAppend | BigRigsLib/SCOModel.cs:317-329 | The material loop succeeds if and only if every material has a texture path. It then appends one material per scene material, in order. |
| AssimpImport.ImportSucceeds | BigRigsLib/SCOModel.cs:277-330 | The import succeeds if and only if every mesh's faces import and every material has a texture path. |
| AssimpImport.ImportAppendsMaterials | BigRigsLib/SCOModel.cs:320-328 | A successful import keeps the old materials. It then adds one per scene material: the name, flags "texture_gouraud_", opacity 255, the texture's file name, and colour (255, 255, 255). |
| Text.Wrap32Modulo | BigRigsLib/SCOModel.cs:307-309 | C# `int` addition agrees with the sum modulo 2^32 and leaves an in-range sum alone. |
| Text.ParseIntToString | BigRigsLib/SCOModel.cs:80-88 | `int.Parse` reads back the text `int.ToString` writes. |
| Text.TokensOfJoin | BigRigsLib/SCOModel.cs:91 | Splitting at blanks and tabs and dropping empty entries gives back non-empty blank-free tokens joined by spaces. |
| Text.SplitJoin | BigRigsLib/SCOModel.cs:83 | Splitting at a separator gives back separator-free pieces joined by it. |
| Text.JoinSplit | BigRigsLib/SCOModel.cs:83 | Joining the pieces `Split` returns with the separator gives back the string, so splitting a vertex or colour line loses no character. |
| Text.DotNetLexerLaws | BigRigsLib/SCOModel.cs:80-98 | The .NET string functions as defined here satisfy the laws the loaders are proved under. |
| Text.ReadWritePrefix | BigRigsLib/SCOModel.cs:74 | Leading written lines without line breaks read back unchanged, followed by whatever the rest reads as. |
| Text.ReadWriteRoundTrip | BigRigsLib/MapDescriptor.cs:26-46 | `File.ReadAllLines` of the text written with one `WriteLine` per line gives those lines back. This holds with "\n" or "\r\n" and when no line holds a line break. |
| Geometry.Abs | BigRigsLib/SCOModel.cs:104 | `Math.Abs` is not negative and is the number or its negation. |
| Dsc.MapDescriptor.constructor | BigRigsLib/MapDescriptor.cs:11-17 | A new descriptor has no files. |
| Dsc.MapDescriptor.FromText | BigRigsLib/MapDescriptor.cs:12-17 | A descriptor made from a file holds exactly that file's lines. |
| Dsc.MapDescriptor.Load | BigRigsLib/MapDescriptor.cs:23-33 | Loading appends every line of the file, in order, to the files already there. The list grows by the number of lines. |
| Dsc.MapDescriptor.Save | BigRigsLib/MapDescriptor.cs:39-48 | The text written is one line per entry, in order, each ended by the newline. The list is unchanged. |
| Dsc.WriteAllLinesSnoc | BigRigsLib/MapDescriptor.cs:43-46 | One more `WriteLine` appends the line and the newline to the text. |
| Dsc.SaveThenLoad | BigRigsLib/MapDescriptor.cs:23-48 | Loading saved text into a descriptor appends exactly the saved list, when no entry holds a line break. |
| Dsc.SaveThenLoadSplitsBreaks | BigRigsLib/MapDescriptor.cs:43-46 | An entry holding a line break comes back as two entries. |

## Left out

- File I/O: the loaders take a file's lines, or its text for the map descriptor. The savers and the export return what they write. Opening, creating and disposing files is not modelled, and neither is the file path.
- Floating point: coordinates and colours are `real`. `float.Parse` and the text a `float` is written as depend on the culture, so they are a parameter (`FloatText`). The properties that need them assume the stated laws (`WritesTokens`, `ReadsBack`, `ReadsIntegers`); `IntegerFloats` meets all three, so they are consistent. `ReadsBack` covers only values `float.Parse` produces (`Parsed`), as round-trip formatting does. `ExactInFloat` bounds the colours that read back exactly. Not modelled: `float.Parse` also accepts "NaN" and "Infinity", which a `real` cannot hold, and .NET writes a zero V negated by the face line of a save as "-0".
- `StartsWith` compares character by character. The .NET overload the MAT loader calls compares by the current culture, which also matches a key preceded by a character the culture ignores (such as a soft hyphen).
- The .NET string splitting and `int.Parse` are a parameter (`Lexer`) with laws. `DotNetLexer` is one instance that meets them. Culture-specific digits and signs accepted by `int.Parse` are not modelled.
- Sco.SCOModel.LoadModel: the line index `5 + vertCount + i` is computed without C# `int` wrap-around. A file long enough to reach that overflow cannot be read into memory anyway.
- Sco.SCOModel.SaveModel: the counts written are the list lengths, which in C# always fit an `int`. The model does not bound them.
- `Console.WriteLine` for an unhandled MAT line is modelled as the list of warned keys, not as console output.
- `SCOModel.Face` is a value, not an object: nothing in the code shares or mutates a face after adding it.
- The constructor `SCOModel(string file)` that dispatches on the file extension is not modelled. Each operation it calls is.
- The Assimp library itself, reading and pre-transforming a file into a scene, is not modelled. The import starts from the parts of the scene it reads. A material without a diffuse texture has a `null` path, which is modelled as a missing path that stops the import. The third component of an Assimp texture coordinate is dropped, as the code drops it.
- `Materials[m]` is looked up by the mesh's position in the scene, as the code does; the model does not use the mesh's own material index.
- MatFormat.SaveLoadRoundTrip, MatFormat.LoadAppendBlock and ScoFormat.SaveLoadCounts go from the saver's list of lines straight to the loader. `SaveLoadFile`, `LoadAppendBlockFile` and `SaveLoadCountsFile` state the same through the written text. They need string values free of line breaks, because `File.ReadAllLines` splits a value that holds one (`SaveThenLoadSplitsBreaks` shows this for the map descriptor). The modelled text writes every line with the chosen newline. The program writes the blank line after `[MaterialEnd]`, and the blank lines before the OBJ headings, with a "\n" of its own, so with "\r\n" its text differs from the modelled one, while `File.ReadAllLines` reads both as the same lines.
- The SCO save→load round trip does not hold: a saved face line whose material is non-empty and holds no blank or tab has only 10 tokens where the loader reads 11. `SaveThenLoadFails` states the failure instead of a round trip, under that condition on face 0's material. A material with a blank (an imported name such as "Mat 2") adds tokens, so such a line can load, with the wrong material and the wrong texture coordinates; the model does not state that case.
- Sco.SCOModel.LoadMaterials: the list may hold the same object twice (`AliasExample`). The contract states the aliasing through `Listed` rather than promising distinct entries, which hold only for well-bracketed files (`BracketedDistinct`).
- The loop bodies of the loaders, savers and import are split into helper methods (for example `ImportMeshAt`, `ImportFaces`, `SaveBlock`). Each helper is proved against the same specification functions.
