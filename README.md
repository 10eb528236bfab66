# OBJ mesh loader and geometry values of a software triangle renderer

This project models `src/geometry.rs` of a small Rust software renderer:

- the Wavefront OBJ loader `Mesh::load_from_obj_file`;
- the value types it builds: `Vec3`, `Triangle`, `Mesh`;
- the value operations on `Vec3` and `Mat4x4`.

Each module states what the source promises and proves it.

- `obj_loader.dfy` (module `ObjLoader`) holds the loader.
  - `LoadFromObjFile` is the loop of the source, imperative. It goes over the lines of the file, already read. It keeps the vertices and triangles read so far in two sequences that it reassigns.
  - The loop is proved against a specification function, `Load`. `Load` scans the lines in order and stops at the first failure.
  - The lemmas next to it state what one line does:
    - a line is skipped;
    - a vertex is appended;
    - a triangle is appended;
    - the load fails.
  - They also state what a load that succeeds contains.
  - The outcome is a `Result<Mesh>` with three kinds of failure:
    - `MissingToken` is the `None` that the `?` operator returns when a `v` or `f` line has fewer than three fields.
    - `UnparsableNumber` is the panic of `unwrap` on a failed `parse`.
    - `BadIndex` is the panic of indexing `verts` with a face index of 0, or with one past the vertices read so far.
  - `str::parse::<f32>` and `str::parse::<usize>` are library calls. They are parameters here (`Parsers`): partial functions from a token to a number.
- `tokens.dfy` (module `Tokens`) models `str::split_whitespace`. A token is a maximal run of characters without the Unicode White_Space property. It proves that splitting undoes joining with single spaces.
- `geometry.dfy` (module `Geometry`) holds the value types and their operations.
  - The source computes in `f32`. Here an `f32` value is the term that computed it: a literal, or a sum, difference, product or quotient. Every fact is therefore about which operands an operation combines, and in which order, and holds under any rounding.
  - The facts proved are:
    - which operations reset the homogeneous `w` to 1.0;
    - which components each operation reads;
    - which matrix entries feed each output of `Mat4x4::multiply_vector`.

The branches of the loader's loop are the methods `ObjLoader.ReadVertex` (the `v` branch) and `ObjLoader.ReadFace` (the `f` branch). Each takes the fields one by one, in the order the source does, with the same early exits. The source writes these branches inline.

A malformed number (`unwrap` on a failed `parse`) and an out-of-range face index (an out-of-bounds `verts[...]`) panic; they do not return `None`. The model keeps them apart from `MissingToken`.

## Model

| member | source | states |
|---|---|---|
| ObjLoader.LoadFromObjFile | src/geometry.rs:108-156 | The loop returns exactly `Load(lines)`: the mesh of the `f` lines when every line loads, otherwise the error of the first line that fails. Nothing after that line is looked at. |
| ObjLoader.ReadVertex | src/geometry.rs:124-134 | The `v` branch, which starts from `Vec3::ZERO` and sets x, y, z field by field, computes `ParseVertex` of the line. This covers the missing-token and unparsable exits. |
| ObjLoader.ReadFace | src/geometry.rs:137-149 | The `f` branch computes `ParseFace` of the line over the vertices read so far. This covers the missing-token and unparsable exits and the out-of-range index. |
| ObjLoader.TakeNumbers | src/geometry.rs:130-132 | Taking n numbers succeeds iff the first n tokens exist and all parse. It then yields their values in order. The error is `MissingToken` iff fewer than n tokens exist and all those present parse. It is `UnparsableNumber` iff one of the first n tokens does not parse. It is never `BadIndex`. |
| ObjLoader.TakeThree | src/geometry.rs:141-143 | Three tokens that parse are taken as exactly those three values, in order. |
| ObjLoader.ParseVertex | src/geometry.rs:124-134 | A `v` line gives a vertex iff it has three fields and they parse as `f32`. The vertex's x, y, z are those numbers in field order, and its w is 1.0. Fields past the third are ignored. |
| ObjLoader.ParseFace | src/geometry.rs:137-149 | An `f` line gives a triangle iff its three fields parse as indices in 1..number of vertices read. The triangle is white, with corners `verts[a-1]`, `verts[b-1]`, `verts[c-1]` in field order. `BadIndex` iff the three parse and one is out of range. |
| ObjLoader.LineStep | src/geometry.rs:117-150 | A line that is not a `v ` or `f ` line leaves the accumulator unchanged. A line that loads only extends the vertex and triangle lists, by at most one item in all. |
| ObjLoader.IgnoredLineChangesNothing | src/geometry.rs:117-123 | A line whose first two characters are not `v ` or `f ` has no effect wherever it appears. This includes an empty line, a one-character line, `vn`, `vt`, `mtllib` and `o name`. |
| ObjLoader.VertexStep | src/geometry.rs:124-134 | A `v` line whose first three fields parse to x, y, z appends exactly the vertex (x, y, z, 1.0) and leaves the triangles unchanged. |
| ObjLoader.VertexLineAppends | src/geometry.rs:124-134 | The same, for a `v` line that follows lines which all loaded. |
| ObjLoader.FaceStep | src/geometry.rs:141-149 | An `f a b c` line with in-range indices appends exactly the white triangle `[verts[a-1], verts[b-1], verts[c-1]]` and leaves the vertices unchanged. |
| ObjLoader.FaceLineAppends | src/geometry.rs:141-149 | The same, for an `f` line that follows lines which all loaded. |
| ObjLoader.FaceOfIndices | src/geometry.rs:145-149 | Three in-range indices name the triangle of those three vertices, in index order. |
| ObjLoader.MissingTokenLoadsNothing | src/geometry.rs:130-132 | A `v` or `f` line with fewer than three fields, all of which parse, makes the whole load `MissingToken` (the source's `None`). No partial mesh is returned, whatever follows. |
| ObjLoader.UnparsableFieldPanics | src/geometry.rs:141-143 | A present field among the first three that does not parse makes the load a panic. This is distinct from the `None` of a missing field, whatever follows. |
| ObjLoader.BadIndexPanics | src/geometry.rs:145-149 | A face index of 0, or past the number of `v` lines so far, makes the load a panic. This includes a forward reference to a later vertex. |
| ObjLoader.FailureIsFinal | src/geometry.rs:115-151 | Once a line fails, the lines after it do not change the outcome. |
| ObjLoader.StopsAt | src/geometry.rs:130-149 | When the lines before line i loaded and line i fails, the load fails with line i's error. |
| ObjLoader.ScanAppend | src/geometry.rs:115-151 | One more line applies its step, unless a failure came first. |
| ObjLoader.ScanStepOk | src/geometry.rs:115-151 | One more line that loads gives that line's accumulator. |
| ObjLoader.FieldsAfterTag | src/geometry.rs:126-129 | After a tag and a space, the fields are the whitespace tokens of the rest of the line. |
| ObjLoader.ParseFaceExtends | src/geometry.rs:145-149 | A triangle built from some vertices is built the same way when more vertices follow. Later `v` lines do not change earlier triangles. |
| ObjLoader.ScannedContents | src/geometry.rs:112-150 | After lines that all loaded, there is one vertex per `v` line and one triangle per `f` line. The k-th vertex is that of the k-th `v` line, and the k-th triangle is that of the k-th `f` line. |
| ObjLoader.DescribesStep | src/geometry.rs:124-150 | One more line that loads preserves that description. |
| ObjLoader.LoadedMesh | src/geometry.rs:145-155 | On success the mesh has as many triangles as there are `f` lines, in `f`-line order. All are white, and each is built from the `v`-line vertices its indices name. |
| ObjLoader.Tagged | src/geometry.rs:117-123 | No contract: its body is the classification, a first character `tag` and a second character that is a space. `IgnoredLineChangesNothing` and `LineStep` state what it decides. |
| ObjLoader.Ignored | src/geometry.rs:123-137 | No contract: a line that is neither a `v ` nor an `f ` line. `IgnoredLineChangesNothing` proves such a line has no effect. |
| ObjLoader.Fields | src/geometry.rs:126-129 | No contract: the `split_whitespace` tokens after the first (the tag). `FieldsAfterTag` and `FieldsOfWrittenLine` state what they are. |
| ObjLoader.Scan | src/geometry.rs:112-151 | No contract: the lines applied in order by `LineStep`, stopping at the first failure. `ScannedContents`, `FailureIsFinal` and `IgnoredLineChangesNothing` state what it accumulates. |
| ObjLoader.Load | src/geometry.rs:153-155 | No contract: the triangles that `Scan` accumulates, or its error. `LoadFromObjFile` is proved to compute it, and `LoadedMesh` states what it contains. |
| ObjLoader.TaggedLines | src/geometry.rs:123-137 | Every line it selects carries the tag. |
| ObjLoader.Vertices | src/geometry.rs:124-134 | No contract: a reference definition whose meaning is its body, the parsed vertex of each `v` line in order. `LoadedMesh` proves that the loader's vertices are exactly these. |
| ObjLoader.FieldsOfWrittenLine | src/geometry.rs:138-143 | A line written as a tag, a space and single-space-separated tokens has exactly those tokens as its fields. |
| ObjLoader.OneTriangleExample | src/geometry.rs:108-156 | The file `v 0 0 0`, `v 1 0 0`, `v 0 1 0`, `f 1 2 3` loads as one white triangle with those three points, in index order. |
| Tokens.WordLength | src/geometry.rs:126 | The leading token's length: no whitespace before it, and whitespace or the end of the line at it. |
| Tokens.SplitWhitespace | src/geometry.rs:126 | Every token is non-empty and free of whitespace. |
| Tokens.WordThenRest | src/geometry.rs:138 | A token followed by whitespace or by the end of the line is split off as one token. |
| Tokens.SplitJoin | src/geometry.rs:138 | Splitting a line of single-space-separated tokens gives back exactly those tokens. None is lost, merged, split or reordered. |
| Tokens.SplitAfterTag | src/geometry.rs:129 | A line starting with a one-character tag and a space splits into the tag and the tokens of the rest. |
| Geometry.Vec3.New | src/geometry.rs:18-20 | A new point has the given x, y, z and w = 1.0. |
| Geometry.Vec3.NewWithW | src/geometry.rs:23-25 | All four components are as given. |
| Geometry.Vec3.Add | src/geometry.rs:28-34 | No contract: its body is the definition. `ArithmeticResetsW` and `ArithmeticIsComponentwise` state that it sums x, y, z componentwise and resets w to 1.0. |
| Geometry.Vec3.Sub | src/geometry.rs:37-43 | No contract: its body is the definition. `ArithmeticResetsW` and `ArithmeticIsComponentwise` state that it subtracts componentwise and resets w to 1.0. |
| Geometry.Vec3.Mul | src/geometry.rs:46-52 | No contract: its body is the definition. `ArithmeticResetsW` and `ArithmeticIsComponentwise` state that it scales x, y, z by `k` and resets w to 1.0. |
| Geometry.Vec3.Div | src/geometry.rs:54-60 | No contract: its body is the definition. `ArithmeticResetsW` and `ArithmeticIsComponentwise` state that it divides x, y, z by `k` and resets w to 1.0. |
| Geometry.Vec3.DotProduct | src/geometry.rs:63-65 | No contract: its body, the three products summed left to right, is the definition. `DotProductReadsOnlyXyz` states that it ignores w. |
| Geometry.ArithmeticResetsW | src/geometry.rs:28-60 | `add`, `sub`, `mul` and `div` never read the inputs' w and always return w = 1.0. |
| Geometry.ArithmeticIsComponentwise | src/geometry.rs:28-60 | The c-th output of `add`, `sub`, `mul` or `div` (c < 3) combines only the c-th input components, and `k`. |
| Geometry.DotProductReadsOnlyXyz | src/geometry.rs:63-65 | The dot product does not depend on either w. |
| Geometry.Mat4x4.Default | src/geometry.rs:159-162 | The derived default matrix has every entry 0.0. |
| Geometry.Mat4x4.MultiplyVector | src/geometry.rs:166-173 | Output component c, w included, is `i.x*m[0][c] + i.y*m[1][c] + i.z*m[2][c] + i.w*m[3][c]`, summed left to right. There is no homogeneous divide. |
| Geometry.MultiplyVectorReadsOneColumn | src/geometry.rs:166-173 | Output component c depends only on column c of the matrix. |
| Geometry.MultiplyVectorDividesNothing | src/geometry.rs:166-173 | No division takes part: from division-free inputs, all four outputs are division-free. |
| Geometry.Triangle.Default | src/geometry.rs:92-98 | The default triangle is three copies of `Vec3::ZERO`, coloured white. |
| Geometry.Triangle.New | src/geometry.rs:84-89 | A new triangle has the given corners, and its colour is the default's. |

## Left out

- Opening the file and reading lines (`File::open`, `BufReader::lines`, and the `?` on an I/O error, lines 109-116) are I/O. The model starts from the lines already read.
- The internals of `parse::<f32>` and `parse::<usize>` are library code. They are abstract partial functions supplied by the caller.
- `f32` rounding, infinities and NaN: scalars are symbolic terms. No identity that holds only over exact reals is claimed.
- `Vec3::length` and `Vec3::normalize` depend on `f32::sqrt`. `normalize` is `div` by the length, so by `ArithmeticResetsW` it also yields w = 1.0.
- `DotProduct` has no contract of its own: its meaning is the sum of the three products, which is its body. `DotProductReadsOnlyXyz` states what is claimed about it.
- `speedy2d::color::Color` is reduced to the one colour the loader uses, white.
- `usize` arithmetic in `v1 - 1`: an index of 0 underflows. A debug build panics on the subtraction, and a release build panics on the out-of-bounds index. Both are the one failure `BadIndex`.
- Which panic message, and unwinding: a panic is modelled as an error value that ends the load.
- `src/main.rs` is not part of this model. It is window handling, drawing calls, timing and an `f64` rotation and projection pipeline, and it does not call the loader.
