/** `Mesh::load_from_obj_file`: reading a triangle mesh from the lines of a
    Wavefront OBJ file.

    Each line is classified by its first two characters. A line `v x y z`
    appends a vertex; a line `f a b c` appends a triangle made of the
    vertices with those 1-based indices among the vertices read so far;
    every other line is ignored. Opening and reading the file is not part of
    this model: the loader starts from the lines already read. Parsing a
    token as `f32` or `usize` is a library call, modelled as a partial
    function given by the caller. */
module ObjLoader {
  import opened Geometry
  import opened Tokens

  datatype Option<T> = None | Some(value: T)

  /** `str::parse::<f32>` and `str::parse::<usize>`: `None` when the token is
      not a number of that type. */
  datatype Parsers = Parsers(float: string -> Option<real>, index: string -> Option<nat>)

  /** Why a load does not produce a mesh. `MissingToken` is the `None` the
      loader returns when a `v` or `f` line has fewer than three tokens after
      its tag; the other two are panics: `unwrap` on a failed parse, and a
      face index of 0 or past the vertices read so far. */
  datatype LoadError = MissingToken | UnparsableNumber | BadIndex

  datatype Result<T> = Ok(value: T) | Err(error: LoadError)

  /** What the loader has accumulated so far. */
  datatype Accum = Accum(verts: seq<Vec3>, tris: seq<Triangle>)

  /** The line starts with `tag` followed by a space. */
  predicate Tagged(line: string, tag: char) {
    |line| >= 2 && line[0] == tag && line[1] == ' '
  }

  /** A line the loader skips: anything but a `v ` or an `f ` line. */
  predicate Ignored(line: string) {
    !Tagged(line, 'v') && !Tagged(line, 'f')
  }

  /** The tokens of a line after its first one (the tag). */
  function Fields(line: string): seq<string> {
    var ts := SplitWhitespace(line);
    if ts == [] then [] else ts[1..]
  }

  /** Parses the first `n` tokens in order; the first token that is missing
      or does not parse decides the error. Tokens past the `n`-th are never
      looked at. */
  function TakeNumbers<T>(toks: seq<string>, parse: string -> Option<T>, n: nat): (r: Result<seq<T>>)
    ensures r.Ok? <==> n <= |toks| && forall k | 0 <= k < n :: parse(toks[k]).Some?
    ensures r.Ok? ==> |r.value| == n && forall k | 0 <= k < n :: parse(toks[k]) == Some(r.value[k])
    ensures r.Err? && r.error == MissingToken <==>
              |toks| < n && forall k | 0 <= k < |toks| :: parse(toks[k]).Some?
    ensures r.Err? && r.error == UnparsableNumber <==>
              exists k | 0 <= k < n && k < |toks| :: parse(toks[k]).None?
    ensures r.Err? ==> r.error != BadIndex
    decreases n
  {
    if n == 0 then Ok([])
    else if toks == [] then Err(MissingToken)
    else match parse(toks[0])
      case None => Err(UnparsableNumber)
      case Some(v) =>
        match TakeNumbers(toks[1..], parse, n - 1)
        case Err(e) => Err(e)
        case Ok(vs) => Ok([v] + vs)
  }

  /** Three tokens that all parse are taken as those three values, in order. */
  lemma TakeThree<T>(toks: seq<string>, parse: string -> Option<T>, a: T, b: T, c: T)
    requires |toks| >= 3
    requires parse(toks[0]) == Some(a) && parse(toks[1]) == Some(b) && parse(toks[2]) == Some(c)
    ensures TakeNumbers(toks, parse, 3) == Ok([a, b, c])
  {
    var r := TakeNumbers(toks, parse, 3);
    assert parse(toks[0]).Some? && parse(toks[1]).Some? && parse(toks[2]).Some?;
    assert r.value == [r.value[0], r.value[1], r.value[2]];
  }

  /** The vertex of a `v` line: its first three fields as x, y, z, and w = 1.0. */
  function ParseVertex(line: string, P: Parsers): (r: Result<Vec3>)
    ensures r.Ok? <==> |Fields(line)| >= 3 && forall k | 0 <= k < 3 :: P.float(Fields(line)[k]).Some?
    ensures r.Ok? ==> r.value.w == ONE
    ensures r.Ok? ==> forall k | 0 <= k < 3 :: r.value.Component(k) == Lit(P.float(Fields(line)[k]).value)
    ensures r.Err? ==> r.error != BadIndex
  {
    match TakeNumbers(Fields(line), P.float, 3)
    case Err(e) => Err(e)
    case Ok(c) => Ok(Vec3.New(Lit(c[0]), Lit(c[1]), Lit(c[2])))
  }

  /** The triangle of an `f` line: the vertices that its first three fields
      name, 1-based, among `verts`, in field order; coloured white. */
  function ParseFace(line: string, verts: seq<Vec3>, P: Parsers): (r: Result<Triangle>)
    ensures r.Ok? <==> (|Fields(line)| >= 3 &&
              forall k | 0 <= k < 3 :: P.index(Fields(line)[k]).Some? &&
                                       1 <= P.index(Fields(line)[k]).value <= |verts|)
    ensures r.Ok? ==> r.value.col == White
    ensures r.Ok? ==> r.value.p == [verts[P.index(Fields(line)[0]).value - 1],
                                    verts[P.index(Fields(line)[1]).value - 1],
                                    verts[P.index(Fields(line)[2]).value - 1]]
    ensures r.Err? && r.error == BadIndex <==>
              |Fields(line)| >= 3 && (forall k | 0 <= k < 3 :: P.index(Fields(line)[k]).Some?) &&
              exists k | 0 <= k < 3 :: !(1 <= P.index(Fields(line)[k]).value <= |verts|)
  {
    match TakeNumbers(Fields(line), P.index, 3)
    case Err(e) => Err(e)
    case Ok(ix) =>
      if forall k | 0 <= k < 3 :: 1 <= ix[k] <= |verts| then
        Ok(Triangle.New([verts[ix[0] - 1], verts[ix[1] - 1], verts[ix[2] - 1]]))
      else
        Err(BadIndex)
  }

  /** The effect of one line on what has been accumulated. */
  function LineStep(acc: Accum, line: string, P: Parsers): (r: Result<Accum>)
    ensures Ignored(line) ==> r == Ok(acc)
    ensures r.Ok? ==> acc.verts <= r.value.verts && acc.tris <= r.value.tris
    ensures r.Ok? ==> |r.value.verts| + |r.value.tris| <= |acc.verts| + |acc.tris| + 1
  {
    if Tagged(line, 'v') then
      match ParseVertex(line, P)
      case Err(e) => Err(e)
      case Ok(v) => Ok(acc.(verts := acc.verts + [v]))
    else if Tagged(line, 'f') then
      match ParseFace(line, acc.verts, P)
      case Err(e) => Err(e)
      case Ok(t) => Ok(acc.(tris := acc.tris + [t]))
    else
      Ok(acc)
  }

  /** The lines processed in order, stopping at the first failure. */
  function Scan(lines: seq<string>, P: Parsers): Result<Accum>
    decreases |lines|
  {
    if lines == [] then Ok(Accum([], []))
    else
      match Scan(lines[..|lines| - 1], P)
      case Err(e) => Err(e)
      case Ok(acc) => LineStep(acc, lines[|lines| - 1], P)
  }

  /** The result of loading: the triangles accumulated, or the first failure. */
  function Load(lines: seq<string>, P: Parsers): Result<Mesh> {
    match Scan(lines, P)
    case Err(e) => Err(e)
    case Ok(acc) => Ok(Mesh(acc.tris))
  }

  /** Loads a mesh from the lines of an OBJ file. */
  method LoadFromObjFile(lines: seq<string>, P: Parsers) returns (r: Result<Mesh>)
    ensures r == Load(lines, P)
  {
    var tris: seq<Triangle> := [];
    var verts: seq<Vec3> := [];

    var i := 0;
    while i < |lines|
      invariant 0 <= i <= |lines|
      invariant Scan(lines[..i], P) == Ok(Accum(verts, tris))
    {
      var line := lines[i];
      var ch := if |line| > 0 then line[0] else ' ';
      ScanAppend(lines[..i], line, P);
      assert lines[..i] + [line] == lines[..i + 1];

      if |line| >= 2 && line[1] == ' ' {
        if ch == 'v' {
          var vector := ReadVertex(line, P);
          if vector.Err? { r := Err(vector.error); StopsAt(lines, i, P); return; }
          verts := verts + [vector.value];
        }

        if ch == 'f' {
          var triangle := ReadFace(line, verts, P);
          if triangle.Err? { r := Err(triangle.error); StopsAt(lines, i, P); return; }
          tris := tris + [triangle.value];
        }
      }
      i := i + 1;
    }
    assert lines[..i] == lines;
    r := Ok(Mesh(tris));
  }

  /** The body of the `v` branch: the fields after the tag are taken one at
      a time, a missing one ending the load with `None` and one that does not
      parse panicking; the vertex starts at the origin and gets x, y, z in turn. */
  method ReadVertex(line: string, P: Parsers) returns (r: Result<Vec3>)
    ensures r == ParseVertex(line, P)
  {
    var vector := ZERO;
    var split := SplitWhitespace(line);
    if split != [] { split := split[1..]; }
    ghost var F := split;
    assert F == Fields(line);

    if split == [] { return Err(MissingToken); }
    var x := P.float(split[0]);
    if x.None? { return Err(UnparsableNumber); }
    vector := vector.(x := Lit(x.value));
    split := split[1..];

    if split == [] { return Err(MissingToken); }
    var y := P.float(split[0]);
    if y.None? { return Err(UnparsableNumber); }
    vector := vector.(y := Lit(y.value));
    split := split[1..];

    if split == [] { return Err(MissingToken); }
    var z := P.float(split[0]);
    if z.None? { return Err(UnparsableNumber); }
    vector := vector.(z := Lit(z.value));

    TakeThree(F, P.float, x.value, y.value, z.value);
    r := Ok(vector);
  }

  /** The body of the `f` branch: three indices taken as in `ReadVertex`,
      then each checked to name a vertex already read. */
  method ReadFace(line: string, verts: seq<Vec3>, P: Parsers) returns (r: Result<Triangle>)
    ensures r == ParseFace(line, verts, P)
  {
    var split := SplitWhitespace(line);
    if split != [] { split := split[1..]; }
    ghost var F := split;
    assert F == Fields(line);

    if split == [] { return Err(MissingToken); }
    var v1 := P.index(split[0]);
    if v1.None? { return Err(UnparsableNumber); }
    split := split[1..];

    if split == [] { return Err(MissingToken); }
    var v2 := P.index(split[0]);
    if v2.None? { return Err(UnparsableNumber); }
    split := split[1..];

    if split == [] { return Err(MissingToken); }
    var v3 := P.index(split[0]);
    if v3.None? { return Err(UnparsableNumber); }

    TakeThree(F, P.index, v1.value, v2.value, v3.value);
    if !(1 <= v1.value <= |verts|) || !(1 <= v2.value <= |verts|) || !(1 <= v3.value <= |verts|) {
      return Err(BadIndex);
    }
    r := Ok(Triangle.New([verts[v1.value - 1], verts[v2.value - 1], verts[v3.value - 1]]));
  }

  /** Scanning one more line applies that line's step, unless a failure came first. */
  lemma ScanAppend(a: seq<string>, line: string, P: Parsers)
    ensures Scan(a + [line], P) == if Scan(a, P).Err? then Scan(a, P) else LineStep(Scan(a, P).value, line, P)
  {
    assert (a + [line])[..|a|] == a;
  }

  /** Scanning one more line that loads gives that line's result. */
  lemma ScanStepOk(a: seq<string>, line: string, P: Parsers, acc: Accum, acc': Accum)
    requires Scan(a, P) == Ok(acc) && LineStep(acc, line, P) == Ok(acc')
    ensures Scan(a + [line], P) == Ok(acc')
  {
    ScanAppend(a, line, P);
  }

  /** Once a line fails, the whole load fails with that line's error. */
  lemma StopsAt(lines: seq<string>, i: nat, P: Parsers)
    requires i < |lines|
    requires Scan(lines[..i], P).Ok?
    requires LineStep(Scan(lines[..i], P).value, lines[i], P).Err?
    ensures Load(lines, P) == Err(LineStep(Scan(lines[..i], P).value, lines[i], P).error)
  {
    assert lines[..i] + [lines[i]] == lines[..i + 1];
    ScanAppend(lines[..i], lines[i], P);
    FailureIsFinal(lines[..i + 1], lines[i + 1..], P);
    assert lines[..i + 1] + lines[i + 1..] == lines;
  }

  /** A failure is final: nothing after the failing line is looked at, and
      no partial mesh is produced. */
  lemma {:induction false} FailureIsFinal(a: seq<string>, b: seq<string>, P: Parsers)
    requires Scan(a, P).Err?
    ensures Scan(a + b, P) == Scan(a, P)
    decreases |b|
  {
    if b == [] {
      assert a + b == a;
    } else {
      var b' := b[..|b| - 1];
      FailureIsFinal(a, b', P);
      assert (a + b)[..|a + b| - 1] == a + b';
    }
  }

  /** After a tag and a space, the fields are the tokens of the rest of the line. */
  lemma FieldsAfterTag(line: string, tag: char)
    requires Tagged(line, tag) && !IsWhitespace(tag)
    ensures Fields(line) == SplitWhitespace(line[2..])
  {
    assert line == [tag, ' '] + line[2..];
    SplitAfterTag(tag, line[2..]);
  }

  /** A skipped line (one whose second character is not a space, or whose
      tag is neither `v` nor `f`) changes nothing, wherever it appears. */
  lemma {:induction false} IgnoredLineChangesNothing(a: seq<string>, line: string, b: seq<string>, P: Parsers)
    requires Ignored(line)
    ensures Scan(a + [line] + b, P) == Scan(a + b, P)
    decreases |b|
  {
    if b == [] {
      ScanAppend(a, line, P);
      assert a + [line] + b == a + [line];
      assert a + b == a;
    } else {
      var b', last := b[..|b| - 1], b[|b| - 1];
      IgnoredLineChangesNothing(a, line, b', P);
      assert a + [line] + b == (a + [line] + b') + [last];
      assert a + b == (a + b') + [last];
      ScanAppend(a + [line] + b', last, P);
      ScanAppend(a + b', last, P);
    }
  }

  /** A `v` line whose first three fields parse appends exactly one vertex,
      made of those three numbers in order with w = 1.0; the triangles and
      the earlier vertices are unchanged and further fields are ignored. */
  lemma VertexStep(acc: Accum, line: string, P: Parsers, x: real, y: real, z: real)
    requires Tagged(line, 'v') && |Fields(line)| >= 3
    requires P.float(Fields(line)[0]) == Some(x)
    requires P.float(Fields(line)[1]) == Some(y)
    requires P.float(Fields(line)[2]) == Some(z)
    ensures LineStep(acc, line, P) == Ok(Accum(acc.verts + [Vec3(Lit(x), Lit(y), Lit(z), Lit(1.0))], acc.tris))
  {
    var v := ParseVertex(line, P).value;
    assert v.Component(0) == Lit(x) && v.Component(1) == Lit(y) && v.Component(2) == Lit(z);
  }

  /** The same, for a `v` line that follows lines which loaded. */
  lemma VertexLineAppends(a: seq<string>, line: string, P: Parsers, x: real, y: real, z: real)
    requires Scan(a, P).Ok?
    requires Tagged(line, 'v') && |Fields(line)| >= 3
    requires P.float(Fields(line)[0]) == Some(x)
    requires P.float(Fields(line)[1]) == Some(y)
    requires P.float(Fields(line)[2]) == Some(z)
    ensures Scan(a + [line], P) ==
              Ok(Accum(Scan(a, P).value.verts + [Vec3(Lit(x), Lit(y), Lit(z), Lit(1.0))], Scan(a, P).value.tris))
  {
    VertexStep(Scan(a, P).value, line, P, x, y, z);
    ScanAppend(a, line, P);
  }

  /** An `f a b c` line whose indices name vertices already read appends
      exactly one white triangle with corners `verts[a-1]`, `verts[b-1]`,
      `verts[c-1]`, in that order; the vertices are unchanged. */
  lemma FaceStep(acc: Accum, line: string, P: Parsers, i1: nat, i2: nat, i3: nat)
    requires Tagged(line, 'f') && |Fields(line)| >= 3
    requires P.index(Fields(line)[0]) == Some(i1)
    requires P.index(Fields(line)[1]) == Some(i2)
    requires P.index(Fields(line)[2]) == Some(i3)
    requires 1 <= i1 <= |acc.verts| && 1 <= i2 <= |acc.verts| && 1 <= i3 <= |acc.verts|
    ensures LineStep(acc, line, P) ==
              Ok(Accum(acc.verts, acc.tris + [Triangle([acc.verts[i1 - 1], acc.verts[i2 - 1], acc.verts[i3 - 1]], White)]))
  {
    FaceOfIndices(line, acc.verts, P, i1, i2, i3);
  }

  /** The same, for an `f` line that follows lines which loaded. */
  lemma FaceLineAppends(a: seq<string>, line: string, P: Parsers, i1: nat, i2: nat, i3: nat)
    requires Scan(a, P).Ok?
    requires Tagged(line, 'f') && |Fields(line)| >= 3
    requires P.index(Fields(line)[0]) == Some(i1)
    requires P.index(Fields(line)[1]) == Some(i2)
    requires P.index(Fields(line)[2]) == Some(i3)
    requires 1 <= i1 <= |Scan(a, P).value.verts|
    requires 1 <= i2 <= |Scan(a, P).value.verts|
    requires 1 <= i3 <= |Scan(a, P).value.verts|
    ensures var acc := Scan(a, P).value;
            Scan(a + [line], P) ==
              Ok(Accum(acc.verts, acc.tris + [Triangle([acc.verts[i1 - 1], acc.verts[i2 - 1], acc.verts[i3 - 1]], White)]))
  {
    FaceStep(Scan(a, P).value, line, P, i1, i2, i3);
    ScanAppend(a, line, P);
  }

  /** The triangle an `f` line names when its three indices are in range. */
  lemma FaceOfIndices(line: string, verts: seq<Vec3>, P: Parsers, i1: nat, i2: nat, i3: nat)
    requires |Fields(line)| >= 3
    requires P.index(Fields(line)[0]) == Some(i1)
    requires P.index(Fields(line)[1]) == Some(i2)
    requires P.index(Fields(line)[2]) == Some(i3)
    requires 1 <= i1 <= |verts| && 1 <= i2 <= |verts| && 1 <= i3 <= |verts|
    ensures ParseFace(line, verts, P) == Ok(Triangle([verts[i1 - 1], verts[i2 - 1], verts[i3 - 1]], White))
  {
    var F := Fields(line);
    forall k | 0 <= k < 3
      ensures P.index(F[k]).Some? && 1 <= P.index(F[k]).value <= |verts|
    {
      if k == 0 {} else if k == 1 {} else {}
    }
    var t := ParseFace(line, verts, P).value;
    assert t.p == [t.p[0], t.p[1], t.p[2]];
  }

  /** A `v` or `f` line with fewer than three fields after its tag (all of
      which parse) makes the whole load return `None`: no partial mesh,
      whatever follows. */
  lemma MissingTokenLoadsNothing(a: seq<string>, line: string, b: seq<string>, P: Parsers)
    requires Scan(a, P).Ok?
    requires |Fields(line)| < 3
    requires || (Tagged(line, 'v') && forall k | 0 <= k < |Fields(line)| :: P.float(Fields(line)[k]).Some?)
             || (Tagged(line, 'f') && forall k | 0 <= k < |Fields(line)| :: P.index(Fields(line)[k]).Some?)
    ensures Load(a + [line] + b, P) == Err(MissingToken)
  {
    ScanAppend(a, line, P);
    FailureIsFinal(a + [line], b, P);
  }

  /** A field among the first three that is present but does not parse is a
      panic (`unwrap`), not the `None` of a missing field. */
  lemma UnparsableFieldPanics(a: seq<string>, line: string, b: seq<string>, P: Parsers, k: nat)
    requires Scan(a, P).Ok?
    requires k < 3 && k < |Fields(line)|
    requires || (Tagged(line, 'v') && P.float(Fields(line)[k]).None?)
             || (Tagged(line, 'f') && P.index(Fields(line)[k]).None?)
    ensures Load(a + [line] + b, P) == Err(UnparsableNumber)
  {
    ScanAppend(a, line, P);
    FailureIsFinal(a + [line], b, P);
  }

  /** The lines of `lines` that carry `tag`, in order. */
  function TaggedLines(lines: seq<string>, tag: char): (r: seq<string>)
    ensures forall k | 0 <= k < |r| :: Tagged(r[k], tag)
    decreases |lines|
  {
    if lines == [] then []
    else
      var last := lines[|lines| - 1];
      TaggedLines(lines[..|lines| - 1], tag) + if Tagged(last, tag) then [last] else []
  }

  /** The vertices of the `v` lines of `lines`, in order. */
  function Vertices(lines: seq<string>, P: Parsers): seq<Vec3>
  {
    var vl := TaggedLines(lines, 'v');
    seq(|vl|, k requires 0 <= k < |vl| =>
      match ParseVertex(vl[k], P)
      case Ok(v) => v
      case Err(_) => ZERO)
  }

  /** A triangle that could be built from some vertices is built the same
      way when more vertices follow them. */
  lemma ParseFaceExtends(line: string, verts: seq<Vec3>, more: seq<Vec3>, P: Parsers)
    requires ParseFace(line, verts, P).Ok?
    ensures ParseFace(line, verts + more, P) == ParseFace(line, verts, P)
  {
    var t, t' := ParseFace(line, verts, P).value, ParseFace(line, verts + more, P).value;
    assert t.p == [t.p[0], t.p[1], t.p[2]];
    assert t'.p == [t'.p[0], t'.p[1], t'.p[2]];
  }

  /** `acc` is what the lines `a` accumulate: the k-th vertex is that of the
      k-th `v` line, and the k-th triangle is that of the k-th `f` line,
      built from the vertices in `acc`. */
  ghost predicate Describes(acc: Accum, a: seq<string>, P: Parsers) {
    var vl, fl := TaggedLines(a, 'v'), TaggedLines(a, 'f');
    && |acc.verts| == |vl|
    && (forall k | 0 <= k < |vl| :: ParseVertex(vl[k], P) == Ok(acc.verts[k]))
    && |acc.tris| == |fl|
    && (forall k | 0 <= k < |fl| :: ParseFace(fl[k], acc.verts, P) == Ok(acc.tris[k]))
  }

  /** What has been accumulated after lines that all loaded is described
      by their `v` and `f` lines alone. `Describes` builds each triangle
      from all the vertices read; `ParseFaceExtends` is why that is the
      same triangle as the one built when its line was read. */
  lemma {:induction false} ScannedContents(a: seq<string>, P: Parsers)
    requires Scan(a, P).Ok?
    ensures Describes(Scan(a, P).value, a, P)
    decreases |a|
  {
    if a != [] {
      var a', line := a[..|a| - 1], a[|a| - 1];
      assert a == a' + [line];
      ScanAppend(a', line, P);
      ScannedContents(a', P);
      DescribesStep(Scan(a', P).value, a', line, P);
    }
  }

  /** One more line that loads keeps the description. */
  lemma DescribesStep(acc: Accum, a: seq<string>, line: string, P: Parsers)
    requires Describes(acc, a, P) && LineStep(acc, line, P).Ok?
    ensures Describes(LineStep(acc, line, P).value, a + [line], P)
  {
    TaggedLinesAppend(a, line, 'v');
    TaggedLinesAppend(a, line, 'f');
    if Tagged(line, 'v') {
      DescribesVertex(acc, a, line, ParseVertex(line, P).value, P);
    } else if Tagged(line, 'f') {
      DescribesFace(acc, a, line, ParseFace(line, acc.verts, P).value, P);
    }
  }

  /** The tagged lines of one more line. */
  lemma TaggedLinesAppend(a: seq<string>, line: string, tag: char)
    ensures TaggedLines(a + [line], tag) == TaggedLines(a, tag) + if Tagged(line, tag) then [line] else []
  {
    assert (a + [line])[..|a|] == a;
  }

  /** A `v` line keeps the description: triangles built earlier are
      unchanged by the new vertex. */
  lemma DescribesVertex(acc: Accum, a: seq<string>, line: string, v: Vec3, P: Parsers)
    requires Describes(acc, a, P)
    requires Tagged(line, 'v') && ParseVertex(line, P) == Ok(v)
    requires TaggedLines(a + [line], 'v') == TaggedLines(a, 'v') + [line]
    requires TaggedLines(a + [line], 'f') == TaggedLines(a, 'f')
    ensures Describes(Accum(acc.verts + [v], acc.tris), a + [line], P)
  {
    var fl := TaggedLines(a, 'f');
    forall k | 0 <= k < |fl|
      ensures ParseFace(fl[k], acc.verts + [v], P) == Ok(acc.tris[k])
    {
      ParseFaceExtends(fl[k], acc.verts, [v], P);
    }
  }

  /** An `f` line keeps the description. */
  lemma DescribesFace(acc: Accum, a: seq<string>, line: string, t: Triangle, P: Parsers)
    requires Describes(acc, a, P)
    requires ParseFace(line, acc.verts, P) == Ok(t)
    requires TaggedLines(a + [line], 'v') == TaggedLines(a, 'v')
    requires TaggedLines(a + [line], 'f') == TaggedLines(a, 'f') + [line]
    ensures Describes(Accum(acc.verts, acc.tris + [t]), a + [line], P)
  {
  }

  /** On success the mesh holds one white triangle per `f` line, in file
      order, each built from the vertices of the `v` lines its indices name. */
  lemma LoadedMesh(lines: seq<string>, P: Parsers)
    requires Load(lines, P).Ok?
    ensures var tris, fl := Load(lines, P).value.tris, TaggedLines(lines, 'f');
            && |tris| == |fl|
            && (forall k | 0 <= k < |tris| :: tris[k].col == White)
            && (forall k | 0 <= k < |fl| :: ParseFace(fl[k], Vertices(lines, P), P) == Ok(tris[k]))
  {
    ScannedContents(lines, P);
    var acc := Scan(lines, P).value;
    var vl := TaggedLines(lines, 'v');
    assert acc.verts == Vertices(lines, P) by {
      forall k | 0 <= k < |vl| ensures acc.verts[k] == Vertices(lines, P)[k] {
        assert ParseVertex(vl[k], P) == Ok(acc.verts[k]);
      }
    }
  }

  /** A face index of 0, or past the `v` lines read so far (a forward
      reference to a later vertex included), is a panic. */
  lemma BadIndexPanics(a: seq<string>, line: string, b: seq<string>, P: Parsers, k: nat)
    requires Scan(a, P).Ok?
    requires Tagged(line, 'f') && |Fields(line)| >= 3
    requires forall j | 0 <= j < 3 :: P.index(Fields(line)[j]).Some?
    requires k < 3
    requires P.index(Fields(line)[k]).value == 0 || P.index(Fields(line)[k]).value > |TaggedLines(a, 'v')|
    ensures Load(a + [line] + b, P) == Err(BadIndex)
  {
    ScannedContents(a, P);
    ScanAppend(a, line, P);
    FailureIsFinal(a + [line], b, P);
  }

  /** A line written as a tag, a space and tokens separated by single
      spaces has exactly those tokens as its fields. */
  lemma FieldsOfWrittenLine(tag: char, ts: seq<string>)
    requires !IsWhitespace(tag)
    requires forall k | 0 <= k < |ts| :: IsWord(ts[k])
    ensures Fields([tag, ' '] + Join(ts)) == ts
  {
    var line := [tag, ' '] + Join(ts);
    assert line[2..] == Join(ts);
    FieldsAfterTag(line, tag);
    SplitJoin(ts);
  }

  /** Three vertices and one face load as exactly one white triangle whose
      corners are the three parsed points, in face-index order. */
  lemma OneTriangleExample(P: Parsers)
    requires P.float("0") == Some(0.0) && P.float("1") == Some(1.0)
    requires P.index("1") == Some(1) && P.index("2") == Some(2) && P.index("3") == Some(3)
    ensures Load(["v 0 0 0", "v 1 0 0", "v 0 1 0", "f 1 2 3"], P) ==
              Ok(Mesh([Triangle([Vec3.New(Lit(0.0), Lit(0.0), Lit(0.0)),
                                 Vec3.New(Lit(1.0), Lit(0.0), Lit(0.0)),
                                 Vec3.New(Lit(0.0), Lit(1.0), Lit(0.0))], White)]))
  {
    ExampleFirstVertex();
    ExampleSecondVertex();
    ExampleThirdVertex();
    ExampleFaceLine();
    ScanOneTriangle("v 0 0 0", "v 1 0 0", "v 0 1 0", "f 1 2 3", P);
  }

  /** The fields of the example's lines. Each literal line has a lemma of its
      own: Dafny evaluates `Fields` of a literal string eagerly, and two such
      lines in one proof are already too costly. */
  lemma ExampleFirstVertex()
    ensures Tagged("v 0 0 0", 'v') && Fields("v 0 0 0") == ["0", "0", "0"]
  {
    assert IsWord("0");
    WrittenLine('v', "0", "0", "0", "v 0 0 0");
  }

  lemma ExampleSecondVertex()
    ensures Tagged("v 1 0 0", 'v') && Fields("v 1 0 0") == ["1", "0", "0"]
  {
    assert IsWord("0") && IsWord("1");
    WrittenLine('v', "1", "0", "0", "v 1 0 0");
  }

  lemma ExampleThirdVertex()
    ensures Tagged("v 0 1 0", 'v') && Fields("v 0 1 0") == ["0", "1", "0"]
  {
    assert IsWord("0") && IsWord("1");
    WrittenLine('v', "0", "1", "0", "v 0 1 0");
  }

  lemma ExampleFaceLine()
    ensures Tagged("f 1 2 3", 'f') && Fields("f 1 2 3") == ["1", "2", "3"]
  {
    assert IsWord("1") && IsWord("2") && IsWord("3");
    WrittenLine('f', "1", "2", "3", "f 1 2 3");
  }

  /** A line `tag a b c` with single spaces has the fields `a`, `b`, `c`. */
  lemma WrittenLine(tag: char, a: string, b: string, c: string, line: string)
    requires !IsWhitespace(tag) && IsWord(a) && IsWord(b) && IsWord(c)
    requires line == [tag, ' '] + a + [' '] + b + [' '] + c
    ensures Tagged(line, tag) && Fields(line) == [a, b, c]
  {
    assert Join([b, c]) == b + [' '] + c by {
      assert [b, c][1..] == [c];
    }
    assert Join([a, b, c]) == a + [' '] + Join([b, c]) by {
      assert [a, b, c][1..] == [b, c];
    }
    assert line == [tag, ' '] + Join([a, b, c]);
    FieldsOfWrittenLine(tag, [a, b, c]);
  }

  /** The example for any four lines with those tags and fields. */
  lemma ScanOneTriangle(l1: string, l2: string, l3: string, l4: string, P: Parsers)
    requires Tagged(l1, 'v') && Fields(l1) == ["0", "0", "0"]
    requires Tagged(l2, 'v') && Fields(l2) == ["1", "0", "0"]
    requires Tagged(l3, 'v') && Fields(l3) == ["0", "1", "0"]
    requires Tagged(l4, 'f') && Fields(l4) == ["1", "2", "3"]
    requires P.float("0") == Some(0.0) && P.float("1") == Some(1.0)
    requires P.index("1") == Some(1) && P.index("2") == Some(2) && P.index("3") == Some(3)
    ensures Load([l1, l2, l3, l4], P) ==
              Ok(Mesh([Triangle([Vec3.New(Lit(0.0), Lit(0.0), Lit(0.0)),
                                 Vec3.New(Lit(1.0), Lit(0.0), Lit(0.0)),
                                 Vec3.New(Lit(0.0), Lit(1.0), Lit(0.0))], White)]))
  {
    var vs := ScanThreeVertices(l1, l2, l3, P);
    var t := Triangle(vs, White);
    ScanOneFace(l4, vs, P);
    ScanStepOk([l1, l2, l3], l4, P, Accum(vs, []), Accum(vs, [t]));
    assert [l1, l2, l3] + [l4] == [l1, l2, l3, l4];
  }

  /** The example's three `v` lines. */
  lemma ScanThreeVertices(l1: string, l2: string, l3: string, P: Parsers) returns (vs: Corners)
    requires Tagged(l1, 'v') && Fields(l1) == ["0", "0", "0"]
    requires Tagged(l2, 'v') && Fields(l2) == ["1", "0", "0"]
    requires Tagged(l3, 'v') && Fields(l3) == ["0", "1", "0"]
    requires P.float("0") == Some(0.0) && P.float("1") == Some(1.0)
    ensures vs == [Vec3.New(Lit(0.0), Lit(0.0), Lit(0.0)),
                   Vec3.New(Lit(1.0), Lit(0.0), Lit(0.0)),
                   Vec3.New(Lit(0.0), Lit(1.0), Lit(0.0))]
    ensures Scan([l1, l2, l3], P) == Ok(Accum(vs, []))
  {
    var p0, p1, p2 := Vec3(Lit(0.0), Lit(0.0), Lit(0.0), Lit(1.0)),
                      Vec3(Lit(1.0), Lit(0.0), Lit(0.0), Lit(1.0)),
                      Vec3(Lit(0.0), Lit(1.0), Lit(0.0), Lit(1.0));
    var noVerts: seq<Vec3> := [];
    var noTris: seq<Triangle> := [];
    var a0: seq<string> := [];
    assert Scan(a0, P) == Ok(Accum(noVerts, noTris));
    VertexStep(Accum(noVerts, noTris), l1, P, 0.0, 0.0, 0.0);
    assert noVerts + [p0] == [p0];
    ScanStepOk(a0, l1, P, Accum(noVerts, noTris), Accum([p0], noTris));
    assert a0 + [l1] == [l1];
    VertexStep(Accum([p0], noTris), l2, P, 1.0, 0.0, 0.0);
    assert [p0] + [p1] == [p0, p1];
    ScanStepOk([l1], l2, P, Accum([p0], noTris), Accum([p0, p1], noTris));
    assert [l1] + [l2] == [l1, l2];
    VertexStep(Accum([p0, p1], noTris), l3, P, 0.0, 1.0, 0.0);
    assert [p0, p1] + [p2] == [p0, p1, p2];
    ScanStepOk([l1, l2], l3, P, Accum([p0, p1], noTris), Accum([p0, p1, p2], noTris));
    assert [l1, l2] + [l3] == [l1, l2, l3];
    vs := [p0, p1, p2];
  }

  /** The example's `f` line. */
  lemma ScanOneFace(l4: string, vs: Corners, P: Parsers)
    requires Tagged(l4, 'f') && Fields(l4) == ["1", "2", "3"]
    requires P.index("1") == Some(1) && P.index("2") == Some(2) && P.index("3") == Some(3)
    ensures LineStep(Accum(vs, []), l4, P) == Ok(Accum(vs, [Triangle(vs, White)]))
  {
    FaceStep(Accum(vs, []), l4, P, 1, 2, 3);
    assert [vs[0], vs[1], vs[2]] == vs;
    var noTris: seq<Triangle> := [];
    assert noTris + [Triangle(vs, White)] == [Triangle(vs, White)];
  }
}
