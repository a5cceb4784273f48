/**
 The OBJ parsing in `create_plotly_mesh` (Train_NeRF_Grasp_Metric.py): the
 lines of a Wavefront OBJ file become a vertex array and a face array, each
 asserted to have shape (n, 3).

 Reading the file is left out (the lines are a parameter) and so is the
 plotly trace built from the arrays. `float()` is the parameter
 `parseFloat`, which gives None where Python raises ValueError.
 */
module ObjMesh {
  import opened Outcome
  import opened Strings
  import opened RealSeqs

  // Messages of the exceptions raised below.
  const FloatMessage := "could not convert string to float"
  const ReshapeMessage := "cannot reshape array into shape (1,3)"
  const InhomogeneousMessage := "setting an array element with a sequence: inhomogeneous shape"
  const VertexShapeMessage := "len(vertices.shape) == 2 and vertices.shape[1] == 3"
  const FaceShapeMessage := "len(faces.shape) == 2 and faces.shape[1] == 3"

  const VertexTag: string := "v "
  const FaceTag: string := "f "

  /** The arrays the parser produces: one row per vertex and one per face. */
  datatype Mesh = Mesh(vertices: seq<seq<real>>, faces: seq<seq<int>>)

  /** `[float(i) * scale for i in tokens]`. */
  function ScaledFloats(tokens: seq<string>, scale: real, parseFloat: string -> Option<real>): (r: Result<seq<real>>)
    ensures r.Ok? <==> forall i :: 0 <= i < |tokens| ==> parseFloat(tokens[i]).Some?
    ensures r.Ok? ==> |r.value| == |tokens|
    ensures r.Ok? ==> forall i :: 0 <= i < |tokens| ==> r.value[i] == parseFloat(tokens[i]).value * scale
    ensures r.Err? ==> r.error.ValueError?
  {
    if |tokens| == 0 then Ok([])
    else
      assert forall i :: 1 <= i < |tokens| ==> tokens[i] == tokens[1..][i - 1];
      match parseFloat(tokens[0])
      case None => Err(ValueError(FloatMessage))
      case Some(x) =>
        var rest :- ScaledFloats(tokens[1..], scale, parseFloat);
        Ok([x * scale] + rest)
  }

  /** The 0-based vertex index one face token names: the integer before its first `/`, minus 1. */
  function FaceIndex(token: string): (r: Result<int>)
  {
    var i :- ParseInt(BeforeFirst(token, '/'));
    Ok(i - 1)
  }

  /** `[int(i.split("/")[0]) - 1 for i in tokens]`. */
  function FaceIndices(tokens: seq<string>): (r: Result<seq<int>>)
    ensures r.Ok? <==> forall i :: 0 <= i < |tokens| ==> FaceIndex(tokens[i]).Ok?
    ensures r.Ok? ==> |r.value| == |tokens|
    ensures r.Ok? ==> forall i :: 0 <= i < |tokens| ==> r.value[i] == FaceIndex(tokens[i]).value
  {
    if |tokens| == 0 then Ok([])
    else
      assert forall i :: 1 <= i < |tokens| ==> tokens[i] == tokens[1..][i - 1];
      match FaceIndex(tokens[0])
      case Err(e) => Err(e)
      case Ok(k) =>
        var rest :- FaceIndices(tokens[1..]);
        Ok([k] + rest)
  }

  /** The row of a `v ` line: its second to fourth whitespace-separated fields, as scaled floats. */
  function VertexRow(line: string, scale: real, parseFloat: string -> Option<real>): Result<seq<real>>
  {
    ScaledFloats(PySlice(Words(line), 1, 4), scale, parseFloat)
  }

  /** The row of an `f ` line: the vertex indices of its second to fourth fields. */
  function FaceRow(line: string): Result<seq<int>>
  {
    FaceIndices(PySlice(Words(line), 1, 4))
  }

  /** How many of the lines start with the tag. */
  function CountTagged(lines: seq<string>, tag: string): nat
  {
    if |lines| == 0 then 0
    else (if StartsWith(lines[0], tag) then 1 else 0) + CountTagged(lines[1..], tag)
  }

  /**
   The loop over the lines: `v ` lines add a vertex row, `f ` lines a face
   row, every other line (`vn`, `vt`, comments, …) is skipped. The first
   line that fails to convert raises.
   */
  function Rows(lines: seq<string>, scale: real, parseFloat: string -> Option<real>): (r: Result<(seq<seq<real>>, seq<seq<int>>)>)
    ensures r.Ok? ==> |r.value.0| == CountTagged(lines, VertexTag) && |r.value.1| == CountTagged(lines, FaceTag)
  {
    if |lines| == 0 then Ok(([], []))
    else if StartsWith(lines[0], VertexTag) then
      var v :- VertexRow(lines[0], scale, parseFloat);
      var rest :- Rows(lines[1..], scale, parseFloat);
      Ok(([v] + rest.0, rest.1))
    else if StartsWith(lines[0], FaceTag) then
      var f :- FaceRow(lines[0]);
      var rest :- Rows(lines[1..], scale, parseFloat);
      Ok((rest.0, [f] + rest.1))
    else
      Rows(lines[1..], scale, parseFloat)
  }

  /** All rows have the length of the first. */
  predicate Rectangular<T>(rows: seq<seq<T>>)
  {
    forall i :: 0 <= i < |rows| ==> |rows[i]| == |rows[0]|
  }

  /**
   `np.array(rows)`: rows of one length k give an array of shape (n, k), no
   rows give shape (0,), and rows of unequal length make numpy raise
   ValueError.
   */
  function ToArray<T>(rows: seq<seq<T>>): (r: Result<seq<seq<T>>>)
    ensures r.Ok? <==> Rectangular(rows)
    ensures r.Ok? ==> r.value == rows
    ensures r.Err? ==> r.error.ValueError?
  {
    if Rectangular(rows) then Ok(rows) else Err(ValueError(InhomogeneousMessage))
  }

  /** `len(a.shape) == 2 and a.shape[1] == 3` for the array of these rows. */
  predicate Width3<T>(rows: seq<seq<T>>)
  {
    |rows| > 0 && forall i :: 0 <= i < |rows| ==> |rows[i]| == 3
  }

  /** `vertices += offset.reshape(1, 3)`. */
  function Translate(vertices: seq<seq<real>>, offset: seq<real>): (r: seq<seq<real>>)
    requires |offset| == 3 && forall i :: 0 <= i < |vertices| ==> |vertices[i]| == 3
    ensures |r| == |vertices|
    ensures forall i, c :: 0 <= i < |vertices| && 0 <= c < 3 ==> |r[i]| == 3 && r[i][c] == vertices[i][c] + offset[c]
  {
    seq(|vertices|, i requires 0 <= i < |vertices| => seq(3, c requires 0 <= c < 3 => vertices[i][c] + offset[c]))
  }

  /**
   The parsing part of `create_plotly_mesh(obj_filepath, scale, offset)`;
   None stands for the default zero offset. Both lists become arrays before
   either shape is asserted, so ragged faces raise ValueError even when the
   vertices would fail their assertion.
   */
  function ParseObj(lines: seq<string>, scale: real, offset: Option<seq<real>>, parseFloat: string -> Option<real>): (r: Result<Mesh>)
    ensures var rows := Rows(lines, scale, parseFloat);
      r.Ok? <==> rows.Ok? && Width3(rows.value.0) && Width3(rows.value.1) && (offset.Some? ==> |offset.value| == 3)
    ensures Rows(lines, scale, parseFloat).Err? ==> r == Err(Rows(lines, scale, parseFloat).error)
    ensures var rows := Rows(lines, scale, parseFloat);
      rows.Ok? && !(Rectangular(rows.value.0) && Rectangular(rows.value.1)) ==> r.Err? && r.error.ValueError?
    ensures var rows := Rows(lines, scale, parseFloat);
      (rows.Ok? && Rectangular(rows.value.0) && Rectangular(rows.value.1) &&
       !(Width3(rows.value.0) && Width3(rows.value.1))) ==> r.Err? && r.error.AssertionError?
    ensures r.Ok? ==> |r.value.vertices| == CountTagged(lines, VertexTag) && |r.value.faces| == CountTagged(lines, FaceTag)
    ensures r.Ok? ==> r.value.faces == Rows(lines, scale, parseFloat).value.1 && Width3(r.value.faces)
    ensures r.Ok? ==> r.value.vertices == Translate(Rows(lines, scale, parseFloat).value.0,
                                                   if offset.Some? then offset.value else [0.0, 0.0, 0.0])
  {
    var off := if offset.Some? then offset.value else [0.0, 0.0, 0.0];
    var rows :- Rows(lines, scale, parseFloat);
    var vs :- ToArray(rows.0);
    var fs :- ToArray(rows.1);
    var _ :- Check(Width3(vs), VertexShapeMessage);
    var _ :- Check(Width3(fs), FaceShapeMessage);
    var _ :- Need(|off| == 3, ValueError(ReshapeMessage));
    Ok(Mesh(Translate(vs, off), fs))
  }

  /** A line that is neither a `v ` nor an `f ` line leaves the result unchanged, wherever it stands first. */
  lemma OtherLinesIgnored(line: string, rest: seq<string>, scale: real, parseFloat: string -> Option<real>)
    requires !StartsWith(line, VertexTag) && !StartsWith(line, FaceTag)
    ensures Rows([line] + rest, scale, parseFloat) == Rows(rest, scale, parseFloat)
  {
    assert ([line] + rest)[1..] == rest;
  }

  /** `vn` and `vt` lines are neither vertex nor face lines. */
  lemma NormalsAndTexturesAreNotVertices(line: string)
    requires StartsWith(line, "vn") || StartsWith(line, "vt")
    ensures !StartsWith(line, VertexTag) && !StartsWith(line, FaceTag)
  {
    assert line[1] != ' ';
  }

  /** A face token `i/j/k` names vertex i − 1, whatever follows the first slash. */
  lemma FaceIndexBeforeSlash(i: int, rest: string)
    ensures FaceIndex(IntText(i) + "/" + rest) == Ok(i - 1)
  {
    assert '/' !in IntText(i) by {
      if i < 0 {
        assert IntText(i) == "-" + Decimal(-i);
      }
    }
    BeforeFirstAbsent(IntText(i), rest, '/');
    ParseIntText(i);
  }

  // ---------------------------------------------------------------------------
  // Writing a mesh back out
  // ---------------------------------------------------------------------------

  /** A float formatter whose text `float()` reads back, without whitespace. */
  ghost predicate ReadsBack(show: real -> string, parseFloat: string -> Option<real>)
  {
    forall x :: |show(x)| > 0 && NoSpace(show(x)) && parseFloat(show(x)) == Some(x)
  }

  lemma ReadsBackAt(show: real -> string, parseFloat: string -> Option<real>, x: real)
    requires ReadsBack(show, parseFloat)
    ensures |show(x)| > 0 && NoSpace(show(x)) && parseFloat(show(x)) == Some(x)
  {
  }

  /** A mesh the parser can produce: at least one vertex and face, three entries per row. */
  predicate WellShaped(m: Mesh)
  {
    |m.vertices| > 0 && |m.faces| > 0 &&
    (forall i :: 0 <= i < |m.vertices| ==> |m.vertices[i]| == 3) &&
    (forall i :: 0 <= i < |m.faces| ==> |m.faces[i]| == 3)
  }

  /** `v x y z` with a line break. */
  function VertexLine(v: seq<real>, show: real -> string): string
    requires |v| == 3
  {
    Join(["v", show(v[0]), show(v[1]), show(v[2])], " ") + "\n"
  }

  /** `f a b c` with the 1-based indices and a line break. */
  function FaceLine(f: seq<int>): string
    requires |f| == 3
  {
    Join(["f", IntText(f[0] + 1), IntText(f[1] + 1), IntText(f[2] + 1)], " ") + "\n"
  }

  function VertexLines(vs: seq<seq<real>>, show: real -> string): (lines: seq<string>)
    requires forall i :: 0 <= i < |vs| ==> |vs[i]| == 3
    ensures |lines| == |vs| && forall i :: 0 <= i < |vs| ==> lines[i] == VertexLine(vs[i], show)
  {
    seq(|vs|, i requires 0 <= i < |vs| => VertexLine(vs[i], show))
  }

  function FaceLines(fs: seq<seq<int>>): (lines: seq<string>)
    requires forall i :: 0 <= i < |fs| ==> |fs[i]| == 3
    ensures |lines| == |fs| && forall i :: 0 <= i < |fs| ==> lines[i] == FaceLine(fs[i])
  {
    seq(|fs|, i requires 0 <= i < |fs| => FaceLine(fs[i]))
  }

  /** The OBJ text of a mesh: all vertex lines, then all face lines. */
  function WriteObj(m: Mesh, show: real -> string): (lines: seq<string>)
    requires WellShaped(m)
  {
    VertexLines(m.vertices, show) + FaceLines(m.faces)
  }

  lemma {:induction false} TakeWordAppendSpace(s: string, sp: string)
    requires |sp| > 0 && IsSpace(sp[0])
    ensures TakeWord(s + sp) == TakeWord(s)
  {
    if |s| > 0 && !IsSpace(s[0]) {
      assert (s + sp)[1..] == s[1..] + sp;
      TakeWordAppendSpace(s[1..], sp);
    } else if |s| == 0 {
      assert s + sp == sp;
    }
  }

  /** Trailing whitespace adds no words. */
  lemma {:induction false} WordsTrailingSpace(s: string, sp: string)
    requires |sp| > 0 && forall i :: 0 <= i < |sp| ==> IsSpace(sp[i])
    ensures Words(s + sp) == Words(s)
    decreases |s|
  {
    if |s| == 0 {
      assert s + sp == sp + "";
      WordsSkipSpace(sp, "");
    } else if IsSpace(s[0]) {
      assert (s + sp)[1..] == s[1..] + sp;
      WordsTrailingSpace(s[1..], sp);
    } else {
      TakeWordAppendSpace(s, sp);
      var w := TakeWord(s);
      assert (s + sp)[|w|..] == s[|w|..] + sp;
      WordsTrailingSpace(s[|w|..], sp);
    }
  }

  /** The fields of a written line are the words it was joined from. */
  lemma WordsOfLine(ws: seq<string>)
    requires forall i :: 0 <= i < |ws| ==> |ws[i]| > 0 && NoSpace(ws[i])
    ensures Words(Join(ws, " ") + "\n") == ws
  {
    WordsTrailingSpace(Join(ws, " "), "\n");
    WordsOfJoin(ws);
  }

  lemma JoinTagged(tag: string, ws: seq<string>)
    requires |ws| == 3
    ensures StartsWith(Join([tag] + ws, " ") + "\n", tag + " ")
  {
    assert ([tag] + ws)[1..] == ws;
  }

  lemma IntTextField(i: int)
    ensures |IntText(i)| > 0 && NoSpace(IntText(i))
  {
    if i < 0 {
      assert IntText(i) == "-" + Decimal(-i);
    }
  }

  /** A written vertex line is a `v ` line that reads back as its vertex. */
  lemma VertexLineReadsBack(v: seq<real>, show: real -> string, parseFloat: string -> Option<real>)
    requires |v| == 3 && ReadsBack(show, parseFloat)
    ensures StartsWith(VertexLine(v, show), VertexTag)
    ensures VertexRow(VertexLine(v, show), 1.0, parseFloat) == Ok(v)
  {
    var fields := [show(v[0]), show(v[1]), show(v[2])];
    ReadsBackAt(show, parseFloat, v[0]);
    ReadsBackAt(show, parseFloat, v[1]);
    ReadsBackAt(show, parseFloat, v[2]);
    JoinTagged("v", fields);
    WordsOfLine(["v"] + fields);
    assert PySlice(["v"] + fields, 1, 4) == fields;
    var r := ScaledFloats(fields, 1.0, parseFloat);
    assert r.Ok?;
    assert r.value == v;
  }

  /** The text of an integer reads back as the vertex index one below it. */
  lemma FaceIndexOfText(i: int)
    ensures FaceIndex(IntText(i)) == Ok(i - 1)
  {
    assert '/' !in IntText(i) by {
      if i < 0 {
        assert IntText(i) == "-" + Decimal(-i);
      }
    }
    BeforeFirstAbsent(IntText(i), "", '/');
    ParseIntText(i);
  }

  /** The fields of a written face read back as the face. */
  lemma FaceFieldsReadBack(f: seq<int>)
    requires |f| == 3
    ensures FaceIndices([IntText(f[0] + 1), IntText(f[1] + 1), IntText(f[2] + 1)]) == Ok(f)
  {
    var fields := [IntText(f[0] + 1), IntText(f[1] + 1), IntText(f[2] + 1)];
    FaceIndexOfText(f[0] + 1);
    FaceIndexOfText(f[1] + 1);
    FaceIndexOfText(f[2] + 1);
    var r := FaceIndices(fields);
    assert r.Ok?;
    assert r.value == f;
  }

  /** A written face line is an `f ` line, not a `v ` line, and reads back as its face. */
  lemma FaceLineReadsBack(f: seq<int>)
    requires |f| == 3
    ensures StartsWith(FaceLine(f), FaceTag) && !StartsWith(FaceLine(f), VertexTag)
    ensures FaceRow(FaceLine(f)) == Ok(f)
  {
    var fields := [IntText(f[0] + 1), IntText(f[1] + 1), IntText(f[2] + 1)];
    IntTextField(f[0] + 1);
    IntTextField(f[1] + 1);
    IntTextField(f[2] + 1);
    JoinTagged("f", fields);
    WordsOfLine(["f"] + fields);
    assert PySlice(["f"] + fields, 1, 4) == fields;
    FaceFieldsReadBack(f);
  }

  lemma RowsVertexStep(line: string, rest: seq<string>, v: seq<real>, vs: seq<seq<real>>, fs: seq<seq<int>>,
                       parseFloat: string -> Option<real>)
    requires StartsWith(line, VertexTag) && VertexRow(line, 1.0, parseFloat) == Ok(v)
    requires Rows(rest, 1.0, parseFloat) == Ok((vs, fs))
    ensures Rows([line] + rest, 1.0, parseFloat) == Ok(([v] + vs, fs))
  {
    assert ([line] + rest)[0] == line && ([line] + rest)[1..] == rest;
  }

  lemma RowsFaceStep(line: string, rest: seq<string>, f: seq<int>, fs: seq<seq<int>>, parseFloat: string -> Option<real>)
    requires StartsWith(line, FaceTag) && !StartsWith(line, VertexTag) && FaceRow(line) == Ok(f)
    requires Rows(rest, 1.0, parseFloat) == Ok(([], fs))
    ensures Rows([line] + rest, 1.0, parseFloat) == Ok(([], [f] + fs))
  {
    assert ([line] + rest)[0] == line && ([line] + rest)[1..] == rest;
  }

  lemma FaceLinesCons(fs: seq<seq<int>>)
    requires |fs| > 0 && forall i :: 0 <= i < |fs| ==> |fs[i]| == 3
    ensures FaceLines(fs) == [FaceLine(fs[0])] + FaceLines(fs[1..])
  {
  }

  lemma VertexLinesCons(vs: seq<seq<real>>, show: real -> string, tail: seq<string>)
    requires |vs| > 0 && forall i :: 0 <= i < |vs| ==> |vs[i]| == 3
    ensures VertexLines(vs, show) + tail == [VertexLine(vs[0], show)] + (VertexLines(vs[1..], show) + tail)
  {
    assert VertexLines(vs, show) == [VertexLine(vs[0], show)] + VertexLines(vs[1..], show);
  }

  /** The face lines alone parse to the faces and no vertices. */
  lemma {:induction false} RowsOfFaceLines(fs: seq<seq<int>>, parseFloat: string -> Option<real>)
    requires forall i :: 0 <= i < |fs| ==> |fs[i]| == 3
    ensures Rows(FaceLines(fs), 1.0, parseFloat) == Ok(([], fs))
  {
    if |fs| > 0 {
      FaceLineReadsBack(fs[0]);
      RowsOfFaceLines(fs[1..], parseFloat);
      FaceLinesCons(fs);
      RowsFaceStep(FaceLine(fs[0]), FaceLines(fs[1..]), fs[0], fs[1..], parseFloat);
      assert fs == [fs[0]] + fs[1..];
    }
  }

  /** Vertex lines followed by face lines parse to the vertices and the faces. */
  lemma {:induction false} RowsOfWritten(vs: seq<seq<real>>, fs: seq<seq<int>>, show: real -> string, parseFloat: string -> Option<real>)
    requires ReadsBack(show, parseFloat)
    requires forall i :: 0 <= i < |vs| ==> |vs[i]| == 3
    requires forall i :: 0 <= i < |fs| ==> |fs[i]| == 3
    ensures Rows(VertexLines(vs, show) + FaceLines(fs), 1.0, parseFloat) == Ok((vs, fs))
  {
    var flines := FaceLines(fs);
    if |vs| == 0 {
      assert VertexLines(vs, show) + flines == flines;
      RowsOfFaceLines(fs, parseFloat);
    } else {
      VertexLineReadsBack(vs[0], show, parseFloat);
      RowsOfWritten(vs[1..], fs, show, parseFloat);
      VertexLinesCons(vs, show, flines);
      RowsVertexStep(VertexLine(vs[0], show), VertexLines(vs[1..], show) + flines, vs[0], vs[1..], fs, parseFloat);
      assert vs == [vs[0]] + vs[1..];
    }
  }

  /** Writing a mesh and parsing it with unit scale and no offset gives the mesh back. */
  lemma ParseWriteObj(m: Mesh, show: real -> string, parseFloat: string -> Option<real>)
    requires WellShaped(m) && ReadsBack(show, parseFloat)
    ensures ParseObj(WriteObj(m, show), 1.0, None, parseFloat) == Ok(m)
  {
    RowsOfWritten(m.vertices, m.faces, show, parseFloat);
    TranslateByZero(m.vertices);
  }

  /** The default offset moves nothing. */
  lemma TranslateByZero(vertices: seq<seq<real>>)
    requires forall i :: 0 <= i < |vertices| ==> |vertices[i]| == 3
    ensures Translate(vertices, [0.0, 0.0, 0.0]) == vertices
  {
    var t := Translate(vertices, [0.0, 0.0, 0.0]);
    assert forall i :: 0 <= i < |t| ==> t[i] == vertices[i];
  }
}
