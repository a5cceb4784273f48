/**
 Turning a reconstructed object into a URDF description: reading the object
 code and scale out of a dataset name such as
 `sem-RubiksCube-1e3d89eb3b5427053bdd31f1cd9eec98_0_1076`, the text of the
 URDF file that points at the extracted mesh, and the checks made before it
 is written next to that mesh.

 The file system is a set of existing paths; writing the file is returning
 its path and its text. Python's `float(text)` and `f"{x}"` are parameters,
 since Dafny has no floating-point text conversion.
 */
module Urdf {
  import opened Outcome
  import opened Strings
  import opened Paths
  import opened RealSeqs

  // ---------------------------------------------------------------------------
  // Object code and scale
  // ---------------------------------------------------------------------------

  /** The marker between the object code and the scale digits. */
  const Keyword: string := "_0_"

  ghost predicate HasKeyword(s: string)
  {
    exists j :: OccursAt(s, Keyword, j)
  }

  /** Text of the form digits `.` digits, with at least one digit on each side. */
  predicate IsDecimalText(t: string)
  {
    var i := BeforeFirst(t, '.');
    1 <= |i| && |i| + 1 < |t| && AllDigits(i) && AllDigits(t[|i| + 1..])
  }

  /** The number such a text denotes. */
  function DecimalValue(t: string): real
    requires IsDecimalText(t)
  {
    var i := BeforeFirst(t, '.');
    var f := t[|i| + 1..];
    Value(i) as real + Value(f) as real / Pow10(|f|) as real
  }

  /** `float` reads plain decimal texts as the numbers they denote; other texts it may reject. */
  ghost predicate ReadsDecimals(parseFloat: string -> Result<real>)
  {
    forall t :: IsDecimalText(t) ==> parseFloat(t) == Ok(DecimalValue(t))
  }

  /** Where the keyword was last found; −1 when it does not occur. */
  function KeywordAt(s: string): (idx: int)
    ensures idx >= -1
    ensures idx >= 0 <==> HasKeyword(s)
    ensures idx >= 0 ==> OccursAt(s, Keyword, idx) && forall j :: idx < j ==> !OccursAt(s, Keyword, j)
  {
    var idx := RFind(s, Keyword);
    assert idx < 0 ==> forall j :: !OccursAt(s, Keyword, j);
    idx
  }

  /** `s[:idx]` with the index of the last keyword. */
  function ObjectCode(s: string): (code: string)
    ensures HasKeyword(s) ==> code + Keyword <= s && forall j :: |code| < j ==> !OccursAt(s, Keyword, j)
    ensures !HasKeyword(s) && |s| > 0 ==> code == s[..|s| - 1]
  {
    var idx := KeywordAt(s);
    var code := PySlice(s, 0, idx);
    assert idx >= 0 ==> code + Keyword == s[..idx + |Keyword|];
    code
  }

  /** `s[idx + keyword.index("0"):]` with every `_` made a `.`. */
  function ScaleText(s: string): (t: string)
    ensures '_' !in t
  {
    var idx := KeywordAt(s);
    var offset := IndexOf(Keyword, '0');
    assert Keyword[1] == '0';
    var t := ReplaceChar(PySlice(s, idx + offset.value, |s|), '_', '.');
    assert forall i :: 0 <= i < |t| ==> t[i] != '_';
    t
  }

  /**
   `parse_object_code_and_scale`: the object code before the last keyword,
   and the scale read from the text that starts at the keyword's `0`.
   */
  function ParseObjectCodeAndScale(s: string, parseFloat: string -> Result<real>): (r: Result<(string, real)>)
    ensures r.Ok? <==> parseFloat(ScaleText(s)).Ok?
    ensures r.Ok? ==> r.value.0 == ObjectCode(s) && r.value.1 == parseFloat(ScaleText(s)).value
    ensures r.Err? ==> r.error == parseFloat(ScaleText(s)).error
  {
    match parseFloat(ScaleText(s))
    case Err(e) => Err(e)
    case Ok(scale) => Ok((ObjectCode(s), scale))
  }

  /** The scale `0.digits` that the digits after the keyword stand for. */
  function DigitsScale(digits: string): (x: real)
    requires AllDigits(digits)
    ensures 0.0 <= x < 1.0
    ensures Value(digits) > 0 ==> x > 0.0
  {
    ValueBelowPow10(digits);
    RatioBounds(Value(digits) as real, Pow10(|digits|) as real);
    Value(digits) as real / Pow10(|digits|) as real
  }

  lemma RatioBounds(a: real, b: real)
    requires 0.0 <= a < b
    ensures 0.0 <= a / b < 1.0
    ensures a > 0.0 ==> a / b > 0.0
  {
    var q := a / b;
    assert q * b == a;
  }

  /** A text of k digits denotes less than 10^k. */
  lemma {:induction false} ValueBelowPow10(digits: string)
    requires AllDigits(digits)
    ensures Value(digits) < Pow10(|digits|)
  {
    if |digits| > 0 {
      var init := digits[..|digits| - 1];
      assert AllDigits(init) by {
        forall i | 0 <= i < |init| ensures IsDigit(init[i]) {
          assert init[i] == digits[i];
        }
      }
      ValueBelowPow10(init);
      assert DigitVal(digits[|digits| - 1]) <= 9;
    }
  }

  /** A dataset name: the object code, the keyword, then the digits after `0.` of the scale. */
  function DatasetName(code: string, digits: string): string
  {
    code + Keyword + digits
  }

  /**
   Names built as code `_0_` digits parse back into the code and the scale
   `0.digits`, whatever the code holds — an earlier `_0_` inside the code
   stays there, because the last occurrence is the one used.
   */
  lemma ParseDatasetName(code: string, digits: string, parseFloat: string -> Result<real>)
    requires |digits| >= 1 && AllDigits(digits)
    requires ReadsDecimals(parseFloat)
    ensures ParseObjectCodeAndScale(DatasetName(code, digits), parseFloat)
            == Ok((code, DigitsScale(digits)))
  {
    LastKeywordOfName(code, digits);
    ScaleTextOfName(code, digits);
    DecimalOfZeroPoint(digits);
  }

  /** In a dataset name, the last keyword is the one after the code. */
  lemma LastKeywordOfName(code: string, digits: string)
    requires AllDigits(digits)
    ensures KeywordAt(DatasetName(code, digits)) == |code|
    ensures ObjectCode(DatasetName(code, digits)) == code
  {
    var s := DatasetName(code, digits);
    var n := |code|;
    assert OccursAt(s, Keyword, n) by {
      assert s[n..n + 3] == Keyword;
    }
    forall j | n < j <= |s| - 3 ensures !OccursAt(s, Keyword, j) {
      var w := s[j..j + 3];
      if j == n + 1 {
        assert w[0] == '0' != Keyword[0];
      } else if j == n + 2 {
        assert w[2] == digits[1] && IsDigit(digits[1]);
        assert w[2] != Keyword[2];
      } else {
        assert w[0] == digits[j - n - 3] && IsDigit(digits[j - n - 3]);
        assert w[0] != Keyword[0];
      }
      assert w != Keyword;
    }
    assert ObjectCode(s) == s[..n];
  }

  /** In a dataset name, the scale text is `0.` followed by the digits. */
  lemma ScaleTextOfName(code: string, digits: string)
    requires AllDigits(digits)
    ensures ScaleText(DatasetName(code, digits)) == "0." + digits
  {
    ScaleTailOfName(code, digits);
    ReplaceZeroPoint(digits);
  }

  /** The scale text of a dataset name starts at the keyword's `0`. */
  lemma ScaleTailOfName(code: string, digits: string)
    requires AllDigits(digits)
    ensures ScaleText(DatasetName(code, digits)) == ReplaceChar("0_" + digits, '_', '.')
  {
    var s := DatasetName(code, digits);
    var n := |code|;
    LastKeywordOfName(code, digits);
    assert IndexOf(Keyword, '0') == Ok(1);
    assert s[n + 1..] == "0_" + digits;
  }

  /** Making the `_` of `0_` and the digits a `.` gives `0.` and the digits. */
  lemma ReplaceZeroPoint(digits: string)
    requires AllDigits(digits)
    ensures ReplaceChar("0_" + digits, '_', '.') == "0." + digits
  {
    var tail := "0_" + digits;
    var t := ReplaceChar(tail, '_', '.');
    forall i | 0 <= i < |t| ensures t[i] == ("0." + digits)[i] {
      if i >= 2 { assert tail[i] == digits[i - 2]; assert IsDigit(digits[i - 2]); }
    }
  }

  lemma DecimalOfZeroPoint(digits: string)
    requires |digits| >= 1 && AllDigits(digits)
    ensures IsDecimalText("0." + digits)
    ensures DecimalValue("0." + digits) == DigitsScale(digits)
  {
    ZeroPointParts(digits);
    ValueOfOneDigit('0');
  }

  lemma ZeroPointParts(digits: string)
    ensures BeforeFirst("0." + digits, '.') == "0" && ("0." + digits)[2..] == digits
  {
    BeforeFirstAbsent("0", digits, '.');
    assert "0." + digits == "0" + ['.'] + digits;
  }

  lemma ValueOfOneDigit(c: char)
    requires IsDigit(c)
    ensures AllDigits([c]) && Value([c]) == DigitVal(c)
  {
    assert [c][..0] == "";
  }

  /**
   Without the keyword, `rfind` gives −1, so the code loses its last
   character and the whole name, with `_` made `.`, is read as the scale.
   */
  lemma MissingKeywordKeepsGoing(s: string, parseFloat: string -> Result<real>)
    requires |s| > 0 && !HasKeyword(s)
    requires parseFloat(ReplaceChar(s, '_', '.')).Ok?
    ensures ParseObjectCodeAndScale(s, parseFloat)
            == Ok((s[..|s| - 1], parseFloat(ReplaceChar(s, '_', '.')).value))
  {
    assert IndexOf(Keyword, '0') == Ok(1);
    assert PySlice(s, 0, |s|) == s;
  }

  /** A concrete instance: `float("1.5")` succeeds and `"1_5"` parses to code `"1_"`. */
  lemma MissingKeywordExample(parseFloat: string -> Result<real>)
    requires ReadsDecimals(parseFloat)
    ensures ParseObjectCodeAndScale("1_5", parseFloat) == Ok(("1_", 1.5))
  {
    var s := "1_5";
    assert !HasKeyword(s) by {
      forall j | 0 <= j <= |s| - 3 ensures !OccursAt(s, Keyword, j) {
        assert s[j..j + 3][0] == '1';
      }
    }
    var t := ReplaceChar(s, '_', '.');
    assert t == "1.5";
    OnePointFive();
    assert parseFloat(t) == Ok(1.5);
    MissingKeywordKeepsGoing(s, parseFloat);
    assert s[..|s| - 1] == "1_";
  }

  lemma OnePointFive()
    ensures IsDecimalText("1.5") && DecimalValue("1.5") == 1.5
  {
    BeforeFirstAbsent("1", "5", '.');
    assert "1.5" == "1" + ['.'] + "5";
    assert "1.5"[2..] == "5";
    ValueOfOneDigit('1');
    ValueOfOneDigit('5');
  }

  /**
   The parse with the missing keyword reported: a name without `_0_` is a
   ValueError instead of a code and a scale made up from the whole name.
   */
  function ParseObjectCodeAndScaleChecked(s: string, parseFloat: string -> Result<real>): (r: Result<(string, real)>)
    ensures !HasKeyword(s) ==> r.Err? && r.error.ValueError?
    ensures r.Ok? ==> r.value.0 + Keyword <= s && forall j :: |r.value.0| < j ==> !OccursAt(s, Keyword, j)
    ensures HasKeyword(s) ==> r == ParseObjectCodeAndScale(s, parseFloat)
  {
    if KeywordAt(s) < 0 then Err(ValueError("no _0_ in name"))
    else ParseObjectCodeAndScale(s, parseFloat)
  }

  /** The checked parse reads dataset names just as the original one does. */
  lemma CheckedParseDatasetName(code: string, digits: string, parseFloat: string -> Result<real>)
    requires |digits| >= 1 && AllDigits(digits)
    requires ReadsDecimals(parseFloat)
    ensures ParseObjectCodeAndScaleChecked(DatasetName(code, digits), parseFloat)
            == Ok((code, DigitsScale(digits)))
  {
    var s := DatasetName(code, digits);
    assert OccursAt(s, Keyword, |code|) by {
      assert s[|code|..|code| + 3] == Keyword;
    }
    ParseDatasetName(code, digits, parseFloat);
  }

  // ---------------------------------------------------------------------------
  // URDF text
  // ---------------------------------------------------------------------------

  const Origin: string := "      <origin xyz=\"0 0 0\" rpy=\"0 0 0\"/>"

  /** ` key="value"` for each attribute in turn. */
  function Attributes(attrs: seq<(string, string)>): string
  {
    if |attrs| == 0 then "" else " " + attrs[0].0 + "=\"" + attrs[0].1 + "\"" + Attributes(attrs[1..])
  }

  /** An empty XML element on one line: its indented opening, its attributes, and `/>`. */
  function Element(head: string, attrs: seq<(string, string)>): string
  {
    head + Attributes(attrs) + "/>"
  }

  /** The mesh element, naming the obj file relative to the URDF file. */
  function MeshLine(objName: string): string
  {
    Element("        <mesh", [("filename", objName), ("scale", "1 1 1")])
  }

  // The lines of the file that do not depend on the mesh or the inertia.
  const RobotOpen: string := "<robot name=\"root\">"
  const LinkOpen: string := "  <link name=\"base_link\">"
  const InertialOpen: string := "    <inertial>"
  const InertialClose: string := "    </inertial>"
  const VisualOpen: string := "    <visual>"
  const GeometryOpen: string := "      <geometry>"
  const GeometryClose: string := "      </geometry>"
  const MaterialOpen: string := "      <material name=\"\">"
  const ColorLine: string := "        <color rgba=\"0.75 0.75 0.75 1\"/>"
  const MaterialClose: string := "      </material>"
  const VisualClose: string := "    </visual>"
  const CollisionOpen: string := "    <collision>"
  const CollisionClose: string := "    </collision>"
  const LinkClose: string := "  </link>"
  const RobotClose: string := "</robot>"

  /** The inertia element: the given diagonal and zero off-diagonal entries. */
  function InertiaLine(ixx: string, iyy: string, izz: string): string
  {
    Element("      <inertia", [("ixx", ixx), ("ixy", "0"), ("ixz", "0"), ("iyy", iyy), ("iyz", "0"), ("izz", izz)])
  }

  /** The inertial block: the origin and the inertia element. */
  function InertialLines(ixx: string, iyy: string, izz: string): seq<string>
  {
    [ InertialOpen,
      Origin,
      InertiaLine(ixx, iyy, izz),
      InertialClose ]
  }

  /** The visual block: the mesh and a grey material. */
  function VisualLines(objName: string): seq<string>
  {
    [ VisualOpen,
      Origin,
      GeometryOpen,
      MeshLine(objName),
      GeometryClose,
      MaterialOpen,
      ColorLine,
      MaterialClose,
      VisualClose ]
  }

  /** The collision block: the same mesh. */
  function CollisionLines(objName: string): seq<string>
  {
    [ CollisionOpen,
      Origin,
      GeometryOpen,
      MeshLine(objName),
      GeometryClose,
      CollisionClose ]
  }

  /** The lines of the URDF file, a single link with a visual and a collision mesh. */
  function UrdfLines(objName: string, ixx: string, iyy: string, izz: string): (lines: seq<string>)
    ensures |lines| == 23
  {
    [RobotOpen, LinkOpen]
    + InertialLines(ixx, iyy, izz) + VisualLines(objName) + CollisionLines(objName)
    + [LinkClose, RobotClose]
  }

  /** The text written to the URDF file: the lines with newlines between them and none at the end. */
  function UrdfText(objName: string, ixx: string, iyy: string, izz: string): string
  {
    Join(UrdfLines(objName, ixx, iyy, izz), "\n")
  }

  /** Text that can sit inside an attribute value on one line. */
  predicate Plain(s: string)
  {
    '\n' !in s && '"' !in s
  }

  /** An attribute name: plain, and without a space or `=`. */
  predicate IsKey(k: string)
  {
    Plain(k) && ' ' !in k && '=' !in k
  }

  predicate PlainAttributes(attrs: seq<(string, string)>)
  {
    forall i :: 0 <= i < |attrs| ==> IsKey(attrs[i].0) && Plain(attrs[i].1)
  }

  /** The name in the text before an attribute's value: what follows the last space, without the closing `=`. */
  function KeyOf(p: string): string
  {
    var i := RFind(p, " ");
    if EndsWith(p, "=") && i + 1 <= |p| - 1 then p[i + 1..|p| - 1] else ""
  }

  /** Reading the pieces between quotes back as (name, value) pairs. */
  function PairsOf(pieces: seq<string>): seq<(string, string)>
  {
    if |pieces| < 3 then [] else [(KeyOf(pieces[0]), pieces[1])] + PairsOf(pieces[2..])
  }

  /** The attributes of a one-line element: its text cut at the quotes and read back as pairs. */
  function ReadAttributes(line: string): seq<(string, string)>
  {
    PairsOf(SplitOn(line, '"'))
  }

  /** The name is read back from the text that ends with it and `=`. */
  lemma KeyOfAttribute(pre: string, k: string)
    requires IsKey(k)
    ensures KeyOf(pre + " " + k + "=") == k
  {
    var p := pre + " " + k + "=";
    var n := |pre|;
    assert OccursAt(p, " ", n) by {
      assert p[n..n + 1] == " ";
    }
    forall j | n < j < |p| ensures !OccursAt(p, " ", j) {
      assert p[j..j + 1][0] == p[j];
      if j < |p| - 1 {
        assert p[j] == k[j - n - 1];
      }
    }
    assert RFind(p, " ") == n;
    assert p[n + 1..|p| - 1] == k;
  }

  /** Cutting text made of attributes and `/>` at its quotes, after a prefix. */
  lemma {:induction false} SplitAttributes(pre: string, attrs: seq<(string, string)>)
    requires Plain(pre) && PlainAttributes(attrs)
    ensures var pieces := SplitOn(pre + Attributes(attrs) + "/>", '"');
            |pieces| == 2 * |attrs| + 1
            && PairsOf(pieces) == attrs
    decreases |attrs|
  {
    if |attrs| == 0 {
      assert pre + Attributes(attrs) + "/>" == pre + "/>";
      SplitOnWhole(pre + "/>", '"');
    } else {
      assert PlainAttributes(attrs[1..]) by {
        forall i | 0 <= i < |attrs| - 1 ensures IsKey(attrs[1..][i].0) && Plain(attrs[1..][i].1) {
          assert attrs[1..][i] == attrs[i + 1];
        }
      }
      SplitAttributes("", attrs[1..]);
      assert "" + Attributes(attrs[1..]) + "/>" == Attributes(attrs[1..]) + "/>";
      SplitAttributesCons(pre, attrs);
    }
  }

  /** One attribute more: two more pieces in front, read back as one more pair. */
  lemma SplitAttributesCons(pre: string, attrs: seq<(string, string)>)
    requires |attrs| > 0 && Plain(pre) && IsKey(attrs[0].0) && Plain(attrs[0].1)
    requires var rest := SplitOn(Attributes(attrs[1..]) + "/>", '"');
             |rest| == 2 * (|attrs| - 1) + 1 && PairsOf(rest) == attrs[1..]
    ensures var pieces := SplitOn(pre + Attributes(attrs) + "/>", '"');
            |pieces| == 2 * |attrs| + 1
            && PairsOf(pieces) == attrs
  {
    var k, v := attrs[0].0, attrs[0].1;
    var key := pre + " " + k + "=";
    var rest := SplitOn(Attributes(attrs[1..]) + "/>", '"');
    PiecesOfAttributes(pre, attrs);
    KeyOfAttribute(pre, k);
    PairsStep(key, v, rest);
    assert attrs == [(k, v)] + attrs[1..];
  }

  /** The first attribute's key text and value are the first two pieces. */
  lemma PiecesOfAttributes(pre: string, attrs: seq<(string, string)>)
    requires |attrs| > 0 && Plain(pre) && IsKey(attrs[0].0) && Plain(attrs[0].1)
    ensures SplitOn(pre + Attributes(attrs) + "/>", '"')
            == [pre + " " + attrs[0].0 + "=", attrs[0].1] + SplitOn(Attributes(attrs[1..]) + "/>", '"')
  {
    var k, v := attrs[0].0, attrs[0].1;
    var key := pre + " " + k + "=";
    var tail := Attributes(attrs[1..]) + "/>";
    var rest := SplitOn(tail, '"');
    AttributesStep(pre, attrs);
    SplitOnCons(key, '"', v + ['"'] + tail);
    SplitOnCons(v, '"', tail);
    assert [key] + ([v] + rest) == [key, v] + rest;
  }

  /** The first attribute, between quotes, then the rest. */
  lemma AttributesStep(pre: string, attrs: seq<(string, string)>)
    requires |attrs| > 0 && Plain(pre) && IsKey(attrs[0].0)
    ensures var key := pre + " " + attrs[0].0 + "=";
            '"' !in key
            && pre + Attributes(attrs) + "/>" == key + ['"'] + (attrs[0].1 + ['"'] + (Attributes(attrs[1..]) + "/>"))
  {
    assert "=\"" == "=" + ['"'] && "\"" == ['"'];
    assert Attributes(attrs) == " " + attrs[0].0 + ("=" + ['"']) + attrs[0].1 + ['"'] + Attributes(attrs[1..]);
    Regroup(pre, " ", attrs[0].0, "=", ['"'], attrs[0].1, Attributes(attrs[1..]), "/>");
  }

  lemma PairsStep(key: string, v: string, pieces: seq<string>)
    requires |pieces| >= 1
    ensures PairsOf([key, v] + pieces) == [(KeyOf(key), v)] + PairsOf(pieces)
  {
    assert ([key, v] + pieces)[2..] == pieces;
  }

  lemma Regroup<T>(pre: seq<T>, sp: seq<T>, k: seq<T>, eq: seq<T>, q: seq<T>, v: seq<T>, a: seq<T>, close: seq<T>)
    ensures pre + (sp + k + (eq + q) + v + q + a) + close == pre + sp + k + eq + q + (v + q + (a + close))
  {
  }

  /** Reading an element's attributes back gives the attributes it was written with. */
  lemma ReadElement(head: string, attrs: seq<(string, string)>)
    requires Plain(head) && PlainAttributes(attrs)
    ensures ReadAttributes(Element(head, attrs)) == attrs
  {
    SplitAttributes(head, attrs);
  }

  /** The mesh element reads back as filename = the obj's name and scale = "1 1 1". */
  lemma ReadMeshLine(objName: string)
    requires Plain(objName)
    ensures ReadAttributes(MeshLine(objName)) == [("filename", objName), ("scale", "1 1 1")]
  {
    ReadElement("        <mesh", [("filename", objName), ("scale", "1 1 1")]);
  }

  /** The inertia element reads back with ixx, iyy and izz as given and 0 for ixy, ixz and iyz. */
  lemma ReadInertiaLine(ixx: string, iyy: string, izz: string)
    requires Plain(ixx) && Plain(iyy) && Plain(izz)
    ensures ReadAttributes(InertiaLine(ixx, iyy, izz))
            == [("ixx", ixx), ("ixy", "0"), ("ixz", "0"), ("iyy", iyy), ("iyz", "0"), ("izz", izz)]
  {
    ReadElement("      <inertia", [("ixx", ixx), ("ixy", "0"), ("ixz", "0"), ("iyy", iyy), ("iyz", "0"), ("izz", izz)]);
  }

  /** An element whose parts are on one line is on one line. */
  lemma SingleLineElement(head: string, attrs: seq<(string, string)>)
    requires '\n' !in head && forall i :: 0 <= i < |attrs| ==> '\n' !in attrs[i].0 && '\n' !in attrs[i].1
    ensures '\n' !in Element(head, attrs)
  {
    SingleLineAttributes(attrs);
  }

  lemma {:induction false} SingleLineAttributes(attrs: seq<(string, string)>)
    requires forall i :: 0 <= i < |attrs| ==> '\n' !in attrs[i].0 && '\n' !in attrs[i].1
    ensures '\n' !in Attributes(attrs)
  {
    if |attrs| > 0 {
      assert forall i :: 0 <= i < |attrs| - 1 ==> attrs[1..][i] == attrs[i + 1];
      SingleLineAttributes(attrs[1..]);
    }
  }

  /** Text without the separator splits into itself alone. */
  lemma SplitOnWhole(w: string, c: char)
    requires c !in w
    ensures SplitOn(w, c) == [w]
  {
    BeforeFirstAbsent(w, [], c);
  }

  /**
   Reading the written text back line by line finds the inertia element at
   line 4, and the mesh element naming the obj file at line 9, inside the
   visual block, and again at line 18, inside the collision block.
   */
  lemma ReadUrdfText(objName: string, ixx: string, iyy: string, izz: string)
    requires Plain(objName) && Plain(ixx) && Plain(iyy) && Plain(izz)
    ensures var lines := SplitOn(UrdfText(objName, ixx, iyy, izz), '\n');
            |lines| == 23
            && lines[4] == InertiaLine(ixx, iyy, izz)
            && lines[6] == VisualOpen && lines[9] == MeshLine(objName) && lines[14] == VisualClose
            && lines[15] == CollisionOpen && lines[18] == MeshLine(objName) && lines[20] == CollisionClose
  {
    var lines := UrdfLines(objName, ixx, iyy, izz);
    UrdfLinesSingle(objName, ixx, iyy, izz);
    SplitOnJoin(lines, '\n');
  }

  predicate OneLineEach(lines: seq<string>)
  {
    forall i :: 0 <= i < |lines| ==> '\n' !in lines[i]
  }

  lemma OneLineEachAppend(a: seq<string>, b: seq<string>)
    requires OneLineEach(a) && OneLineEach(b)
    ensures OneLineEach(a + b)
  {
    forall i | 0 <= i < |a + b| ensures '\n' !in (a + b)[i] {
      if i >= |a| { assert (a + b)[i] == b[i - |a|]; }
    }
  }

  /** No line of the file holds a newline. */
  lemma UrdfLinesSingle(objName: string, ixx: string, iyy: string, izz: string)
    requires Plain(objName) && Plain(ixx) && Plain(iyy) && Plain(izz)
    ensures OneLineEach(UrdfLines(objName, ixx, iyy, izz))
  {
    var head: seq<string> := [RobotOpen, LinkOpen];
    var foot: seq<string> := [LinkClose, RobotClose];
    OuterLinesSingle();
    InertialSingle(ixx, iyy, izz);
    VisualSingle(objName);
    CollisionSingle(objName);
    OneLineEachAppend(head, InertialLines(ixx, iyy, izz));
    OneLineEachAppend(head + InertialLines(ixx, iyy, izz), VisualLines(objName));
    OneLineEachAppend(head + InertialLines(ixx, iyy, izz) + VisualLines(objName), CollisionLines(objName));
    OneLineEachAppend(head + InertialLines(ixx, iyy, izz) + VisualLines(objName) + CollisionLines(objName), foot);
  }

  // None of the fixed lines holds a newline.

  lemma OuterLinesSingle()
    ensures '\n' !in RobotOpen && '\n' !in LinkOpen && '\n' !in LinkClose && '\n' !in RobotClose
  {
  }

  lemma OriginSingle()
    ensures '\n' !in Origin
  {
  }

  lemma GeometryLinesSingle()
    ensures '\n' !in GeometryOpen && '\n' !in GeometryClose
  {
  }

  lemma MaterialLinesSingle()
    ensures '\n' !in MaterialOpen && '\n' !in MaterialClose
  {
  }

  lemma ColorLineSingle()
    ensures '\n' !in ColorLine
  {
  }

  lemma BlockLinesSingle()
    ensures '\n' !in InertialOpen && '\n' !in InertialClose && '\n' !in VisualOpen && '\n' !in VisualClose
    ensures '\n' !in CollisionOpen && '\n' !in CollisionClose
  {
  }

  lemma InertialSingle(ixx: string, iyy: string, izz: string)
    requires Plain(ixx) && Plain(iyy) && Plain(izz)
    ensures OneLineEach(InertialLines(ixx, iyy, izz))
  {
    BlockLinesSingle();
    OriginSingle();
    SingleLineElement("      <inertia", [("ixx", ixx), ("ixy", "0"), ("ixz", "0"), ("iyy", iyy), ("iyz", "0"), ("izz", izz)]);
  }

  lemma VisualSingle(objName: string)
    requires Plain(objName)
    ensures OneLineEach(VisualLines(objName))
  {
    BlockLinesSingle();
    OriginSingle();
    GeometryLinesSingle();
    MaterialLinesSingle();
    ColorLineSingle();
    SingleLineElement("        <mesh", [("filename", objName), ("scale", "1 1 1")]);
  }

  lemma CollisionSingle(objName: string)
    requires Plain(objName)
    ensures OneLineEach(CollisionLines(objName))
  {
    BlockLinesSingle();
    OriginSingle();
    GeometryLinesSingle();
    SingleLineElement("        <mesh", [("filename", objName), ("scale", "1 1 1")]);
  }

  // ---------------------------------------------------------------------------
  // Writing the URDF file
  // ---------------------------------------------------------------------------

  /**
   `create_urdf`: the obj file must exist and the name must end in `.urdf`;
   the URDF goes into the obj's folder and may not replace a file already
   there. The result is the new file's path and its text.
   */
  function CreateUrdf(objPath: PurePath, filename: string, ixx: real, iyy: real, izz: real,
                      show: real -> string, existing: set<PurePath>): (r: Result<(PurePath, string)>)
    ensures r.Ok? <==> objPath in existing && EndsWith(filename, ".urdf") && Div(Parent(objPath), filename) !in existing
    ensures r.Err? ==> r.error.AssertionError?
    ensures r.Ok? ==> r.value.0 == Div(Parent(objPath), filename) && r.value.0 !in existing
    ensures r.Ok? ==> r.value.1 == UrdfText(Name(objPath), show(ixx), show(iyy), show(izz))
  {
    var _ :- Check(objPath in existing, "obj does not exist");
    var _ :- Check(EndsWith(filename, ".urdf"), "not a .urdf name");
    var outPath := Div(Parent(objPath), filename);
    var _ :- Check(outPath !in existing, "urdf exists");
    Ok((outPath, UrdfText(Name(objPath), show(ixx), show(iyy), show(izz))))
  }

  /** For a plain file name, the URDF lands in the obj's folder under that name. */
  lemma UrdfBesideObj(objPath: PurePath, filename: string, ixx: real, iyy: real, izz: real,
                      show: real -> string, existing: set<PurePath>)
    requires IsPart(filename)
    requires CreateUrdf(objPath, filename, ixx, iyy, izz, show, existing).Ok?
    ensures var out := CreateUrdf(objPath, filename, ixx, iyy, izz, show, existing).value.0;
            Parent(out) == Parent(objPath) && Name(out) == filename
  {
    DivPart(Parent(objPath), filename);
  }

  // ---------------------------------------------------------------------------
  // The export of one object
  // ---------------------------------------------------------------------------

  /** `1.0 / object_scale if rescale else 1.0`: the factor the mesh is scaled by. */
  function MeshScale(objectScale: real, rescale: bool): (r: Result<real>)
    ensures !rescale ==> r == Ok(1.0)
    ensures rescale ==> (r.Ok? <==> objectScale != 0.0)
    ensures rescale && r.Ok? ==> r.value * objectScale == 1.0
    ensures r.Err? ==> r.error.ZeroDivisionError?
  {
    if !rescale then Ok(1.0)
    else if objectScale == 0.0 then Err(ZeroDivisionError)
    else Ok(1.0 / objectScale)
  }

  /** The folder, mesh and URDF names of the export's file layout. */
  const MeshFolderName: string := "coacd"
  const MeshFileName: string := "decomposed.obj"
  const UrdfFileName: string := "coacd.urdf"

  lemma LayoutNames()
    ensures IsPart(MeshFolderName) && IsPart(MeshFileName) && IsPart(UrdfFileName)
    ensures EndsWith(UrdfFileName, ".urdf") && MeshFileName != UrdfFileName
  {
  }

  /** What one export produces: the mesh scale, the obj path, and the URDF's path and text. */
  datatype Export = Export(scale: real, objPath: PurePath, urdfPath: PurePath, urdfText: string)

  /**
   The steps after the parse: the file layout `<output>/<code>/coacd/decomposed.obj`,
   with `coacd.urdf` beside it, and the mesh scale. The mesh extraction writes
   the obj file, so it exists when the URDF is created.
   */
  function ExportParsed(outputDir: PurePath, code: string, objectScale: real, rescale: bool,
                        existing: set<PurePath>, show: real -> string): (r: Result<Export>)
    ensures r.Ok? ==> r.value.objPath == Div(Div(Div(outputDir, code), MeshFolderName), MeshFileName)
                      && r.value.urdfPath == Div(Parent(r.value.objPath), UrdfFileName)
                      && r.value.urdfText == UrdfText(Name(r.value.objPath), show(0.1), show(0.1), show(0.1))
  {
    var folder := Div(Div(outputDir, code), MeshFolderName);
    var objPath := Div(folder, MeshFileName);
    var scale :- MeshScale(objectScale, rescale);
    var urdf :- CreateUrdf(objPath, UrdfFileName, 0.1, 0.1, 0.1, show, existing + {objPath});
    Ok(Export(scale, objPath, urdf.0, urdf.1))
  }

  /**
   `main` of the export as written: the checkpoint name is parsed without
   any check for the keyword, and the object's folder is named after
   whatever code the parse gives.
   */
  function ExportObject(outputDir: PurePath, name: string, rescale: bool, existing: set<PurePath>,
                        parseFloat: string -> Result<real>, show: real -> string): (r: Result<Export>)
    ensures ParseObjectCodeAndScale(name, parseFloat).Err? ==>
              r == Err(ParseObjectCodeAndScale(name, parseFloat).error)
    ensures r.Ok? ==> ParseObjectCodeAndScale(name, parseFloat).Ok?
    ensures r.Ok? ==> r.value.objPath == Div(Div(Div(outputDir, ObjectCode(name)), MeshFolderName), MeshFileName)
                      && r.value.urdfPath == Div(Parent(r.value.objPath), UrdfFileName)
                      && r.value.urdfText == UrdfText(Name(r.value.objPath), show(0.1), show(0.1), show(0.1))
  {
    var parsed :- ParseObjectCodeAndScale(name, parseFloat);
    ExportParsed(outputDir, parsed.0, parsed.1, rescale, existing, show)
  }

  /**
   The export with the checked parse: a name without the keyword is a
   ValueError, and a name with it exports exactly as the original does.
   */
  function ExportObjectChecked(outputDir: PurePath, name: string, rescale: bool, existing: set<PurePath>,
                               parseFloat: string -> Result<real>, show: real -> string): (r: Result<Export>)
    ensures !HasKeyword(name) ==> r.Err? && r.error.ValueError?
    ensures HasKeyword(name) ==> r == ExportObject(outputDir, name, rescale, existing, parseFloat, show)
    ensures r.Ok? ==> exists code :: code + Keyword <= name &&
                        r.value.objPath == Div(Div(Div(outputDir, code), MeshFolderName), MeshFileName)
  {
    var parsed :- ParseObjectCodeAndScaleChecked(name, parseFloat);
    ExportParsed(outputDir, parsed.0, parsed.1, rescale, existing, show)
  }

  /**
   As written, the name `1_5`, which lacks the keyword, is exported into a
   folder `1_` with mesh scale 1/1.5 when rescaling; the checked export
   refuses it.
   */
  lemma MissingKeywordExportExample(outputDir: PurePath, existing: set<PurePath>,
                                    parseFloat: string -> Result<real>, show: real -> string)
    requires ReadsDecimals(parseFloat)
    requires Div(Div(Div(outputDir, "1_"), MeshFolderName), UrdfFileName) !in existing
    ensures var r := ExportObject(outputDir, "1_5", true, existing, parseFloat, show);
      r.Ok? && r.value.objPath == Div(Div(Div(outputDir, "1_"), MeshFolderName), MeshFileName) &&
      r.value.scale * 1.5 == 1.0
    ensures ExportObjectChecked(outputDir, "1_5", true, existing, parseFloat, show).Err?
  {
    MissingKeywordExample(parseFloat);
    var folder := Div(Div(outputDir, "1_"), MeshFolderName);
    var urdf := CreateInLayout(folder, existing, show);
  }

  /** A dataset name with a positive scale exports, when rescaling, with scale 1/0.digits, and the URDF sits beside the mesh. */
  lemma ExportDatasetName(outputDir: PurePath, code: string, digits: string, existing: set<PurePath>,
                          parseFloat: string -> Result<real>, show: real -> string) returns (e: Export)
    requires |digits| >= 1 && AllDigits(digits) && Value(digits) > 0
    requires ReadsDecimals(parseFloat)
    requires Div(Div(Div(outputDir, code), MeshFolderName), UrdfFileName) !in existing
    ensures ExportObject(outputDir, DatasetName(code, digits), true, existing, parseFloat, show) == Ok(e)
    ensures ExportObjectChecked(outputDir, DatasetName(code, digits), true, existing, parseFloat, show) == Ok(e)
    ensures Inverse(e.scale, DigitsScale(digits))
    ensures Parent(e.urdfPath) == Parent(e.objPath)
  {
    var name := DatasetName(code, digits);
    ParseDatasetName(code, digits, parseFloat);
    CheckedParseDatasetName(code, digits, parseFloat);
    var scale := DigitsScale(digits);
    var meshScale := RescaleDigits(digits);
    var folder := Div(Div(outputDir, code), MeshFolderName);
    var urdf := CreateInLayout(folder, existing, show);
    ExportOk(outputDir, name, true, existing, parseFloat, show, code, scale, meshScale, urdf);
    e := Export(meshScale, Div(folder, MeshFileName), urdf.0, urdf.1);
  }

  /** a and b multiply to one. */
  predicate Inverse(a: real, b: real)
  {
    a * b == 1.0
  }

  /** Rescaling by a positive dataset scale gives its inverse. */
  lemma RescaleDigits(digits: string) returns (meshScale: real)
    requires AllDigits(digits) && Value(digits) > 0
    ensures MeshScale(DigitsScale(digits), true) == Ok(meshScale) && Inverse(meshScale, DigitsScale(digits))
  {
    var x := DigitsScale(digits);
    assert x > 0.0;
    meshScale := MeshScale(x, true).value;
  }

  /** In the export's folder the URDF can be created when no URDF is there yet, and it sits beside the mesh. */
  lemma CreateInLayout(folder: PurePath, existing: set<PurePath>, show: real -> string) returns (urdf: (PurePath, string))
    requires Div(folder, UrdfFileName) !in existing
    ensures var objPath := Div(folder, MeshFileName);
            CreateUrdf(objPath, UrdfFileName, 0.1, 0.1, 0.1, show, existing + {objPath}) == Ok(urdf)
            && Parent(urdf.0) == Parent(objPath) == folder
  {
    var objPath := Div(folder, MeshFileName);
    LayoutNames();
    DivPart(folder, MeshFileName);
    DivPart(folder, UrdfFileName);
    var created := CreateUrdf(objPath, UrdfFileName, 0.1, 0.1, 0.1, show, existing + {objPath});
    assert created.Ok?;
    urdf := created.value;
  }

  /** The export succeeds when each of its steps does. */
  lemma ExportOk(outputDir: PurePath, name: string, rescale: bool, existing: set<PurePath>,
                 parseFloat: string -> Result<real>, show: real -> string,
                 code: string, objectScale: real, scale: real, urdf: (PurePath, string))
    requires ParseObjectCodeAndScale(name, parseFloat) == Ok((code, objectScale))
    requires MeshScale(objectScale, rescale) == Ok(scale)
    requires var objPath := Div(Div(Div(outputDir, code), MeshFolderName), MeshFileName);
             CreateUrdf(objPath, UrdfFileName, 0.1, 0.1, 0.1, show, existing + {objPath}) == Ok(urdf)
    ensures ExportObject(outputDir, name, rescale, existing, parseFloat, show)
            == Ok(Export(scale, Div(Div(Div(outputDir, code), MeshFolderName), MeshFileName), urdf.0, urdf.1))
  {
  }
}
