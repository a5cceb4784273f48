/**
 POSIX `os.path` operations on strings — `join` and `splitext` —,
 `list.index`, and `pathlib` paths as lists of components, which the path
 handling of the dataset and URDF code is built from.
 */
module Paths {
  import opened Outcome
  import opened Strings

  /** `os.path.join(a, b)`: an absolute b replaces a; otherwise a separator goes in unless a is empty or ends in one. */
  function Join2(a: string, b: string): (p: string)
    ensures !StartsWith(b, "/") ==> a <= p && EndsWith(p, b)
    ensures StartsWith(b, "/") ==> p == b
  {
    if StartsWith(b, "/") then b
    else if |a| == 0 || a[|a| - 1] == '/' then a + b
    else a + "/" + b
  }

  /** `os.path.join(*parts)`: the parts folded in from the left; no parts at all is a TypeError. */
  function JoinAll(parts: seq<string>): (r: Result<string>)
    ensures r.Ok? <==> |parts| >= 1
  {
    if |parts| == 0 then Err(TypeError("join() missing argument"))
    else if |parts| == 1 then Ok(parts[0])
    else
      var init := JoinAll(parts[..|parts| - 1]);
      Ok(Join2(init.value, parts[|parts| - 1]))
  }

  /** Relative pieces without separators join to the pieces with one separator between each pair. */
  lemma {:induction false} JoinAllPlain(parts: seq<string>)
    requires |parts| >= 1
    requires forall i :: 0 <= i < |parts| ==> |parts[i]| > 0 && '/' !in parts[i]
    ensures JoinAll(parts) == Ok(Join(parts, "/"))
  {
    if |parts| >= 2 {
      var init, last := parts[..|parts| - 1], parts[|parts| - 1];
      assert parts == init + [last];
      PlainPrefix(parts);
      JoinAllPlain(init);
      var j := Join(init, "/");
      JoinEndsWithLast(init, "/");
      LastOfSuffix(j, init[|init| - 1]);
      Join2Plain(j, last);
      JoinSnoc(init, last, "/");
    }
  }

  lemma PlainPrefix(parts: seq<string>)
    requires |parts| >= 2
    requires forall i :: 0 <= i < |parts| ==> |parts[i]| > 0 && '/' !in parts[i]
    ensures var init := parts[..|parts| - 1];
            forall i :: 0 <= i < |init| ==> |init[i]| > 0 && '/' !in init[i]
  {
  }

  lemma LastOfSuffix(s: string, w: string)
    requires |w| > 0 && EndsWith(s, w)
    ensures s[|s| - 1] == w[|w| - 1]
  {
    assert s[|s| - |w|..][|w| - 1] == s[|s| - 1];
  }

  lemma Join2Plain(a: string, b: string)
    requires |a| > 0 && a[|a| - 1] != '/' && (|b| == 0 || b[0] != '/')
    ensures Join2(a, b) == a + "/" + b
  {
    assert !StartsWith(b, "/");
  }

  /** Joining one more piece appends the separator and the piece. */
  lemma {:induction false} JoinSnoc(ws: seq<string>, w: string, sep: string)
    requires |ws| >= 1
    ensures Join(ws + [w], sep) == Join(ws, sep) + sep + w
  {
    if |ws| == 1 {
      assert (ws + [w])[1..] == [w];
    } else {
      assert (ws + [w])[1..] == ws[1..] + [w];
      JoinSnoc(ws[1..], w, sep);
    }
  }

  /** The joined text ends with the last piece. */
  lemma {:induction false} JoinEndsWithLast(ws: seq<string>, sep: string)
    requires |ws| >= 1
    ensures EndsWith(Join(ws, sep), ws[|ws| - 1])
  {
    if |ws| >= 2 {
      JoinEndsWithLast(ws[1..], sep);
    }
  }

  /** `os.path.splitext(p)`: the extension starts at the last dot of the last component, unless that component is only dots before it. */
  function SplitExt(p: string): (r: (string, string))
    ensures r.0 + r.1 == p
    ensures r.1 == [] || (r.1[0] == '.' && '/' !in r.1)
  {
    var sep := RFind(p, "/");
    var dot := RFind(p, ".");
    if dot > sep && exists k :: sep + 1 <= k < dot && p[k] != '.' then
      assert p[dot] == p[dot..dot + 1][0] == '.';
      assert '/' !in p[dot..] by {
        forall k | dot <= k < |p| ensures p[k] != '/' {
          assert !OccursAt(p, "/", k);
          assert p[k..k + 1] == [p[k]];
        }
      }
      (p[..dot], p[dot..])
    else (p, [])
  }

  /** A name that does not start with a dot, with one extension after it, splits off exactly that extension. */
  lemma SplitExtOfName(dir: string, name: string, ext: string)
    requires |name| > 0 && name[0] != '.' && '/' !in name && '.' !in name
    requires '/' !in ext && '.' !in ext
    ensures SplitExt(dir + "/" + name + "." + ext) == (dir + "/" + name, "." + ext)
  {
    var p := dir + "/" + name + "." + ext;
    var sep, dot := |dir|, |dir| + 1 + |name|;
    LastSlashOfName(dir, name, ext);
    LastDotOfName(dir, name, ext);
    assert p[sep + 1] == name[0];
    assert exists k :: sep + 1 <= k < dot && p[k] != '.' by {
      assert sep + 1 < dot && p[sep + 1] != '.';
    }
    assert p[..dot] == dir + "/" + name;
    assert p[dot..] == "." + ext;
  }

  lemma LastSlashOfName(dir: string, name: string, ext: string)
    requires '/' !in name && '/' !in ext
    ensures RFind(dir + "/" + name + "." + ext, "/") == |dir|
  {
    var p := dir + "/" + name + "." + ext;
    var sep, dot := |dir|, |dir| + 1 + |name|;
    assert OccursAt(p, "/", sep);
    forall k | sep < k < |p| ensures !OccursAt(p, "/", k) {
      assert p[k..k + 1] == [p[k]];
      if k < dot { assert p[k] == name[k - sep - 1]; } else if k > dot { assert p[k] == ext[k - dot - 1]; }
    }
  }

  lemma LastDotOfName(dir: string, name: string, ext: string)
    requires '.' !in ext
    ensures RFind(dir + "/" + name + "." + ext, ".") == |dir| + 1 + |name|
  {
    var p := dir + "/" + name + "." + ext;
    var dot := |dir| + 1 + |name|;
    assert OccursAt(p, ".", dot);
    forall k | dot < k < |p| ensures !OccursAt(p, ".", k) {
      assert p[k..k + 1] == [p[k]];
      assert p[k] == ext[k - dot - 1];
    }
  }

  /** `lst.index(x)`: the first position holding x, or ValueError. */
  function IndexOf<T(==)>(s: seq<T>, x: T): (r: Result<nat>)
    ensures r.Ok? <==> x in s
    ensures r.Ok? ==> r.value < |s| && s[r.value] == x && x !in s[..r.value]
    ensures r.Err? ==> r.error.ValueError?
  {
    if |s| == 0 then Err(ValueError("not in list"))
    else if s[0] == x then Ok(0)
    else
      match IndexOf(s[1..], x)
      case Ok(i) =>
        assert s[..i + 1] == [s[0]] + s[1..][..i];
        Ok(i + 1)
      case Err(e) => Err(e)
  }

  // ---------------------------------------------------------------------------
  // pathlib
  // ---------------------------------------------------------------------------

  /** A component pathlib keeps: nonempty, not `.`, and without a separator. */
  predicate IsPart(w: string)
  {
    w != "" && w != "." && '/' !in w
  }

  /** The pieces pathlib keeps: empty pieces (from `//` or a trailing `/`) and `.` drop out. */
  function Keep(ws: seq<string>): (r: seq<string>)
    ensures forall w :: w in r <==> w in ws && w != "" && w != "."
  {
    if |ws| == 0 then []
    else if ws[0] == "" || ws[0] == "." then Keep(ws[1..])
    else [ws[0]] + Keep(ws[1..])
  }

  /** A `PurePosixPath`: whether it starts at the root, and its components. */
  datatype PurePath = PurePath(absolute: bool, parts: seq<string>)
  {
    predicate Normal()
    {
      forall i :: 0 <= i < |parts| ==> IsPart(parts[i])
    }
  }

  /** The components of a path string. */
  function Parts(s: string): (r: seq<string>)
    ensures forall i :: 0 <= i < |r| ==> IsPart(r[i])
  {
    var ws := SplitOn(s, '/');
    var r := Keep(ws);
    assert forall i :: 0 <= i < |r| ==> r[i] in ws;
    r
  }

  /** `pathlib.Path(s)`. */
  function FromString(s: string): (p: PurePath)
    ensures p.Normal()
  {
    PurePath(StartsWith(s, "/"), Parts(s))
  }

  /** `p / s`: an absolute s replaces p; otherwise its components are appended. */
  function Div(p: PurePath, s: string): (q: PurePath)
    ensures p.Normal() ==> q.Normal()
  {
    if StartsWith(s, "/") then FromString(s)
    else PurePath(p.absolute, p.parts + Parts(s))
  }

  /** `p.parent`: the path without its last component; a path without components is its own parent. */
  function Parent(p: PurePath): (q: PurePath)
    ensures p.Normal() ==> q.Normal()
  {
    if |p.parts| == 0 then p else PurePath(p.absolute, p.parts[..|p.parts| - 1])
  }

  /** `p.name`: the last component, or the empty string. */
  function Name(p: PurePath): string
  {
    if |p.parts| == 0 then "" else p.parts[|p.parts| - 1]
  }

  /** A single component has itself as its only component. */
  lemma PartsOfPart(w: string)
    requires IsPart(w)
    ensures Parts(w) == [w]
  {
    BeforeFirstAbsent(w, [], '/');
    assert SplitOn(w, '/') == [w];
    assert Keep([w]) == [w] + Keep([]);
    assert Parts(w) == Keep([w]);
  }

  /**
   Appending a single component and then taking the parent and the name
   gives back the path and the component: `(p / w).parent == p` and
   `(p / w).name == w`.
   */
  lemma DivPart(p: PurePath, w: string)
    requires IsPart(w)
    ensures Parent(Div(p, w)) == p && Name(Div(p, w)) == w
  {
    PartsOfPart(w);
    assert w[0] != '/';
    assert (p.parts + [w])[..|p.parts|] == p.parts;
  }

  /** A normal path is its parent with its name appended. */
  lemma ParentDivName(p: PurePath)
    requires p.Normal() && |p.parts| > 0
    ensures Div(Parent(p), Name(p)) == p
  {
    var w := Name(p);
    assert IsPart(p.parts[|p.parts| - 1]);
    PartsOfPart(w);
    assert w[0] != '/';
    assert p.parts[..|p.parts| - 1] + [w] == p.parts;
  }
}
