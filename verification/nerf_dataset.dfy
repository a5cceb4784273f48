/**
 The NeRF dataset that the simulator writes out: the ring cameras, the
 train / test / val partition of their shuffled indices, the pose record
 each camera saves as a one-line JSON list and reads back, and the frame
 path stored in each split's transforms file (sim_trifinger.py).
 The shuffle is an input, the pose-file text is a string, float
 formatting and parsing are function parameters, and the camera rotation
 is a function of the quaternion passed in.
 */
module NerfDataset {
  import opened Outcome
  import opened RealSeqs
  import opened PyArith
  import opened Strings
  import opened Paths
  import opened Rigid

  // ---------------------------------------------------------------------
  // Ring cameras

  /** Cameras per ring, innermost first. */
  const RingCounts: seq<nat> := [56, 104, 96, 1]

  function Total(counts: seq<nat>): nat
  {
    if |counts| == 0 then 0 else Total(counts[..|counts| - 1]) + counts[|counts| - 1]
  }

  /** The ring cameras in the order they are created, each as (ring, position on the ring). */
  function RingCameras(counts: seq<nat>): (cams: seq<(nat, nat)>)
    ensures |cams| == Total(counts)
    ensures forall i :: 0 <= i < |cams| ==> cams[i].0 < |counts| && cams[i].1 < counts[cams[i].0]
  {
    if |counts| == 0 then []
    else
      var r := |counts| - 1;
      var init := RingCameras(counts[..r]);
      assert forall i :: 0 <= i < |init| ==> init[i].0 < r && counts[..r][init[i].0] == counts[init[i].0];
      init + seq(counts[r], k requires 0 <= k < counts[r] => (r, k))
  }

  /** Camera k of ring r is image number (cameras on earlier rings) + k. */
  lemma {:induction false} RingCameraIndex(counts: seq<nat>, r: nat, k: nat)
    requires r < |counts| && k < counts[r]
    ensures Total(counts[..r]) + k < |RingCameras(counts)|
    ensures RingCameras(counts)[Total(counts[..r]) + k] == (r, k)
    decreases |counts|
  {
    var last := |counts| - 1;
    var init := counts[..last];
    if r < last {
      RingCameraIndex(init, r, k);
      assert init[..r] == counts[..r];
      EarlierRingBelowTotal(init, r, k);
    } else {
      assert counts[..r] == init;
    }
  }

  /** Camera k of a ring comes before every camera of the rings after it. */
  lemma EarlierRingBelowTotal(counts: seq<nat>, r: nat, k: nat)
    requires r < |counts| && k < counts[r]
    ensures Total(counts[..r]) + k < Total(counts)
  {
    TotalPrefix(counts, r + 1);
    assert counts[..r + 1][..r] == counts[..r];
  }

  /** The cameras of the first n rings are at most all of them. */
  lemma {:induction false} TotalPrefix(counts: seq<nat>, n: nat)
    requires n <= |counts|
    ensures Total(counts[..n]) <= Total(counts)
    ensures n >= 1 ==> Total(counts[..n - 1]) + counts[n - 1] == Total(counts[..n])
    decreases |counts|
  {
    if n >= 1 {
      assert counts[..n][..n - 1] == counts[..n - 1];
    }
    if n < |counts| {
      var init := counts[..|counts| - 1];
      TotalPrefix(init, n);
      assert init[..n] == counts[..n];
    } else {
      assert counts[..n] == counts;
    }
  }

  /** The dataset has 257 ring images (the overhead camera is saved apart and not split). */
  lemma RingImageCount()
    ensures |RingCameras(RingCounts)| == 257
  {
    assert Total([56]) == 56 by { assert [56][..0] == []; }
    assert Total([56, 104]) == 160 by { assert [56, 104][..1] == [56]; }
    assert Total([56, 104, 96]) == 256 by { assert [56, 104, 96][..2] == [56, 104]; }
    assert RingCounts[..3] == [56, 104, 96];
  }

  // ---------------------------------------------------------------------
  // Train / test / val split

  datatype SplitSizes = SplitSizes(train: int, val: int, test: int)

  /** `int(train_frac * n)`, `int(val_frac * n)`, and the test count as what remains. */
  function Sizes(numImgs: nat, trainFrac: real, valFrac: real): (z: SplitSizes)
    ensures z.train + z.val + z.test == numImgs
  {
    var numTrain := Trunc(trainFrac * numImgs as real);
    var numVal := Trunc(valFrac * numImgs as real);
    SplitSizes(numTrain, numVal, numImgs - numTrain - numVal)
  }

  datatype Split = Split(train: seq<nat>, test: seq<nat>, val: seq<nat>)

  /**
   `create_train_val_test_split` on the shuffled indices `perm`: train is
   the first num_train, test the next num_test, val the rest — written as
   Python slices, so they keep their meaning whatever the counts.
   */
  function CreateSplit(perm: seq<nat>, trainFrac: real, valFrac: real): (s: Split)
    ensures forall x :: x in s.train || x in s.test || x in s.val ==> x in perm
  {
    var z := Sizes(|perm|, trainFrac, valFrac);
    Split(PySlice(perm, 0, z.train),
          PySlice(perm, z.train, z.train + z.test),
          PySlice(perm, z.train + z.test, |perm|))
  }

  /** Fractions that are nonnegative and add up to at most one give counts that fit. */
  lemma SizesFit(numImgs: nat, trainFrac: real, valFrac: real)
    requires 0.0 <= trainFrac && 0.0 <= valFrac && trainFrac + valFrac <= 1.0
    ensures var z := Sizes(numImgs, trainFrac, valFrac);
            0 <= z.train && 0 <= z.val && 0 <= z.test
  {
    var n := numImgs as real;
    FractionsOfWhole(trainFrac, valFrac, n);
    var x, y := trainFrac * n, valFrac * n;
    assert x + y <= n;
    TruncBoth(x, y, n);
    assert Sizes(numImgs, trainFrac, valFrac) == SplitSizes(Trunc(x), Trunc(y), numImgs - Trunc(x) - Trunc(y));
  }

  lemma TruncBoth(x: real, y: real, n: real)
    requires 0.0 <= x && 0.0 <= y && x + y <= n
    ensures 0 <= Trunc(x) && 0 <= Trunc(y) && (Trunc(x) + Trunc(y)) as real <= n
  {
  }

  lemma FractionsOfWhole(a: real, b: real, n: real)
    requires 0.0 <= a && 0.0 <= b && a + b <= 1.0 && 0.0 <= n
    ensures 0.0 <= a * n && 0.0 <= b * n && a * n + b * n <= n
  {
    assert a * n + b * n == (a + b) * n;
    assert (a + b) * n <= 1.0 * n;
  }

  /** With such fractions the three parts, in order, are the shuffled indices, with the counts asked for. */
  lemma SplitConcatenates(perm: seq<nat>, trainFrac: real, valFrac: real)
    requires 0.0 <= trainFrac && 0.0 <= valFrac && trainFrac + valFrac <= 1.0
    ensures var s := CreateSplit(perm, trainFrac, valFrac);
            var z := Sizes(|perm|, trainFrac, valFrac);
            && s.train + s.test + s.val == perm
            && |s.train| == z.train && |s.test| == z.test && |s.val| == z.val
  {
    SizesFit(|perm|, trainFrac, valFrac);
    var z := Sizes(|perm|, trainFrac, valFrac);
    var a, b := z.train, z.train + z.test;
    assert perm[..a] + perm[a..b] + perm[b..] == perm;
  }

  /** The indices 0, 1, ..., n - 1 (`np.arange(n)`). */
  function Indices(n: nat): (r: seq<nat>)
    ensures |r| == n && forall i :: 0 <= i < n ==> r[i] == i
  {
    seq(n, i requires 0 <= i < n => i)
  }

  /** `perm` holds every index below its length exactly once (what `np.random.shuffle(np.arange(n))` yields). */
  predicate IsShuffle(perm: seq<nat>)
  {
    && (forall i :: 0 <= i < |perm| ==> perm[i] < |perm|)
    && Distinct(perm)
  }

  predicate Distinct(s: seq<nat>)
  {
    forall i, j :: 0 <= i < j < |s| ==> s[i] != s[j]
  }

  /** The three splits are pairwise disjoint and together hold every image. */
  lemma SplitPartitions(perm: seq<nat>, trainFrac: real, valFrac: real)
    requires IsShuffle(perm)
    requires 0.0 <= trainFrac && 0.0 <= valFrac && trainFrac + valFrac <= 1.0
    ensures var s := CreateSplit(perm, trainFrac, valFrac);
            && (forall x :: x in s.train ==> x !in s.test && x !in s.val)
            && (forall x :: x in s.test ==> x !in s.val)
            && (forall x :: x in Indices(|perm|) <==> x in s.train || x in s.test || x in s.val)
  {
    var s := CreateSplit(perm, trainFrac, valFrac);
    SplitConcatenates(perm, trainFrac, valFrac);
    PiecesDisjoint(perm, s.train, s.test + s.val);
    assert perm[|s.train|..] == s.test + s.val;
    PiecesDisjoint(perm[|s.train|..], s.test, s.val);
    ShuffleCovers(perm);
    assert forall x :: x in perm <==> x in s.train || x in s.test || x in s.val;
  }

  /** Two consecutive pieces of a sequence without repeats share no element, and the second has no repeats. */
  lemma PiecesDisjoint(perm: seq<nat>, a: seq<nat>, b: seq<nat>)
    requires a + b == perm && Distinct(perm)
    ensures forall x :: x in a ==> x !in b
    ensures Distinct(b)
  {
    assert forall i :: 0 <= i < |a| ==> a[i] == perm[i];
    assert forall j :: 0 <= j < |b| ==> b[j] == perm[|a| + j];
  }

  /** n distinct indices below n are all of them. */
  lemma ShuffleCovers(perm: seq<nat>)
    requires IsShuffle(perm)
    ensures forall x :: x in perm <==> x in Indices(|perm|)
  {
    var all := Indices(|perm|);
    assert forall x :: x in perm ==> x in all by {
      forall x | x in perm ensures x in all {
        assert all[x] == x;
      }
    }
    assert Elems(perm) <= Elems(all);
    DistinctCard(perm);
    DistinctCard(all);
    SubsetSameCard(Elems(perm), Elems(all));
    assert forall x :: x in perm <==> x in Elems(perm);
  }

  function Elems(s: seq<nat>): (e: set<nat>)
    ensures forall x :: x in e <==> x in s
  {
    set x | x in s
  }

  /** A sequence without repeats has as many distinct elements as entries. */
  lemma {:induction false} DistinctCard(s: seq<nat>)
    requires Distinct(s)
    ensures |Elems(s)| == |s|
  {
    if |s| > 0 {
      var t, last := s[..|s| - 1], s[|s| - 1];
      assert Distinct(t);
      DistinctCard(t);
      assert s == t + [last];
      assert last !in t by {
        assert forall k :: 0 <= k < |t| ==> t[k] == s[k];
      }
      ElemsSnoc(t, last);
    }
  }

  lemma ElemsSnoc(t: seq<nat>, last: nat)
    requires last !in t
    ensures |Elems(t + [last])| == |Elems(t)| + 1
  {
    assert Elems(t + [last]) == Elems(t) + {last};
  }

  /** A subset with as many elements as the whole is the whole. */
  lemma SubsetSameCard(a: set<nat>, b: set<nat>)
    requires a <= b && |a| == |b|
    ensures a == b
  {
    var d := b - a;
    assert a + d == b;
    assert a * d == {};
    assert |d| == 0;
  }

  // ---------------------------------------------------------------------
  // Pose record

  /**
   The record `save_single_image` writes: position x, y, z, then the
   quaternion's components 1..3 and then its component 0 — the camera
   quaternion is (w, x, y, z) and the file holds it as x, y, z, w.
   */
  function PoseRecord(pos: seq<real>, q: seq<real>): (rec: seq<real>)
    requires |pos| == 3 && |q| == 4
    ensures |rec| == 7
  {
    pos + q[1..] + [q[0]]
  }

  /** `json.dump` of a list of floats: the items formatted, `", "` between, in brackets. */
  function DumpList(xs: seq<real>, show: real -> string): (text: string)
  {
    "[" + Join(Shown(xs, show), ", ") + "]"
  }

  function Shown(xs: seq<real>, show: real -> string): (ws: seq<string>)
    ensures |ws| == |xs| && forall i :: 0 <= i < |xs| ==> ws[i] == show(xs[i])
  {
    seq(|xs|, i requires 0 <= i < |xs| => show(xs[i]))
  }

  /** `file.readline()`: up to and including the first newline, or everything. */
  function ReadLine(text: string): (line: string)
    ensures line <= text
    ensures '\n' !in text ==> line == text
  {
    var w := BeforeFirst(text, '\n');
    if |w| < |text| then text[..|w| + 1] else text
  }

  /** Every token reads as a float. */
  predicate AllParse(tokens: seq<string>, parse: string -> Option<real>)
  {
    forall i :: 0 <= i < |tokens| ==> parse(tokens[i]).Some?
  }

  /** `np.fromstring(s, sep=",")`: every comma-separated token must read as a float. */
  function FromString(s: string, parse: string -> Option<real>): (r: Result<seq<real>>)
    ensures r.Ok? <==> AllParse(SplitOn(s, ','), parse)
    ensures r.Ok? ==> |r.value| == |SplitOn(s, ',')|
    ensures r.Err? ==> r.error.ValueError?
  {
    var tokens := SplitOn(s, ',');
    if AllParse(tokens, parse) then
      Ok(seq(|tokens|, i requires 0 <= i < |tokens| => parse(tokens[i]).value))
    else Err(ValueError("string size"))
  }

  datatype CameraPose = CameraPose(pos: seq<real>, quatXyzw: seq<real>)

  /**
   What `_create_one_split` reads from a pose file: the first line without
   its first and last character, split on commas into floats; the
   position is the first three numbers and the quaternion the last four.
   A quaternion that is not four numbers is rejected by the rotation
   constructor, and a position that is not three by the assignment into
   the transform.
   */
  function ReadPose(text: string, parse: string -> Option<real>): (r: Result<CameraPose>)
    ensures r.Ok? ==> |r.value.pos| == 3 && |r.value.quatXyzw| == 4
  {
    var raw := PySlice(ReadLine(text), 1, -1);
    var pose :- FromString(raw, parse);
    var pos, quat := PySlice(pose, 0, 3), PySlice(pose, -4, |pose|);
    var _ :- Need(|quat| == 4, ValueError("quat shape"));
    var _ :- Need(|pos| == 3, ValueError("broadcast"));
    Ok(CameraPose(pos, quat))
  }

  /** Formatting and parsing of floats agree: what is shown reads back, with or without a space in front. */
  ghost predicate ReadsBack(show: real -> string, parse: string -> Option<real>)
  {
    forall x :: parse(show(x)) == Some(x) && parse(" " + show(x)) == Some(x)
  }

  /** A float's text holds neither a comma nor a newline. */
  ghost predicate PlainText(show: real -> string)
  {
    forall x :: ',' !in show(x) && '\n' !in show(x)
  }

  /** `[1:-1]` removes exactly the brackets the JSON list was written with. */
  lemma StripBrackets(xs: seq<real>, show: real -> string)
    requires PlainText(show)
    ensures PySlice(ReadLine(DumpList(xs, show)), 1, -1) == Join(Shown(xs, show), ", ")
  {
    var ws := Shown(xs, show);
    var body := Join(ws, ", ");
    ShownPlain(xs, show);
    JoinPlain(ws, ", ");
    assert '\n' !in DumpList(xs, show) by {
      assert DumpList(xs, show) == "[" + body + "]";
    }
  }

  lemma ShownPlain(xs: seq<real>, show: real -> string)
    requires PlainText(show)
    ensures forall i :: 0 <= i < |xs| ==> ',' !in Shown(xs, show)[i] && '\n' !in Shown(xs, show)[i]
  {
    var ws := Shown(xs, show);
    forall i | 0 <= i < |xs| ensures ',' !in ws[i] && '\n' !in ws[i] {
      var y := xs[i];
      assert ',' !in show(y) && '\n' !in show(y);
    }
  }

  /** Pieces and a separator without newlines join to text without one. */
  lemma {:induction false} JoinPlain(ws: seq<string>, sep: string)
    requires '\n' !in sep && forall i :: 0 <= i < |ws| ==> '\n' !in ws[i]
    ensures '\n' !in Join(ws, sep)
  {
    if |ws| > 1 {
      JoinPlain(ws[1..], sep);
    }
  }

  /** Parsing the comma-joined text of a list of floats gives the list back. */
  lemma ParseDumped(xs: seq<real>, show: real -> string, parse: string -> Option<real>)
    requires |xs| >= 1 && ReadsBack(show, parse) && PlainText(show)
    ensures FromString(Join(Shown(xs, show), ", "), parse) == Ok(xs)
  {
    var ws := Shown(xs, show);
    var tokens := [ws[0]] + Prefixed(" ", ws[1..]);
    JoinLongSeparator(ws, ',', " ");
    ShownPlain(xs, show);
    forall i | 0 <= i < |tokens| ensures ',' !in tokens[i] {
      if i > 0 {
        assert tokens[i] == " " + ws[i];
      }
    }
    assert [','] + " " == ", ";
    SplitOnJoin(tokens, ',');
    assert SplitOn(Join(ws, ", "), ',') == tokens;
    forall i | 0 <= i < |tokens| ensures parse(tokens[i]) == Some(xs[i]) {
      var y := xs[i];
      assert parse(show(y)) == Some(y) && parse(" " + show(y)) == Some(y);
      if i > 0 {
        assert tokens[i] == " " + show(y);
      }
    }
    assert AllParse(tokens, parse);
    var r := FromString(Join(Shown(xs, show), ", "), parse);
    assert |r.value| == |xs|;
    forall i | 0 <= i < |xs| ensures r.value[i] == xs[i] {
      assert r.value[i] == parse(tokens[i]).value;
    }
    assert r.value == xs;
  }

  /**
   Writing a camera pose and reading the file back gives the position and
   the quaternion in x, y, z, w order.
   */
  lemma PoseRoundTrip(pos: seq<real>, q: seq<real>, show: real -> string, parse: string -> Option<real>)
    requires |pos| == 3 && |q| == 4
    requires ReadsBack(show, parse) && PlainText(show)
    ensures ReadPose(DumpList(PoseRecord(pos, q), show), parse) == Ok(CameraPose(pos, q[1..] + [q[0]]))
  {
    var rec := PoseRecord(pos, q);
    StripBrackets(rec, show);
    ParseDumped(rec, show, parse);
    assert rec[..3] == pos;
    assert rec[3..7] == q[1..] + [q[0]];
  }

  /** The quaternion read back as x, y, z, w is the camera's w, x, y, z quaternion with w moved last: moving it back to the front restores it. */
  lemma StoredQuaternionReorders(pos: seq<real>, q: seq<real>, show: real -> string, parse: string -> Option<real>)
    requires |pos| == 3 && |q| == 4
    requires ReadsBack(show, parse) && PlainText(show)
    ensures var p := ReadPose(DumpList(PoseRecord(pos, q), show), parse);
            p.Ok? && [p.value.quatXyzw[3], p.value.quatXyzw[0], p.value.quatXyzw[1], p.value.quatXyzw[2]] == q
  {
    PoseRoundTrip(pos, q, show, parse);
  }

  /**
   The camera-to-world transform of a frame: the rotation of the read
   quaternion (composed with the fixed camera-axis turn, both inside
   `rotation`) and the read position as translation.
   */
  function FrameTransform(p: CameraPose, rotation: seq<real> -> seq<seq<real>>): (r: Result<seq<seq<real>>>)
    requires |p.pos| == 3
    ensures r.Ok? <==> IsMatrix(rotation(p.quatXyzw), 3, 3)
    ensures r.Ok? ==> IsMatrix(r.value, 4, 4)
    ensures r.Ok? ==> TranslationOf(r.value) == p.pos && RotationOf(r.value) == rotation(p.quatXyzw)
  {
    var R := rotation(p.quatXyzw);
    if IsMatrix(R, 3, 3) then
      PartsOfHomogeneous(R, p.pos);
      Ok(Homogeneous(R, p.pos))
    else Err(ValueError("rotation shape"))
  }

  // ---------------------------------------------------------------------
  // Frame paths

  /**
   The `file_path` of image `ii` in split `splitName` under `folder`: the
   copied image's path, cut to start at the first component equal to the
   split name, with its extension removed.
   */
  function FramePath(folder: string, splitName: string, ii: nat): (r: Result<string>)
  {
    var target := Join2(Join2(folder, splitName), Decimal(ii) + ".png");
    var parts := SplitOn(target, '/');
    var idx :- IndexOf(parts, splitName);
    var joined :- JoinAll(parts[idx..]);
    Ok(SplitExt(joined).0)
  }

  /**
   When the folder has no component named like the split, the frame path
   is the split name, a separator and the image number.
   */
  lemma FramePathOfImage(folder: string, splitName: string, ii: nat)
    requires |splitName| > 0 && '/' !in splitName
    requires |folder| == 0 || folder[|folder| - 1] != '/'
    requires splitName !in SplitOn(folder, '/')
    ensures FramePath(folder, splitName, ii) == Ok(splitName + "/" + Decimal(ii))
  {
    var d := Decimal(ii);
    NoSlashInDigits(d);
    var idx := TrimmedParts(folder, splitName, d + ".png");
    TrimmedName(splitName, d);
  }

  /** The trimmed components join back with one separator, and the extension comes off. */
  lemma TrimmedName(splitName: string, d: string)
    requires |splitName| > 0 && '/' !in splitName
    requires |d| > 0 && '/' !in d && '.' !in d && d[0] != '.'
    ensures JoinAll([splitName, d + ".png"]) == Ok(splitName + "/" + d + ".png")
    ensures SplitExt(splitName + "/" + d + ".png").0 == splitName + "/" + d
  {
    var tail := [splitName, d + ".png"];
    JoinAllPlain(tail);
    assert Join(tail, "/") == splitName + "/" + d + ".png";
    assert splitName + "/" + d + ".png" == splitName + "/" + d + "." + "png";
    SplitExtOfName(splitName, d, "png");
  }

  /** The components of the copied image's path from the split name on are the split name and the file name. */
  lemma TrimmedParts(folder: string, splitName: string, name: string) returns (idx: nat)
    requires |splitName| > 0 && '/' !in splitName && |name| > 0 && '/' !in name
    requires |folder| == 0 || folder[|folder| - 1] != '/'
    requires splitName !in SplitOn(folder, '/')
    ensures IndexOf(SplitOn(Join2(Join2(folder, splitName), name), '/'), splitName) == Ok(idx)
    ensures idx <= |SplitOn(Join2(Join2(folder, splitName), name), '/')|
    ensures SplitOn(Join2(Join2(folder, splitName), name), '/')[idx..] == [splitName, name]
  {
    var tail := [splitName, name];
    SubPathParts(splitName, name);
    var head: seq<string>;
    if |folder| == 0 {
      TopPathParts(folder, splitName, name);
      head := [];
    } else {
      NestedPathParts(folder, splitName, name);
      head := SplitOn(folder, '/');
    }
    IndexAfter(head, tail, splitName);
    idx := |head|;
    assert (head + tail)[|head|..] == tail;
  }

  /** Directly under the split folder, the path's components are the split name and the file name. */
  lemma TopPathParts(folder: string, splitName: string, name: string)
    requires |folder| == 0 && |splitName| > 0 && '/' !in splitName && |name| > 0 && '/' !in name
    requires SplitOn(splitName + "/" + name, '/') == [splitName, name]
    ensures SplitOn(Join2(Join2(folder, splitName), name), '/') == [] + [splitName, name]
  {
    assert Join2(folder, splitName) == splitName;
    Join2Plain(splitName, name);
    assert [] + [splitName, name] == [splitName, name];
  }

  /** Below a folder, the path's components are the folder's, then the split name and the file name. */
  lemma NestedPathParts(folder: string, splitName: string, name: string)
    requires |splitName| > 0 && '/' !in splitName && |name| > 0 && '/' !in name
    requires |folder| > 0 && folder[|folder| - 1] != '/'
    requires SplitOn(splitName + "/" + name, '/') == [splitName, name]
    ensures SplitOn(Join2(Join2(folder, splitName), name), '/') == SplitOn(folder, '/') + [splitName, name]
  {
    var p := folder + "/" + splitName;
    Join2Plain(folder, splitName);
    assert p[|p| - 1] == splitName[|splitName| - 1];
    Join2Plain(p, name);
    assert "/" == ['/'];
    RegroupPath(folder, "/", splitName, name);
    SplitOnAppend(folder, '/', splitName + "/" + name);
  }

  lemma RegroupPath<T>(a: seq<T>, sep: seq<T>, b: seq<T>, c: seq<T>)
    ensures a + sep + b + sep + c == a + sep + (b + sep + c)
  {
  }

  /** The split name and the file name joined with a separator split back into the two. */
  lemma SubPathParts(splitName: string, name: string)
    requires '/' !in splitName && '/' !in name
    ensures SplitOn(splitName + "/" + name, '/') == [splitName, name]
  {
    var tail := [splitName, name];
    SplitOnJoin(tail, '/');
    assert Join(tail, "/") == splitName + "/" + name;
  }

  lemma NoSlashInDigits(d: string)
    requires AllDigits(d) && |d| > 0
    ensures '/' !in d && '.' !in d && d[0] != '.'
  {
    assert forall k :: 0 <= k < |d| ==> IsDigit(d[k]);
  }

  /** The first occurrence in h + t of something absent from h is found in t. */
  lemma IndexAfter(h: seq<string>, t: seq<string>, x: string)
    requires x !in h && |t| > 0 && t[0] == x
    ensures IndexOf(h + t, x) == Ok(|h|)
  {
    var s := h + t;
    assert s[|h|] == x;
    var r := IndexOf(s, x);
    assert forall k :: 0 <= k < |h| ==> s[k] == h[k];
  }
}
