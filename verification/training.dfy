/**
 The training-loop helpers of Train_NeRF_Grasp_Metric.py: the file name
 `save_checkpoint` writes, the file `load_checkpoint` resumes from, and the
 per-epoch schedule predicates (`epoch % freq == 0 and (epoch != 0 or
 on_epoch_0)`) that decide when to save, validate, log gradients and log
 the confusion matrix.

 The directory listing (`os.listdir`) is a parameter; reading and writing
 the checkpoint files is left out, so loading returns the chosen path.
 */
module Training {
  import opened Outcome
  import opened Strings
  import opened PyArith

  // ---------------------------------------------------------------------------
  // Epoch schedule
  // ---------------------------------------------------------------------------

  /**
   Whether the periodic action runs at `epoch`: every `freq` epochs, and at
   epoch 0 only when `onEpoch0` is set. A zero frequency raises
   ZeroDivisionError, as Python's `%` does.
   */
  function Scheduled(epoch: nat, freq: int, onEpoch0: bool): (r: Result<bool>)
    ensures r.Ok? <==> freq != 0
    ensures r.Err? ==> r.error == ZeroDivisionError
  {
    var m :- PyMod(epoch, freq);
    Ok(m == 0 && (epoch != 0 || onEpoch0))
  }

  /** The action runs at every positive multiple of the frequency, and at 0 exactly when the flag says so. */
  lemma ScheduledAtMultiples(k: nat, freq: int, onEpoch0: bool)
    requires freq != 0 && k * freq >= 0
    ensures Scheduled(k * freq, freq, onEpoch0) == Ok(k != 0 || onEpoch0)
  {
    PyModOfMultiple(k * freq, freq, k);
  }

  /** Between the multiples of a positive frequency the action never runs. */
  lemma NotScheduledBetween(k: nat, j: nat, freq: nat, onEpoch0: bool)
    requires 0 < j < freq
    ensures Scheduled(k * freq + j, freq, onEpoch0) == Ok(false)
  {
    DivModUnique(k * freq + j, freq, k, j);
  }

  /** How many of the epochs 0 .. n − 1 run the action, for a positive frequency. */
  function RunCount(n: nat, freq: nat, onEpoch0: bool): nat
    requires freq > 0
  {
    if n == 0 then 0
    else RunCount(n - 1, freq, onEpoch0) + (if Scheduled(n - 1, freq, onEpoch0) == Ok(true) then 1 else 0)
  }

  /** Passing one more number adds one multiple of f exactly when that number is a multiple. */
  lemma DivStep(m: nat, f: nat)
    requires m >= 1 && f > 0
    ensures m / f == (m - 1) / f + (if m % f == 0 then 1 else 0)
  {
    var q, r := (m - 1) / f, (m - 1) % f;
    assert m - 1 == q * f + r;
    if r + 1 < f {
      DivModUnique(m, f, q, r + 1);
    } else {
      assert m == (q + 1) * f;
      DivModUnique(m, f, q + 1, 0);
    }
  }

  /**
   Over epochs 0 .. n − 1 the action runs once per positive multiple of the
   frequency below n, plus once at epoch 0 when the flag is set.
   */
  lemma {:induction false} RunCountClosedForm(n: nat, freq: nat, onEpoch0: bool)
    requires freq > 0
    ensures RunCount(n, freq, onEpoch0) == if n == 0 then 0 else (n - 1) / freq + (if onEpoch0 then 1 else 0)
  {
    if n > 1 {
      RunCountClosedForm(n - 1, freq, onEpoch0);
      DivStep(n - 1, freq);
    }
  }

  // ---------------------------------------------------------------------------
  // Checkpoint names
  // ---------------------------------------------------------------------------

  const CheckpointPrefix: string := "checkpoint_"
  const CheckpointSuffix: string := ".pt"

  /** `f"checkpoint_{epoch:04}.pt"`. */
  function CheckpointName(epoch: nat): (name: string)
    ensures StartsWith(name, CheckpointPrefix) && EndsWith(name, CheckpointSuffix)
    ensures epoch < 10000 ==> |name| == 18
  {
    assert epoch < 10000 ==> |ZeroPad(epoch, 4)| == 4 by {
      if epoch < 10000 {
        assert Pow10(4) == 10000;
        ZeroPadLength(epoch, 4);
      }
    }
    var name := CheckpointPrefix + ZeroPad(epoch, 4) + CheckpointSuffix;
    assert name[|name| - 3..] == CheckpointSuffix;
    name
  }

  /** `os.path.join(dir, name)` for a name without a slash. */
  function JoinPath(dir: string, name: string): (path: string)
  {
    DirPrefix(dir) + name
  }

  function DirPrefix(dir: string): string
  {
    if |dir| == 0 || dir[|dir| - 1] == '/' then dir else dir + "/"
  }

  /** Files of one directory are ordered by their names. */
  lemma JoinPathOrder(dir: string, a: string, b: string)
    ensures LexLess(JoinPath(dir, a), JoinPath(dir, b)) <==> LexLess(a, b)
  {
    LexCommonPrefix(DirPrefix(dir), a, b);
  }

  /** For epochs below 10000 the zero-padded names sort in epoch order. */
  lemma CheckpointNameOrder(a: nat, b: nat)
    requires a < 10000 && b < 10000
    ensures LexLess(CheckpointName(a), CheckpointName(b)) <==> a < b
  {
    var pa, pb := ZeroPad(a, 4), ZeroPad(b, 4);
    assert CheckpointName(a) == CheckpointPrefix + (pa + CheckpointSuffix);
    assert CheckpointName(b) == CheckpointPrefix + (pb + CheckpointSuffix);
    LexCommonPrefix(CheckpointPrefix, pa + CheckpointSuffix, pb + CheckpointSuffix);
    ValueOfZeroPad(a, 4);
    ValueOfZeroPad(b, 4);
    if a == b {
      LexIrreflexive(CheckpointName(a));
    } else {
      assert Pow10(4) == 10000;
      ZeroPadLength(a, 4);
      ZeroPadLength(b, 4);
      LexDecidedByPrefix(pa, pb, CheckpointSuffix, CheckpointSuffix);
      DigitsOrderIsNumeric(pa, pb);
    }
  }

  /** The checkpoint names of a sequence of epochs. */
  function Names(epochs: seq<nat>): (names: seq<string>)
    ensures |names| == |epochs|
    ensures forall i :: 0 <= i < |epochs| ==> names[i] == CheckpointName(epochs[i])
  {
    seq(|epochs|, i requires 0 <= i < |epochs| => CheckpointName(epochs[i]))
  }

  // ---------------------------------------------------------------------------
  // load_checkpoint as written
  // ---------------------------------------------------------------------------

  /** The listed names that end in `.pt`, in listing order. */
  function PtNames(listing: seq<string>): (names: seq<string>)
    ensures forall f :: f in names <==> f in listing && EndsWith(f, CheckpointSuffix)
  {
    if |listing| == 0 then []
    else if EndsWith(listing[0], CheckpointSuffix) then [listing[0]] + PtNames(listing[1..])
    else PtNames(listing[1..])
  }

  /** The paths `os.path.join` builds for the names. */
  function Paths(dir: string, names: seq<string>): (paths: seq<string>)
    ensures |paths| == |names|
    ensures forall i :: 0 <= i < |names| ==> paths[i] == JoinPath(dir, names[i])
  {
    seq(|names|, i requires 0 <= i < |names| => JoinPath(dir, names[i]))
  }

  /**
   `load_checkpoint`: the last of the sorted `.pt` paths, which is the
   greatest in string order, or None when the directory holds none.
   */
  function LoadCheckpoint(dir: string, listing: seq<string>): (r: Option<string>)
    ensures r.None? <==> forall f :: f in listing ==> !EndsWith(f, CheckpointSuffix)
    ensures r.Some? ==> exists f :: f in listing && EndsWith(f, CheckpointSuffix) && r.value == JoinPath(dir, f)
    ensures r.Some? ==> forall f :: f in listing && EndsWith(f, CheckpointSuffix) ==> !LexLess(r.value, JoinPath(dir, f))
  {
    var names := PtNames(listing);
    var paths := Paths(dir, names);
    if |paths| == 0 then None
    else
      var m := LexMax(paths);
      assert forall f :: f in names ==> JoinPath(dir, f) in paths by {
        forall f | f in names ensures JoinPath(dir, f) in paths {
          var k :| 0 <= k < |names| && names[k] == f;
          assert paths[k] == JoinPath(dir, f);
        }
      }
      var k :| 0 <= k < |paths| && paths[k] == m;
      assert names[k] in listing;
      Some(m)
  }

  /** While every epoch is below 10000, loading resumes from the checkpoint of the highest epoch. */
  lemma LoadCheckpointPicksHighestEpoch(dir: string, epochs: seq<nat>, i: nat)
    requires i < |epochs|
    requires forall k :: 0 <= k < |epochs| ==> epochs[k] < 10000 && epochs[k] <= epochs[i]
    ensures LoadCheckpoint(dir, Names(epochs)) == Some(JoinPath(dir, CheckpointName(epochs[i])))
  {
    var names := Names(epochs);
    var ni := CheckpointName(epochs[i]);
    assert names[i] == ni;
    var r := LoadCheckpoint(dir, names);
    var f :| f in names && EndsWith(f, CheckpointSuffix) && r.value == JoinPath(dir, f);
    var j :| 0 <= j < |names| && names[j] == f;
    var ej, ei := epochs[j], epochs[i];
    JoinPathOrder(dir, f, ni);
    CheckpointNameOrder(ej, ei);
    assert ej == ei;
    assert CheckpointName(ej) == CheckpointName(ei);
  }

  lemma Name9999()
    ensures CheckpointName(9999) == "checkpoint_9999.pt"
  {
    assert Decimal(9) == "9";
    assert Decimal(99) == "99";
    assert Decimal(999) == "999";
    assert Decimal(9999) == "9999";
  }

  lemma Name10000()
    ensures CheckpointName(10000) == "checkpoint_10000.pt"
  {
    assert Decimal(1) == "1";
    assert Decimal(10) == "10";
    assert Decimal(100) == "100";
    assert Decimal(1000) == "1000";
    assert Decimal(10000) == "10000";
  }

  /** Of two `.pt` files, loading picks the one greater in string order. */
  lemma LoadCheckpointOfTwo(dir: string, a: string, b: string)
    requires EndsWith(a, CheckpointSuffix) && EndsWith(b, CheckpointSuffix) && LexLess(b, a)
    ensures LoadCheckpoint(dir, [a, b]) == Some(JoinPath(dir, a))
  {
    JoinPathOrder(dir, b, a);
    LexAsymmetric(JoinPath(dir, b), JoinPath(dir, a));
    var r := LoadCheckpoint(dir, [a, b]);
    assert a in [a, b];
    var f :| f in [a, b] && EndsWith(f, CheckpointSuffix) && r.value == JoinPath(dir, f);
  }

  /** The name of epoch 10000 sorts before the name of epoch 9999. */
  lemma Name10000Before9999()
    ensures LexLess(CheckpointName(10000), CheckpointName(9999))
  {
    Name9999();
    Name10000();
    assert LexLess("10000.pt", "9999.pt");
    LexCommonPrefix(CheckpointPrefix, "10000.pt", "9999.pt");
    assert CheckpointName(9999) == CheckpointPrefix + "9999.pt";
    assert CheckpointName(10000) == CheckpointPrefix + "10000.pt";
  }

  /** Epoch 9999 sorts after epoch 10000, so loading resumes from the older checkpoint. */
  lemma LoadCheckpointPrefers9999Over10000(dir: string)
    ensures CheckpointName(9999) == "checkpoint_9999.pt" && CheckpointName(10000) == "checkpoint_10000.pt"
    ensures LoadCheckpoint(dir, [CheckpointName(9999), CheckpointName(10000)]) == Some(JoinPath(dir, CheckpointName(9999)))
  {
    Name9999();
    Name10000();
    Name10000Before9999();
    LoadCheckpointOfTwo(dir, CheckpointName(9999), CheckpointName(10000));
  }

  // ---------------------------------------------------------------------------
  // Loading by epoch number
  // ---------------------------------------------------------------------------

  /** The epoch a file name of the form `checkpoint_<digits>.pt` encodes. */
  function ParseCheckpointName(name: string): (e: Option<nat>)
    ensures e.Some? ==> StartsWith(name, CheckpointPrefix) && EndsWith(name, CheckpointSuffix)
  {
    if |name| > |CheckpointPrefix| + |CheckpointSuffix| && StartsWith(name, CheckpointPrefix) && EndsWith(name, CheckpointSuffix)
       && AllDigits(name[|CheckpointPrefix|..|name| - |CheckpointSuffix|])
    then Some(Value(name[|CheckpointPrefix|..|name| - |CheckpointSuffix|]))
    else None
  }

  /** Every saved name reads back as its epoch, however large. */
  lemma ParseCheckpointNameRoundTrip(epoch: nat)
    ensures ParseCheckpointName(CheckpointName(epoch)) == Some(epoch)
  {
    var name := CheckpointName(epoch);
    var pad := ZeroPad(epoch, 4);
    assert name[|CheckpointPrefix|..|name| - |CheckpointSuffix|] == pad;
    ValueOfZeroPad(epoch, 4);
  }

  /** The listed checkpoint with the highest epoch, with that epoch. */
  function LatestByEpoch(listing: seq<string>): (r: Option<(string, nat)>)
    ensures r.None? <==> forall j :: 0 <= j < |listing| ==> ParseCheckpointName(listing[j]).None?
    ensures r.Some? ==> r.value.0 in listing && ParseCheckpointName(r.value.0) == Some(r.value.1)
    ensures r.Some? ==> forall j :: 0 <= j < |listing| && ParseCheckpointName(listing[j]).Some? ==>
      ParseCheckpointName(listing[j]).value <= r.value.1
  {
    if |listing| == 0 then None
    else
      var rest := LatestByEpoch(listing[1..]);
      assert forall j :: 1 <= j < |listing| ==> listing[j] == listing[1..][j - 1];
      match ParseCheckpointName(listing[0])
      case None => rest
      case Some(e) => if rest.Some? && rest.value.1 > e then rest else Some((listing[0], e))
  }

  /** `load_checkpoint` choosing the `.pt` file with the highest epoch number. */
  function LoadCheckpointByEpoch(dir: string, listing: seq<string>): (r: Option<string>)
    ensures r.None? <==> forall j :: 0 <= j < |listing| ==> ParseCheckpointName(listing[j]).None?
  {
    match LatestByEpoch(listing)
    case None => None
    case Some((name, _)) => Some(JoinPath(dir, name))
  }

  /** Loading by epoch number resumes from the highest epoch for every epoch count. */
  lemma LoadCheckpointByEpochPicksHighest(dir: string, epochs: seq<nat>, i: nat)
    requires i < |epochs|
    requires forall k :: 0 <= k < |epochs| ==> epochs[k] <= epochs[i]
    ensures LoadCheckpointByEpoch(dir, Names(epochs)) == Some(JoinPath(dir, CheckpointName(epochs[i])))
  {
    var names := Names(epochs);
    var ei := epochs[i];
    ParseCheckpointNameRoundTrip(ei);
    assert ParseCheckpointName(names[i]) == Some(ei);
    var r := LatestByEpoch(names);
    var j :| 0 <= j < |names| && names[j] == r.value.0;
    var ej := epochs[j];
    ParseCheckpointNameRoundTrip(ej);
    assert r.value.1 == ej;
    assert ej == ei;
    assert CheckpointName(ej) == CheckpointName(ei);
  }

  /** Below epoch 10000 both ways of loading resume from the same file. */
  lemma LoadingAgreesBelow10000(dir: string, epochs: seq<nat>)
    requires |epochs| > 0
    requires forall k :: 0 <= k < |epochs| ==> epochs[k] < 10000
    ensures LoadCheckpoint(dir, Names(epochs)) == LoadCheckpointByEpoch(dir, Names(epochs))
  {
    var i := ArgMax(epochs);
    LoadCheckpointPicksHighestEpoch(dir, epochs, i);
    LoadCheckpointByEpochPicksHighest(dir, epochs, i);
  }

  /** An index of a greatest element. */
  function ArgMax(s: seq<nat>): (i: nat)
    requires |s| > 0
    ensures i < |s| && forall k :: 0 <= k < |s| ==> s[k] <= s[i]
  {
    if |s| == 1 then 0
    else
      var j := ArgMax(s[1..]) + 1;
      assert forall k :: 1 <= k < |s| ==> s[k] == s[1..][k - 1];
      if s[0] > s[j] then 0 else j
  }
}
