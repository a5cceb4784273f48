/**
 Python string operations the model needs, on `string = seq<char>`:
 code-point ordering (what `sorted` uses on `str`), decimal digits and
 zero-padded formatting, `int()` on a token, `str.split()` on whitespace and
 the prefix / suffix / search helpers.
 */
module Strings {
  import opened Outcome

  // Messages of the exceptions raised below.
  const IntLiteralMessage := "invalid literal for int() with base 10"

  /** `str.isspace()` for one character. */
  predicate IsSpace(c: char)
  {
    c == ' ' || ('\t' <= c <= '\r') || ('\U{1c}' <= c <= '\U{1f}') ||
    c == '\U{85}' || c == '\U{a0}' || c == '\U{1680}' || ('\U{2000}' <= c <= '\U{200a}') ||
    c == '\U{2028}' || c == '\U{2029}' || c == '\U{202f}' || c == '\U{205f}' || c == '\U{3000}'
  }

  predicate IsDigit(c: char)
  {
    '0' <= c <= '9'
  }

  predicate AllDigits(s: string)
  {
    forall i :: 0 <= i < |s| ==> IsDigit(s[i])
  }

  predicate NoSpace(s: string)
  {
    forall i :: 0 <= i < |s| ==> !IsSpace(s[i])
  }

  function DigitVal(c: char): (d: nat)
    requires IsDigit(c)
    ensures d < 10
  {
    (c as int) - ('0' as int)
  }

  function DigitChar(d: nat): (c: char)
    requires d < 10
    ensures IsDigit(c) && DigitVal(c) == d
  {
    (('0' as int) + d) as char
  }

  /** `s.startswith(p)`. */
  predicate StartsWith(s: string, p: string)
  {
    p <= s
  }

  /** `s.endswith(p)`. */
  predicate EndsWith(s: string, p: string)
  {
    |p| <= |s| && s[|s| - |p|..] == p
  }

  // ---------------------------------------------------------------------------
  // Code-point order
  // ---------------------------------------------------------------------------

  /** `a < b` on Python strings: the first differing code point decides, and a proper prefix comes first. */
  predicate LexLess(a: string, b: string)
  {
    if |b| == 0 then false
    else if |a| == 0 then true
    else if a[0] != b[0] then a[0] < b[0]
    else LexLess(a[1..], b[1..])
  }

  lemma LexIrreflexive(a: string)
    ensures !LexLess(a, a)
  {
  }

  /** Any two different strings are ordered one way or the other. */
  lemma {:induction false} LexTotal(a: string, b: string)
    ensures a == b || LexLess(a, b) || LexLess(b, a)
  {
    if |a| > 0 && |b| > 0 && a[0] == b[0] {
      LexTotal(a[1..], b[1..]);
      if a[1..] == b[1..] {
        assert a == [a[0]] + a[1..] && b == [b[0]] + b[1..];
      }
    }
  }

  lemma {:induction false} LexAsymmetric(a: string, b: string)
    ensures LexLess(a, b) ==> !LexLess(b, a)
  {
    if |a| > 0 && |b| > 0 && a[0] == b[0] {
      LexAsymmetric(a[1..], b[1..]);
    }
  }

  lemma {:induction false} LexTransitive(a: string, b: string, c: string)
    requires LexLess(a, b) && LexLess(b, c)
    ensures LexLess(a, c)
  {
    if |a| > 0 && a[0] == b[0] && b[0] == c[0] {
      LexTransitive(a[1..], b[1..], c[1..]);
    }
  }

  /** A common prefix does not change the order. */
  lemma {:induction false} LexCommonPrefix(p: string, a: string, b: string)
    ensures LexLess(p + a, p + b) <==> LexLess(a, b)
  {
    if |p| > 0 {
      assert (p + a)[1..] == p[1..] + a && (p + b)[1..] == p[1..] + b;
      LexCommonPrefix(p[1..], a, b);
    } else {
      assert p + a == a && p + b == b;
    }
  }

  /** Between two different strings of one length, whatever follows them does not change the order. */
  lemma {:induction false} LexDecidedByPrefix(s: string, t: string, x: string, y: string)
    requires |s| == |t| && s != t
    ensures LexLess(s + x, t + y) <==> LexLess(s, t)
  {
    assert |s| > 0;
    if s[0] == t[0] {
      assert (s + x)[1..] == s[1..] + x && (t + y)[1..] == t[1..] + y;
      assert s == [s[0]] + s[1..] && t == [t[0]] + t[1..];
      LexDecidedByPrefix(s[1..], t[1..], x, y);
    }
  }

  /** `max(s)` under the string order (the last element of `sorted(s)`). */
  function LexMax(s: seq<string>): (r: string)
    requires |s| > 0
    ensures r in s
    ensures forall i :: 0 <= i < |s| ==> !LexLess(r, s[i])
  {
    if |s| == 1 then
      LexIrreflexive(s[0]);
      s[0]
    else
      var m := LexMax(s[1..]);
      assert forall i :: 1 <= i < |s| ==> s[i] == s[1..][i - 1];
      if LexLess(m, s[0]) then
        LexIrreflexive(s[0]);
        assert forall i :: 1 <= i < |s| ==> !LexLess(s[0], s[i]) by {
          forall i | 1 <= i < |s| ensures !LexLess(s[0], s[i]) {
            if LexLess(s[0], s[i]) {
              LexTransitive(m, s[0], s[i]);
            }
          }
        }
        s[0]
      else
        m
  }

  /** A maximum that is in the sequence is the maximum. */
  lemma LexMaxUnique(s: seq<string>, c: string)
    requires |s| > 0 && c in s
    requires forall i :: 0 <= i < |s| ==> !LexLess(c, s[i])
    ensures LexMax(s) == c
  {
    LexTotal(LexMax(s), c);
  }

  // ---------------------------------------------------------------------------
  // Decimal digits
  // ---------------------------------------------------------------------------

  /** `str(n)` for a natural number. */
  function Decimal(n: nat): (s: string)
    ensures |s| >= 1 && AllDigits(s)
  {
    if n < 10 then [DigitChar(n)] else Decimal(n / 10) + [DigitChar(n % 10)]
  }

  /** The number a string of digits denotes; leading zeros count for nothing. */
  function Value(s: string): (v: nat)
    requires AllDigits(s)
  {
    if |s| == 0 then 0 else Value(s[..|s| - 1]) * 10 + DigitVal(s[|s| - 1])
  }

  /** Reading back the decimal text of n gives n. */
  lemma {:induction false} ValueOfDecimal(n: nat)
    ensures Value(Decimal(n)) == n
  {
    if n >= 10 {
      ValueOfDecimal(n / 10);
      var d := Decimal(n);
      assert d[..|d| - 1] == Decimal(n / 10);
    }
  }

  function Pow10(k: nat): (p: nat)
    ensures p >= 1
  {
    if k == 0 then 1 else 10 * Pow10(k - 1)
  }

  /** A number below 10^k has at most k digits. */
  lemma {:induction false} DecimalLength(n: nat, k: nat)
    requires k >= 1 && n < Pow10(k)
    ensures |Decimal(n)| <= k
  {
    if n >= 10 {
      DecimalLength(n / 10, k - 1);
    }
  }

  function Zeros(k: nat): (s: string)
    ensures |s| == k && AllDigits(s)
  {
    seq(k, _ => '0')
  }

  /** `f"{n:0{width}}"`: the decimal text of n, padded on the left with zeros to at least `width` characters. */
  function ZeroPad(n: nat, width: nat): (s: string)
    ensures AllDigits(s)
  {
    var d := Decimal(n);
    if |d| >= width then d else Zeros(width - |d|) + d
  }

  lemma {:induction false} ValueOfZeros(k: nat)
    ensures Value(Zeros(k)) == 0
  {
    if k > 0 {
      assert Zeros(k)[..k - 1] == Zeros(k - 1);
      ValueOfZeros(k - 1);
    }
  }

  /** Leading zeros do not change the value. */
  lemma {:induction false} ValueLeadingZeros(k: nat, s: string)
    requires AllDigits(s)
    ensures Value(Zeros(k) + s) == Value(s)
  {
    if |s| == 0 {
      assert Zeros(k) + s == Zeros(k);
      ValueOfZeros(k);
    } else {
      var z := Zeros(k) + s;
      assert z[..|z| - 1] == Zeros(k) + s[..|s| - 1];
      ValueLeadingZeros(k, s[..|s| - 1]);
    }
  }

  /** Zero padding is undone by reading the digits back. */
  lemma ValueOfZeroPad(n: nat, width: nat)
    ensures Value(ZeroPad(n, width)) == n
  {
    var d := Decimal(n);
    ValueOfDecimal(n);
    if |d| < width {
      ValueLeadingZeros(width - |d|, d);
      assert ZeroPad(n, width) == Zeros(width - |d|) + d;
    } else {
      assert ZeroPad(n, width) == d;
    }
  }

  /** A number below 10^width pads to exactly `width` digits. */
  lemma ZeroPadLength(n: nat, width: nat)
    requires width >= 1 && n < Pow10(width)
    ensures |ZeroPad(n, width)| == width
  {
    DecimalLength(n, width);
  }

  lemma TenTimesLess(a: nat, b: nat, d: nat, e: nat)
    requires a != b && d < 10 && e < 10
    ensures a * 10 + d < b * 10 + e <==> a < b
  {
  }

  /** For digit strings of one length, the string order is the numeric order. */
  lemma {:induction false} DigitsOrderIsNumeric(s: string, t: string)
    requires |s| == |t| && AllDigits(s) && AllDigits(t)
    ensures LexLess(s, t) <==> Value(s) < Value(t)
    decreases |s|
  {
    var k := |s|;
    if k > 0 {
      var s', t' := s[..k - 1], t[..k - 1];
      assert s == s' + [s[k - 1]] && t == t' + [t[k - 1]];
      DigitsOrderIsNumeric(s', t');
      DigitsOrderIsNumeric(t', s');
      if s' == t' {
        LexCommonPrefix(s', [s[k - 1]], [t[k - 1]]);
      } else {
        LexDecidedByPrefix(s', t', [s[k - 1]], [t[k - 1]]);
        LexTotal(s', t');
        LexAsymmetric(s', t');
        TenTimesLess(Value(s'), Value(t'), DigitVal(s[k - 1]), DigitVal(t[k - 1]));
      }
    }
  }

  // ---------------------------------------------------------------------------
  // int() on a token
  // ---------------------------------------------------------------------------

  /** `str(i)` for an integer. */
  function IntText(i: int): (s: string)
  {
    if i < 0 then "-" + Decimal(-i) else Decimal(i)
  }

  /** `int(s)` on a token without whitespace: an optional sign followed by at least one digit. */
  function ParseInt(s: string): (r: Result<int>)
    ensures r.Ok? <==> (|s| > 0 && (if s[0] == '-' || s[0] == '+' then |s| > 1 && AllDigits(s[1..]) else AllDigits(s)))
    ensures r.Err? ==> r.error.ValueError?
  {
    if |s| > 0 && (s[0] == '-' || s[0] == '+') && |s| > 1 && AllDigits(s[1..]) then
      Ok(if s[0] == '-' then -(Value(s[1..]) as int) else Value(s[1..]))
    else if |s| > 0 && s[0] != '-' && s[0] != '+' && AllDigits(s) then
      Ok(Value(s))
    else
      Err(ValueError(IntLiteralMessage))
  }

  /** `int(str(i)) == i`. */
  lemma ParseIntText(i: int)
    ensures ParseInt(IntText(i)) == Ok(i)
  {
    var s := IntText(i);
    if i < 0 {
      var d := Decimal(-i);
      assert s == "-" + d;
      assert s[1..] == d;
      ValueOfDecimal(-i);
    } else {
      ValueOfDecimal(i);
      assert IsDigit(s[0]);
    }
  }

  // ---------------------------------------------------------------------------
  // Splitting
  // ---------------------------------------------------------------------------

  /** The longest prefix of s without whitespace. */
  function TakeWord(s: string): (w: string)
    ensures w <= s && NoSpace(w)
    ensures |w| < |s| ==> IsSpace(s[|w|])
  {
    if |s| == 0 || IsSpace(s[0]) then [] else [s[0]] + TakeWord(s[1..])
  }

  /** `s.split()`: the maximal runs of non-whitespace characters, in order. */
  function Words(s: string): (ws: seq<string>)
    ensures forall i :: 0 <= i < |ws| ==> |ws[i]| > 0 && NoSpace(ws[i])
    decreases |s|
  {
    if |s| == 0 then []
    else if IsSpace(s[0]) then Words(s[1..])
    else
      var w := TakeWord(s);
      [w] + Words(s[|w|..])
  }

  /** `sep.join(ws)`. */
  function Join(ws: seq<string>, sep: string): (s: string)
  {
    if |ws| == 0 then "" else if |ws| == 1 then ws[0] else ws[0] + sep + Join(ws[1..], sep)
  }

  lemma {:induction false} TakeWordBeforeSpace(w: string, rest: string)
    requires NoSpace(w) && (|rest| > 0 ==> IsSpace(rest[0]))
    ensures TakeWord(w + rest) == w
  {
    if |w| > 0 {
      assert (w + rest)[1..] == w[1..] + rest;
      TakeWordBeforeSpace(w[1..], rest);
    } else {
      assert w + rest == rest;
    }
  }

  /** Leading whitespace is skipped. */
  lemma {:induction false} WordsSkipSpace(sp: string, s: string)
    requires forall i :: 0 <= i < |sp| ==> IsSpace(sp[i])
    ensures Words(sp + s) == Words(s)
  {
    if |sp| > 0 {
      assert (sp + s)[1..] == sp[1..] + s;
      WordsSkipSpace(sp[1..], s);
    } else {
      assert sp + s == s;
    }
  }

  /** Splitting words joined by single spaces gives the words back. */
  lemma {:induction false} WordsOfJoin(ws: seq<string>)
    requires forall i :: 0 <= i < |ws| ==> |ws[i]| > 0 && NoSpace(ws[i])
    ensures Words(Join(ws, " ")) == ws
  {
    if |ws| == 1 {
      assert ws[0] + "" == ws[0];
      TakeWordBeforeSpace(ws[0], "");
    } else if |ws| > 1 {
      var rest := Join(ws[1..], " ");
      var s := ws[0] + " " + rest;
      assert s == ws[0] + (" " + rest);
      TakeWordBeforeSpace(ws[0], " " + rest);
      assert s[|ws[0]|..] == " " + rest;
      WordsSkipSpace(" ", rest);
      WordsOfJoin(ws[1..]);
    }
  }

  /** `s.split(c)[0]`: everything before the first c, or all of s. */
  function BeforeFirst(s: string, c: char): (r: string)
    ensures r <= s && c !in r
    ensures |r| < |s| ==> s[|r|] == c
  {
    if |s| == 0 || s[0] == c then [] else [s[0]] + BeforeFirst(s[1..], c)
  }

  lemma {:induction false} BeforeFirstAbsent(s: string, rest: string, c: char)
    requires c !in s
    ensures BeforeFirst(s + [c] + rest, c) == s
    ensures BeforeFirst(s, c) == s
  {
    if |s| > 0 {
      assert (s + [c] + rest)[1..] == s[1..] + [c] + rest;
      BeforeFirstAbsent(s[1..], rest, c);
    }
  }

  /** `s.split(c)`: the pieces between occurrences of c; there is always at least one. */
  function SplitOn(s: string, c: char): (parts: seq<string>)
    ensures |parts| >= 1
    ensures forall i :: 0 <= i < |parts| ==> c !in parts[i]
    decreases |s|
  {
    var w := BeforeFirst(s, c);
    if |w| == |s| then [s] else [w] + SplitOn(s[|w| + 1..], c)
  }

  /** A piece without c, then c, then the rest: the piece comes first. */
  lemma SplitOnCons(w: string, c: char, rest: string)
    requires c !in w
    ensures SplitOn(w + [c] + rest, c) == [w] + SplitOn(rest, c)
  {
    BeforeFirstAbsent(w, rest, c);
    assert (w + [c] + rest)[|w| + 1..] == rest;
  }

  /** Splitting pieces joined by c gives the pieces back. */
  lemma {:induction false} SplitOnJoin(ws: seq<string>, c: char)
    requires |ws| >= 1
    requires forall i :: 0 <= i < |ws| ==> c !in ws[i]
    ensures SplitOn(Join(ws, [c]), c) == ws
  {
    if |ws| == 1 {
      BeforeFirstAbsent(ws[0], [], c);
    } else {
      SplitOnJoin(ws[1..], c);
      SplitOnCons(ws[0], c, Join(ws[1..], [c]));
      assert ws == [ws[0]] + ws[1..];
    }
  }

  /** Joining the pieces of a split with c gives the string back. */
  lemma {:induction false} JoinSplitOn(s: string, c: char)
    ensures Join(SplitOn(s, c), [c]) == s
    decreases |s|
  {
    var w := BeforeFirst(s, c);
    if |w| < |s| {
      var rest := s[|w| + 1..];
      assert s == w + [c] + rest;
      JoinSplitOn(rest, c);
      SplitOnCons(w, c, rest);
      JoinCons(w, SplitOn(rest, c), [c]);
    }
  }

  lemma JoinCons(w: string, ws: seq<string>, sep: string)
    requires |ws| >= 1
    ensures Join([w] + ws, sep) == w + sep + Join(ws, sep)
  {
    assert ([w] + ws)[1..] == ws;
  }

  /** Splitting around one occurrence of the separator splits each side. */
  lemma SplitOnAppend(a: string, c: char, b: string)
    ensures SplitOn(a + [c] + b, c) == SplitOn(a, c) + SplitOn(b, c)
  {
    var xs, ys := SplitOn(a, c), SplitOn(b, c);
    JoinSplitOn(a, c);
    JoinSplitOn(b, c);
    JoinAppend(xs, ys, [c]);
    assert Join(xs + ys, [c]) == a + [c] + b;
    NoSeparatorInAppend(xs, ys, c);
    SplitOnJoin(xs + ys, c);
  }

  lemma NoSeparatorInAppend(xs: seq<string>, ys: seq<string>, c: char)
    requires forall i :: 0 <= i < |xs| ==> c !in xs[i]
    requires forall i :: 0 <= i < |ys| ==> c !in ys[i]
    ensures forall i :: 0 <= i < |xs + ys| ==> c !in (xs + ys)[i]
  {
    forall i | 0 <= i < |xs + ys| ensures c !in (xs + ys)[i] {
      if i < |xs| { assert (xs + ys)[i] == xs[i]; } else { assert (xs + ys)[i] == ys[i - |xs|]; }
    }
  }

  /** Joining two nonempty lists of pieces is joining each and putting the separator between. */
  lemma {:induction false} JoinAppend(xs: seq<string>, ys: seq<string>, sep: string)
    requires |xs| >= 1 && |ys| >= 1
    ensures Join(xs + ys, sep) == Join(xs, sep) + sep + Join(ys, sep)
  {
    if |xs| == 1 {
      JoinCons(xs[0], ys, sep);
      assert xs + ys == [xs[0]] + ys;
    } else {
      JoinAppend(xs[1..], ys, sep);
      assert xs + ys == [xs[0]] + (xs[1..] + ys);
      JoinCons(xs[0], xs[1..] + ys, sep);
    }
  }

  /** Every piece but the first gets p in front. */
  function Prefixed(p: string, ws: seq<string>): (r: seq<string>)
    ensures |r| == |ws| && forall i :: 0 <= i < |ws| ==> r[i] == p + ws[i]
  {
    seq(|ws|, i requires 0 <= i < |ws| => p + ws[i])
  }

  /** A prefix of the joined text is a prefix of its first piece. */
  lemma PrependJoin(p: string, ws: seq<string>, sep: string)
    requires |ws| >= 1
    ensures p + Join(ws, sep) == Join([p + ws[0]] + ws[1..], sep)
  {
    var vs := [p + ws[0]] + ws[1..];
    assert vs[1..] == ws[1..];
  }

  /** Joining with c followed by p is joining with c after putting p before every piece but the first. */
  lemma {:induction false} JoinLongSeparator(ws: seq<string>, c: char, p: string)
    requires |ws| >= 1
    ensures Join(ws, [c] + p) == Join([ws[0]] + Prefixed(p, ws[1..]), [c])
  {
    var vs := [ws[0]] + Prefixed(p, ws[1..]);
    if |ws| >= 2 {
      JoinLongSeparator(ws[1..], c, p);
      var tail := [ws[1..][0]] + Prefixed(p, ws[1..][1..]);
      PrependJoin(p, tail, [c]);
      assert [p + tail[0]] + tail[1..] == vs[1..];
      assert Join(ws, [c] + p) == ws[0] + ([c] + p) + Join(ws[1..], [c] + p);
      assert ws[0] + ([c] + p) + Join(tail, [c]) == ws[0] + [c] + (p + Join(tail, [c]));
    }
  }

  /** sub occurs in s starting at j. */
  predicate OccursAt(s: string, sub: string, j: int)
  {
    0 <= j <= |s| - |sub| && s[j..j + |sub|] == sub
  }

  /** `s.rfind(sub)`: the start of the last occurrence of sub, or −1. */
  function RFind(s: string, sub: string): (r: int)
    ensures r == -1 || 0 <= r <= |s| - |sub|
    ensures r >= 0 ==> OccursAt(s, sub, r)
    ensures forall j :: r < j ==> !OccursAt(s, sub, j)
  {
    RFindFrom(s, sub, |s| - |sub|)
  }

  /** The largest j ≤ k at which sub occurs in s, or −1. */
  function RFindFrom(s: string, sub: string, k: int): (r: int)
    requires k <= |s| - |sub|
    ensures r == -1 || 0 <= r <= k
    ensures r >= 0 ==> OccursAt(s, sub, r)
    ensures forall j :: r < j <= k ==> !OccursAt(s, sub, j)
    decreases k + 1
  {
    if k < 0 then -1
    else if s[k..k + |sub|] == sub then k
    else RFindFrom(s, sub, k - 1)
  }

  /** `s.replace(a, b)` for single characters. */
  function ReplaceChar(s: string, a: char, b: char): (r: string)
    ensures |r| == |s|
    ensures forall i :: 0 <= i < |s| ==> r[i] == (if s[i] == a then b else s[i])
  {
    seq(|s|, i requires 0 <= i < |s| => if s[i] == a then b else s[i])
  }
}
