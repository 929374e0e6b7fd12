/**
 The path arithmetic the generator performs on output paths:
 `os.path.basename`, `os.path.dirname` (POSIX flavour) and the size label
 the README writer reads back out of a file name.
 */
module Paths {
  import opened Text

  /** `os.path.basename(p)`: everything after the last `/`; that is, the
      longest suffix of `p` without a `/`. */
  function Basename(p: string): (r: string)
    ensures '/' !in r
    ensures |r| <= |p| && r == p[|p| - |r|..]
    ensures |r| < |p| ==> p[|p| - |r| - 1] == '/'
  {
    p[RFind(p, '/') + 1..]
  }

  /** Appending text without a `/` extends the base name by that text. */
  lemma {:induction false} BasenameAppend(x: string, y: string)
    requires '/' !in y
    ensures Basename(x + y) == Basename(x) + y
  {
    var r1 := RFind(x + y, '/');
    var r2 := RFind(x, '/');
    assert forall j :: |x| <= j < |x + y| ==> (x + y)[j] == y[j - |x|];
    assert forall j :: 0 <= j < |x| ==> (x + y)[j] == x[j];
    assert r1 == r2;
    assert (x + y)[r1 + 1..] == x[r2 + 1..] + y;
  }

  /** `s.rstrip(c)`: `s` without its trailing run of `c`. */
  function RStrip(s: string, c: char): (r: string)
    ensures |r| <= |s| && r == s[..|r|]
    ensures |r| > 0 ==> r[|r| - 1] != c
    ensures forall j :: |r| <= j < |s| ==> s[j] == c
    decreases |s|
  {
    if |s| == 0 || s[|s| - 1] != c then s
    else RStrip(s[..|s| - 1], c)
  }

  predicate AllSlashes(s: string)
  {
    forall k :: 0 <= k < |s| ==> s[k] == '/'
  }

  /** `os.path.dirname(p)`: the text up to the last `/`, with trailing
      slashes removed unless it consists of slashes only. It is empty
      exactly when `p` holds no `/`. */
  function Dirname(p: string): (r: string)
    ensures r == "" <==> '/' !in p
    ensures |r| <= |p| && r == p[..|r|]
  {
    var head := p[..RFind(p, '/') + 1];
    if head != "" && !AllSlashes(head) then
      var k :| 0 <= k < |head| && head[k] != '/';
      assert head[k] == RStrip(head, '/')[k];
      RStrip(head, '/')
    else head
  }

  /** The directory of `x/y`, for a file name `y` and a directory `x` that
      does not end in a slash, is `x`. */
  lemma {:induction false} DirnameOf(x: string, y: string)
    requires x != "" && x[|x| - 1] != '/'
    requires '/' !in y
    ensures Dirname(x + "/" + y) == x
  {
    var p := x + "/" + y;
    var r := RFind(p, '/');
    assert p[|x|] == '/';
    assert forall j :: |x| < j < |p| ==> p[j] == y[j - |x| - 1];
    assert r == |x|;
    var head := p[..|x| + 1];
    assert head == x + "/";
    assert head[|x| - 1] != '/';
    var stripped := RStrip(head, '/');
    assert |stripped| == |x|;
  }

  /** The size label of `write_readme`: the base name, then the text after
      its last `-`, then the text before the first `.` of that. */
  function SizeLabel(path: string): string
  {
    var parts := Split(Basename(path), "-");
    Split(parts[|parts| - 1], ".")[0]
  }

  /** The label is made of characters of the path. */
  lemma {:induction false} SizeLabelChars(path: string, ch: char)
    requires ch in SizeLabel(path)
    ensures ch in path
  {
    var name := Basename(path);
    var parts := Split(name, "-");
    var last := parts[|parts| - 1];
    SplitChars(last, ".", 0, ch);
    SplitChars(name, "-", |parts| - 1, ch);
    assert ch in name;
  }

  /** Reading the size label back out of a path built as
      `<anything>-<n>.png` gives exactly the decimal rendering of `n`, whatever
      the prefix holds, `/` and `-` included. */
  lemma {:induction false} SizeLabelOf(prefix: string, n: nat)
    ensures SizeLabel(prefix + "-" + NatToString(n) + ".png") == NatToString(n)
  {
    var d := NatToString(n);
    var tail := d + ".png";
    NumberTail(d);
    var path := prefix + "-" + d + ".png";
    assert path == prefix + ("-" + tail) by {
      Assoc(prefix, "-", d);
      Assoc(prefix + "-", d, ".png");
    }
    var base := Basename(prefix);
    BasenameAppend(prefix, "-" + tail);
    FirstDotPiece(d);
    LabelFrom(path, base, tail, d);
  }

  /** The piece before the first `.` of a number followed by `.png` is the
      number. */
  lemma {:induction false} FirstDotPiece(d: string)
    requires AllDigits(d)
    ensures Split(d + ".png", ".")[0] == d
  {
    NumberTail(d);
    SplitAtFirst(d, '.', "png");
  }

  /** The label of a path whose base name ends in `-` and a `-`-free tail is
      read from that tail. */
  lemma {:induction false} LabelFrom(path: string, base: string, tail: string, d: string)
    requires Basename(path) == base + ("-" + tail)
    requires '-' !in tail
    requires Split(tail, ".")[0] == d
    ensures SizeLabel(path) == d
  {
    var name := Basename(path);
    assert name == base + ['-'] + tail by {
      Assoc(base, "-", tail);
    }
    var parts := Split(name, "-");
    SplitLast(base, '-', tail);
    assert parts[|parts| - 1] == tail;
  }

  /** A decimal number followed by `.png` holds no `-` and no `/`, and the
      number holds no `.`. */
  lemma {:induction false} NumberTail(d: string)
    requires AllDigits(d)
    ensures '-' !in d + ".png" && '/' !in d + ".png" && '.' !in d
    ensures d + ".png" == d + ['.'] + "png"
  {
  }
}
