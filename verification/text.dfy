/**
 Python string operations on `string` (`seq<char>`). The generator itself
 calls `str.split`, `str.rfind` (inside `basename`) and `str(int)`; `str.find`
 and `str.join` are here to define `str.replace` and to state properties,
 and the parser `int(str)` is here as the inverse of `str(int)`.
 */
module Text {

  datatype Option<+T> = None | Some(value: T)

  /** `pat` occurs in `s` starting at index `i`. */
  predicate MatchesAt(s: string, pat: string, i: int)
  {
    0 <= i && i + |pat| <= |s| && s[i..i + |pat|] == pat
  }

  /** `pat` occurs somewhere in `s`: at its start or further on. */
  predicate Occurs(s: string, pat: string)
    decreases |s|
  {
    MatchesAt(s, pat, 0) || (|s| > 0 && Occurs(s[1..], pat))
  }

  lemma {:induction false} MatchesAtShift(s: string, pat: string, j: nat)
    requires |s| > 0
    ensures MatchesAt(s, pat, j + 1) <==> MatchesAt(s[1..], pat, j)
  {
    if 0 <= j && j + 1 + |pat| <= |s| {
      assert s[1..][j..j + |pat|] == s[j + 1..j + 1 + |pat|];
    }
  }

  /** `pat` occurs exactly when it matches at some position. */
  lemma {:induction false} OccursIff(s: string, pat: string)
    ensures Occurs(s, pat) <==> exists i :: 0 <= i <= |s| && MatchesAt(s, pat, i)
    decreases |s|
  {
    if |s| > 0 {
      OccursIff(s[1..], pat);
      if exists i :: 0 <= i <= |s| && MatchesAt(s, pat, i) {
        var i :| 0 <= i <= |s| && MatchesAt(s, pat, i);
        if i > 0 {
          MatchesAtShift(s, pat, i - 1);
        }
      }
      if Occurs(s[1..], pat) {
        var i :| 0 <= i <= |s[1..]| && MatchesAt(s[1..], pat, i);
        MatchesAtShift(s, pat, i);
      }
    } else {
      if exists i :: 0 <= i <= |s| && MatchesAt(s, pat, i) {
        var i :| 0 <= i <= |s| && MatchesAt(s, pat, i);
        assert i == 0;
      }
    }
  }

  /** The leftmost occurrence of `pat` in `s`, as Python's `str.find`
      (`None` standing for its -1). */
  function Find(s: string, pat: string): (r: Option<nat>)
    ensures r.Some? ==> MatchesAt(s, pat, r.value)
    ensures r.Some? ==> forall j :: 0 <= j < r.value ==> !MatchesAt(s, pat, j)
    ensures r.None? <==> !Occurs(s, pat)
    decreases |s|
  {
    if |s| < |pat| then
      assert !Occurs(s, pat) by {
        OccursIff(s, pat);
      }
      None
    else if s[..|pat|] == pat then Some(0)
    else
      assert !MatchesAt(s, pat, 0);
      match Find(s[1..], pat)
      case None => None
      case Some(i) =>
        MatchesAtShift(s, pat, i);
        assert forall j :: 0 < j < i + 1 ==> !MatchesAt(s, pat, j) by {
          forall j | 0 < j < i + 1 ensures !MatchesAt(s, pat, j) {
            MatchesAtShift(s, pat, j - 1);
          }
        }
        Some(i + 1)
  }

  lemma {:induction false} Assoc(a: string, b: string, c: string)
    ensures a + b + c == a + (b + c)
  {
  }

  lemma {:induction false} CancelPrefix(p: string, a: string, b: string)
    requires p + a == p + b
    ensures a == b
  {
    assert a == (p + a)[|p|..];
    assert b == (p + b)[|p|..];
  }

  lemma {:induction false} CancelSuffix(a: string, b: string, t: string)
    requires a + t == b + t
    ensures a == b
  {
    assert |a| == |b|;
    assert a == (a + t)[..|a|];
    assert b == (b + t)[..|b|];
  }

  /** A text is the part before a match, the match, and the part after. */
  lemma {:induction false} SliceAround(s: string, pat: string, i: nat)
    requires MatchesAt(s, pat, i)
    ensures s == s[..i] + pat + s[i + |pat|..]
  {
    assert s == s[..i] + s[i..i + |pat|] + s[i + |pat|..];
  }

  /** A match found after position `i` and none up to `i`: `Find` reports the
      match at `i`. */
  lemma {:induction false} FindAt(s: string, pat: string, i: nat)
    requires MatchesAt(s, pat, i)
    requires forall j :: 0 <= j < i ==> !MatchesAt(s, pat, j)
    ensures Find(s, pat) == Some(i)
  {
    OccursIff(s, pat);
  }

  /** Python's `s.split(sep)` for a non-empty separator: the pieces between
      the leftmost non-overlapping occurrences of `sep`. */
  function Split(s: string, sep: string): (r: seq<string>)
    requires |sep| > 0
    ensures |r| >= 1
    decreases |s|
  {
    match Find(s, sep)
    case None => [s]
    case Some(i) => [s[..i]] + Split(s[i + |sep|..], sep)
  }

  /** No piece of a split holds the separator. */
  lemma {:induction false} SplitPiecesFree(s: string, sep: string)
    requires |sep| > 0
    ensures forall k :: 0 <= k < |Split(s, sep)| ==> !Occurs(Split(s, sep)[k], sep)
    decreases |s|
  {
    match Find(s, sep)
    case None =>
    case Some(i) =>
      var head := s[..i];
      assert !Occurs(head, sep) by {
        OccursIff(head, sep);
        forall j | MatchesAt(head, sep, j) ensures false {
          assert head[j..j + |sep|] == s[j..j + |sep|];
          assert MatchesAt(s, sep, j);
        }
      }
      SplitPiecesFree(s[i + |sep|..], sep);
  }

  /** Every character of a piece of a split comes from the text split. */
  lemma {:induction false} SplitChars(s: string, sep: string, k: nat, ch: char)
    requires |sep| > 0
    requires k < |Split(s, sep)| && ch in Split(s, sep)[k]
    ensures ch in s
    decreases |s|
  {
    match Find(s, sep)
    case None =>
    case Some(i) =>
      var rest := s[i + |sep|..];
      if k > 0 {
        SplitChars(rest, sep, k - 1, ch);
        assert ch in rest;
      } else {
        assert ch in s[..i];
      }
  }

  /** `f` applied to every element, in order, as a list comprehension. */
  function Map<A, B>(f: A -> B, xs: seq<A>): (r: seq<B>)
    ensures |r| == |xs|
    ensures forall k :: 0 <= k < |xs| ==> r[k] == f(xs[k])
  {
    seq(|xs|, k requires 0 <= k < |xs| => f(xs[k]))
  }

  /** Mapping a list one element longer adds that element's image. */
  lemma {:induction false} MapPrefixSnoc<A, B>(f: A -> B, xs: seq<A>, i: nat)
    requires i < |xs|
    ensures Map(f, xs[..i + 1]) == Map(f, xs[..i]) + [f(xs[i])]
  {
    assert xs[..i + 1] == xs[..i] + [xs[i]];
  }

  /** Python's `sep.join(parts)`. */
  function Join(parts: seq<string>, sep: string): string
    decreases |parts|
  {
    if |parts| == 0 then ""
    else if |parts| == 1 then parts[0]
    else parts[0] + sep + Join(parts[1..], sep)
  }

  /** Joining the pieces of a split with the separator gives the text back. */
  lemma {:induction false} JoinSplit(s: string, sep: string)
    requires |sep| > 0
    ensures Join(Split(s, sep), sep) == s
    decreases |s|
  {
    match Find(s, sep)
    case None =>
    case Some(i) =>
      var rest := s[i + |sep|..];
      JoinSplit(rest, sep);
      SplitStep(s, sep, i);
      JoinCons(s[..i], Split(rest, sep), sep);
      SliceAround(s, sep, i);
  }

  lemma {:induction false} SplitStep(s: string, sep: string, i: nat)
    requires |sep| > 0
    requires Find(s, sep) == Some(i)
    ensures Split(s, sep) == [s[..i]] + Split(s[i + |sep|..], sep)
  {
  }

  lemma {:induction false} JoinCons(a: string, parts: seq<string>, sep: string)
    requires |parts| >= 1
    ensures Join([a] + parts, sep) == a + sep + Join(parts, sep)
  {
    assert ([a] + parts)[1..] == parts;
  }

  /** Splitting at a single-character separator `c` whose first occurrence
      follows `a`: the first piece is `a`. */
  lemma {:induction false} SplitAtFirst(a: string, c: char, b: string)
    requires c !in a
    ensures Split(a + [c] + b, [c]) == [a] + Split(b, [c])
  {
    var s := a + [c] + b;
    assert s[|a|..|a| + 1] == [c];
    forall j | 0 <= j < |a| ensures !MatchesAt(s, [c], j) {
      assert s[j..j + 1] == [a[j]];
    }
    FindAt(s, [c], |a|);
    assert s[..|a|] == a;
    assert s[|a| + 1..] == b;
  }

  /** Text without the separator splits into itself alone. */
  lemma {:induction false} SplitNoSep(a: string, c: char)
    requires c !in a
    ensures Split(a, [c]) == [a]
  {
    forall i | 0 <= i < |a| ensures !MatchesAt(a, [c], i) {
      assert a[i..i + 1] == [a[i]];
    }
    assert Find(a, [c]).Some? ==> MatchesAt(a, [c], Find(a, [c]).value);
  }

  /** A character in none of the parts and not in the separator is not in
      their join. */
  lemma {:induction false} NotInJoin(parts: seq<string>, sep: string, c: char)
    requires forall k :: 0 <= k < |parts| ==> c !in parts[k]
    requires c !in sep
    ensures c !in Join(parts, sep)
    decreases |parts|
  {
    if |parts| > 1 {
      NotInJoin(parts[1..], sep, c);
    }
  }

  /** Splitting a join at a separator no part contains gives the parts back. */
  lemma {:induction false} SplitJoin(parts: seq<string>, c: char)
    requires |parts| >= 1
    requires forall k :: 0 <= k < |parts| ==> c !in parts[k]
    ensures Split(Join(parts, [c]), [c]) == parts
    decreases |parts|
  {
    if |parts| == 1 {
      SplitNoSep(parts[0], c);
    } else {
      SplitJoin(parts[1..], c);
      SplitAtFirst(parts[0], c, Join(parts[1..], [c]));
      assert parts == [parts[0]] + parts[1..];
    }
  }

  /** The last piece of a split at `c` is everything after the last `c`. */
  lemma {:induction false} SplitLast(x: string, c: char, y: string)
    requires c !in y
    ensures var parts := Split(x + [c] + y, [c]); parts[|parts| - 1] == y
    decreases |x|
  {
    var s := x + [c] + y;
    assert MatchesAt(s, [c], |x|) by { assert s[|x|..|x| + 1] == [c]; }
    OccursIff(s, [c]);
    var k := Find(s, [c]).value;
    assert k <= |x|;
    assert s[k..k + 1] == [c];
    if k == |x| {
      assert s[k + 1..] == y;
      SplitNoSep(y, c);
    } else {
      var x' := x[k + 1..];
      assert s[k + 1..] == x' + [c] + y;
      SplitLast(x', c, y);
    }
  }

  /** The position of the last `c` in `s`, as Python's `str.rfind` (-1 when
      there is none). */
  function RFind(s: string, c: char): (r: int)
    ensures -1 <= r < |s|
    ensures r >= 0 ==> s[r] == c
    ensures forall j :: r < j < |s| ==> s[j] != c
    decreases |s|
  {
    if |s| == 0 then -1
    else if s[|s| - 1] == c then |s| - 1
    else RFind(s[..|s| - 1], c)
  }

  predicate IsDigit(ch: char)
  {
    '0' <= ch <= '9'
  }

  predicate AllDigits(s: string)
  {
    forall k :: 0 <= k < |s| ==> IsDigit(s[k])
  }

  function DigitChar(d: nat): (ch: char)
    requires d < 10
    ensures IsDigit(ch)
  {
    (48 + d) as char
  }

  function DigitValue(ch: char): (d: nat)
    requires IsDigit(ch)
    ensures d < 10
  {
    ch as int - 48
  }

  /** The decimal rendering of a natural number, as `str(n)` for `n >= 0`. */
  function NatToString(n: nat): (r: string)
    ensures |r| >= 1
    ensures AllDigits(r)
    decreases n
  {
    if n < 10 then [DigitChar(n)]
    else NatToString(n / 10) + [DigitChar(n % 10)]
  }

  /** Python's `str(n)` on an `int`: a minus sign before negative numbers. */
  function IntToString(n: int): string
  {
    if n < 0 then "-" + NatToString(-n) else NatToString(n)
  }

  /** Python's `int(s)` on a string of decimal digits. On the empty string
      it gives 0, where `int("")` raises; it is only ever applied here to
      renderings of numbers, which are never empty. */
  function ParseDecimal(s: string): nat
    requires AllDigits(s)
    decreases |s|
  {
    if |s| == 0 then 0
    else ParseDecimal(s[..|s| - 1]) * 10 + DigitValue(s[|s| - 1])
  }

  /** Reading back a rendered number gives the number. */
  lemma {:induction false} DecimalRoundTrip(n: nat)
    ensures ParseDecimal(NatToString(n)) == n
    decreases n
  {
    var s := NatToString(n);
    if n >= 10 {
      DecimalRoundTrip(n / 10);
      assert s[..|s| - 1] == NatToString(n / 10);
    }
  }
}
