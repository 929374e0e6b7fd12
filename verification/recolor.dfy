/**
 Colour substitution in the logo's SVG text: a plain, case-sensitive,
 left-to-right replacement of every non-overlapping occurrence of the
 default fill colour, with the semantics of Python's `str.replace`.
 */
module Recolor {
  import opened Text

  /** The fill colour the source document is drawn in; written in lower case. */
  const DefaultColor: string := "#0063be"

  /** Python's `str.replace` with `needle` an empty string: the replacement
      goes before every character and at the end. */
  function Interleave(s: string, replacement: string): string
    decreases |s|
  {
    if |s| == 0 then replacement
    else replacement + [s[0]] + Interleave(s[1..], replacement)
  }

  /** Python's `s.replace(needle, replacement)`: the text up to the leftmost
      occurrence of `needle` is kept, the occurrence becomes `replacement`, and
      the scan resumes after it, so occurrences never overlap. */
  function ReplaceAll(s: string, needle: string, replacement: string): string
    decreases |s|
  {
    if |needle| == 0 then Interleave(s, replacement)
    else
      match Find(s, needle)
      case None => s
      case Some(i) => s[..i] + replacement + ReplaceAll(s[i + |needle|..], needle, replacement)
  }

  /** `GenImages.replace_colors(color_, original_color)` on a document:
      every `original` becomes `color`. */
  function ReplaceColors(svg: string, color: string, original: string): string
  {
    ReplaceAll(svg, original, color)
  }

  /** `replace_colors(color_)` with the default `original_color`. */
  function RecolorDefault(svg: string, color: string): string
  {
    ReplaceColors(svg, color, DefaultColor)
  }

  /** Substitution is a no-op when the colour to replace does not occur. */
  lemma {:induction false} AbsentIsNoOp(s: string, needle: string, replacement: string)
    requires |needle| > 0
    requires !Occurs(s, needle)
    ensures ReplaceAll(s, needle, replacement) == s
  {
  }

  /** Replacing a colour by itself changes nothing, the empty colour included. */
  lemma {:induction false} SameColorIsIdentity(s: string, needle: string)
    ensures ReplaceAll(s, needle, needle) == s
    decreases |s|
  {
    if |needle| == 0 {
      InterleaveEmpty(s);
    } else {
      match Find(s, needle)
      case None =>
      case Some(i) =>
        var rest := s[i + |needle|..];
        SameColorIsIdentity(rest, needle);
        SliceAround(s, needle, i);
    }
  }

  lemma {:induction false} InterleaveEmpty(s: string)
    ensures Interleave(s, "") == s
    decreases |s|
  {
    if |s| > 0 {
      InterleaveEmpty(s[1..]);
      assert s == [s[0]] + s[1..];
    }
  }

  /** The independent description Python documents: `s.replace(old, new)`
      is `new.join(s.split(old))`. */
  lemma {:induction false} ReplaceIsJoinOfSplit(s: string, needle: string, replacement: string)
    requires |needle| > 0
    ensures ReplaceAll(s, needle, replacement) == Join(Split(s, needle), replacement)
    decreases |s|
  {
    match Find(s, needle)
    case None =>
    case Some(i) =>
      var rest := s[i + |needle|..];
      ReplaceIsJoinOfSplit(rest, needle, replacement);
      SplitStep(s, needle, i);
      JoinCons(s[..i], Split(rest, needle), replacement);
      ReplaceUnfold(s, needle, replacement, i);
  }

  lemma {:induction false} ReplaceUnfold(s: string, needle: string, replacement: string, i: nat)
    requires |needle| > 0
    requires Find(s, needle) == Some(i)
    ensures ReplaceAll(s, needle, replacement)
      == s[..i] + replacement + ReplaceAll(s[i + |needle|..], needle, replacement)
  {
    var t := ReplaceAll(s[i + |needle|..], needle, replacement);
    var u := ReplaceAll(s, needle, replacement);
    assert u == s[..i] + replacement + t;
  }

  /** Python's `s.count(needle)`: the number of non-overlapping occurrences,
      counted from the left. */
  function Count(s: string, needle: string): nat
    requires |needle| > 0
    decreases |s|
  {
    match Find(s, needle)
    case None => 0
    case Some(i) => 1 + Count(s[i + |needle|..], needle)
  }

  /** Counting agrees with splitting: one piece more than occurrences. */
  lemma {:induction false} CountIsPiecesLess1(s: string, needle: string)
    requires |needle| > 0
    ensures Count(s, needle) == |Split(s, needle)| - 1
    decreases |s|
  {
    match Find(s, needle)
    case None =>
    case Some(i) =>
      var rest := s[i + |needle|..];
      CountIsPiecesLess1(rest, needle);
      var c := Count(s, needle);
      assert c == 1 + Count(rest, needle);
      var pieces := Split(s, needle);
      assert pieces == [s[..i]] + Split(rest, needle);
  }

  /** Each replaced occurrence changes the length by the difference of the
      two colours' lengths. */
  lemma {:induction false} ReplaceLength(s: string, needle: string, replacement: string)
    requires |needle| > 0
    ensures |ReplaceAll(s, needle, replacement)| == |s| + Count(s, needle) * (|replacement| - |needle|)
    decreases |s|
  {
    match Find(s, needle)
    case None =>
    case Some(i) =>
      var rest := s[i + |needle|..];
      ReplaceLength(rest, needle, replacement);
      ReplaceStep(s, needle, replacement, i);
      LengthStep(i, |needle|, |replacement|, |rest|, Count(rest, needle), |ReplaceAll(rest, needle, replacement)|,
                 |s|, Count(s, needle), |ReplaceAll(s, needle, replacement)|);
  }

  /** One replacement step: the text up to the match is kept, one occurrence
      is counted and replaced, and the scan goes on after it. */
  lemma {:induction false} ReplaceStep(s: string, needle: string, replacement: string, i: nat)
    requires |needle| > 0
    requires Find(s, needle) == Some(i)
    ensures var rest := s[i + |needle|..];
      && Count(s, needle) == Count(rest, needle) + 1
      && |s| == i + |needle| + |rest|
      && |ReplaceAll(s, needle, replacement)| == i + |replacement| + |ReplaceAll(rest, needle, replacement)|
  {
    var rest := s[i + |needle|..];
    var c := Count(s, needle);
    assert c == 1 + Count(rest, needle);
    ReplaceUnfold(s, needle, replacement, i);
  }

  /** The arithmetic of one replacement step. */
  lemma {:induction false} LengthStep(i: int, n: int, m: int, len: int, c: int, replaced: int,
                   total: int, count: int, result: int)
    requires replaced == len + c * (m - n)
    requires total == i + n + len && count == c + 1 && result == i + m + replaced
    ensures result == total + count * (m - n)
  {
    MulSucc(c, m - n);
  }

  lemma {:induction false} MulSucc(c: int, d: int)
    ensures (c + 1) * d == c * d + d
  {
  }

  /** Matching is case-sensitive: a document in which the lower-case default
      colour does not occur is returned unchanged, whatever the target. */
  lemma {:induction false} RecolorWithoutDefaultIsNoOp(svg: string, color: string)
    requires !Occurs(svg, DefaultColor)
    ensures RecolorDefault(svg, color) == svg
  {
    AbsentIsNoOp(svg, DefaultColor, color);
  }

  /** The palette's primary colour in upper case is not the default colour:
      it is left alone, while the lower-case spelling is replaced. */
  lemma {:induction false} CaseSensitiveExamples()
    ensures RecolorDefault("#0063BE", "#FFF") == "#0063BE"
    ensures RecolorDefault("#0063be", "#FFF") == "#FFF"
  {
    var upper := "#0063BE";
    assert upper[5] != DefaultColor[5];
    assert upper[..|DefaultColor|] != DefaultColor;
    assert upper == [upper[0]] + upper[1..];
  }
}
