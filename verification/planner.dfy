/**
 The emission planner of `generate_logos`: for every colour of a colour list
 and every size of a size list, in that order, it decides whether to save a
 favicon, a standard logo, or nothing, and reports the paths of the files
 written. The rasterising `save` is recorded as a sequence of calls.
 */
module Planner {
  import opened Text
  import Paths

  /** One call `gen.save(color, output, width, ext=ext)`. */
  datatype SaveCall = SaveCall(color: string, output: string, width: int, ext: string)
  {
    /** The file the call writes: the output path, a dot, the extension. */
    function Written(): string
    {
      output + "." + ext
    }
  }

  /** A run of the planner: either it finishes with the saves it made and the
      paths it reports, or the colour-name lookup raises `KeyError` on `key`
      after the saves listed have already happened. */
  datatype Outcome =
    | Done(saves: seq<SaveCall>, files: seq<string>)
    | KeyError(key: string, saves: seq<SaveCall>)

  /** The only colour that gets favicons (upper case, unlike the SVG's
      default fill). */
  const Primary: string := "#0063BE"
  /** Largest size saved as a favicon. */
  const FaviconMax: int := 128
  /** Smallest size saved as a standard logo. */
  const StandardMin: int := 512

  function FaviconOutput(size: int): string
  {
    "logo/favicon/favicon-" + IntToString(size)
  }

  function StandardOutput(name: string, size: int): string
  {
    "logo/standar/" + name + "-" + IntToString(size)
  }

  /** The saves for one (colour, size) pair: a favicon for the primary colour
      at small sizes, then a standard logo at large sizes. */
  function PairSaves(color: string, name: string, size: int): seq<SaveCall>
  {
    (if size <= FaviconMax && color == Primary
     then [SaveCall(color, FaviconOutput(size), size, "png")] else [])
    + (if size >= StandardMin
       then [SaveCall(color, StandardOutput(name, size), size, "png")] else [])
  }

  /** The saves for one colour, sizes in list order. */
  function ColorSaves(color: string, name: string, sizes: seq<int>): seq<SaveCall>
    decreases |sizes|
  {
    if |sizes| == 0 then []
    else ColorSaves(color, name, sizes[..|sizes| - 1]) + PairSaves(color, name, sizes[|sizes| - 1])
  }

  /** The paths appended to `generated_files`: each output path with `.png`. */
  function Reported(saves: seq<SaveCall>): (r: seq<string>)
    ensures |r| == |saves|
  {
    seq(|saves|, i requires 0 <= i < |saves| => saves[i].output + ".png")
  }

  /** `generate_logos` on explicit configuration: colours outermost, the
      name of each colour looked up before its sizes are visited. */
  function Plan(colors: seq<string>, sizes: seq<int>, names: map<string, string>): Outcome
    decreases |colors|
  {
    if |colors| == 0 then Done([], [])
    else
      match Plan(colors[..|colors| - 1], sizes, names)
      case KeyError(k, saves) => KeyError(k, saves)
      case Done(saves, files) =>
        var color := colors[|colors| - 1];
        if color !in names then KeyError(color, saves)
        else
          var step := ColorSaves(color, names[color], sizes);
          Done(saves + step, files + Reported(step))
  }

  /** The loops of `generate_logos` as written, with the saves recorded. */
  method GenerateLogos(colors: seq<string>, sizes: seq<int>, names: map<string, string>)
    returns (r: Outcome)
    ensures r == Plan(colors, sizes, names)
  {
    var saves: seq<SaveCall> := [];
    var files: seq<string> := [];
    var i := 0;
    while i < |colors|
      invariant 0 <= i <= |colors|
      invariant Plan(colors[..i], sizes, names) == Done(saves, files)
    {
      var color := colors[i];
      if color !in names {
        PlanStopsAt(colors, sizes, names, i);
        return KeyError(color, saves);
      }
      var colorType := names[color];
      var colorSaves, colorFiles := EmitColor(color, colorType, sizes);
      PlanExtends(colors, sizes, names, i);
      saves := saves + colorSaves;
      files := files + colorFiles;
      i := i + 1;
    }
    assert colors[..|colors|] == colors;
    r := Done(saves, files);
  }

  /** A finished prefix extended by a named colour adds that colour's saves
      and paths. */
  lemma {:induction false} PlanExtends(colors: seq<string>, sizes: seq<int>, names: map<string, string>, i: nat)
    requires i < |colors| && colors[i] in names
    requires Plan(colors[..i], sizes, names).Done?
    ensures var before := Plan(colors[..i], sizes, names);
      var step := ColorSaves(colors[i], names[colors[i]], sizes);
      Plan(colors[..i + 1], sizes, names) == Done(before.saves + step, before.files + Reported(step))
  {
    assert colors[..i + 1][..i] == colors[..i];
    var after := Plan(colors[..i + 1], sizes, names);
    assert after == (match Plan(colors[..i], sizes, names)
      case KeyError(k, saves) => KeyError(k, saves)
      case Done(saves, files) =>
        var step := ColorSaves(colors[i], names[colors[i]], sizes);
        Done(saves + step, files + Reported(step)));
  }

  /** A finished prefix followed by an unnamed colour: the whole run raises
      on that colour with the prefix's saves. */
  lemma {:induction false} PlanStopsAt(colors: seq<string>, sizes: seq<int>, names: map<string, string>, i: nat)
    requires i < |colors| && colors[i] !in names
    requires Plan(colors[..i], sizes, names).Done?
    ensures Plan(colors, sizes, names) == KeyError(colors[i], Plan(colors[..i], sizes, names).saves)
  {
    assert colors[..i + 1][..i] == colors[..i];
    var after := Plan(colors[..i + 1], sizes, names);
    assert after == KeyError(colors[i], Plan(colors[..i], sizes, names).saves);
    PlanKeyErrorSticks(colors, sizes, names, i + 1);
  }

  /** The inner loop of `generate_logos`: the sizes of one colour. */
  method EmitColor(color: string, colorType: string, sizes: seq<int>)
    returns (saves: seq<SaveCall>, files: seq<string>)
    ensures saves == ColorSaves(color, colorType, sizes)
    ensures files == Reported(saves)
  {
    saves := [];
    files := [];
    var j := 0;
    while j < |sizes|
      invariant 0 <= j <= |sizes|
      invariant saves == ColorSaves(color, colorType, sizes[..j])
      invariant files == Reported(saves)
    {
      var pairSaves, pairFiles := EmitPair(color, colorType, sizes[j]);
      PairSavesDetermined(color, colorType, sizes[j], pairSaves);
      ReportedAppend(saves, pairSaves);
      ColorSavesStep(color, colorType, sizes, j);
      saves := saves + pairSaves;
      files := files + pairFiles;
      j := j + 1;
    }
    assert sizes[..|sizes|] == sizes;
  }

  /** One pass of the inner loop: at most one file per pair, a favicon
      exactly for the primary colour at a small size, a standard logo named
      after the colour exactly at a large size, and nothing else. */
  method EmitPair(color: string, colorType: string, size: int)
    returns (saves: seq<SaveCall>, files: seq<string>)
    ensures |saves| <= 1
    ensures SaveCall(color, FaviconOutput(size), size, "png") in saves <==> size <= FaviconMax && color == Primary
    ensures SaveCall(color, StandardOutput(colorType, size), size, "png") in saves <==> size >= StandardMin
    ensures forall x :: x in saves ==>
      x == SaveCall(color, FaviconOutput(size), size, "png") || x == SaveCall(color, StandardOutput(colorType, size), size, "png")
    ensures files == Reported(saves)
  {
    saves := [];
    files := [];
    if size <= FaviconMax && color == Primary {
      var outputPath := FaviconOutput(size);
      saves := saves + [SaveCall(color, outputPath, size, "png")];
      files := files + [outputPath + ".png"];
    }
    if size >= StandardMin {
      var outputPath := StandardOutput(colorType, size);
      saves := saves + [SaveCall(color, outputPath, size, "png")];
      files := files + [outputPath + ".png"];
    }
    OutputsDiffer(colorType, size, size);
  }

  /** The saves of one pass, pinned down by which files it makes: they are
      the pair's saves. */
  lemma {:induction false} PairSavesDetermined(color: string, name: string, size: int, saves: seq<SaveCall>)
    requires |saves| <= 1
    requires SaveCall(color, FaviconOutput(size), size, "png") in saves <==> size <= FaviconMax && color == Primary
    requires SaveCall(color, StandardOutput(name, size), size, "png") in saves <==> size >= StandardMin
    requires forall x :: x in saves ==>
      x == SaveCall(color, FaviconOutput(size), size, "png") || x == SaveCall(color, StandardOutput(name, size), size, "png")
    ensures saves == PairSaves(color, name, size)
  {
    var fav := SaveCall(color, FaviconOutput(size), size, "png");
    var std := SaveCall(color, StandardOutput(name, size), size, "png");
    if |saves| == 0 {
      assert PairSaves(color, name, size) == [] + [];
    } else {
      var x := saves[0];
      assert x in saves;
      assert saves == [x];
      if x == fav {
        assert PairSaves(color, name, size) == [fav] + [];
      } else {
        assert PairSaves(color, name, size) == [] + [std];
      }
    }
  }

  /** One more size adds that size's saves. */
  lemma {:induction false} ColorSavesStep(color: string, name: string, sizes: seq<int>, j: nat)
    requires j < |sizes|
    ensures ColorSaves(color, name, sizes[..j + 1]) == ColorSaves(color, name, sizes[..j]) + PairSaves(color, name, sizes[j])
  {
    assert sizes[..j + 1][..j] == sizes[..j];
    var cs := ColorSaves(color, name, sizes[..j + 1]);
    assert cs == ColorSaves(color, name, sizes[..j]) + PairSaves(color, name, sizes[j]);
  }

  lemma {:induction false} ReportedAppend(a: seq<SaveCall>, b: seq<SaveCall>)
    ensures Reported(a + b) == Reported(a) + Reported(b)
  {
  }

  /** Once a prefix of the colours fails, the whole run fails the same way. */
  lemma {:induction false} PlanKeyErrorSticks(colors: seq<string>, sizes: seq<int>, names: map<string, string>, m: nat)
    requires m <= |colors|
    requires Plan(colors[..m], sizes, names).KeyError?
    ensures Plan(colors, sizes, names) == Plan(colors[..m], sizes, names)
    decreases |colors| - m
  {
    if m < |colors| {
      assert colors[..m + 1][..m] == colors[..m];
      PlanKeyErrorSticks(colors, sizes, names, m + 1);
    } else {
      assert colors[..m] == colors;
    }
  }

  /** A finished run reports the output path of every save, with `.png`. */
  lemma {:induction false} PlanFilesReported(colors: seq<string>, sizes: seq<int>, names: map<string, string>)
    requires Plan(colors, sizes, names).Done?
    ensures Plan(colors, sizes, names).files == Reported(Plan(colors, sizes, names).saves)
    decreases |colors|
  {
    if |colors| > 0 {
      var prefix := colors[..|colors| - 1];
      PlanFilesReported(prefix, sizes, names);
      var color := colors[|colors| - 1];
      ReportedAppend(Plan(prefix, sizes, names).saves, ColorSaves(color, names[color], sizes));
    }
  }

  /** The file list reported is the list of files the saves wrote. */
  lemma {:induction false} PlanReportsWrittenFiles(colors: seq<string>, sizes: seq<int>, names: map<string, string>)
    requires Plan(colors, sizes, names).Done?
    ensures var r := Plan(colors, sizes, names);
      |r.files| == |r.saves| && forall i :: 0 <= i < |r.files| ==> r.files[i] == r.saves[i].Written()
  {
    var r := Plan(colors, sizes, names);
    PlanFilesReported(colors, sizes, names);
    forall i | 0 <= i < |r.files| ensures r.files[i] == r.saves[i].Written() {
      EverySaveIsFaviconOrStandard(colors, sizes, names, r.saves[i]);
    }
  }

  /** `x` is a save the planner makes for its own colour and size when that
      colour is named `name`: a favicon of the primary colour at a small size,
      or a standard logo at a large size. */
  predicate Emits(name: string, x: SaveCall)
  {
    && x.ext == "png"
    && (|| (x.width <= FaviconMax && x.color == Primary && x.output == FaviconOutput(x.width))
        || (x.width >= StandardMin && x.output == StandardOutput(name, x.width)))
  }

  lemma {:induction false} InPairSaves(color: string, name: string, size: int, x: SaveCall)
    ensures x in PairSaves(color, name, size) <==> x.color == color && x.width == size && Emits(name, x)
  {
  }

  /** The saves of one colour are the saves of its pairs. */
  lemma {:induction false} InColorSaves(color: string, name: string, sizes: seq<int>, x: SaveCall)
    ensures x in ColorSaves(color, name, sizes) <==> x.color == color && x.width in sizes && Emits(name, x)
    decreases |sizes|
  {
    if |sizes| > 0 {
      var init := sizes[..|sizes| - 1];
      var last := sizes[|sizes| - 1];
      InColorSaves(color, name, init, x);
      InPairSaves(color, name, last, x);
      assert sizes == init + [last];
    }
  }

  lemma {:induction false} ColorSavesShape(color: string, name: string, sizes: seq<int>, x: SaveCall)
    requires x in ColorSaves(color, name, sizes)
    ensures x.color == color && x.width in sizes && x.ext == "png"
  {
    InColorSaves(color, name, sizes, x);
  }

  /** The saves of a finished run, as a collection: exactly the favicons and
      standard logos of the colours and sizes listed. */
  lemma {:induction false} InPlan(colors: seq<string>, sizes: seq<int>, names: map<string, string>, x: SaveCall)
    requires Plan(colors, sizes, names).Done?
    ensures x in Plan(colors, sizes, names).saves <==>
      x.color in colors && x.color in names && x.width in sizes && Emits(names[x.color], x)
    decreases |colors|
  {
    if |colors| > 0 {
      var n := |colors| - 1;
      var prefix := colors[..n];
      var color := colors[n];
      assert colors == prefix + [color];
      InPlan(prefix, sizes, names, x);
      InColorSaves(color, names[color], sizes, x);
    }
  }

  /** Which runs finish: exactly those where every colour has a name. */
  lemma {:induction false} PlanSucceedsIff(colors: seq<string>, sizes: seq<int>, names: map<string, string>)
    ensures Plan(colors, sizes, names).Done? <==> forall i :: 0 <= i < |colors| ==> colors[i] in names
    decreases |colors|
  {
    if |colors| > 0 {
      var prefix := colors[..|colors| - 1];
      PlanSucceedsIff(prefix, sizes, names);
      assert forall i :: 0 <= i < |prefix| ==> prefix[i] == colors[i];
    }
  }

  /** A failed run stops at the first colour without a name, after exactly
      the saves of the colours before it. */
  lemma {:induction false} PlanFailsAtFirstUnnamed(colors: seq<string>, sizes: seq<int>, names: map<string, string>)
    requires Plan(colors, sizes, names).KeyError?
    ensures var r := Plan(colors, sizes, names);
      exists i :: 0 <= i < |colors| && colors[i] == r.key && r.key !in names
        && (forall j :: 0 <= j < i ==> colors[j] in names)
        && Plan(colors[..i], sizes, names) == Done(r.saves, Reported(r.saves))
    decreases |colors|
  {
    var r := Plan(colors, sizes, names);
    var n := |colors| - 1;
    var prefix := colors[..n];
    assert forall j :: 0 <= j < |prefix| ==> prefix[j] == colors[j];
    match Plan(prefix, sizes, names)
    case KeyError(_, _) =>
      PlanFailsAtFirstUnnamed(prefix, sizes, names);
      var i :| 0 <= i < |prefix| && prefix[i] == r.key && r.key !in names
        && (forall j :: 0 <= j < i ==> prefix[j] in names)
        && Plan(prefix[..i], sizes, names) == Done(r.saves, Reported(r.saves));
      assert prefix[..i] == colors[..i];
    case Done(saves, files) =>
      PlanSucceedsIff(prefix, sizes, names);
      PlanFilesReported(prefix, sizes, names);
      assert Plan(colors[..n], sizes, names) == Done(r.saves, Reported(r.saves));
  }

  /** The two kinds of output path never coincide. */
  lemma {:induction false} OutputsDiffer(name: string, size: int, size': int)
    ensures StandardOutput(name, size) != FaviconOutput(size')
  {
    assert StandardOutput(name, size)[5] == 's';
    assert FaviconOutput(size')[5] == 'f';
  }

  /** A standard path determines the colour name it was built from. */
  lemma {:induction false} StandardOutputInjective(name: string, name': string, size: int)
    requires StandardOutput(name, size) == StandardOutput(name', size)
    ensures name == name'
  {
    var t := "-" + IntToString(size);
    var p := "logo/standar/";
    Assoc(p + name, "-", IntToString(size));
    Assoc(p + name', "-", IntToString(size));
    Assoc(p, name, t);
    Assoc(p, name', t);
    CancelPrefix(p, name + t, name' + t);
    CancelSuffix(name, name', t);
  }

  /** A favicon is saved for a pair exactly when the colour is the primary
      one and the size at most 128. */
  lemma {:induction false} FaviconSavedIff(colors: seq<string>, sizes: seq<int>, names: map<string, string>, color: string, size: int)
    requires Plan(colors, sizes, names).Done?
    ensures SaveCall(color, FaviconOutput(size), size, "png") in Plan(colors, sizes, names).saves
      <==> color == Primary && color in colors && size in sizes && size <= FaviconMax
  {
    var x := SaveCall(color, FaviconOutput(size), size, "png");
    InPlan(colors, sizes, names, x);
    PlanSucceedsIff(colors, sizes, names);
    if color in names {
      OutputsDiffer(names[color], size, size);
    }
  }

  /** A standard logo named after the colour is saved for a pair exactly
      when the size is at least 512, whatever the colour. */
  lemma {:induction false} StandardSavedIff(colors: seq<string>, sizes: seq<int>, names: map<string, string>,
                         color: string, name: string, size: int)
    requires Plan(colors, sizes, names).Done?
    ensures SaveCall(color, StandardOutput(name, size), size, "png") in Plan(colors, sizes, names).saves
      <==> color in colors && color in names && names[color] == name && size in sizes && size >= StandardMin
  {
    var x := SaveCall(color, StandardOutput(name, size), size, "png");
    InPlan(colors, sizes, names, x);
    OutputsDiffer(name, size, size);
    if color in names && StandardOutput(name, size) == StandardOutput(names[color], size) {
      StandardOutputInjective(name, names[color], size);
    }
  }

  /** Nothing else is saved: every save of a finished run is one of the two
      kinds, for a colour and a size of the lists. */
  lemma {:induction false} EverySaveIsFaviconOrStandard(colors: seq<string>, sizes: seq<int>, names: map<string, string>, x: SaveCall)
    requires Plan(colors, sizes, names).Done?
    requires x in Plan(colors, sizes, names).saves
    ensures x.color in colors && x.width in sizes && x.ext == "png"
    ensures || (x.color == Primary && x.width <= FaviconMax && x.output == FaviconOutput(x.width))
            || (x.color in names && x.width >= StandardMin && x.output == StandardOutput(names[x.color], x.width))
  {
    InPlan(colors, sizes, names, x);
  }

  /** The position of the first `x` in `xs` (`|xs|` when absent), as
      Python's `list.index` where it succeeds. */
  function IndexOf<T(==)>(xs: seq<T>, x: T): (r: nat)
    ensures r <= |xs|
    ensures r < |xs| ==> xs[r] == x
    ensures forall j :: 0 <= j < r ==> xs[j] != x
    decreases |xs|
  {
    if |xs| == 0 then 0
    else if xs[0] == x then 0
    else 1 + IndexOf(xs[1..], x)
  }

  predicate Distinct<T(==)>(xs: seq<T>)
  {
    forall i, j :: 0 <= i < j < |xs| ==> xs[i] != xs[j]
  }

  lemma {:induction false} IndexOfDistinct<T>(xs: seq<T>, k: nat)
    requires Distinct(xs) && k < |xs|
    ensures IndexOf(xs, xs[k]) == k
  {
  }

  /** `a` comes before `b` in colour-major, size-minor order. */
  predicate Before(colors: seq<string>, sizes: seq<int>, a: SaveCall, b: SaveCall)
  {
    var ca := IndexOf(colors, a.color);
    var cb := IndexOf(colors, b.color);
    ca < cb || (ca == cb && IndexOf(sizes, a.width) < IndexOf(sizes, b.width))
  }

  /** The saves `cs` use sizes among the first `k` of the list, in list order. */
  predicate FollowsSizes(sizes: seq<int>, cs: seq<SaveCall>, k: nat)
  {
    && (forall i :: 0 <= i < |cs| ==> IndexOf(sizes, cs[i].width) < k)
    && (forall i, j :: 0 <= i < j < |cs| ==> IndexOf(sizes, cs[i].width) < IndexOf(sizes, cs[j].width))
  }

  /** The saves of one colour over the first `k` sizes follow the size list. */
  lemma {:induction false} ColorSavesOrdered(color: string, name: string, sizes: seq<int>, k: nat)
    requires Distinct(sizes) && k <= |sizes|
    ensures FollowsSizes(sizes, ColorSaves(color, name, sizes[..k]), k)
    decreases k
  {
    if k > 0 {
      ColorSavesOrdered(color, name, sizes, k - 1);
      assert sizes[..k][..k - 1] == sizes[..k - 1];
      var prev := ColorSaves(color, name, sizes[..k - 1]);
      var pair := PairSaves(color, name, sizes[k - 1]);
      var cs := ColorSaves(color, name, sizes[..k]);
      assert cs == prev + pair;
      IndexOfDistinct(sizes, k - 1);
      assert |pair| <= 1;
      forall i | 0 <= i < |pair| ensures IndexOf(sizes, pair[i].width) == k - 1 {
        InPairSaves(color, name, sizes[k - 1], pair[i]);
      }
      forall i | 0 <= i < |cs| ensures IndexOf(sizes, cs[i].width) < k {
        if i >= |prev| {
          assert cs[i] == pair[i - |prev|];
          assert IndexOf(sizes, pair[i - |prev|].width) == k - 1;
        } else {
          assert cs[i] == prev[i];
          assert IndexOf(sizes, prev[i].width) < k - 1;
        }
      }
      forall i, j | 0 <= i < j < |cs| ensures IndexOf(sizes, cs[i].width) < IndexOf(sizes, cs[j].width) {
        assert cs[i] == prev[i];
        if j >= |prev| {
          assert cs[j] == pair[j - |prev|];
        } else {
          assert cs[j] == prev[j];
        }
      }
    }
  }

  /** The saves of a finished run over the first `m` colours follow the
      colour list, and within a colour the size list. */
  lemma {:induction false} PlanPrefixOrdered(colors: seq<string>, sizes: seq<int>, names: map<string, string>, m: nat)
    requires Distinct(colors) && Distinct(sizes) && m <= |colors|
    requires Plan(colors[..m], sizes, names).Done?
    ensures var ss := Plan(colors[..m], sizes, names).saves;
      && (forall i :: 0 <= i < |ss| ==> IndexOf(colors, ss[i].color) < m)
      && (forall i, j :: 0 <= i < j < |ss| ==> Before(colors, sizes, ss[i], ss[j]))
    decreases m
  {
    if m > 0 {
      assert colors[..m][..m - 1] == colors[..m - 1];
      var color := colors[m - 1];
      PlanPrefixOrdered(colors, sizes, names, m - 1);
      var prev := Plan(colors[..m - 1], sizes, names).saves;
      var step := ColorSaves(color, names[color], sizes);
      assert Plan(colors[..m], sizes, names).saves == prev + step;
      ColorSavesOrdered(color, names[color], sizes, |sizes|);
      assert sizes[..|sizes|] == sizes;
      IndexOfDistinct(colors, m - 1);
      forall i | 0 <= i < |step| ensures IndexOf(colors, step[i].color) == m - 1 {
        ColorSavesShape(color, names[color], sizes, step[i]);
      }
    }
  }

  /** The saves, and so the reported paths, come colour-major and
      size-minor, when neither list repeats an entry. */
  lemma {:induction false} SavesInListOrder(colors: seq<string>, sizes: seq<int>, names: map<string, string>)
    requires Distinct(colors) && Distinct(sizes)
    requires Plan(colors, sizes, names).Done?
    ensures var ss := Plan(colors, sizes, names).saves;
      forall i, j :: 0 <= i < j < |ss| ==> Before(colors, sizes, ss[i], ss[j])
  {
    assert colors[..|colors|] == colors;
    PlanPrefixOrdered(colors, sizes, names, |colors|);
  }

  lemma {:induction false} FaviconLabel(w: nat)
    ensures Paths.SizeLabel(FaviconOutput(w) + ".png") == NatToString(w)
  {
    assert "logo/favicon/favicon-" == "logo/favicon/favicon" + "-";
    Paths.SizeLabelOf("logo/favicon/favicon", w);
  }

  lemma {:induction false} StandardLabel(name: string, w: nat)
    ensures Paths.SizeLabel(StandardOutput(name, w) + ".png") == NatToString(w)
  {
    Paths.SizeLabelOf("logo/standar/" + name, w);
  }

  /** Reading a reported path back, as the README writer does, gives the size
      it was saved at: its label is that size in decimal and parses back to
      it, whatever the colour names are. */
  lemma {:induction false} ReportedLabelsRoundTrip(colors: seq<string>, sizes: seq<int>, names: map<string, string>)
    requires Plan(colors, sizes, names).Done?
    requires forall k :: 0 <= k < |sizes| ==> sizes[k] >= 0
    ensures var r := Plan(colors, sizes, names);
      |r.files| == |r.saves| && forall i :: 0 <= i < |r.files| ==>
        && Paths.SizeLabel(r.files[i]) == IntToString(r.saves[i].width)
        && AllDigits(Paths.SizeLabel(r.files[i]))
        && ParseDecimal(Paths.SizeLabel(r.files[i])) == r.saves[i].width
  {
    var r := Plan(colors, sizes, names);
    PlanFilesReported(colors, sizes, names);
    forall i | 0 <= i < |r.files|
      ensures && Paths.SizeLabel(r.files[i]) == IntToString(r.saves[i].width)
              && AllDigits(Paths.SizeLabel(r.files[i]))
              && ParseDecimal(Paths.SizeLabel(r.files[i])) == r.saves[i].width
    {
      var x := r.saves[i];
      EverySaveIsFaviconOrStandard(colors, sizes, names, x);
      assert r.files[i] == x.output + ".png";
      var w: nat := x.width;
      if x.output == FaviconOutput(w) {
        FaviconLabel(w);
      } else {
        StandardLabel(names[x.color], w);
      }
      DecimalRoundTrip(w);
    }
  }

  /** The label loses the sign of a negative size: the text after the last
      `-` is taken. The sizes the generator uses are all positive. */
  lemma {:induction false} NegativeSizeLosesSign()
    ensures Paths.SizeLabel(FaviconOutput(-16) + ".png") == "16"
  {
    var d := NatToString(16);
    assert d == "16" by {
      assert 16 / 10 == 1 && 16 % 10 == 6;
      assert d == NatToString(1) + [DigitChar(6)];
    }
    var prefix := "logo/favicon/favicon-";
    assert FaviconOutput(-16) == prefix + "-" + d;
    var shown := Paths.SizeLabel(prefix + "-" + d + ".png");
    assert shown == d by {
      Paths.SizeLabelOf(prefix, 16);
    }
  }
}
