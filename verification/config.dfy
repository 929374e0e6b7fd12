/**
 The run `generate_logos` performs on its hard-coded configuration: six
 colours, eight sizes and the colour-name table, worked out to the list of
 files it reports.
 */
module Config {
  import opened Text
  import opened Planner

  /** The configuration `generate_logos` hard-codes. */
  const Palette: map<string, string> := map[
    "#FFF" := "white",
    "#000" := "black",
    "#0063BE" := "primary",
    "#3E78B2" := "secondary",
    "#454647" := "dark",
    "#EBEBEB" := "light"
  ]
  const Colors: seq<string> := ["#454647", "#EBEBEB", "#FFF", "#000", "#0063BE", "#3E78B2"]
  const Sizes: seq<int> := [16, 32, 64, 100, 128, 512, 1024, 2048]

  /** The favicon files the fixed run writes, smallest first. */
  const FaviconPaths: seq<string> := [
    "logo/favicon/favicon-16.png", "logo/favicon/favicon-32.png", "logo/favicon/favicon-64.png",
    "logo/favicon/favicon-100.png", "logo/favicon/favicon-128.png"]

  /** The standard files the fixed run writes for the colour named `name`. */
  function StandardPaths(name: string): seq<string>
  {
    ["logo/standar/" + name + "-512.png", "logo/standar/" + name + "-1024.png", "logo/standar/" + name + "-2048.png"]
  }

  /** A digit appended to a positive number's rendering. */
  lemma {:induction false} AppendDigit(q: nat, d: nat)
    requires q >= 1 && d < 10
    ensures NatToString(10 * q + d) == NatToString(q) + [DigitChar(d)]
  {
    assert (10 * q + d) / 10 == q && (10 * q + d) % 10 == d;
  }

  /** The decimal renderings of the fixed sizes. */
  lemma {:induction false} Decimals()
    ensures IntToString(16) == "16" && IntToString(32) == "32" && IntToString(64) == "64"
    ensures IntToString(100) == "100" && IntToString(128) == "128"
    ensures IntToString(512) == "512" && IntToString(1024) == "1024" && IntToString(2048) == "2048"
  {
    AppendDigit(1, 6);
    AppendDigit(3, 2);
    AppendDigit(6, 4);
    AppendDigit(1, 0);
    AppendDigit(10, 0);
    AppendDigit(1, 2);
    AppendDigit(12, 8);
    AppendDigit(5, 1);
    AppendDigit(51, 2);
    AppendDigit(10, 2);
    AppendDigit(102, 4);
    AppendDigit(2, 0);
    AppendDigit(20, 4);
    AppendDigit(204, 8);
  }

  /** Three pairs decided: the primary colour at 16 gets a favicon only,
      white at 1024 a standard logo only, the secondary colour at 64 nothing. */
  lemma {:induction false} PairExamples()
    ensures PairSaves("#0063BE", "primary", 16) == [SaveCall("#0063BE", "logo/favicon/favicon-16", 16, "png")]
    ensures PairSaves("#FFF", "white", 1024) == [SaveCall("#FFF", "logo/standar/white-1024", 1024, "png")]
    ensures PairSaves("#3E78B2", "secondary", 64) == []
  {
    Decimals();
    assert FaviconOutput(16) == "logo/favicon/favicon-" + "16";
    assert StandardOutput("white", 1024) == "logo/standar/" + "white" + "-" + "1024";
    assert FaviconOutput(16) == "logo/favicon/favicon-16";
    assert StandardOutput("white", 1024) == "logo/standar/white-1024";
    assert PairSaves("#0063BE", "primary", 16) == [SaveCall("#0063BE", FaviconOutput(16), 16, "png")] + [];
    assert PairSaves("#FFF", "white", 1024) == [] + [SaveCall("#FFF", StandardOutput("white", 1024), 1024, "png")];
  }

  lemma {:induction false} ColorSavesSnoc(color: string, name: string, sizes: seq<int>, size: int)
    ensures ColorSaves(color, name, sizes + [size]) == ColorSaves(color, name, sizes) + PairSaves(color, name, size)
  {
    assert (sizes + [size])[..|sizes|] == sizes;
  }

  /** The favicon sizes give a colour other than the primary one nothing. */
  lemma {:induction false} SmallSizesOther(color: string, name: string)
    requires color != Primary
    ensures ColorSaves(color, name, [16, 32, 64, 100, 128]) == []
  {
    assert [16, 32, 64, 100, 128] == [16, 32, 64, 100] + [128];
    assert [16, 32, 64, 100] == [16, 32, 64] + [100];
    assert [16, 32, 64] == [16, 32] + [64];
    assert [16, 32] == [16] + [32];
    assert [16] == [] + [16];
    forall size | size <= FaviconMax ensures PairSaves(color, name, size) == [] {
      assert PairSaves(color, name, size) == [] + [];
    }
    ColorSavesSnoc(color, name, [], 16);
    ColorSavesSnoc(color, name, [16], 32);
    ColorSavesSnoc(color, name, [16, 32], 64);
    ColorSavesSnoc(color, name, [16, 32, 64], 100);
    ColorSavesSnoc(color, name, [16, 32, 64, 100], 128);
  }

  /** The favicon save of the primary colour at `size`. */
  function Favicon(size: int): SaveCall
  {
    SaveCall(Primary, FaviconOutput(size), size, "png")
  }

  /** The favicon sizes give the primary colour one favicon each. */
  lemma {:induction false} SmallSizesPrimary(name: string)
    ensures ColorSaves(Primary, name, [16, 32, 64, 100, 128]) == [
      Favicon(16), Favicon(32), Favicon(64), Favicon(100), Favicon(128)]
  {
    var f1, f2, f3, f4, f5 := Favicon(16), Favicon(32), Favicon(64), Favicon(100), Favicon(128);
    var s0: seq<int> := [];
    FaviconStep(name, s0, [], 16);
    FaviconStep(name, s0 + [16], [] + [f1], 32);
    FaviconStep(name, s0 + [16] + [32], [] + [f1] + [f2], 64);
    FaviconStep(name, s0 + [16] + [32] + [64], [] + [f1] + [f2] + [f3], 100);
    FaviconStep(name, s0 + [16] + [32] + [64] + [100], [] + [f1] + [f2] + [f3] + [f4], 128);
    assert s0 + [16] + [32] + [64] + [100] + [128] == [16, 32, 64, 100, 128];
    assert [] + [f1] + [f2] + [f3] + [f4] + [f5] == [f1, f2, f3, f4, f5];
  }

  lemma {:induction false} FaviconStep(name: string, sizes: seq<int>, saves: seq<SaveCall>, size: int)
    requires ColorSaves(Primary, name, sizes) == saves
    requires size <= FaviconMax
    ensures ColorSaves(Primary, name, sizes + [size]) == saves + [Favicon(size)]
  {
    ColorSavesSnoc(Primary, name, sizes, size);
    assert PairSaves(Primary, name, size) == [Favicon(size)] + [];
  }

  /** The standard save of a colour named `name` at `size`. */
  function Standard(color: string, name: string, size: int): SaveCall
  {
    SaveCall(color, StandardOutput(name, size), size, "png")
  }

  /** The standard sizes add one standard logo each, whatever the colour. */
  lemma {:induction false} LargeSizes(color: string, name: string)
    ensures ColorSaves(color, name, Sizes) == ColorSaves(color, name, [16, 32, 64, 100, 128]) + [
      Standard(color, name, 512), Standard(color, name, 1024), Standard(color, name, 2048)]
  {
    var small := [16, 32, 64, 100, 128];
    var c0 := ColorSaves(color, name, small);
    var a, b, c := Standard(color, name, 512), Standard(color, name, 1024), Standard(color, name, 2048);
    StandardStep(color, name, small, c0, 512);
    StandardStep(color, name, small + [512], c0 + [a], 1024);
    StandardStep(color, name, small + [512] + [1024], c0 + [a] + [b], 2048);
    assert Sizes == small + [512] + [1024] + [2048];
    assert c0 + [a] + [b] + [c] == c0 + [a, b, c];
  }

  lemma {:induction false} StandardStep(color: string, name: string, sizes: seq<int>, saves: seq<SaveCall>, size: int)
    requires ColorSaves(color, name, sizes) == saves
    requires size >= StandardMin
    ensures ColorSaves(color, name, sizes + [size]) == saves + [Standard(color, name, size)]
  {
    ColorSavesSnoc(color, name, sizes, size);
    assert PairSaves(color, name, size) == [] + [Standard(color, name, size)];
  }

  lemma {:induction false} NumberedPng(stem: string, number: string)
    ensures stem + "-" + number + ".png" == stem + ("-" + number + ".png")
  {
    Assoc(stem, "-", number);
    Assoc(stem, "-" + number, ".png");
  }

  lemma {:induction false} StandardFiles(color: string, name: string)
    ensures Reported([Standard(color, name, 512), Standard(color, name, 1024), Standard(color, name, 2048)])
      == StandardPaths(name)
  {
    Decimals();
    var saves := [Standard(color, name, 512), Standard(color, name, 1024), Standard(color, name, 2048)];
    var r := Reported(saves);
    var dir := "logo/standar/" + name;
    NumberedPng(dir, "512");
    NumberedPng(dir, "1024");
    NumberedPng(dir, "2048");
    assert r[0] == dir + "-" + "512" + ".png";
    assert r[1] == dir + "-" + "1024" + ".png";
    assert r[2] == dir + "-" + "2048" + ".png";
    assert "-" + "512" + ".png" == "-512.png" && "-" + "1024" + ".png" == "-1024.png";
    assert "-" + "2048" + ".png" == "-2048.png";
    assert r[0] == dir + "-512.png" && r[1] == dir + "-1024.png" && r[2] == dir + "-2048.png";
    assert |r| == 3;
  }

  lemma {:induction false} FaviconFiles()
    ensures Reported([Favicon(16), Favicon(32), Favicon(64), Favicon(100), Favicon(128)]) == FaviconPaths
  {
    Decimals();
    var r := Reported([Favicon(16), Favicon(32), Favicon(64), Favicon(100), Favicon(128)]);
    assert r[0] == "logo/favicon/favicon-" + "16" + ".png";
    assert r[1] == "logo/favicon/favicon-" + "32" + ".png";
    assert r[2] == "logo/favicon/favicon-" + "64" + ".png";
    assert r[3] == "logo/favicon/favicon-" + "100" + ".png";
    assert r[4] == "logo/favicon/favicon-" + "128" + ".png";
    assert r[0] == "logo/favicon/favicon-16.png" && r[1] == "logo/favicon/favicon-32.png";
    assert r[2] == "logo/favicon/favicon-64.png" && r[3] == "logo/favicon/favicon-100.png";
    assert r[4] == "logo/favicon/favicon-128.png" && |r| == 5;
  }

  /** What one colour other than the primary one reports: three standard
      logos. */
  lemma {:induction false} OtherColorFiles(color: string, name: string)
    requires color != Primary
    ensures Reported(ColorSaves(color, name, Sizes)) == StandardPaths(name)
  {
    SmallSizesOther(color, name);
    LargeSizes(color, name);
    StandardFiles(color, name);
    assert ColorSaves(color, name, Sizes)
        == [Standard(color, name, 512), Standard(color, name, 1024), Standard(color, name, 2048)];
  }

  /** What the primary colour reports: five favicons, then three standard
      logos. */
  lemma {:induction false} PrimaryColorFiles(name: string)
    ensures Reported(ColorSaves(Primary, name, Sizes)) == FaviconPaths + StandardPaths(name)
  {
    var favs := [Favicon(16), Favicon(32), Favicon(64), Favicon(100), Favicon(128)];
    var stds := [Standard(Primary, name, 512), Standard(Primary, name, 1024), Standard(Primary, name, 2048)];
    SmallSizesPrimary(name);
    LargeSizes(Primary, name);
    ReportedAppend(favs, stds);
    FaviconFiles();
    StandardFiles(Primary, name);
  }

  lemma {:induction false} PlanStep(colors: seq<string>, sizes: seq<int>, names: map<string, string>, color: string, files: seq<string>)
    requires Plan(colors, sizes, names).Done? && Plan(colors, sizes, names).files == files
    requires color in names
    ensures Plan(colors + [color], sizes, names).Done?
    ensures Plan(colors + [color], sizes, names).files == files + Reported(ColorSaves(color, names[color], sizes))
  {
    assert (colors + [color])[..|colors|] == colors;
  }

  lemma {:induction false} PaletteNames()
    ensures Palette["#454647"] == "dark" && Palette["#EBEBEB"] == "light" && Palette["#FFF"] == "white"
    ensures Palette["#000"] == "black" && Palette["#0063BE"] == "primary" && Palette["#3E78B2"] == "secondary"
  {
  }

  /** Three more named colours extend a finished run by their paths in
      turn. */
  lemma {:induction false} PlanThreeMore(colors: seq<string>, sizes: seq<int>, names: map<string, string>,
                      a: string, b: string, c: string, files: seq<string>)
    requires Plan(colors, sizes, names).Done? && Plan(colors, sizes, names).files == files
    requires a in names && b in names && c in names
    ensures Plan(colors + [a, b, c], sizes, names).Done?
    ensures Plan(colors + [a, b, c], sizes, names).files
      == files + Reported(ColorSaves(a, names[a], sizes)) + Reported(ColorSaves(b, names[b], sizes))
         + Reported(ColorSaves(c, names[c], sizes))
  {
    PlanStep(colors, sizes, names, a, files);
    var fa := files + Reported(ColorSaves(a, names[a], sizes));
    PlanStep(colors + [a], sizes, names, b, fa);
    var fb := fa + Reported(ColorSaves(b, names[b], sizes));
    PlanStep(colors + [a] + [b], sizes, names, c, fb);
    assert colors + [a] + [b] + [c] == colors + [a, b, c];
  }

  lemma {:induction false} PlanFirstThree(sizes: seq<int>, names: map<string, string>, a: string, b: string, c: string)
    requires a in names && b in names && c in names
    ensures Plan([a, b, c], sizes, names).Done?
    ensures Plan([a, b, c], sizes, names).files
      == Reported(ColorSaves(a, names[a], sizes)) + Reported(ColorSaves(b, names[b], sizes))
         + Reported(ColorSaves(c, names[c], sizes))
  {
    PlanThreeMore([], sizes, names, a, b, c, []);
    assert [] + [a, b, c] == [a, b, c];
    assert [] + Reported(ColorSaves(a, names[a], sizes)) == Reported(ColorSaves(a, names[a], sizes));
  }

  lemma {:induction false} ColorsSplit()
    ensures Colors == ["#454647", "#EBEBEB", "#FFF"] + ["#000", "#0063BE", "#3E78B2"]
  {
  }

  /** The hard-coded run, colour by colour. */
  lemma {:induction false} FixedRunByColor()
    ensures Plan(Colors, Sizes, Palette).Done?
    ensures Plan(Colors, Sizes, Palette).files
      == Reported(ColorSaves("#454647", "dark", Sizes)) + Reported(ColorSaves("#EBEBEB", "light", Sizes))
         + Reported(ColorSaves("#FFF", "white", Sizes)) + Reported(ColorSaves("#000", "black", Sizes))
         + Reported(ColorSaves("#0063BE", "primary", Sizes)) + Reported(ColorSaves("#3E78B2", "secondary", Sizes))
  {
    PaletteNames();
    ColorsSplit();
    var first := ["#454647", "#EBEBEB", "#FFF"];
    PlanFirstThree(Sizes, Palette, "#454647", "#EBEBEB", "#FFF");
    PlanThreeMore(first, Sizes, Palette, "#000", "#0063BE", "#3E78B2", Plan(first, Sizes, Palette).files);
  }

  /** The files the hard-coded run reports, colour by colour: three standard
      logos for each colour before the primary one, the five favicons of the
      primary colour and its three standard logos, then three for the last
      colour. */
  function RunFiles(): seq<string>
  {
    StandardPaths("dark") + StandardPaths("light") + StandardPaths("white") + StandardPaths("black")
    + FaviconPaths + StandardPaths("primary") + StandardPaths("secondary")
  }

  /** The hard-coded run finishes and reports those 23 paths. */
  lemma {:induction false} FixedRun()
    ensures Plan(Colors, Sizes, Palette).Done?
    ensures Plan(Colors, Sizes, Palette).files == RunFiles()
    ensures |Plan(Colors, Sizes, Palette).files| == 23
  {
    FixedRunByColor();
    ColorFiles();
    RunFilesCount();
  }

  /** What each colour of the hard-coded run reports, concatenated. */
  lemma {:induction false} ColorFiles()
    ensures Reported(ColorSaves("#454647", "dark", Sizes)) + Reported(ColorSaves("#EBEBEB", "light", Sizes))
         + Reported(ColorSaves("#FFF", "white", Sizes)) + Reported(ColorSaves("#000", "black", Sizes))
         + Reported(ColorSaves("#0063BE", "primary", Sizes)) + Reported(ColorSaves("#3E78B2", "secondary", Sizes))
      == RunFiles()
  {
    OtherColorFiles("#454647", "dark");
    OtherColorFiles("#EBEBEB", "light");
    OtherColorFiles("#FFF", "white");
    OtherColorFiles("#000", "black");
    PrimaryColorFiles("primary");
    OtherColorFiles("#3E78B2", "secondary");
  }

  lemma {:induction false} RunFilesCount()
    ensures |RunFiles()| == 23
  {
  }
}
