/**
 The program end to end: plan the logos, then write the README table of the
 files reported, into the current directory.
 */
module Generator {
  import opened Text
  import Paths
  import Planner
  import Report
  import Config

  /** Colour names the README table can show: no cell separator and no line
      break. */
  predicate PlainNames(names: map<string, string>)
  {
    forall c :: c in names ==> '|' !in names[c] && '\n' !in names[c]
  }

  /** A decimal rendering holds neither separator. */
  lemma {:induction false} DecimalPlain(n: int)
    ensures '|' !in IntToString(n) && '\n' !in IntToString(n)
  {
    var d := NatToString(if n < 0 then -n else n);
    assert forall k :: 0 <= k < |d| ==> IsDigit(d[k]);
  }

  /** The file a favicon or standard save writes holds neither separator
      when the colour names do not. */
  lemma {:induction false} WrittenPlain(names: map<string, string>, x: Planner.SaveCall)
    requires PlainNames(names)
    requires x.ext == "png"
    requires || x.output == Planner.FaviconOutput(x.width)
             || (x.color in names && x.output == Planner.StandardOutput(names[x.color], x.width))
    ensures '|' !in x.output + ".png" && '\n' !in x.output + ".png"
  {
    var d := IntToString(x.width);
    DecimalPlain(x.width);
    if x.output == Planner.FaviconOutput(x.width) {
      PiecesPlain("logo/favicon/favicon-", d, "", ".png");
    } else {
      PiecesPlain("logo/standar/" + names[x.color], "-", d, ".png");
    }
  }

  lemma {:induction false} PiecesPlain(a: string, b: string, c: string, e: string)
    requires '|' !in a && '|' !in b && '|' !in c && '|' !in e
    requires '\n' !in a && '\n' !in b && '\n' !in c && '\n' !in e
    ensures '|' !in a + b + c + e && '\n' !in a + b + c + e
  {
  }

  /** The table of a finished run reads back as one entry per save, in the
      order of the saves: the base name of the file written and the width it
      was saved at, in decimal. */
  lemma {:induction false} ReadmeShowsSaves(colors: seq<string>, sizes: seq<int>, names: map<string, string>)
    requires Planner.Plan(colors, sizes, names).Done?
    requires forall k :: 0 <= k < |sizes| ==> sizes[k] >= 0
    requires PlainNames(names)
    ensures var r := Planner.Plan(colors, sizes, names);
      && Report.ParseTable(Report.Table(r.files)) == Some(Report.Entries(r.files))
      && |Report.Entries(r.files)| == |r.saves|
      && forall i :: 0 <= i < |r.saves| ==>
           Report.Entries(r.files)[i]
             == Report.Entry(Paths.Basename(r.saves[i].Written()), IntToString(r.saves[i].width))
  {
    var r := Planner.Plan(colors, sizes, names);
    Planner.PlanReportsWrittenFiles(colors, sizes, names);
    Planner.ReportedLabelsRoundTrip(colors, sizes, names);
    FilesPlain(colors, sizes, names);
    Report.ParseTableRoundTrip(r.files);
    EntriesOfSaves(r.saves, r.files);
  }

  /** The files of a finished run hold neither separator when the colour
      names do not. */
  lemma {:induction false} FilesPlain(colors: seq<string>, sizes: seq<int>, names: map<string, string>)
    requires Planner.Plan(colors, sizes, names).Done?
    requires PlainNames(names)
    ensures var files := Planner.Plan(colors, sizes, names).files;
      forall k :: 0 <= k < |files| ==> '|' !in files[k] && '\n' !in files[k]
  {
    var r := Planner.Plan(colors, sizes, names);
    Planner.PlanReportsWrittenFiles(colors, sizes, names);
    forall k | 0 <= k < |r.files| ensures '|' !in r.files[k] && '\n' !in r.files[k] {
      var x := r.saves[k];
      Planner.EverySaveIsFaviconOrStandard(colors, sizes, names, x);
      WrittenPlain(names, x);
    }
  }

  /** The entries of files written by saves whose labels are their widths. */
  lemma {:induction false} EntriesOfSaves(saves: seq<Planner.SaveCall>, files: seq<string>)
    requires |files| == |saves|
    requires forall i :: 0 <= i < |files| ==>
      files[i] == saves[i].Written() && Paths.SizeLabel(files[i]) == IntToString(saves[i].width)
    ensures forall i :: 0 <= i < |saves| ==>
      Report.Entries(files)[i] == Report.Entry(Paths.Basename(saves[i].Written()), IntToString(saves[i].width))
  {
  }

  /** `main`: the fixed run, then its README written to `./`. */
  method Run(header: string) returns (files: seq<string>, readmePath: string, content: string)
    ensures |files| == 23
    ensures files == Config.RunFiles()
    ensures readmePath == "./README.md"
    ensures content == Report.Readme(header, files)
  {
    var r := Planner.GenerateLogos(Config.Colors, Config.Sizes, Config.Palette);
    Config.FixedRun();
    files := r.files;
    readmePath, content := Report.WriteReadme("./", header, files);
    ReadmeInCurrentDirectory();
  }

  lemma {:induction false} ReadmeInCurrentDirectory()
    ensures Report.JoinPath("./", "README.md") == "./README.md"
  {
  }
}
