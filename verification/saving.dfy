/**
 What one call of `GenImages.save` does, short of rasterising: the
 directory it creates, the document it hands to the rasteriser (the logo
 recoloured with the call's colour), the width, and the file it writes.
 */
module Saving {
  import opened Text
  import Paths
  import Recolor
  import Planner

  /** The effects of one successful save. */
  datatype Effect = Effect(directory: string, document: string, width: int, file: string)

  /** The directory `save` hands to `os.makedirs`, as written: the output's
      directory `or` the output's directory again. Creating the empty
      directory raises, so an output without a `/` has no directory to
      create (`None`). */
  function MakeDirsAsWritten(output: string): (r: Option<string>)
    ensures r.None? <==> '/' !in output
    ensures r.Some? ==> r.value != "" && |r.value| <= |output| && output[..|r.value|] == r.value
  {
    var d := Paths.Dirname(output);
    var target := if d != "" then d else Paths.Dirname(output);
    if target == "" then None else Some(target)
  }

  /** One possible fix of the fallback: the output's directory, or the
      current directory `.` when the output is a bare file name. The source
      does not show which fix its authors meant. */
  function MakeDirsTarget(output: string): (r: string)
    ensures r != ""
    ensures '/' in output ==> |r| <= |output| && output[..|r|] == r
    ensures '/' !in output ==> r == "."
  {
    var d := Paths.Dirname(output);
    if d != "" then d else "."
  }

  /** A bare output name makes the call as written fail, while the fixed
      fallback creates the current directory. */
  lemma {:induction false} BareNameFails()
    ensures MakeDirsAsWritten("favicon-16") == None
    ensures MakeDirsTarget("favicon-16") == "."
  {
    var s := "favicon-16";
    assert forall k :: 0 <= k < |s| ==> s[k] != '/';
  }

  /** The two agree on every output that names a directory. */
  lemma {:induction false} AsWrittenAgrees(output: string)
    requires '/' in output
    ensures MakeDirsAsWritten(output) == Some(MakeDirsTarget(output))
  {
  }

  /** One save with the fixed fallback: it never fails, and creates `.` for
      a bare output name. */
  function SaveWithFallback(svg: string, call: Planner.SaveCall): (r: Effect)
    ensures r.file == call.Written()
    ensures r.width == call.width
    ensures r.directory != ""
    ensures '/' in call.output ==> |r.directory| <= |call.output| && call.output[..|r.directory|] == r.directory
    ensures '/' !in call.output ==> r.directory == "."
    ensures !Occurs(svg, Recolor.DefaultColor) ==> r.document == svg
    ensures call.color == Recolor.DefaultColor ==> r.document == svg
  {
    Recolor.SameColorIsIdentity(svg, Recolor.DefaultColor);
    assert !Occurs(svg, Recolor.DefaultColor) ==> Recolor.RecolorDefault(svg, call.color) == svg by {
      if !Occurs(svg, Recolor.DefaultColor) {
        Recolor.RecolorWithoutDefaultIsNoOp(svg, call.color);
      }
    }
    Effect(MakeDirsTarget(call.output), Recolor.RecolorDefault(svg, call.color), call.width,
           call.output + "." + call.ext)
  }

  /** `save` as written: it raises on an output without a directory, and
      otherwise creates the output's directory, hands the logo recoloured
      with the call's colour to the rasteriser and writes `output.ext`. */
  function SaveAsWritten(svg: string, call: Planner.SaveCall): (r: Option<Effect>)
    ensures r.None? <==> '/' !in call.output
    ensures r.Some? ==> && r.value.file == call.Written()
                        && r.value.width == call.width
                        && r.value.directory == Paths.Dirname(call.output)
                        && r.value.document == Recolor.RecolorDefault(svg, call.color)
    ensures r.Some? ==> r.value == SaveWithFallback(svg, call)
  {
    match MakeDirsAsWritten(call.output)
    case None => None
    case Some(directory) =>
      AsWrittenAgrees(call.output);
      Some(Effect(directory, Recolor.RecolorDefault(svg, call.color), call.width,
                  call.output + "." + call.ext))
  }

  /** The directory of a favicon output. */
  lemma {:induction false} FaviconDirectory(size: int)
    ensures MakeDirsAsWritten(Planner.FaviconOutput(size)) == Some("logo/favicon")
  {
    var d := IntToString(size);
    assert '/' !in d by {
      if size < 0 {
        assert d == "-" + NatToString(-size);
      }
    }
    var y := "favicon-" + d;
    assert '/' !in y;
    var output := Planner.FaviconOutput(size);
    assert output == "logo/favicon" + "/" + y;
    Paths.DirnameOf("logo/favicon", y);
  }

  /** The directory of a standard output, for a colour name without `/`. */
  lemma {:induction false} StandardDirectory(name: string, size: int)
    requires '/' !in name
    ensures MakeDirsAsWritten(Planner.StandardOutput(name, size)) == Some("logo/standar")
  {
    var y := name + "-" + IntToString(size);
    assert '/' !in y by {
      if size < 0 {
        assert y == name + "--" + NatToString(-size);
      }
    }
    assert Planner.StandardOutput(name, size) == "logo/standar" + "/" + y;
    Paths.DirnameOf("logo/standar", y);
  }

  /** A save of a finished run succeeds as written; when no colour name
      holds a `/`, it creates `logo/favicon` or `logo/standar`. */
  lemma {:induction false} PlannedSaveSucceeds(colors: seq<string>, sizes: seq<int>, names: map<string, string>,
                            svg: string, x: Planner.SaveCall)
    requires Planner.Plan(colors, sizes, names).Done?
    requires x in Planner.Plan(colors, sizes, names).saves
    ensures SaveAsWritten(svg, x).Some?
    ensures (forall c :: c in names ==> '/' !in names[c]) ==>
      SaveAsWritten(svg, x).value.directory in {"logo/favicon", "logo/standar"}
  {
    Planner.EverySaveIsFaviconOrStandard(colors, sizes, names, x);
    KindSucceeds(names, svg, x);
  }

  /** A favicon or standard save succeeds as written. */
  lemma {:induction false} KindSucceeds(names: map<string, string>, svg: string, x: Planner.SaveCall)
    requires || (x.output == Planner.FaviconOutput(x.width))
             || (x.color in names && x.output == Planner.StandardOutput(names[x.color], x.width))
    ensures SaveAsWritten(svg, x).Some?
    ensures (forall c :: c in names ==> '/' !in names[c]) ==>
      SaveAsWritten(svg, x).value.directory in {"logo/favicon", "logo/standar"}
  {
    if x.output == Planner.FaviconOutput(x.width) {
      FaviconDirectory(x.width);
    } else if forall c :: c in names ==> '/' !in names[c] {
      StandardDirectory(names[x.color], x.width);
    } else {
      assert x.output == "logo/standar/" + names[x.color] + "-" + IntToString(x.width);
      assert x.output[4] == '/';
    }
  }

  /** The saves of a finished run, as written, all succeed, each one writing
      the recoloured logo to the file the run reports at its position. */
  lemma {:induction false} PlannedSavesSucceed(colors: seq<string>, sizes: seq<int>, names: map<string, string>, svg: string)
    requires Planner.Plan(colors, sizes, names).Done?
    ensures var r := Planner.Plan(colors, sizes, names);
      |r.files| == |r.saves| &&
      forall i :: 0 <= i < |r.saves| ==>
        && SaveAsWritten(svg, r.saves[i]).Some?
        && SaveAsWritten(svg, r.saves[i]).value.file == r.files[i]
        && SaveAsWritten(svg, r.saves[i]).value.document == Recolor.RecolorDefault(svg, r.saves[i].color)
  {
    var r := Planner.Plan(colors, sizes, names);
    Planner.PlanReportsWrittenFiles(colors, sizes, names);
    forall i | 0 <= i < |r.saves|
      ensures SaveAsWritten(svg, r.saves[i]).Some?
    {
      PlannedSaveSucceeds(colors, sizes, names, svg, r.saves[i]);
    }
  }
}
