# Brand logo generator, modelled in Dafny

`gen.py` renders the UNEXPO brand logo in several colours and sizes. It does
five things:

- It recolours the SVG source by replacing its default fill `#0063be` (`GenImages.replace_colors`).
- It saves each variant as a PNG under `logo/favicon/` or `logo/standar/` (`GenImages.save`).
- It plans the variants on a hard-coded list of six colours and eight sizes. The primary colour gets a favicon at every size up to 128, and every colour gets a standard logo at every size from 512 up (`generate_logos`).
- It writes a README with one Markdown table row per file. The row shows the image, the size label taken from the file name, a check mark and a link (`write_readme`).
- `main` chains the run and the README.

The model is functional:

- Python strings are `seq<char>`.
- `str.split`, `basename`, `dirname` and `str(int)` are defined in `Text` and `Paths`. `str.replace` is `Recolor.ReplaceAll`, built on `Text.Find`.
- A call of `save` is a `Planner.SaveCall` record.
- The planner is a pure function `Planner.Plan`, which the loop method `Planner.GenerateLogos` is proved to compute.
- Its outcome is either `Done` or the `KeyError` that the colour-name lookup raises.
- `Saving` states what one save does short of rasterising.
- `Report` builds the README text and reads it back with a parser. The parser is the partner of the row format.
- `Config` works the fixed run out to its 23 paths.
- `Generator.Run` is `main`.

Modules: `Text` (text.dfy), `Paths` (paths.dfy), `Recolor` (recolor.dfy),
`Planner` (planner.dfy), `Saving` (saving.dfy), `Report` (report.dfy),
`Config` (config.dfy), `Generator` (generator.dfy).

## Model

| member | source | states |
|---|---|---|
| Recolor.SameColorIsIdentity | gen.py:22-30 | replacing any colour by itself leaves every text unchanged |
| Recolor.AbsentIsNoOp | gen.py:30 | a text in which the colour to replace does not occur comes back unchanged |
| Recolor.RecolorWithoutDefaultIsNoOp | gen.py:22-30 | a logo without the lower-case default fill `#0063be` is not recoloured, whatever the colour asked for |
| Recolor.CaseSensitiveExamples | gen.py:22-30 | the match is case-sensitive: `#0063BE` is left alone, while `#0063be` is replaced |
| Recolor.ReplaceIsJoinOfSplit | gen.py:30 | `str.replace` with a non-empty needle equals splitting on the needle and joining with the replacement |
| Recolor.ReplaceLength | gen.py:30 | the result's length is the input's length plus, for each non-overlapping occurrence, the length difference between replacement and needle |
| Recolor.CountIsPiecesLess1 | gen.py:30 | the number of occurrences replaced is one less than the number of split pieces |
| Text.Find | gen.py:30 | `find` returns the first index at which the needle matches, and fails exactly when the needle does not occur |
| Text.JoinSplit | gen.py:30 | joining the split pieces with the separator gives back the text |
| Text.SplitPiecesFree | gen.py:95 | no piece of a split on a non-empty separator holds the separator |
| Text.SplitJoin | gen.py:95 | splitting a join of separator-free pieces on a one-character separator gives back the pieces |
| Text.DecimalRoundTrip | gen.py:95 | parsing the decimal rendering of a natural number gives the number |
| Paths.Basename | gen.py:94 | the base name is the suffix after the last `/` and holds no `/` |
| Paths.BasenameAppend | gen.py:94 | appending a `/`-free name to a path appends it to the base name |
| Paths.Dirname | gen.py:50 | the directory part is empty exactly when the path has no `/`, and is a prefix of the path |
| Paths.DirnameOf | gen.py:50 | the directory of `x/y`, for a `/`-free `y`, is `x` |
| Paths.SizeLabelOf | gen.py:95 | the label of a file `prefix-N.png` is the decimal rendering of `N`, whatever the prefix holds |
| Saving.MakeDirsAsWritten | gen.py:50 | the directory handed to `makedirs` is missing exactly when the output has no `/`, and is otherwise a non-empty prefix of the output |
| Saving.BareNameFails | gen.py:50 | the bare output `favicon-16` makes `save` fail as written, while the fixed fallback creates `.` |
| Saving.MakeDirsTarget | gen.py:50 | fixed fallback: a non-empty directory, which is the output's own directory when it has one and `.` otherwise |
| Saving.SaveAsWritten | gen.py:32-63 | `save` fails exactly for an output without `/`. Otherwise it creates the output's directory, passes the logo recoloured with the call's colour at the call's width, and writes `output.ext` |
| Saving.SaveWithFallback | gen.py:32-63 | with the fixed fallback, a save always has a non-empty directory, and the document is the logo itself when the default fill is absent or the colour is the default |
| Saving.PlannedSavesSucceed | gen.py:50-63 | every save of a finished run succeeds as written and writes the file the run reports at its position, holding the recoloured logo |
| Saving.PlannedSaveSucceeds | gen.py:50 | when no colour name holds `/`, a planned save creates `logo/favicon` or `logo/standar` |
| Planner.GenerateLogos | gen.py:104-141 | the nested loops compute the reference planner `Plan`, including the saves already made when a lookup raises |
| Planner.EmitPair | gen.py:129-138 | one pass of the inner loop saves at most one file. A favicon is saved exactly for the primary colour at sizes up to 128, and a standard logo exactly at sizes from 512. Nothing else is saved |
| Planner.PairSavesDetermined | gen.py:129-138 | those properties pin the pass's saves down to the pair's saves |
| Planner.PlanSucceedsIff | gen.py:124-125 | the run finishes exactly when every listed colour has a name |
| Planner.PlanFailsAtFirstUnnamed | gen.py:124-125 | a failing run raises on the first unnamed colour, after making exactly the saves of the colours before it |
| Planner.InPlan | gen.py:124-138 | a save is made exactly for a listed, named colour at a listed size for which one of the two tests holds |
| Planner.FaviconSavedIff | gen.py:129-132 | a favicon is saved for a colour and size exactly when the colour is the primary one and the size is listed and at most 128 |
| Planner.StandardSavedIff | gen.py:134-138 | a standard logo named after a colour is saved exactly when the colour is listed under that name and the size is listed and at least 512 |
| Planner.EverySaveIsFaviconOrStandard | gen.py:129-138 | every save is a PNG favicon of the primary colour at a small size, or a PNG standard logo named after its colour at a large size |
| Planner.OutputsDiffer | gen.py:129-138 | a favicon path is never a standard path |
| Planner.StandardOutputInjective | gen.py:136 | a standard path determines the colour name it was built from |
| Planner.PlanReportsWrittenFiles | gen.py:129-138 | the reported list has one entry per save, and each entry is the file that save writes |
| Planner.SavesInListOrder | gen.py:124-138 | when the lists have no repeats, saves come colour by colour in list order, and within a colour size by size in list order |
| Planner.ReportedLabelsRoundTrip | gen.py:93-138 | for non-negative sizes, the label shown for each reported file is the decimal width of its save and parses back to it |
| Planner.NegativeSizeLosesSign | gen.py:93-130 | a negative size would be shown without its sign |
| Config.FixedRun | gen.py:111-141 | the hard-coded run finishes and reports exactly 23 paths: three standard logos for each colour in colour order, with the five favicons of the primary colour before its standard logos |
| Config.PairExamples | gen.py:129-138 | the primary colour at 16 gets only a favicon, white at 1024 only a standard logo, and the secondary colour at 64 gets nothing |
| Config.Decimals | gen.py:130-136 | the decimal renderings of the eight fixed sizes |
| Report.WriteReadme | gen.py:66-101 | the text written is the header followed by one row per path, in order, and the file is `README.md` in the given directory |
| Report.JoinPathBasename | gen.py:99 | the README path's base name is `README.md` for any directory |
| Report.StripAffixes | gen.py:96-97 | stripping succeeds exactly when the text starts and ends with the affixes, and then gives what lies between them |
| Report.ParseRowOf | gen.py:96-97 | a row reads back as the file name and size label it was built from, when neither holds a `|` or a line break |
| Report.ParseTableRoundTrip | gen.py:93-97 | the whole table reads back as each path's base name and size label, in order |
| Report.EntryOfPlain | gen.py:94-95 | a path without `|` or line breaks gives a name and label without them |
| Generator.ReadmeShowsSaves | gen.py:93-138 | the README table of a finished run reads back as one entry per save, in save order: the file written and its width in decimal |
| Generator.Run | gen.py:144-149 | `main` reports the 23 files of the fixed run and writes their README to `./README.md` |

## Left out

- Rasterising and file output are not modelled. `cairosvg.svg2png` and the writes of the PNG files and the README (gen.py:53-63, 100-101) are outside the model. `Saving.Effect` records the document, width, directory and file name instead of the bytes.
- Failing saves are not modelled. A failing `svg2png` or PNG write would abort `generate_logos` with no list returned. `Planner.Outcome` only knows the `KeyError` of the name lookup, and `Plan` reports `Done` whenever every colour is named.
- The SVG read and its cache (gen.py:7-20) are replaced by an `svg` parameter, which is assumed to be read once per run.
- `SaveCall` and `Effect` drop the arguments `scale=1` and `background_color=None` (gen.py:56-57). They never change what the model states.
- The README header literal (gen.py:74-91) is the `header` parameter of `Report.Readme` and `Generator.Run`, not its text.
- The `print` in `main` (gen.py:151) is not modelled.
- Python `str` is modelled as `seq<char>`, with no encoding. The `utf-8` encoding of the files is not modelled.
- Paths.Basename and Paths.Dirname model `posixpath` only. Under `ntpath`, `\` is also a separator.
- Report.JoinPath models `posixpath.join` with two arguments only.
- Text.ParseDecimal gives 0 on the empty string, where `int("")` raises. It is only applied to renderings of numbers, which are never empty.
- Planner.SavesInListOrder requires the colour and size lists to have no repeats. With repeats, `Before` cannot order the saves by list position. The hard-coded lists have none.
- Planner.ReportedLabelsRoundTrip and Generator.ReadmeShowsSaves require non-negative sizes. Planner.NegativeSizeLosesSign shows that the label drops the sign otherwise.
- Generator.ReadmeShowsSaves requires colour names without `|` or line breaks. Such characters would break the table. The hard-coded names have none.
- The table's links point under `logo/icon/` (gen.py:73, 97), while the files are written under `logo/favicon/` and `logo/standar/`. The model keeps the URLs as written and states nothing about where they lead.

## Findings

| source | as written | input that shows it | evidently intended | confidence | as-written member | corrected member |
|---|---|---|---|---|---|---|
| gen.py:50 | `os.makedirs(os.path.dirname(output) or os.path.dirname(output), ...)` repeats the same expression as its fallback. An output without a directory therefore calls `makedirs("")`, which raises | `save(color, "favicon-16", 16)` | a real fallback for a bare file name. Creating the current directory `.` is one possible fix; the source does not show which one was meant. Latent: every output `generate_logos` plans has a directory (`Saving.PlannedSavesSucceed`) | not executed | Saving.MakeDirsAsWritten, Saving.BareNameFails | Saving.MakeDirsTarget, Saving.SaveWithFallback |
