/**
 The table `write_readme` appends to the README: one Markdown row per image
 path, in the order given, showing the image, its size label, a check mark
 and a link. The fixed header the table follows is a parameter here.
 */
module Report {
  import opened Text
  import Paths

  /** Where the rows point, for the image and for the link alike: the icon
      directory of the brand repository on GitHub. It and `ImageSuffix` are
      written in pieces only so that the verifier checks short literals for
      a `|` or a line break. */
  const BaseUrl: string := "https://github.com/" + "unexpo-poz/brand/" + "blob/main/logo/icon/"

  const ImagePrefix: string := "<img src='" + BaseUrl
  const ImageSuffix: string := "?raw=true' " + "width='64' alt=''/> "
  /** The "use" column: a check mark between spaces. */
  const UseCell: string := " \U{2705} "

  /** What a row shows of one path: its base name and its size label. */
  datatype Entry = Entry(name: string, size: string)

  function EntryOf(path: string): Entry
  {
    Entry(Paths.Basename(path), Paths.SizeLabel(path))
  }

  /** The image column for the file `name`. */
  function ImageCell(name: string): string
  {
    ImagePrefix + name + ImageSuffix
  }

  /** The size column for the label `size`. */
  function SizeCell(size: string): string
  {
    " " + size + "px "
  }

  /** The link column for the file `name`. */
  function LinkCell(name: string): string
  {
    " [" + name + "](" + BaseUrl + name + ") "
  }

  /** The cells of the row for one entry, in the order of the format string
      of the loop. */
  function Cells(e: Entry): seq<string>
  {
    ["", ImageCell(e.name), SizeCell(e.size), UseCell, LinkCell(e.name), ""]
  }

  /** The row for one entry, without its line break: its four cells with a
      `|` before, between and after them. */
  function RowOf(e: Entry): string
  {
    Join(Cells(e), "|")
  }

  /** The row bodies of a list of entries. */
  function Rows(entries: seq<Entry>): seq<string>
  {
    Map(RowOf, entries)
  }

  /** The entries of a list of paths. */
  function Entries(paths: seq<string>): seq<Entry>
  {
    Map(EntryOf, paths)
  }

  /** Lines of text, each followed by a line break. */
  function Lines(bodies: seq<string>): string
    decreases |bodies|
  {
    if |bodies| == 0 then "" else bodies[0] + "\n" + Lines(bodies[1..])
  }

  /** The rows for `paths`, in order. */
  function Table(paths: seq<string>): string
  {
    Lines(Rows(Entries(paths)))
  }

  /** The README text: the header followed by the table. */
  function Readme(header: string, paths: seq<string>): string
  {
    header + Table(paths)
  }

  /** `posixpath.join(directory, name)`: an absolute `name` replaces the
      directory; otherwise a `/` is put between them unless the directory is
      empty or already ends in one. */
  function JoinPath(directory: string, name: string): string
  {
    if |name| > 0 && name[0] == '/' then name
    else if directory == "" || directory[|directory| - 1] == '/' then directory + name
    else directory + "/" + name
  }

  /** Joining a file name without `/` onto a directory gives a path whose
      base name is that file name. */
  lemma {:induction false} JoinPathBasename(directory: string, name: string)
    requires '/' !in name
    ensures Paths.Basename(JoinPath(directory, name)) == name
  {
    if |name| > 0 {
      assert name[0] in name;
    }
    if directory == "" || directory[|directory| - 1] == '/' {
      Paths.BasenameAppend(directory, name);
    } else {
      Paths.BasenameAppend(directory + "/", name);
    }
  }

  /** `write_readme` as written: the rows appended one by one after the
      header, and the path the text goes to. */
  method WriteReadme(directory: string, header: string, imageFiles: seq<string>)
    returns (readmePath: string, content: string)
    ensures content == Readme(header, imageFiles)
    ensures readmePath == JoinPath(directory, "README.md")
    ensures Paths.Basename(readmePath) == "README.md"
  {
    content := header;
    var i := 0;
    while i < |imageFiles|
      invariant 0 <= i <= |imageFiles|
      invariant content == header + Lines(Rows(Entries(imageFiles[..i])))
    {
      var fileName := Paths.Basename(imageFiles[i]);
      var size := Paths.SizeLabel(imageFiles[i]);
      var row := RowOf(Entry(fileName, size));
      TableStep(header, imageFiles, i, Entry(fileName, size));
      content := content + row + "\n";
      i := i + 1;
    }
    assert imageFiles[..|imageFiles|] == imageFiles;
    readmePath := JoinPath(directory, "README.md");
    JoinPathBasename(directory, "README.md");
  }

  /** One more path adds its row after the rows so far. */
  lemma {:induction false} TableStep(header: string, paths: seq<string>, i: nat, e: Entry)
    requires i < |paths| && e == EntryOf(paths[i])
    ensures header + Lines(Rows(Entries(paths[..i]))) + RowOf(e) + "\n"
      == header + Lines(Rows(Entries(paths[..i + 1])))
  {
    var entries := Entries(paths[..i]);
    EntriesSnoc(paths, i);
    RowsSnoc(entries, e);
    LinesSnoc(Rows(entries), RowOf(e));
    AppendAfter(header, Lines(Rows(entries)), RowOf(e));
  }

  lemma {:induction false} EntriesSnoc(paths: seq<string>, i: nat)
    requires i < |paths|
    ensures Entries(paths[..i + 1]) == Entries(paths[..i]) + [EntryOf(paths[i])]
  {
    MapPrefixSnoc(EntryOf, paths, i);
  }

  lemma {:induction false} RowsSnoc(entries: seq<Entry>, e: Entry)
    ensures Rows(entries + [e]) == Rows(entries) + [RowOf(e)]
  {
    MapPrefixSnoc(RowOf, entries + [e], |entries|);
    assert (entries + [e])[..|entries| + 1] == entries + [e];
    assert (entries + [e])[..|entries|] == entries;
  }

  lemma {:induction false} AppendAfter(header: string, text: string, row: string)
    ensures header + text + row + "\n" == header + (text + row + "\n")
  {
  }

  lemma {:induction false} LinesSnoc(bodies: seq<string>, body: string)
    ensures Lines(bodies + [body]) == Lines(bodies) + body + "\n"
    decreases |bodies|
  {
    if |bodies| == 0 {
      assert [] + [body] == [body];
    } else {
      assert (bodies + [body])[1..] == bodies[1..] + [body];
      LinesSnoc(bodies[1..], body);
    }
  }

  /** `s` with the given prefix and suffix removed, if it has both. */
  function StripAffixes(s: string, prefix: string, suffix: string): (r: Option<string>)
    ensures r.Some? <==> |prefix| + |suffix| <= |s| && s[..|prefix|] == prefix && s[|s| - |suffix|..] == suffix
    ensures r.Some? ==> s == prefix + r.value + suffix
  {
    if |prefix| + |suffix| <= |s| && s[..|prefix|] == prefix && s[|s| - |suffix|..] == suffix then
      var mid := s[|prefix|..|s| - |suffix|];
      assert s == s[..|prefix|] + mid + s[|s| - |suffix|..];
      Some(mid)
    else None
  }

  lemma {:induction false} StripOf(prefix: string, x: string, suffix: string)
    ensures StripAffixes(prefix + x + suffix, prefix, suffix) == Some(x)
  {
    var s := prefix + x + suffix;
    assert s[..|prefix|] == prefix;
    assert s[|s| - |suffix|..] == suffix;
    assert s[|prefix|..|s| - |suffix|] == x;
  }

  /** A table line read back into its file name and size label: `None`
      unless it splits on `|` into the six pieces of a row (empty, four
      cells, empty), with the check mark and a link to the same file as the
      image. */
  function ParseRow(line: string): Option<Entry>
  {
    var cells := Split(line, "|");
    if |cells| != 6 || cells[0] != "" || cells[5] != "" || cells[3] != UseCell then None
    else
      match StripAffixes(cells[1], ImagePrefix, ImageSuffix)
      case None => None
      case Some(name) =>
        match StripAffixes(cells[2], " ", "px ")
        case None => None
        case Some(size) =>
          if cells[4] == LinkCell(name) then Some(Entry(name, size)) else None
  }

  /** Every line read back, `None` as soon as one is not a row. */
  function ParseLines(lines: seq<string>): (r: Option<seq<Entry>>)
    ensures r.Some? ==> |r.value| == |lines|
    decreases |lines|
  {
    if |lines| == 0 then Some([])
    else
      match ParseRow(lines[0])
      case None => None
      case Some(e) =>
        match ParseLines(lines[1..])
        case None => None
        case Some(rest) => Some([e] + rest)
  }

  /** A table read back: its lines, each ending in a line break. */
  function ParseTable(text: string): Option<seq<Entry>>
  {
    var lines := Split(text, "\n");
    if lines[|lines| - 1] != "" then None else ParseLines(lines[..|lines| - 1])
  }

  /** An entry the table can show unambiguously: no cell separator and no
      line break in its name or label. */
  predicate Plain(e: Entry)
  {
    '|' !in e.name && '|' !in e.size && '\n' !in e.name && '\n' !in e.size
  }

  /** The fixed pieces of a row hold neither separator. */
  lemma {:induction false} FixedPiecesPlain()
    ensures '|' !in BaseUrl && '\n' !in BaseUrl
    ensures '|' !in ImagePrefix && '\n' !in ImagePrefix
    ensures '|' !in ImageSuffix && '\n' !in ImageSuffix
    ensures '|' !in UseCell && '\n' !in UseCell
  {
    UrlPlain();
    SuffixPlain();
    PairPlain("<img src='", BaseUrl);
  }

  lemma {:induction false} UrlPlain()
    ensures '|' !in BaseUrl && '\n' !in BaseUrl
  {
    UrlLacks('|');
    UrlLacks('\n');
  }

  lemma {:induction false} UrlLacks(c: char)
    requires c == '|' || c == '\n'
    ensures c !in BaseUrl
  {
    PairLacks(c, "https://github.com/", "unexpo-poz/brand/");
    PairLacks(c, "https://github.com/" + "unexpo-poz/brand/", "blob/main/logo/icon/");
  }

  lemma {:induction false} PairLacks(c: char, a: string, b: string)
    requires c !in a && c !in b
    ensures c !in a + b
  {
  }

  lemma {:induction false} SuffixPlain()
    ensures '|' !in ImageSuffix && '\n' !in ImageSuffix
  {
    assert '|' !in ImageSuffix;
  }

  lemma {:induction false} PairPlain(a: string, b: string)
    requires '|' !in a && '\n' !in a && '|' !in b && '\n' !in b
    ensures '|' !in a + b && '\n' !in a + b
  {
  }

  /** Reading a row back gives the entry it was built from. */
  lemma {:induction false} ParseRowOf(e: Entry)
    requires Plain(e)
    ensures ParseRow(RowOf(e)) == Some(e)
  {
    var cells := Cells(e);
    FixedPiecesPlain();
    forall k | 0 <= k < |cells| ensures '|' !in cells[k] {
    }
    SplitJoin(cells, '|');
    StripOf(ImagePrefix, e.name, ImageSuffix);
    StripOf(" ", e.size, "px ");
  }

  /** A row holds no line break. */
  lemma {:induction false} RowOneLine(e: Entry)
    requires Plain(e)
    ensures '\n' !in RowOf(e)
  {
    var cells := Cells(e);
    FixedPiecesPlain();
    forall k | 0 <= k < |cells| ensures '\n' !in cells[k] {
    }
    NotInJoin(cells, "|", '\n');
  }

  /** Text cut into lines: the line bodies, then an empty last piece. */
  lemma {:induction false} LinesJoin(bodies: seq<string>)
    ensures Lines(bodies) == Join(bodies + [""], "\n")
    decreases |bodies|
  {
    if |bodies| > 0 {
      LinesJoin(bodies[1..]);
      assert bodies + [""] == [bodies[0]] + (bodies[1..] + [""]);
      JoinCons(bodies[0], bodies[1..] + [""], "\n");
    }
  }

  lemma {:induction false} ParseRows(entries: seq<Entry>)
    requires forall k :: 0 <= k < |entries| ==> Plain(entries[k])
    ensures ParseLines(Rows(entries)) == Some(entries)
    decreases |entries|
  {
    if |entries| > 0 {
      ParseRowOf(entries[0]);
      ParseRows(entries[1..]);
      assert Rows(entries)[1..] == Rows(entries[1..]);
      assert entries == [entries[0]] + entries[1..];
    }
  }

  /** Rows read back as the entries they show, in order, whatever the text
      before them. */
  lemma {:induction false} ParseRowsRoundTrip(entries: seq<Entry>)
    requires forall k :: 0 <= k < |entries| ==> Plain(entries[k])
    ensures ParseTable(Lines(Rows(entries))) == Some(entries)
  {
    var lines := Rows(entries) + [""];
    LinesJoin(Rows(entries));
    forall k | 0 <= k < |lines| ensures '\n' !in lines[k] {
      if k < |entries| {
        RowOneLine(entries[k]);
      }
    }
    SplitJoin(lines, '\n');
    assert lines[..|lines| - 1] == Rows(entries);
    ParseRows(entries);
  }

  /** A path without separators and line breaks gives a plain entry. */
  lemma {:induction false} EntryOfPlain(path: string)
    requires '|' !in path && '\n' !in path
    ensures Plain(EntryOf(path))
  {
    var name := Paths.Basename(path);
    assert forall ch :: ch in name ==> ch in path;
    if '|' in EntryOf(path).size {
      Paths.SizeLabelChars(path, '|');
    }
    if '\n' in EntryOf(path).size {
      Paths.SizeLabelChars(path, '\n');
    }
  }

  /** The table reads back as one entry per path, in order: the path's base
      name and its size label. */
  lemma {:induction false} ParseTableRoundTrip(paths: seq<string>)
    requires forall k :: 0 <= k < |paths| ==> '|' !in paths[k] && '\n' !in paths[k]
    ensures ParseTable(Table(paths)) == Some(Entries(paths))
  {
    forall k | 0 <= k < |paths| ensures Plain(Entries(paths)[k]) {
      EntryOfPlain(paths[k]);
    }
    ParseRowsRoundTrip(Entries(paths));
  }
}
