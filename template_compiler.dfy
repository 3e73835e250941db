/**
 * The template stage of the renderer (`_TemplateCompiler`): the loader that
 * resolves template names against the virtual file set, the fixed HTML
 * header and footer, and `compile`, which turns a data set into intermediate
 * HTML documents, each paired with the row it came from (or with none).
 * Written files are returned as a map from path to content.
 */
module TemplateCompiler {
  import opened Wrappers
  import opened OrderedDicts
  import opened Strings
  import opened Paths
  import opened RendererFiles
  import opened WrittenFiles

  /** What Jinja's FunctionLoader expects: source, name and an "up to date" check (always true). */
  datatype LoadedTemplate = LoadedTemplate(source: string, name: string, upToDate: bool)

  /** `_do_lookup`: only Main, HTML and CSS files are templates; CSV files and unknown names are not. */
  function DoLookup(vfs: Vfs, name: string): (r: Option<LoadedTemplate>)
    ensures r.None? <==> Get(vfs, name).None? || Get(vfs, name).value.file.fileType == Csv
    ensures r.Some? ==> r.value == LoadedTemplate(Get(vfs, name).value.data, name, true)
  {
    var theFile := Get(vfs, name);
    if theFile.None? then None
    else
      var t := theFile.value.file.fileType;
      if t != Main && t != Html && t != Css then
        assert t == Csv;
        None
      else Some(LoadedTemplate(theFile.value.data, name, true))
  }

  /**
   * With distinct file names, the Main version that `find_main` picks is the
   * one the loader serves under its name, so `get_template` cannot fail.
   */
  lemma MainTemplateLoads(files: seq<FileVersion>)
    requires FindMain(files).Some?
    requires NoDuplicates(FileNames(files))
    ensures DoLookup(FilesToVfs(files), FindMain(files).value.file.fileName)
      == Some(LoadedTemplate(FindMain(files).value.data, FindMain(files).value.file.fileName, true))
  {
    var main := FindMain(files).value;
    var name := main.file.fileName;
    var i :| 0 <= i < |files| && files[i] == main;
    FilesToVfsLastWins(files, name);
    var got := Get(FilesToVfs(files), name);
    assert got.Some?;
    var j :| 0 <= j < |files| && files[j].file.fileName == name && got == Some(files[j]);
    var names := FileNames(files);
    assert names[i] == name && names[j] == name;
    assert i == j;
  }

  const HeaderOpening: string := "<!DOCTYPE html>\n<html lang=\""
  const HeaderBeforeTitle: string := "\">\n<head>\n     <meta charset=\"utf-8\">\n     <title>"
  const HeaderClosing: string := "</title>\n</head>\n"

  /** `html_header(title, lang)`. */
  function HtmlHeader(title: string, lang: string): string {
    HeaderOpening + lang + HeaderBeforeTitle + title + HeaderClosing
  }

  /** `html_footer()`. */
  function HtmlFooter(): string {
    "\n</html>\n"
  }

  /** The text between `<title>` and `</title>` of a header written for `lang`. */
  function TitleOf(header: string, lang: string): string
    requires |HeaderOpening + lang + HeaderBeforeTitle| + |HeaderClosing| <= |header|
  {
    header[|HeaderOpening + lang + HeaderBeforeTitle|..|header| - |HeaderClosing|]
  }

  /** The header keeps the title intact: reading it back gives the title that was put in. */
  lemma HeaderTitleRoundTrip(title: string, lang: string)
    ensures |HeaderOpening + lang + HeaderBeforeTitle| + |HeaderClosing| <= |HtmlHeader(title, lang)|
    ensures TitleOf(HtmlHeader(title, lang), lang) == title
  {
    var pre := HeaderOpening + lang + HeaderBeforeTitle;
    var h := HtmlHeader(title, lang);
    assert h == pre + title + HeaderClosing;
    assert h[|pre|..|h| - |HeaderClosing|] == title;
  }

  /** The bodies written one after another. */
  function Concat(parts: seq<string>): string {
    if parts == [] then "" else Concat(parts[..|parts| - 1]) + parts[|parts| - 1]
  }

  /** A generated HTML file: the header (language "fi"), the bodies in order, the footer. */
  function Document(title: string, bodies: seq<string>): string {
    HtmlHeader(title, "fi") + Concat(bodies) + HtmlFooter()
  }

  /**
   * The failures of a compile: the loader cannot serve the Main file, or a
   * lookup table is named `row`, so that `tpl.render(row=..., **lookups)`
   * raises `TypeError` for a keyword given twice.
   */
  datatype TemplateError = TemplateNotFound(name: string) | RowKeywordClash

  /** Rendering the Main template passes `row` twice: there is a row to render and a lookup table named `row`. */
  predicate RowClash(lookups: LookupTables, data: seq<Row>) {
    data != [] && "row" in Keys(lookups)
  }

  /** A compiled source: the path of an HTML file and the row it belongs to, if one. */
  datatype Source = Source(path: string, row: Option<Row>)

  /** The sources in order, and the files written (path to content). */
  datatype Compiled = Compiled(sources: seq<Source>, written: map<string, string>)

  /** The file name of the `idx`-th document (1-based) of a split compile: "001.html", ... */
  function SplitName(idx: nat): string {
    Format03(idx) + ".html"
  }

  function SplitPath(srcDir: string, idx: nat): string {
    PathJoin(srcDir, SplitName(idx))
  }

  /** The path written for row `k` (0-based) of a split compile. */
  function RowPath(srcDir: string, k: nat): string {
    SplitPath(srcDir, k + 1)
  }

  function MasterPath(srcDir: string): string {
    PathJoin(srcDir, "master.html")
  }

  /** In split mode every row gets its own title and a body of one rendering. */
  function SplitDocument(eng: Engines, main: string, lookups: LookupTables, titlePattern: string, row: Row): string {
    Document(eng.renderTitle(titlePattern, Some(row)), [eng.renderTemplate(main, row, lookups)])
  }

  /** In merged mode the master document is attributed to a row only if there is exactly one. */
  function MergedRow(data: seq<Row>): (r: Option<Row>)
    ensures r.Some? <==> |data| == 1
    ensures r.Some? ==> r.value == data[0]
  {
    if |data| == 1 then Some(data[0]) else None
  }

  /** The master title: rendered (with the merged row) when there is data, empty otherwise. */
  function MergedTitle(eng: Engines, titlePattern: string, data: seq<Row>): (t: string)
    ensures data == [] ==> t == ""
  {
    if data != [] then eng.renderTitle(titlePattern, MergedRow(data)) else ""
  }

  /** One rendering of the Main template per row, in row order. */
  function Renderings(eng: Engines, main: string, lookups: LookupTables, data: seq<Row>): (r: seq<string>)
    ensures |r| == |data|
    ensures forall i :: 0 <= i < |data| ==> r[i] == eng.renderTemplate(main, data[i], lookups)
  {
    seq(|data|, i requires 0 <= i < |data| => eng.renderTemplate(main, data[i], lookups))
  }

  function MergedDocument(eng: Engines, main: string, lookups: LookupTables, titlePattern: string, data: seq<Row>): string {
    Document(MergedTitle(eng, titlePattern, data), Renderings(eng, main, lookups, data))
  }

  /** The lookup tables of a render: those of the virtual file set's versions. */
  function VfsLookups(vfs: Vfs, eng: Engines): LookupTables {
    FindLookupTables(Values(vfs), eng.makeName, eng.makeLut)
  }

  /** The clash happens exactly when there is a row and some CSV file of the set has the lookup name `row`. */
  lemma RowClashIff(vfs: Vfs, eng: Engines, data: seq<Row>)
    ensures RowClash(VfsLookups(vfs, eng), data) <==>
      data != [] && exists v :: v in Values(vfs) && v.file.fileType == Csv && eng.makeName(v.file.fileName) == "row"
  {
    FindLookupTablesLastWins(Values(vfs), eng.makeName, eng.makeLut, "row");
  }

  /** What a split compile produces: one numbered file per row, in row order. */
  ghost predicate SplitResult(c: Compiled, srcDir: string, data: seq<Row>, eng: Engines, main: string,
                              lookups: LookupTables, titlePattern: string)
  {
    && |c.sources| == |data|
    && (forall i :: 0 <= i < |data| ==> c.sources[i] == Source(RowPath(srcDir, i), Some(data[i])))
    && (forall p :: p in c.written <==> exists i :: 0 <= i < |data| && p == RowPath(srcDir, i))
    && (forall i :: 0 <= i < |data| ==>
          c.written[RowPath(srcDir, i)] == SplitDocument(eng, main, lookups, titlePattern, data[i]))
  }

  /**
   * `_TemplateCompiler.compile`. Fails with "template not found" exactly when
   * the loader cannot serve the Main file's name. Split mode writes
   * `src_dir/{i:03d}.html` for the i-th row (1-based) and pairs it with that
   * row; merged mode writes the single `src_dir/master.html`.
   */
  method Compile(vfs: Vfs, mainFileName: string, srcDir: string, data: seq<Row>, titlePattern: string,
                 splitOutput: bool, eng: Engines) returns (r: Result<Compiled, TemplateError>)
    ensures r.Failure? <==> DoLookup(vfs, mainFileName).None? || RowClash(VfsLookups(vfs, eng), data)
    ensures DoLookup(vfs, mainFileName).None? ==> r == Failure(TemplateNotFound(mainFileName))
    ensures DoLookup(vfs, mainFileName).Some? && RowClash(VfsLookups(vfs, eng), data) ==> r == Failure(RowKeywordClash)
    ensures r.Success? && splitOutput ==>
      SplitResult(r.value, srcDir, data, eng, DoLookup(vfs, mainFileName).value.source, VfsLookups(vfs, eng), titlePattern)
    ensures r.Success? && !splitOutput ==>
      r.value == Compiled([Source(MasterPath(srcDir), MergedRow(data))],
                          map[MasterPath(srcDir) := MergedDocument(eng, DoLookup(vfs, mainFileName).value.source,
                                                                   VfsLookups(vfs, eng), titlePattern, data)])
  {
    var lookups := VfsLookups(vfs, eng);
    var tpl := DoLookup(vfs, mainFileName);
    if tpl.None? {
      return Failure(TemplateNotFound(mainFileName));
    }
    if RowClash(lookups, data) {
      return Failure(RowKeywordClash);
    }
    var c: Compiled;
    if splitOutput {
      c := CompileSplit(tpl.value.source, lookups, srcDir, data, titlePattern, eng);
    } else {
      c := CompileMerged(tpl.value.source, lookups, srcDir, data, titlePattern, eng);
    }
    return Success(c);
  }

  /** The sources of a split compile: row `i` goes with `RowPath(srcDir, i)`. */
  function SplitSources(srcDir: string, data: seq<Row>): (s: seq<Source>)
    ensures |s| == |data|
    ensures forall i :: 0 <= i < |data| ==> s[i] == Source(RowPath(srcDir, i), Some(data[i]))
  {
    seq(|data|, i requires 0 <= i < |data| => Source(RowPath(srcDir, i), Some(data[i])))
  }

  /** The paths of a split compile with `n` rows. */
  function RowPaths(srcDir: string, n: nat): (ps: seq<string>)
    ensures |ps| == n
    ensures forall i :: 0 <= i < n ==> ps[i] == RowPath(srcDir, i)
  {
    seq(n, i requires 0 <= i < n => RowPath(srcDir, i))
  }

  lemma RowPathsDistinct(srcDir: string, n: nat)
    ensures NoDuplicates(RowPaths(srcDir, n))
  {
    var ps := RowPaths(srcDir, n);
    assert forall i :: 0 <= i < |ps| ==> ps[i] == PathJoin(srcDir, Format03(i + 1) + ".html");
    NumberedPathsUnique(ps, srcDir, ".html");
  }

  /** The documents of a split compile, in row order. */
  function SplitDocuments(eng: Engines, main: string, lookups: LookupTables, titlePattern: string, data: seq<Row>):
    (ds: seq<string>)
    ensures |ds| == |data|
    ensures forall i :: 0 <= i < |data| ==> ds[i] == SplitDocument(eng, main, lookups, titlePattern, data[i])
  {
    seq(|data|, i requires 0 <= i < |data| => SplitDocument(eng, main, lookups, titlePattern, data[i]))
  }

  /** The `split_output` branch of `compile`: one numbered HTML file per row. */
  method CompileSplit(main: string, lookups: LookupTables, srcDir: string, data: seq<Row>, titlePattern: string,
                      eng: Engines) returns (c: Compiled)
    ensures SplitResult(c, srcDir, data, eng, main, lookups, titlePattern)
  {
    ghost var docs := SplitDocuments(eng, main, lookups, titlePattern, data);
    var sources: seq<Source> := [];
    var written: map<string, string> := map[];
    var idx := 0;
    while idx < |data|
      invariant 0 <= idx <= |data|
      invariant sources == SplitSources(srcDir, data[..idx])
      invariant written == WriteAll(RowPaths(srcDir, idx), docs[..idx])
    {
      var rowCopy := data[idx];
      var title := eng.renderTitle(titlePattern, Some(rowCopy));
      var srcName := PathJoin(srcDir, Format03(idx + 1) + ".html");
      sources := sources + [Source(srcName, Some(rowCopy))];
      var body := eng.renderTemplate(main, rowCopy, lookups);
      var content := HtmlHeader(title, "fi") + body + HtmlFooter();
      SplitSourcesSnoc(srcDir, data, idx);
      SplitWrittenSnoc(srcDir, data, eng, main, lookups, titlePattern, idx);
      written := written[srcName := content];
      idx := idx + 1;
    }
    assert data[..|data|] == data;
    assert docs[..|data|] == docs;
    c := Compiled(sources, written);
    SplitResultHolds(srcDir, data, eng, main, lookups, titlePattern);
  }

  /** One step of the split loop appends row `idx`'s source. */
  lemma SplitSourcesSnoc(srcDir: string, data: seq<Row>, idx: nat)
    requires idx < |data|
    ensures SplitSources(srcDir, data[..idx + 1])
      == SplitSources(srcDir, data[..idx]) + [Source(PathJoin(srcDir, Format03(idx + 1) + ".html"), Some(data[idx]))]
  {
  }

  /** One step of the split loop writes row `idx`'s document at its numbered path. */
  lemma SplitWrittenSnoc(srcDir: string, data: seq<Row>, eng: Engines, main: string, lookups: LookupTables,
                         titlePattern: string, idx: nat)
    requires idx < |data|
    ensures var docs := SplitDocuments(eng, main, lookups, titlePattern, data);
      WriteAll(RowPaths(srcDir, idx + 1), docs[..idx + 1])
      == WriteAll(RowPaths(srcDir, idx), docs[..idx])[PathJoin(srcDir, Format03(idx + 1) + ".html") :=
           HtmlHeader(eng.renderTitle(titlePattern, Some(data[idx])), "fi")
           + eng.renderTemplate(main, data[idx], lookups) + HtmlFooter()]
  {
    var docs := SplitDocuments(eng, main, lookups, titlePattern, data);
    var body := eng.renderTemplate(main, data[idx], lookups);
    assert docs[idx] == HtmlHeader(eng.renderTitle(titlePattern, Some(data[idx])), "fi") + body + HtmlFooter() by {
      assert Concat([body]) == body;
    }
    assert RowPaths(srcDir, idx + 1) == RowPaths(srcDir, idx) + [RowPath(srcDir, idx)];
    assert docs[..idx + 1] == docs[..idx] + [docs[idx]];
    WriteAllSnoc(RowPaths(srcDir, idx), docs[..idx], RowPath(srcDir, idx), docs[idx]);
  }

  /** The sources and files a full split loop leaves behind satisfy SplitResult. */
  lemma SplitResultHolds(srcDir: string, data: seq<Row>, eng: Engines, main: string, lookups: LookupTables,
                         titlePattern: string)
    ensures SplitResult(Compiled(SplitSources(srcDir, data),
                                 WriteAll(RowPaths(srcDir, |data|), SplitDocuments(eng, main, lookups, titlePattern, data))),
                        srcDir, data, eng, main, lookups, titlePattern)
  {
    var paths := RowPaths(srcDir, |data|);
    var docs := SplitDocuments(eng, main, lookups, titlePattern, data);
    RowPathsDistinct(srcDir, |data|);
    WriteAllKeys(paths, docs);
    WriteAllContents(paths, docs);
    forall p | p in paths ensures exists i :: 0 <= i < |data| && p == RowPath(srcDir, i) {
      var i :| 0 <= i < |paths| && paths[i] == p;
    }
  }

  /** The merged branch of `compile`: every row's rendering in one master document. */
  method CompileMerged(main: string, lookups: LookupTables, srcDir: string, data: seq<Row>, titlePattern: string,
                       eng: Engines) returns (c: Compiled)
    ensures c == Compiled([Source(MasterPath(srcDir), MergedRow(data))],
                          map[MasterPath(srcDir) := MergedDocument(eng, main, lookups, titlePattern, data)])
  {
    var rowCopy := if |data| == 1 then Some(data[0]) else None;
    var title := if data != [] then eng.renderTitle(titlePattern, rowCopy) else "";
    var srcName := PathJoin(srcDir, "master.html");
    var sources := [Source(srcName, rowCopy)];
    ghost var bodies := Renderings(eng, main, lookups, data);
    var content := HtmlHeader(title, "fi");
    for i := 0 to |data|
      invariant content == HtmlHeader(title, "fi") + Concat(bodies[..i])
    {
      assert bodies[..i + 1][..i] == bodies[..i];
      content := content + eng.renderTemplate(main, data[i], lookups);
    }
    assert bodies[..|data|] == bodies;
    content := content + HtmlFooter();
    c := Compiled(sources, map[srcName := content]);
  }
}
