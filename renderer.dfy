/**
 * `render_pdf`, the entry point of the PDF renderer: compile the project's
 * Main template against the data set, convert the intermediate HTML files to
 * PDF, and answer with either one PDF or a ZIP archive of one PDF per row.
 * The scratch directory is a parameter; its files are the maps returned by
 * the two compile stages.
 */
module Renderer {
  import opened Wrappers
  import opened OrderedDicts
  import opened Strings
  import opened Paths
  import opened Sequences
  import opened WrittenFiles
  import opened RendererFiles
  import opened TemplateCompiler
  import opened HtmlCompiler

  /** One member of the ZIP archive: its name in the archive and the PDF it holds. */
  datatype ArchiveEntry = ArchiveEntry(arcName: string, content: Bytes)

  /** The HTTP responses `render_pdf` gives. */
  datatype Response =
    | TextResponse(status: nat, body: string)
    | ArchiveResponse(entries: seq<ArchiveEntry>)
    | PdfResponse(fileName: string, content: Bytes)

  /** `env.from_string(filename_pattern) if filename_pattern else None`: an empty pattern counts as none. */
  function NameTemplate(filenamePattern: Option<string>): (r: Option<string>)
    ensures r.Some? <==> filenamePattern.Some? && filenamePattern.value != ""
    ensures r.Some? ==> r == filenamePattern
  {
    match filenamePattern
    case None => None
    case Some(p) => if p == "" then None else Some(p)
  }

  /** Every result PDF is on the scratch disk. */
  ghost predicate ResultsOnDisk(results: seq<Source>, pdfs: map<string, Bytes>) {
    forall i :: 0 <= i < |results| ==> results[i].path in pdfs
  }

  /** The archive loop: each result PDF under the name the name factory gives its row, falling back to its base name. */
  method WriteArchive(results: seq<Source>, pdfs: map<string, Bytes>, nameTpl: Option<string>, eng: Engines)
    returns (entries: seq<ArchiveEntry>)
    requires ResultsOnDisk(results, pdfs)
    ensures |entries| == |results|
    ensures forall i :: 0 <= i < |results| ==>
      entries[i] == ArchiveEntry(eng.makeFileName(nameTpl, results[i].row, Basename(results[i].path)), pdfs[results[i].path])
  {
    entries := [];
    for k := 0 to |results|
      invariant |entries| == k
      invariant forall i :: 0 <= i < k ==>
        entries[i] == ArchiveEntry(eng.makeFileName(nameTpl, results[i].row, Basename(results[i].path)), pdfs[results[i].path])
    {
      var pdfName := results[k].path;
      var arcName := eng.makeFileName(nameTpl, results[k].row, Basename(pdfName));
      entries := entries + [ArchiveEntry(arcName, pdfs[pdfName])];
    }
  }

  /** The answer without an archive: 401 for several PDFs, the one PDF (named, falling back to "result.pdf"), or 201 for none. */
  function SingleDocumentResponse(results: seq<Source>, pdfs: map<string, Bytes>, nameTpl: Option<string>, eng: Engines)
    : (r: Response)
    requires ResultsOnDisk(results, pdfs)
    ensures r == TextResponse(401, "") <==> |results| > 1
    ensures r == TextResponse(201, "") <==> results == []
    ensures r.PdfResponse? <==> |results| == 1
    ensures r.PdfResponse? ==>
      r == PdfResponse(eng.makeFileName(nameTpl, results[0].row, "result.pdf"), pdfs[results[0].path])
  {
    if |results| > 1 then TextResponse(401, "")
    else if |results| == 1 then
      PdfResponse(eng.makeFileName(nameTpl, results[0].row, "result.pdf"), pdfs[results[0].path])
    else TextResponse(201, "")
  }

  /** The stylesheets WeasyPrint is given for a virtual file set. */
  function Sheets(vfs: Vfs): seq<string> {
    SheetData(FindStylesheets(Values(vfs)))
  }

  /**
   * `render_pdf`. No Main file gives 404. A Main file the template loader
   * cannot serve raises "template not found"; a lookup table named `row`
   * makes rendering any row raise `TypeError`. Otherwise archive mode answers
   * with one entry per row, in row order, holding the PDF of that row's own
   * document and named after the row (falling back to `{i:03d}.pdf`); and
   * single mode always answers with the one merged PDF, never 401 or 201.
   */
  method RenderPdf(files: seq<FileVersion>, filenamePattern: Option<string>, titlePattern: string, data: seq<Row>,
                   returnArchive: bool, tmpDir: string, eng: Engines) returns (r: Result<Response, TemplateError>)
    ensures FindMain(files).None? ==> r == Success(TextResponse(404, "Main file not found"))
    ensures r.Failure? <==>
      && FindMain(files).Some?
      && (DoLookup(FilesToVfs(files), FindMain(files).value.file.fileName).None?
          || RowClash(VfsLookups(FilesToVfs(files), eng), data))
    ensures r.Failure? && DoLookup(FilesToVfs(files), FindMain(files).value.file.fileName).None? ==>
      r.error == TemplateNotFound(FindMain(files).value.file.fileName)
    ensures r.Failure? && DoLookup(FilesToVfs(files), FindMain(files).value.file.fileName).Some? ==>
      r.error == RowKeywordClash
    ensures r.Success? && FindMain(files).Some? && returnArchive ==>
      var vfs := FilesToVfs(files);
      var main := DoLookup(vfs, FindMain(files).value.file.fileName).value.source;
      && r.value.ArchiveResponse?
      && |r.value.entries| == |data|
      && forall i :: 0 <= i < |data| ==>
           r.value.entries[i] == ArchiveEntry(
             eng.makeFileName(NameTemplate(filenamePattern), Some(data[i]), Format03(i + 1) + ".pdf"),
             eng.writePdf(SplitDocument(eng, main, VfsLookups(vfs, eng), titlePattern, data[i]), Sheets(vfs)))
    ensures r.Success? && FindMain(files).Some? && !returnArchive ==>
      var vfs := FilesToVfs(files);
      var main := DoLookup(vfs, FindMain(files).value.file.fileName).value.source;
      r.value == PdfResponse(
        eng.makeFileName(NameTemplate(filenamePattern), MergedRow(data), "result.pdf"),
        eng.writePdf(MergedDocument(eng, main, VfsLookups(vfs, eng), titlePattern, data), Sheets(vfs)))
  {
    var main := FindMain(files);
    if main.None? {
      return Success(TextResponse(404, "Main file not found"));
    }
    var vfs := FilesToVfs(files);
    var srcDir := PathJoin(tmpDir, "src");
    var resultDir := PathJoin(tmpDir, "result");
    var compiled := Compile(vfs, main.value.file.fileName, srcDir, data, titlePattern, returnArchive, eng);
    if compiled.Failure? {
      return Failure(compiled.error);
    }
    var c := compiled.value;
    ghost var tpl := DoLookup(vfs, main.value.file.fileName).value.source;
    var nameTpl := NameTemplate(filenamePattern);
    var resp: Response;
    if returnArchive {
      resp := RenderArchive(vfs, c, srcDir, resultDir, data, titlePattern, nameTpl, eng, tpl);
    } else {
      resp := RenderSingle(vfs, c, srcDir, resultDir, data, titlePattern, nameTpl, eng, tpl);
    }
    return Success(resp);
  }

  /**
   * The archive branch of `render_pdf` after a split compile: every row's
   * HTML file becomes a PDF, and the archive holds one entry per row, in row
   * order, named after the row with `{i:03d}.pdf` as the fallback.
   */
  method RenderArchive(vfs: Vfs, c: Compiled, srcDir: string, resultDir: string, data: seq<Row>, titlePattern: string,
                       nameTpl: Option<string>, eng: Engines, ghost main: string) returns (r: Response)
    requires SplitResult(c, srcDir, data, eng, main, VfsLookups(vfs, eng), titlePattern)
    ensures r.ArchiveResponse? && |r.entries| == |data|
    ensures forall i :: 0 <= i < |data| ==>
      r.entries[i] == ArchiveEntry(
        eng.makeFileName(nameTpl, Some(data[i]), Format03(i + 1) + ".pdf"),
        eng.writePdf(SplitDocument(eng, main, VfsLookups(vfs, eng), titlePattern, data[i]), Sheets(vfs)))
  {
    ghost var lookups := VfsLookups(vfs, eng);
    SplitSourcesOnDisk(c, srcDir, data, eng, main, lookups, titlePattern);
    var pr := CompilePdfs(vfs, c.sources, resultDir, c.written, eng);
    var out := pr.value;
    ResultsWritten(c.sources, resultDir, c.written, Sheets(vfs), eng);
    var entries := WriteArchive(out.results, out.pdfs, nameTpl, eng);
    SplitPdfs(c, srcDir, resultDir, data, eng, main, lookups, titlePattern, Sheets(vfs));
    return ArchiveResponse(entries);
  }

  /**
   * The single-document branch of `render_pdf` after a merged compile: the
   * master HTML file becomes the one PDF, so the answer is always that PDF,
   * named after the merged row with "result.pdf" as the fallback.
   */
  method RenderSingle(vfs: Vfs, c: Compiled, srcDir: string, resultDir: string, data: seq<Row>, titlePattern: string,
                      nameTpl: Option<string>, eng: Engines, ghost main: string) returns (r: Response)
    requires c == Compiled([Source(MasterPath(srcDir), MergedRow(data))],
                           map[MasterPath(srcDir) := MergedDocument(eng, main, VfsLookups(vfs, eng), titlePattern, data)])
    ensures r == PdfResponse(
      eng.makeFileName(nameTpl, MergedRow(data), "result.pdf"),
      eng.writePdf(MergedDocument(eng, main, VfsLookups(vfs, eng), titlePattern, data), Sheets(vfs)))
  {
    MergedPdf(c, srcDir, resultDir, data, eng, main, VfsLookups(vfs, eng), titlePattern, Sheets(vfs));
    var pr := CompilePdfs(vfs, c.sources, resultDir, c.written, eng);
    var out := pr.value;
    ResultsWritten(c.sources, resultDir, c.written, Sheets(vfs), eng);
    return SingleDocumentResponse(out.results, out.pdfs, nameTpl, eng);
  }

  /** Every HTML file a split compile lists has been written. */
  lemma SplitSourcesOnDisk(c: Compiled, srcDir: string, data: seq<Row>, eng: Engines, main: string,
                           lookups: LookupTables, titlePattern: string)
    requires SplitResult(c, srcDir, data, eng, main, lookups, titlePattern)
    ensures AllOnDisk(c.sources, c.written)
  {
    forall i | 0 <= i < |c.sources| ensures c.sources[i].path in c.written {
      assert c.sources[i].path == RowPath(srcDir, i);
    }
  }

  /** Every result the PDF stage lists has been written. */
  lemma ResultsWritten(sources: seq<Source>, resultDir: string, disk: map<string, string>, sheets: seq<string>, eng: Engines)
    requires AllOnDisk(sources, disk)
    ensures ResultsOnDisk(MapSeq(ResultOf(resultDir), sources),
                          WriteAll(MapSeq(ResultPathOf(resultDir), sources), MapSeq(PdfOf(disk, sheets, eng), sources)))
  {
    var paths := MapSeq(ResultPathOf(resultDir), sources);
    WriteAllKeys(paths, MapSeq(PdfOf(disk, sheets, eng), sources));
    forall i | 0 <= i < |sources| ensures MapSeq(ResultOf(resultDir), sources)[i].path in paths {
      assert paths[i] == MapSeq(ResultOf(resultDir), sources)[i].path;
    }
  }

  /** The PDFs of a split compile: row `i` becomes `{i+1:03d}.pdf` holding the PDF of that row's document. */
  lemma SplitPdfs(c: Compiled, srcDir: string, resultDir: string, data: seq<Row>, eng: Engines, main: string,
                  lookups: LookupTables, titlePattern: string, sheets: seq<string>)
    requires SplitResult(c, srcDir, data, eng, main, lookups, titlePattern)
    requires AllOnDisk(c.sources, c.written)
    ensures var results := MapSeq(ResultOf(resultDir), c.sources);
      var pdfs := WriteAll(MapSeq(ResultPathOf(resultDir), c.sources), MapSeq(PdfOf(c.written, sheets, eng), c.sources));
      && |results| == |data|
      && forall i :: 0 <= i < |data| ==>
           && results[i].row == Some(data[i])
           && Basename(results[i].path) == Format03(i + 1) + ".pdf"
           && results[i].path in pdfs
           && pdfs[results[i].path] == eng.writePdf(SplitDocument(eng, main, lookups, titlePattern, data[i]), sheets)
  {
    var results := MapSeq(ResultOf(resultDir), c.sources);
    var paths := MapSeq(ResultPathOf(resultDir), c.sources);
    var bs := MapSeq(PdfOf(c.written, sheets, eng), c.sources);
    SplitPdfPaths(c.sources, srcDir, resultDir);
    NumberedPathsUnique(paths, resultDir, ".pdf");
    WriteAllContents(paths, bs);
    forall i | 0 <= i < |data|
      ensures Basename(results[i].path) == Format03(i + 1) + ".pdf"
    {
      NumberedNamePlain(i + 1, ".pdf");
      BasenameOfJoin(resultDir, Format03(i + 1) + ".pdf");
    }
  }

  /** The PDF of a merged compile: one result, attributed to the merged row, holding the PDF of the master document. */
  lemma MergedPdf(c: Compiled, srcDir: string, resultDir: string, data: seq<Row>, eng: Engines, main: string,
                  lookups: LookupTables, titlePattern: string, sheets: seq<string>)
    requires c == Compiled([Source(MasterPath(srcDir), MergedRow(data))],
                           map[MasterPath(srcDir) := MergedDocument(eng, main, lookups, titlePattern, data)])
    ensures AllOnDisk(c.sources, c.written)
    ensures var results := MapSeq(ResultOf(resultDir), c.sources);
      var pdfs := WriteAll(MapSeq(ResultPathOf(resultDir), c.sources), MapSeq(PdfOf(c.written, sheets, eng), c.sources));
      && |results| == 1
      && results[0].row == MergedRow(data)
      && results[0].path in pdfs
      && pdfs[results[0].path] == eng.writePdf(MergedDocument(eng, main, lookups, titlePattern, data), sheets)
  {
    assert c.sources[0].path in c.written;
    var paths := MapSeq(ResultPathOf(resultDir), c.sources);
    var bs := MapSeq(PdfOf(c.written, sheets, eng), c.sources);
    assert paths[..0] == [] && bs[..0] == [];
  }

  lemma SplitPdfPaths(sources: seq<Source>, srcDir: string, resultDir: string)
    requires forall i :: 0 <= i < |sources| ==> sources[i].path == RowPath(srcDir, i)
    ensures var paths := MapSeq(ResultPathOf(resultDir), sources);
      forall i :: 0 <= i < |paths| ==> paths[i] == PathJoin(resultDir, Format03(i + 1) + ".pdf")
  {
    var paths := MapSeq(ResultPathOf(resultDir), sources);
    forall i | 0 <= i < |paths| ensures paths[i] == PathJoin(resultDir, Format03(i + 1) + ".pdf") {
      assert paths[i] == ResultPath(resultDir, SplitPath(srcDir, i + 1));
      SplitResultPath(srcDir, resultDir, i + 1);
    }
  }
}
