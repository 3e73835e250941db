/**
 * The PDF stage of the renderer (`_HtmlCompiler`): the stylesheets of the
 * virtual file set, the conversion of every intermediate HTML file into a PDF
 * under the result directory, and the URL fetcher through which WeasyPrint
 * reads stylesheets, images and fonts from the virtual file set.
 */
module HtmlCompiler {
  import opened Wrappers
  import opened OrderedDicts
  import opened Strings
  import opened Paths
  import opened RendererFiles
  import opened WrittenFiles
  import opened TemplateCompiler
  import opened Sequences

  /** `find_stylesheets`: the CSS-typed versions, in order. */
  function FindStylesheets(files: seq<FileVersion>): (r: seq<FileVersion>)
    ensures forall f :: f in r <==> f in files && f.file.fileType == Css
  {
    OfType(files, Css)
  }

  /** The stylesheets keep the order of the versions they come from, which is the cascade order. */
  lemma FindStylesheetsInOrder(a: seq<FileVersion>, b: seq<FileVersion>, v: FileVersion)
    ensures FindStylesheets(a + b) == FindStylesheets(a) + FindStylesheets(b)
    ensures FindStylesheets([v]) == if v.file.fileType == Css then [v] else []
  {
    OfTypeConcat(a, b, Css);
    OfTypeSingle(v, Css);
  }

  /** The contents of the stylesheets handed to WeasyPrint, in stylesheet order. */
  function SheetData(sheets: seq<FileVersion>): (ds: seq<string>)
    ensures |ds| == |sheets|
    ensures forall i :: 0 <= i < |sheets| ==> ds[i] == sheets[i].data
  {
    seq(|sheets|, i requires 0 <= i < |sheets| => sheets[i].data)
  }

  /** `os.path.join(result_dir, os.path.splitext(os.path.basename(source))[0] + ".pdf")`. */
  function ResultPath(resultDir: string, source: string): string {
    PathJoin(resultDir, SplitextRoot(Basename(source)) + ".pdf")
  }

  datatype IoError = FileNotFound(path: string)

  /** The PDFs of a compile: each source's result path with its row, and the files written. */
  datatype PdfOutput = PdfOutput(results: seq<Source>, pdfs: map<string, Bytes>)

  /** Every source HTML file exists on the scratch disk. */
  ghost predicate AllOnDisk(sources: seq<Source>, disk: map<string, string>) {
    forall i :: 0 <= i < |sources| ==> sources[i].path in disk
  }

  /** A source's result: its PDF path, with the row kept. */
  function ResultOf(resultDir: string): Source -> Source {
    (s: Source) => Source(ResultPath(resultDir, s.path), s.row)
  }

  function ResultPathOf(resultDir: string): Source -> string {
    (s: Source) => ResultPath(resultDir, s.path)
  }

  /** A source's PDF: its HTML file converted with all stylesheets. */
  function PdfOf(disk: map<string, string>, sheets: seq<string>, eng: Engines): Source --> Bytes {
    (s: Source) requires s.path in disk => eng.writePdf(disk[s.path], sheets)
  }

  /**
   * `_HtmlCompiler.compile`. It fails at the first source whose HTML file is
   * missing; otherwise the results follow the sources one to one, keeping
   * each row, and every result path holds the PDF of the last source written
   * there.
   */
  method CompilePdfs(vfs: Vfs, sources: seq<Source>, resultDir: string, disk: map<string, string>, eng: Engines)
    returns (r: Result<PdfOutput, IoError>)
    ensures r.Failure? <==> !AllOnDisk(sources, disk)
    ensures r.Failure? ==> exists i :: (0 <= i < |sources| && r.error == FileNotFound(sources[i].path)
      && sources[i].path !in disk && forall j :: 0 <= j < i ==> sources[j].path in disk)
    ensures r.Success? ==> r.value.results == MapSeq(ResultOf(resultDir), sources)
    ensures r.Success? ==> r.value.pdfs == WriteAll(MapSeq(ResultPathOf(resultDir), sources),
      MapSeq(PdfOf(disk, SheetData(FindStylesheets(Values(vfs))), eng), sources))
  {
    var parsedSheets := SheetData(FindStylesheets(Values(vfs)));
    var results: seq<Source> := [];
    var pdfs: map<string, Bytes> := map[];
    var k := 0;
    while k < |sources|
      invariant 0 <= k <= |sources|
      invariant AllOnDisk(sources[..k], disk)
      invariant results == MapSeq(ResultOf(resultDir), sources[..k])
      invariant pdfs == WriteAll(MapSeq(ResultPathOf(resultDir), sources[..k]), MapSeq(PdfOf(disk, parsedSheets, eng), sources[..k]))
    {
      var source := sources[k].path;
      var row := sources[k].row;
      if source !in disk {
        assert forall j :: 0 <= j < k ==> sources[j].path in disk by {
          forall j | 0 <= j < k ensures sources[j].path in disk {
            assert sources[..k][j] == sources[j];
          }
        }
        return Failure(FileNotFound(source));
      }
      var pdf := eng.writePdf(disk[source], parsedSheets);
      var dstName := ResultPath(resultDir, source);
      PdfStep(sources, resultDir, disk, parsedSheets, eng, k);
      results := results + [Source(dstName, row)];
      pdfs := pdfs[dstName := pdf];
      k := k + 1;
    }
    assert sources[..|sources|] == sources;
    return Success(PdfOutput(results, pdfs));
  }

  /** One iteration of the PDF loop: the results and the written files grow by source `k`. */
  lemma PdfStep(sources: seq<Source>, resultDir: string, disk: map<string, string>, sheets: seq<string>, eng: Engines, k: nat)
    requires k < |sources|
    requires AllOnDisk(sources[..k], disk)
    requires sources[k].path in disk
    ensures AllOnDisk(sources[..k + 1], disk)
    ensures MapSeq(ResultOf(resultDir), sources[..k + 1])
      == MapSeq(ResultOf(resultDir), sources[..k]) + [Source(ResultPath(resultDir, sources[k].path), sources[k].row)]
    ensures WriteAll(MapSeq(ResultPathOf(resultDir), sources[..k + 1]), MapSeq(PdfOf(disk, sheets, eng), sources[..k + 1]))
      == WriteAll(MapSeq(ResultPathOf(resultDir), sources[..k]), MapSeq(PdfOf(disk, sheets, eng), sources[..k]))
           [ResultPath(resultDir, sources[k].path) := eng.writePdf(disk[sources[k].path], sheets)]
  {
    assert forall i :: 0 <= i <= k ==> sources[i].path in disk by {
      forall i | 0 <= i <= k ensures sources[i].path in disk {
        if i < k { assert sources[..k][i] == sources[i]; }
      }
    }
    var next := sources[..k + 1];
    forall i | 0 <= i < k + 1 ensures next[i].path in disk {
      assert next[i] == sources[i];
    }
    MapSeqSnoc(ResultOf(resultDir), sources, k);
    MapSeqSnoc(ResultPathOf(resultDir), sources, k);
    MapSeqSnoc(PdfOf(disk, sheets, eng), sources, k);
    WriteAllSnoc(MapSeq(ResultPathOf(resultDir), sources[..k]), MapSeq(PdfOf(disk, sheets, eng), sources[..k]),
                 ResultPath(resultDir, sources[k].path), eng.writePdf(disk[sources[k].path], sheets));
  }

  /** An HTML file `<stem>.html` in the source directory becomes `<stem>.pdf` in the result directory. */
  lemma StemResultPath(srcDir: string, resultDir: string, stem: string)
    requires stem != [] && '.' !in stem && '/' !in stem
    ensures ResultPath(resultDir, PathJoin(srcDir, stem + ".html")) == PathJoin(resultDir, stem + ".pdf")
  {
    var name := stem + ".html";
    assert name == stem + "." + "html";
    assert '/' !in name by {
      forall k | 0 <= k < |name| ensures name[k] != '/' {
        if k < |stem| { assert name[k] == stem[k]; }
      }
    }
    BasenameOfJoin(srcDir, name);
    SplitextRootOfName(stem, "html");
  }

  /** The PDF of the split compile's `idx`-th HTML file is `result_dir/{idx:03d}.pdf`. */
  lemma SplitResultPath(srcDir: string, resultDir: string, idx: nat)
    ensures ResultPath(resultDir, SplitPath(srcDir, idx)) == PathJoin(resultDir, Format03(idx) + ".pdf")
  {
    Format03Plain(idx);
    StemResultPath(srcDir, resultDir, Format03(idx));
  }

  /** The PDF of the merged compile's master file is `result_dir/master.pdf`. */
  lemma MasterResultPath(srcDir: string, resultDir: string)
    ensures ResultPath(resultDir, MasterPath(srcDir)) == PathJoin(resultDir, "master.pdf")
  {
    var stem := "master";
    assert '.' !in stem && '/' !in stem;
    assert stem + ".html" == "master.html" && stem + ".pdf" == "master.pdf";
    StemResultPath(srcDir, resultDir, stem);
  }

  const LocalFileUriPrefix: string := "file:///"

  /** The two exceptions of the fetcher: ValueError for a foreign URL, KeyError for an unknown file. */
  datatype FetchError = InvalidUrl | ResourceNotFound(path: string)

  /** What the fetcher hands to WeasyPrint: the file's content and the URL to report it under. */
  datatype Fetched = Fetched(data: string, redirectedUrl: string)

  /**
   * `_HtmlCompiler._do_lookup`, the URL fetcher: only `file:///` URLs are
   * served, from the virtual file set, whatever the file's type.
   */
  function FetchResource(vfs: Vfs, url: string): (r: Result<Fetched, FetchError>)
    ensures r == Failure(InvalidUrl) <==> !StartsWith(url, LocalFileUriPrefix)
    ensures r.Failure? && r.error.ResourceNotFound? ==>
      LocalFileUriPrefix + r.error.path == url && Get(vfs, r.error.path).None?
    ensures r.Success? ==> (LocalFileUriPrefix + r.value.redirectedUrl == url
      && Get(vfs, r.value.redirectedUrl).Some? && Get(vfs, r.value.redirectedUrl).value.data == r.value.data)
  {
    var fileUrl := RemovePrefix(url, LocalFileUriPrefix);
    if fileUrl == url then Failure(InvalidUrl)
    else
      match Get(vfs, fileUrl)
      case None => Failure(ResourceNotFound(fileUrl))
      case Some(theFile) => Success(Fetched(theFile.data, fileUrl))
  }

  /** A file of the virtual file set, asked for by its `file:///` URL, is served under its own name. */
  lemma FetchByName(vfs: Vfs, name: string)
    ensures FetchResource(vfs, LocalFileUriPrefix + name) ==
      match Get(vfs, name)
      case None => Failure(ResourceNotFound(name))
      case Some(f) => Success(Fetched(f.data, name))
  {
    var url := LocalFileUriPrefix + name;
    assert StartsWith(url, LocalFileUriPrefix);
    assert RemovePrefix(url, LocalFileUriPrefix) == name;
    assert |name| < |url|;
  }
}
