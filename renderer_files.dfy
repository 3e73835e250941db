/**
 * The inputs of the PDF renderer (emprinten): project files and their
 * versions, the virtual file set built from them, the Main file search and
 * the CSV lookup tables. The libraries the renderer calls (Jinja, WeasyPrint,
 * the emprinten helpers) appear as the uninterpreted functions of Engines.
 */
module RendererFiles {
  import opened Wrappers
  import opened OrderedDicts

  datatype FileType = Main | Html | Css | Csv

  datatype ProjectFile = ProjectFile(fileName: string, fileType: FileType)

  /** One content revision of a project file; `data` is its content. */
  datatype FileVersion = FileVersion(file: ProjectFile, data: string)

  /** The name-keyed virtual file set of one render call. */
  type Vfs = Dict<string, FileVersion>

  /** A value of a data row: text or a nested mapping. */
  datatype Value = Text(text: string) | Nested(fields: map<string, Value>)

  /** One data row: field name to value. */
  type Row = map<string, Value>

  /** A parsed CSV lookup table; its inner structure is the business of `make_lut`. */
  datatype Lut = Lut(cells: seq<seq<string>>)

  type LookupTables = Dict<string, Lut>

  type Bytes = seq<bv8>

  /**
   * The foreign functions the renderer calls, as uninterpreted functions:
   * - renderTemplate: the Main template (its source) rendered with `row` and the lookup tables as globals;
   * - renderTitle: the title pattern rendered with `row=` a row or None;
   * - makeName, makeLut: `files.make_name` and `files.make_lut`;
   * - writePdf: WeasyPrint converting an HTML document with the given stylesheets;
   * - makeFileName: `NameFactory(name_tpl).make({"row": row}, fallback=...)`.
   * An `Engines` value stands for the Jinja environment built for one call's
   * virtual file set: `{% include %}` and `{% extends %}` in a template
   * resolve other files of that set through `_do_lookup`, so renderTemplate
   * needs no file set of its own.
   */
  datatype Engines = Engines(
    renderTemplate: (string, Row, LookupTables) -> string,
    renderTitle: (string, Option<Row>) -> string,
    makeName: string -> string,
    makeLut: string -> Lut,
    writePdf: (string, seq<string>) -> Bytes,
    makeFileName: (Option<string>, Option<Row>, string) -> string)

  function FileNames(files: seq<FileVersion>): (names: seq<string>)
    ensures |names| == |files|
    ensures forall i :: 0 <= i < |files| ==> names[i] == files[i].file.fileName
  {
    seq(|files|, i requires 0 <= i < |files| => files[i].file.fileName)
  }

  function NamedVersions(files: seq<FileVersion>): (ps: seq<(string, FileVersion)>)
    ensures |ps| == |files|
    ensures forall i :: 0 <= i < |files| ==> ps[i] == (files[i].file.fileName, files[i])
  {
    seq(|files|, i requires 0 <= i < |files| => (files[i].file.fileName, files[i]))
  }

  /** `files_to_vfs`: `{fv.file.file_name: fv for fv in files}`. */
  function FilesToVfs(files: seq<FileVersion>): Vfs {
    FromPairs(NamedVersions(files))
  }

  /**
   * Every file name maps to its LAST version in the input, names not in the
   * input are absent, and the entries follow the order in which each name
   * first appears.
   */
  lemma FilesToVfsLastWins(files: seq<FileVersion>, name: string)
    ensures Get(FilesToVfs(files), name).None? <==>
      forall j :: 0 <= j < |files| ==> files[j].file.fileName != name
    ensures Get(FilesToVfs(files), name).Some? ==>
      exists j :: 0 <= j < |files| && files[j].file.fileName == name
        && Get(FilesToVfs(files), name) == Some(files[j])
        && forall j' :: j < j' < |files| ==> files[j'].file.fileName != name
    ensures Keys(FilesToVfs(files)) == Dedup(FileNames(files))
    ensures UniqueKeys(FilesToVfs(files))
  {
    var ps := NamedVersions(files);
    FromPairsGet(ps, name);
    FromPairsKeys(ps);
    assert Keys(ps) == FileNames(files);
  }

  /** `find_main`: the first Main-typed version in input order. */
  function FindMain(files: seq<FileVersion>): (r: Option<FileVersion>)
    ensures r.None? <==> forall i :: 0 <= i < |files| ==> files[i].file.fileType != Main
    ensures r.Some? ==> r.value.file.fileType == Main
    ensures r.Some? ==> exists i :: (0 <= i < |files| && files[i] == r.value
      && forall j :: 0 <= j < i ==> files[j].file.fileType != Main)
  {
    if files == [] then None
    else if files[0].file.fileType == Main then Some(files[0])
    else
      var r := FindMain(files[1..]);
      assert r.Some? ==> exists i :: (0 < i < |files| && files[i] == r.value
        && forall j :: 0 <= j < i ==> files[j].file.fileType != Main) by {
        if r.Some? {
          var i :| 0 <= i < |files[1..]| && files[1..][i] == r.value
            && forall j :: 0 <= j < i ==> files[1..][j].file.fileType != Main;
          assert files[i + 1] == r.value;
          assert forall j :: 0 <= j < i + 1 ==> files[j].file.fileType != Main by {
            forall j | 0 <= j < i + 1 ensures files[j].file.fileType != Main {
              if j > 0 { assert files[j] == files[1..][j - 1]; }
            }
          }
        }
      }
      r
  }

  /** The versions of one file type, in input order (the comprehensions' `if` filter). */
  function OfType(files: seq<FileVersion>, t: FileType): (r: seq<FileVersion>)
    ensures forall f :: f in r <==> f in files && f.file.fileType == t
  {
    if files == [] then []
    else
      var rest := OfType(files[..|files| - 1], t);
      var f := files[|files| - 1];
      assert files == files[..|files| - 1] + [f];
      if f.file.fileType == t then rest + [f] else rest
  }

  /** The filter keeps input order: filtering a concatenation concatenates the filtered parts. */
  lemma {:induction false} OfTypeConcat(a: seq<FileVersion>, b: seq<FileVersion>, t: FileType)
    ensures OfType(a + b, t) == OfType(a, t) + OfType(b, t)
  {
    if b == [] {
      assert a + b == a;
    } else {
      var b' := b[..|b| - 1];
      var f := b[|b| - 1];
      assert (a + b)[..|a + b| - 1] == a + b';
      assert OfType(a + b, t) == if f.file.fileType == t then OfType(a + b', t) + [f] else OfType(a + b', t);
      OfTypeConcat(a, b', t);
    }
  }

  /** One version is kept exactly when it has the type. */
  lemma OfTypeSingle(v: FileVersion, t: FileType)
    ensures OfType([v], t) == if v.file.fileType == t then [v] else []
  {
    assert [v][..0] == [];
  }

  function TablePairs(csvs: seq<FileVersion>, makeName: string -> string, makeLut: string -> Lut):
    (ps: seq<(string, Lut)>)
    ensures |ps| == |csvs|
    ensures forall i :: 0 <= i < |csvs| ==> ps[i] == (makeName(csvs[i].file.fileName), makeLut(csvs[i].data))
  {
    seq(|csvs|, i requires 0 <= i < |csvs| => (makeName(csvs[i].file.fileName), makeLut(csvs[i].data)))
  }

  /** `find_lookup_tables`: `{make_name(fv.file.file_name): make_lut(fv.data) for fv in files if CSV}`. */
  function FindLookupTables(files: seq<FileVersion>, makeName: string -> string, makeLut: string -> Lut):
    LookupTables
  {
    FromPairs(TablePairs(OfType(files, Csv), makeName, makeLut))
  }

  /**
   * A key is present exactly when some CSV-typed version has that normalised
   * name, and it holds the table of the LAST such version among the CSV
   * versions; versions of any other type never contribute.
   */
  lemma FindLookupTablesLastWins(files: seq<FileVersion>, makeName: string -> string, makeLut: string -> Lut, key: string)
    ensures Get(FindLookupTables(files, makeName, makeLut), key).None? <==>
      forall v :: v in files && v.file.fileType == Csv ==> makeName(v.file.fileName) != key
    ensures Get(FindLookupTables(files, makeName, makeLut), key).Some? ==>
      var csvs := OfType(files, Csv);
      exists j :: 0 <= j < |csvs| && makeName(csvs[j].file.fileName) == key
        && Get(FindLookupTables(files, makeName, makeLut), key) == Some(makeLut(csvs[j].data))
        && forall j' :: j < j' < |csvs| ==> makeName(csvs[j'].file.fileName) != key
  {
    var csvs := OfType(files, Csv);
    var ps := TablePairs(csvs, makeName, makeLut);
    FromPairsGetLast(ps, key);
    KeyedMember(files, csvs, makeName, key);
    match LastIndexWith(ps, key)
    case None =>
      forall j | 0 <= j < |csvs| ensures makeName(csvs[j].file.fileName) != key {
        assert ps[j].0 == makeName(csvs[j].file.fileName);
      }
    case Some(j) =>
      assert ps[j] == (makeName(csvs[j].file.fileName), makeLut(csvs[j].data));
      forall j' | j < j' < |csvs| ensures makeName(csvs[j'].file.fileName) != key {
        assert ps[j'].0 == makeName(csvs[j'].file.fileName);
      }
  }

  lemma KeyedMember(files: seq<FileVersion>, csvs: seq<FileVersion>, makeName: string -> string, key: string)
    requires csvs == OfType(files, Csv)
    ensures (forall j :: 0 <= j < |csvs| ==> makeName(csvs[j].file.fileName) != key) <==>
      (forall v :: v in files && v.file.fileType == Csv ==> makeName(v.file.fileName) != key)
  {
    if exists v :: v in files && v.file.fileType == Csv && makeName(v.file.fileName) == key {
      var v :| v in files && v.file.fileType == Csv && makeName(v.file.fileName) == key;
      assert v in csvs;
      var j :| 0 <= j < |csvs| && csvs[j] == v;
    }
  }
}
