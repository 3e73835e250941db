/** POSIX path helpers (`os.path.join`, `basename`, `splitext`) on plain strings. */
module Paths {
  import opened Wrappers
  import opened Strings
  import opened OrderedDicts

  /** `os.path.join(a, b)` for two components on POSIX. */
  function PathJoin(a: string, b: string): string {
    if StartsWith(b, "/") then b
    else if a == "" || a[|a| - 1] == '/' then a + b
    else a + "/" + b
  }

  /** `os.path.basename(p)`: everything after the last slash. */
  function Basename(p: string): string {
    match LastIndexOf(p, '/')
    case None => p
    case Some(i) => p[i + 1..]
  }

  /**
   * `os.path.splitext(p)[0]`: drop the extension that starts at the last dot
   * of the final component, unless every character before that dot in the
   * component is itself a dot (".bashrc" has no extension).
   */
  function SplitextRoot(p: string): string {
    var start := match LastIndexOf(p, '/') case None => 0 case Some(i) => i + 1;
    match LastIndexOf(p, '.')
    case None => p
    case Some(d) =>
      if start <= d && exists j :: start <= j < d && p[j] != '.' then p[..d] else p
  }

  /** A name joined onto a directory is that path's base name. */
  lemma BasenameOfJoin(dir: string, name: string)
    requires '/' !in name
    ensures Basename(PathJoin(dir, name)) == name
  {
    var p := PathJoin(dir, name);
    if name != [] { assert name[0] != '/'; }
    assert !StartsWith(name, "/");
    if dir == "" {
      assert p == name;
    } else {
      var cut := if dir[|dir| - 1] == '/' then |dir| - 1 else |dir|;
      var pre := if dir[|dir| - 1] == '/' then dir else dir + "/";
      assert p == pre + name;
      assert p[cut] == '/';
      assert p[cut + 1..] == name;
      assert LastIndexOf(p, '/') == Some(cut);
    }
  }

  /** Joining distinct relative names onto one directory gives distinct paths. */
  lemma PathJoinInjective(dir: string, a: string, b: string)
    requires '/' !in a && '/' !in b
    requires PathJoin(dir, a) == PathJoin(dir, b)
    ensures a == b
  {
    BasenameOfJoin(dir, a);
    BasenameOfJoin(dir, b);
  }

  /** The root of "<stem>.<ext>" is the stem, when the stem is a non-empty dot-free name. */
  lemma SplitextRootOfName(stem: string, ext: string)
    requires stem != [] && '.' !in stem && '/' !in stem
    requires '.' !in ext && '/' !in ext
    ensures SplitextRoot(stem + "." + ext) == stem
  {
    var p := stem + "." + ext;
    assert p[|stem|] == '.';
    assert p[|stem| + 1..] == ext;
    assert LastIndexOf(p, '.') == Some(|stem|);
    assert forall k :: 0 <= k < |p| ==> p[k] != '/' by {
      forall k | 0 <= k < |p| ensures p[k] != '/' {
        if k < |stem| { assert p[k] == stem[k]; } else if k > |stem| { assert p[k] == ext[k - |stem| - 1]; }
      }
    }
    assert LastIndexOf(p, '/') == None;
    assert p[0] == stem[0] && p[0] != '.';
    assert p[..|stem|] == stem;
  }

  /** A zero-padded numeral holds neither a dot nor a slash. */
  lemma Format03Plain(n: nat)
    ensures Format03(n) != [] && '.' !in Format03(n) && '/' !in Format03(n)
  {
    var f := Format03(n);
    forall k | 0 <= k < |f| ensures f[k] != '/' && f[k] != '.' {
      assert IsDigit(f[k]);
    }
  }

  /** A numbered file name `{n:03d}<ext>` has no slash when its extension has none. */
  lemma NumberedNamePlain(n: nat, ext: string)
    requires '/' !in ext
    ensures '/' !in Format03(n) + ext
  {
    Format03Plain(n);
    var name := Format03(n) + ext;
    forall k | 0 <= k < |name| ensures name[k] != '/' {
      if k < |Format03(n)| { assert name[k] == Format03(n)[k]; } else { assert name[k] == ext[k - |Format03(n)|]; }
    }
  }

  /** Distinct numbers give distinct numbered paths in one directory. */
  lemma NumberedPathsDistinct(dir: string, ext: string, i: nat, j: nat)
    requires '/' !in ext
    requires i != j
    ensures PathJoin(dir, Format03(i) + ext) != PathJoin(dir, Format03(j) + ext)
  {
    if PathJoin(dir, Format03(i) + ext) == PathJoin(dir, Format03(j) + ext) {
      NumberedNamePlain(i, ext);
      NumberedNamePlain(j, ext);
      PathJoinInjective(dir, Format03(i) + ext, Format03(j) + ext);
      assert Format03(i) == (Format03(i) + ext)[..|Format03(i) + ext| - |ext|];
      assert Format03(j) == (Format03(j) + ext)[..|Format03(j) + ext| - |ext|];
      Format03Injective(i, j);
    }
  }

  /** A run of paths numbered 1, 2, ... in one directory repeats no path. */
  lemma NumberedPathsUnique(paths: seq<string>, dir: string, ext: string)
    requires '/' !in ext
    requires forall i :: 0 <= i < |paths| ==> paths[i] == PathJoin(dir, Format03(i + 1) + ext)
    ensures NoDuplicates(paths)
  {
    forall i, j | 0 <= i < j < |paths| ensures paths[i] != paths[j] {
      NumberedPathsDistinct(dir, ext, i + 1, j + 1);
    }
  }
}
