/**
 * Files written into a scratch directory one after another, as a map from
 * path to content: writing a path again replaces what it held.
 */
module WrittenFiles {
  import opened OrderedDicts

  /** `paths[i]` gets `contents[i]`, in order. */
  function WriteAll<T>(paths: seq<string>, contents: seq<T>): map<string, T>
    requires |paths| == |contents|
  {
    if paths == [] then map[]
    else WriteAll(paths[..|paths| - 1], contents[..|paths| - 1])[paths[|paths| - 1] := contents[|paths| - 1]]
  }

  /** Exactly the paths written are present. */
  lemma {:induction false} WriteAllKeys<T>(paths: seq<string>, contents: seq<T>)
    requires |paths| == |contents|
    ensures forall p :: p in WriteAll(paths, contents) <==> p in paths
  {
    if paths != [] {
      var n := |paths| - 1;
      WriteAllKeys(paths[..n], contents[..n]);
      assert paths == paths[..n] + [paths[n]];
    }
  }

  /** When no path repeats, every file holds what was written to it. */
  lemma {:induction false} WriteAllContents<T>(paths: seq<string>, contents: seq<T>)
    requires |paths| == |contents|
    requires NoDuplicates(paths)
    ensures forall i :: 0 <= i < |paths| ==>
      paths[i] in WriteAll(paths, contents) && WriteAll(paths, contents)[paths[i]] == contents[i]
  {
    if paths != [] {
      var n := |paths| - 1;
      WriteAllContents(paths[..n], contents[..n]);
      WriteAllKeys(paths[..n], contents[..n]);
      assert paths == paths[..n] + [paths[n]];
    }
  }

  lemma WriteAllSnoc<T>(paths: seq<string>, contents: seq<T>, p: string, c: T)
    requires |paths| == |contents|
    ensures WriteAll(paths + [p], contents + [c]) == WriteAll(paths, contents)[p := c]
  {
    assert (paths + [p])[..|paths|] == paths;
    assert (contents + [c])[..|paths|] == contents;
  }
}
