/**
 * Python dictionaries as the source uses them: entries kept in insertion
 * order, one entry per key, and assigning to a present key replaces its value
 * in place (the key keeps the position of its first insertion). A dict
 * comprehension is a run of such assignments, so with duplicate keys the last
 * value wins while the key stays where it first appeared.
 */
module OrderedDicts {
  import opened Wrappers

  type Dict<K, V> = seq<(K, V)>

  function Keys<K, V>(d: Dict<K, V>): (ks: seq<K>)
    ensures |ks| == |d|
    ensures forall i :: 0 <= i < |d| ==> ks[i] == d[i].0
  {
    seq(|d|, i requires 0 <= i < |d| => d[i].0)
  }

  function Values<K, V>(d: Dict<K, V>): (vs: seq<V>)
    ensures |vs| == |d|
    ensures forall i :: 0 <= i < |d| ==> vs[i] == d[i].1
  {
    seq(|d|, i requires 0 <= i < |d| => d[i].1)
  }

  /** No key occurs twice: the invariant of every dict built by Put. */
  ghost predicate UniqueKeys<K, V>(d: Dict<K, V>) {
    forall i, j :: 0 <= i < j < |d| ==> d[i].0 != d[j].0
  }

  /** Position of the first entry for `k`. */
  function IndexOf<K(==), V>(d: Dict<K, V>, k: K): (r: Option<nat>)
    ensures r.None? <==> k !in Keys(d)
    ensures r.Some? ==> r.value < |d| && d[r.value].0 == k
    ensures r.Some? ==> forall j :: 0 <= j < r.value ==> d[j].0 != k
  {
    if d == [] then None
    else if d[0].0 == k then Some(0)
    else
      match IndexOf(d[1..], k)
      case None => None
      case Some(i) => Some(i + 1)
  }

  /** `d.get(k)`. */
  function Get<K(==), V>(d: Dict<K, V>, k: K): (r: Option<V>)
    ensures r.None? <==> k !in Keys(d)
  {
    match IndexOf(d, k)
    case None => None
    case Some(i) => Some(d[i].1)
  }

  /** `d[k] = v`. */
  function Put<K(==), V>(d: Dict<K, V>, k: K, v: V): Dict<K, V> {
    match IndexOf(d, k)
    case Some(i) => d[i := (k, v)]
    case None => d + [(k, v)]
  }

  /** `{k: v for (k, v) in ps}`: the pairs assigned one after another. */
  function FromPairs<K(==), V>(ps: seq<(K, V)>): Dict<K, V> {
    if ps == [] then [] else Put(FromPairs(ps[..|ps| - 1]), ps[|ps| - 1].0, ps[|ps| - 1].1)
  }

  /** The keys of `ks` in order of first occurrence. */
  function Dedup<K(==)>(ks: seq<K>): seq<K> {
    if ks == [] then []
    else
      var init := Dedup(ks[..|ks| - 1]);
      if ks[|ks| - 1] in init then init else init + [ks[|ks| - 1]]
  }

  ghost predicate NoDuplicates<K>(ks: seq<K>) {
    forall i, j :: 0 <= i < j < |ks| ==> ks[i] != ks[j]
  }

  lemma {:induction false} DedupElements<K>(ks: seq<K>)
    ensures NoDuplicates(Dedup(ks))
    ensures forall k :: k in Dedup(ks) <==> k in ks
  {
    if ks != [] {
      DedupElements(ks[..|ks| - 1]);
      assert ks == ks[..|ks| - 1] + [ks[|ks| - 1]];
    }
  }

  lemma PutKeys<K, V>(d: Dict<K, V>, k: K, v: V)
    ensures Keys(Put(d, k, v)) == if k in Keys(d) then Keys(d) else Keys(d) + [k]
  {
  }

  lemma PutUnique<K, V>(d: Dict<K, V>, k: K, v: V)
    requires UniqueKeys(d)
    ensures UniqueKeys(Put(d, k, v))
  {
  }

  /** The first entry for `k` is at `j`. */
  lemma IndexOfAt<K, V>(d: Dict<K, V>, k: K, j: nat)
    requires j < |d| && d[j].0 == k
    requires forall m :: 0 <= m < j ==> d[m].0 != k
    ensures IndexOf(d, k) == Some(j)
  {
    assert Keys(d)[j] == k;
  }

  /** Replacing the value of the entry at `i` keeps every key's first position. */
  lemma {:induction false} IndexOfReplace<K, V>(d: Dict<K, V>, i: nat, v: V, k': K)
    requires i < |d|
    ensures IndexOf(d[i := (d[i].0, v)], k') == IndexOf(d, k')
  {
    var d' := d[i := (d[i].0, v)];
    assert forall m :: 0 <= m < |d| ==> d'[m].0 == d[m].0;
    match IndexOf(d, k')
    case Some(j) =>
      IndexOfAt(d', k', j);
    case None =>
      assert k' !in Keys(d');
  }

  /** Reading back after `d[k] = v`. */
  lemma PutGet<K, V>(d: Dict<K, V>, k: K, v: V, k': K)
    ensures Get(Put(d, k, v), k') == if k' == k then Some(v) else Get(d, k')
  {
    match IndexOf(d, k)
    case Some(i) =>
      IndexOfReplace(d, i, v, k');
      if k' != k {
        match IndexOf(d, k')
        case Some(j) =>
          assert j != i;
        case None =>
      }
    case None =>
      IndexOfAppend(d, (k, v), k');
  }

  lemma {:induction false} IndexOfAppend<K, V>(d: Dict<K, V>, e: (K, V), k: K)
    ensures IndexOf(d + [e], k) ==
      if k in Keys(d) then IndexOf(d, k) else if e.0 == k then Some(|d|) else None
  {
    if d != [] {
      assert (d + [e])[1..] == d[1..] + [e];
      IndexOfAppend(d[1..], e, k);
      assert k in Keys(d) <==> d[0].0 == k || k in Keys(d[1..]);
    }
  }

  /** The keys of a comprehension are the distinct keys in first-occurrence order. */
  lemma {:induction false} FromPairsKeys<K, V>(ps: seq<(K, V)>)
    ensures Keys(FromPairs(ps)) == Dedup(Keys(ps))
    ensures UniqueKeys(FromPairs(ps))
  {
    if ps != [] {
      var init := ps[..|ps| - 1];
      FromPairsKeys(init);
      assert Keys(init) == Keys(ps)[..|ps| - 1];
      PutKeys(FromPairs(init), ps[|ps| - 1].0, ps[|ps| - 1].1);
      PutUnique(FromPairs(init), ps[|ps| - 1].0, ps[|ps| - 1].1);
    }
  }

  /** Position of the last pair for `k`. */
  function LastIndexWith<K(==), V>(ps: seq<(K, V)>, k: K): (r: Option<nat>)
    ensures r.None? <==> forall j :: 0 <= j < |ps| ==> ps[j].0 != k
    ensures r.Some? ==> r.value < |ps| && ps[r.value].0 == k
    ensures r.Some? ==> forall j' :: r.value < j' < |ps| ==> ps[j'].0 != k
  {
    if ps == [] then None
    else if ps[|ps| - 1].0 == k then Some(|ps| - 1)
    else
      var r := LastIndexWith(ps[..|ps| - 1], k);
      assert forall j :: 0 <= j < |ps| - 1 ==> ps[j] == ps[..|ps| - 1][j];
      r
  }

  /** A comprehension looks a key up at the key's last pair. */
  lemma {:induction false} FromPairsGetLast<K, V>(ps: seq<(K, V)>, k: K)
    ensures Get(FromPairs(ps), k) == match LastIndexWith(ps, k) case None => None case Some(j) => Some(ps[j].1)
  {
    if ps != [] {
      var n := |ps| - 1;
      var init := ps[..n];
      FromPairsGetLast(init, k);
      PutGet(FromPairs(init), ps[n].0, ps[n].1, k);
      if ps[n].0 != k {
        assert LastIndexWith(ps, k) == LastIndexWith(init, k);
        match LastIndexWith(init, k)
        case None =>
        case Some(j) => assert ps[j] == init[j];
      }
    }
  }

  /** Last wins: a key maps to the value of its last pair, and is absent when no pair has it. */
  lemma FromPairsGet<K, V>(ps: seq<(K, V)>, k: K)
    ensures Get(FromPairs(ps), k).None? <==> forall j :: 0 <= j < |ps| ==> ps[j].0 != k
    ensures Get(FromPairs(ps), k).Some? ==>
      exists j :: 0 <= j < |ps| && ps[j].0 == k && Get(FromPairs(ps), k) == Some(ps[j].1)
        && forall j' :: j < j' < |ps| ==> ps[j'].0 != k
  {
    FromPairsGetLast(ps, k);
    match LastIndexWith(ps, k)
    case None =>
    case Some(j) => assert Get(FromPairs(ps), k) == Some(ps[j].1);
  }

  /** Assigning a key the dict does not hold appends it. */
  lemma PutNew<K, V>(d: Dict<K, V>, k: K, v: V)
    requires forall i :: 0 <= i < |d| ==> d[i].0 != k
    ensures Put(d, k, v) == d + [(k, v)]
  {
    assert k !in Keys(d);
  }

  lemma KeysConcat<K, V>(a: Dict<K, V>, b: Dict<K, V>)
    ensures Keys(a + b) == Keys(a) + Keys(b)
  {
  }

  /** Two duplicate-free sequences with no common element concatenate to a duplicate-free one. */
  lemma NoDuplicatesConcat<K>(a: seq<K>, b: seq<K>)
    requires NoDuplicates(a) && NoDuplicates(b)
    requires forall i :: 0 <= i < |b| ==> b[i] !in a
    ensures NoDuplicates(a + b)
  {
    forall i, j | 0 <= i < j < |a + b| ensures (a + b)[i] != (a + b)[j] {
      if j >= |a| && i < |a| {
        assert (a + b)[j] == b[j - |a|] && (a + b)[i] == a[i];
      }
    }
  }

  /** Two dicts with the same distinct keys in the same order and the same lookups are equal. */
  lemma DictExtensionality<K, V>(a: Dict<K, V>, b: Dict<K, V>)
    requires Keys(a) == Keys(b)
    requires NoDuplicates(Keys(a))
    requires forall k :: k in Keys(a) ==> Get(a, k) == Get(b, k)
    ensures a == b
  {
    forall i | 0 <= i < |a| ensures a[i] == b[i] {
      var k := a[i].0;
      assert Keys(a)[i] == k && Keys(b)[i] == k;
      assert IndexOf(a, k) == Some(i);
      assert IndexOf(b, k) == Some(i);
    }
  }
}
