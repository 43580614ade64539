/**
 * The insertion-ordered, string-keyed records the compiler builds with
 * `obj[key] = value` (the faces of an element, the textures map, the display
 * map, the per-group components and the result). Assigning an existing key
 * replaces its value in place; a new key goes at the end.
 */
module Ordered {
  import opened Wrappers

  type Entries<V> = seq<(string, V)>

  predicate HasKey<V>(m: Entries<V>, k: string) {
    exists i :: 0 <= i < |m| && m[i].0 == k
  }

  function Keys<V>(m: Entries<V>): (ks: seq<string>)
    ensures |ks| == |m| && forall i :: 0 <= i < |m| ==> ks[i] == m[i].0
  {
    seq(|m|, i requires 0 <= i < |m| => m[i].0)
  }

  predicate DistinctKeys<V>(m: Entries<V>) {
    forall i, j :: 0 <= i < j < |m| ==> m[i].0 != m[j].0
  }

  /** The position of the first entry under key k at or after position i. */
  function IndexFrom<V>(m: Entries<V>, k: string, i: nat): (r: Option<nat>)
    requires i <= |m|
    ensures r.Some? ==> i <= r.value < |m| && m[r.value].0 == k
    ensures r.Some? ==> forall j :: i <= j < r.value ==> m[j].0 != k
    ensures r.None? <==> forall j :: i <= j < |m| ==> m[j].0 != k
    decreases |m| - i
  {
    if i == |m| then None
    else if m[i].0 == k then Some(i)
    else IndexFrom(m, k, i + 1)
  }

  function IndexOf<V>(m: Entries<V>, k: string): (r: Option<nat>)
    ensures r.Some? ==> r.value < |m| && m[r.value].0 == k && forall j :: 0 <= j < r.value ==> m[j].0 != k
    ensures r.None? <==> !HasKey(m, k)
  {
    IndexFrom(m, k, 0)
  }

  /** `obj[key]` */
  function Get<V>(m: Entries<V>, k: string): (r: Option<V>)
    ensures r.Some? <==> HasKey(m, k)
    ensures r.Some? ==> exists i :: 0 <= i < |m| && m[i] == (k, r.value)
  {
    match IndexOf(m, k)
    case Some(i) => Some(m[i].1)
    case None => None
  }

  /** The first position of a key depends on the keys alone, and extra keys at the end do not move it. */
  lemma IndexOfPrefix<V, W>(m: Entries<V>, m': Entries<W>, k: string)
    requires |m| <= |m'|
    requires forall p :: 0 <= p < |m| ==> m'[p].0 == m[p].0
    requires forall p :: |m| <= p < |m'| ==> m'[p].0 != k
    ensures IndexOf(m', k) == IndexOf(m, k)
  {
    match IndexOf(m, k)
    case Some(i) =>
      assert m'[i].0 == k;
      var i' := IndexOf(m', k).value;
      assert i' <= i;
      assert m[i'].0 == k;
    case None =>
      assert !HasKey(m', k);
  }

  /** What assigning one key does to the others and to the key itself. */
  lemma AssignedKeyLaws<V>(m: Entries<V>, k: string, v: V, r: Entries<V>)
    requires r == match IndexOf(m, k) case Some(i) => m[i := (k, v)] case None => m + [(k, v)]
    ensures Get(r, k) == Some(v)
    ensures forall j :: j != k ==> Get(r, j) == Get(m, j)
  {
    if HasKey(m, k) {
      IndexOfPrefix(m, r, k);
    } else {
      assert r[|m|].0 == k;
      var i := IndexOf(r, k).value;
      assert i == |m|;
    }
    forall j | j != k
      ensures Get(r, j) == Get(m, j)
    {
      IndexOfPrefix(m, r, j);
    }
  }

  /** `obj[key] = value` */
  function Put<V>(m: Entries<V>, k: string, v: V): (r: Entries<V>)
    ensures Get(r, k) == Some(v)
    ensures forall j :: j != k ==> Get(r, j) == Get(m, j)
    ensures DistinctKeys(m) ==> DistinctKeys(r)
  {
    var r := match IndexOf(m, k)
      case Some(i) => m[i := (k, v)]
      case None => m + [(k, v)];
    AssignedKeyLaws(m, k, v, r);
    r
  }

  /** Assigning adds exactly the assigned key. */
  lemma PutHasKey<V>(m: Entries<V>, k: string, v: V, j: string)
    ensures HasKey(Put(m, k, v), j) <==> HasKey(m, j) || j == k
  {
    var r := Put(m, k, v);
    assert Get(r, j).Some? <==> HasKey(r, j);
    assert Get(m, j).Some? <==> HasKey(m, j);
  }

  /** Assigning keeps the order of the keys and appends a new key at the end. */
  lemma PutKeys<V>(m: Entries<V>, k: string, v: V)
    ensures Keys(Put(m, k, v)) == if HasKey(m, k) then Keys(m) else Keys(m) + [k]
  {
  }

  /** The keys of a record that grew by one entry at its end. */
  lemma KeysSnoc<V>(m: Entries<V>, x: (string, V))
    ensures Keys(m + [x]) == Keys(m) + [x.0]
  {
  }

  /** The keys of ks in the order they first occur, each once: the key order a record filled by assigning ks in turn ends up with. */
  function FirstOccurrences(ks: seq<string>): (r: seq<string>)
    ensures forall k :: k in r <==> k in ks
    ensures forall i, j :: 0 <= i < j < |r| ==> r[i] != r[j]
    decreases |ks|
  {
    if |ks| == 0 then []
    else
      var n := |ks| - 1;
      var d := FirstOccurrences(ks[..n]);
      assert ks == ks[..n] + [ks[n]];
      if ks[n] in d then d else d + [ks[n]]
  }

  /** Keys that never repeat keep all their places. */
  lemma {:induction false} FirstOccurrencesOfDistinct(ks: seq<string>)
    requires forall i, j :: 0 <= i < j < |ks| ==> ks[i] != ks[j]
    ensures FirstOccurrences(ks) == ks
    decreases |ks|
  {
    if |ks| > 0 {
      var n := |ks| - 1;
      FirstOccurrencesOfDistinct(ks[..n]);
      assert ks[n] !in ks[..n];
      assert ks == ks[..n] + [ks[n]];
    }
  }

  /** A record whose keys are those of ks in first-occurrence order, assigned one more key k, has the keys of ks + [k] in that order. */
  lemma PutAppendsKey<V>(m: Entries<V>, k: string, v: V, ks: seq<string>)
    requires Keys(m) == FirstOccurrences(ks)
    ensures Keys(Put(m, k, v)) == FirstOccurrences(ks + [k])
  {
    PutKeys(m, k, v);
    assert (ks + [k])[..|ks|] == ks;
    assert HasKey(m, k) <==> k in Keys(m) by {
      if HasKey(m, k) {
        var i :| 0 <= i < |m| && m[i].0 == k;
        assert Keys(m)[i] == k;
      }
    }
  }

  /** Reading a record that grew by one entry at its end. */
  lemma GetAppend<V>(m: Entries<V>, x: (string, V), k: string)
    ensures Get(m + [x], k) == if HasKey(m, k) then Get(m, k) else if x.0 == k then Some(x.1) else None
  {
    var m' := m + [x];
    if HasKey(m, k) {
      var i := IndexOf(m, k).value;
      assert m'[i].0 == k;
      var i' := IndexOf(m', k).value;
      assert i' <= i && m[i'].0 == k;
    } else if x.0 == k {
      assert m'[|m|].0 == k;
      var i' := IndexOf(m', k).value;
      assert i' == |m|;
    } else {
      assert !HasKey(m', k);
    }
  }
}
