/** Python's insertion-ordered dictionary, oldest entry first. */
module OrderedDict {
  import opened Common

  type Dict<K, V> = seq<(K, V)>

  function Keys<K, V>(d: Dict<K, V>): (ks: seq<K>)
    ensures |ks| == |d| && forall i | 0 <= i < |d| :: ks[i] == d[i].0
  {
    if d == [] then [] else [d[0].0] + Keys(d[1..])
  }

  ghost predicate Unique<T(!new)>(s: seq<T>) {
    forall i, j | 0 <= i < j < |s| :: s[i] != s[j]
  }

  function Get<K(==,!new), V(!new)>(d: Dict<K, V>, k: K): (v: Option<V>)
    ensures v.None? <==> k !in Keys(d)
    ensures v.Some? ==> (k, v.value) in d
  {
    if d == [] then None
    else if d[0].0 == k then Some(d[0].1)
    else Get(d[1..], k)
  }

  /** `d.pop(k, None)` */
  function Without<K(==,!new), V(!new)>(d: Dict<K, V>, k: K): (r: Dict<K, V>)
    ensures |r| <= |d|
  {
    if d == [] then []
    else (if d[0].0 == k then [] else [d[0]]) + Without(d[1..], k)
  }

  /** `d[k] = v`: in place for a known key, at the end for a new one. */
  function Put<K(==), V>(d: Dict<K, V>, k: K, v: V): (r: Dict<K, V>)
  {
    if d == [] then [(k, v)]
    else if d[0].0 == k then [(k, v)] + d[1..]
    else [d[0]] + Put(d[1..], k, v)
  }

  /** `d[k] = v; d.move_to_end(k)` */
  function PutLast<K(==,!new), V(!new)>(d: Dict<K, V>, k: K, v: V): (r: Dict<K, V>)
  {
    Without(d, k) + [(k, v)]
  }

  lemma KeysAppend<K, V>(a: Dict<K, V>, b: Dict<K, V>)
    ensures Keys(a + b) == Keys(a) + Keys(b)
  {
  }

  lemma {:induction false} WithoutElements<K(!new), V(!new)>(d: Dict<K, V>, k: K)
    ensures forall e :: e in Without(d, k) <==> e in d && e.0 != k
    ensures k !in Keys(d) ==> Without(d, k) == d
    ensures k !in Keys(Without(d, k))
  {
    if d != [] {
      WithoutElements(d[1..], k);
      assert d == [d[0]] + d[1..];
    }
  }

  lemma {:induction false} WithoutAppend<K(!new), V(!new)>(a: Dict<K, V>, b: Dict<K, V>, k: K)
    ensures Without(a + b, k) == Without(a, k) + Without(b, k)
  {
    if a == [] {
      assert a + b == b;
    } else {
      assert (a + b)[1..] == a[1..] + b && (a + b)[0] == a[0];
      WithoutAppend(a[1..], b, k);
      var first := if a[0].0 == k then [] else [a[0]];
      assert first + (Without(a[1..], k) + Without(b, k)) == first + Without(a[1..], k) + Without(b, k);
    }
  }

  /** Writing a key again after moving it to the end changes only its value. */
  lemma {:induction false} PutAtEnd<K(!new), V(!new)>(d: Dict<K, V>, k: K, v: V, w: V)
    requires k !in Keys(d)
    ensures Put(d + [(k, v)], k, w) == d + [(k, w)]
    ensures Put(d, k, w) == d + [(k, w)]
  {
    if d != [] {
      assert (d + [(k, v)])[1..] == d[1..] + [(k, v)];
      assert Keys(d)[0] == d[0].0;
      assert forall i | 0 <= i < |d| - 1 :: Keys(d[1..])[i] == Keys(d)[i + 1];
      PutAtEnd(d[1..], k, v, w);
      assert [d[0]] + (d[1..] + [(k, w)]) == d + [(k, w)];
    }
  }

  lemma UniqueEnds<K(!new)>(ks: seq<K>, k: K)
    requires Unique(ks) && k !in ks
    ensures Unique(ks + [k]) && Unique([k] + ks)
  {
  }

  lemma UniqueEntries<K(!new), V>(d: Dict<K, V>, e: (K, V))
    requires Unique(Keys(d)) && e.0 !in Keys(d)
    ensures Unique(Keys(d + [e])) && Unique(Keys([e] + d))
  {
    UniqueEnds(Keys(d), e.0);
    KeysAppend(d, [e]);
    KeysAppend([e], d);
    assert Keys([e]) == [e.0];
  }

  lemma UniqueTail<K(!new)>(ks: seq<K>)
    requires Unique(ks) && ks != []
    ensures Unique(ks[1..]) && ks[0] !in ks[1..]
  {
  }
}
