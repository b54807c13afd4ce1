/** Python's insertion-ordered `dict` as an association list: a key keeps the
    position of its first insertion, and assigning it again replaces only its
    value. */
module OrderedDict {
  import opened Wrappers

  type Dict<K, V> = seq<(K, V)>

  function Keys<K, V>(d: Dict<K, V>): seq<K> {
    seq(|d|, i requires 0 <= i < |d| => d[i].0)
  }

  predicate DistinctKeys<K(==), V>(d: Dict<K, V>) {
    forall i, j :: 0 <= i < j < |d| ==> d[i].0 != d[j].0
  }

  /** The first position of `x` in `s`. */
  function IndexOf<K(==)>(s: seq<K>, x: K): (i: nat)
    requires x in s
    ensures i < |s| && s[i] == x
    ensures forall j :: 0 <= j < i ==> s[j] != x
  {
    if s[0] == x then 0 else 1 + IndexOf(s[1..], x)
  }

  /** `d.get(k)`. */
  function Get<K(==), V>(d: Dict<K, V>, k: K): (r: Option<V>)
    ensures r.Some? <==> k in Keys(d)
    ensures DistinctKeys(d) ==> forall i :: 0 <= i < |d| && d[i].0 == k ==> r == Some(d[i].1)
  {
    if k in Keys(d) then Some(d[IndexOf(Keys(d), k)].1)
    else
      assert forall i :: 0 <= i < |d| ==> Keys(d)[i] == d[i].0;
      None
  }

  /** Appending after `x`'s first position does not move it. */
  lemma {:induction false} IndexOfExtended<K>(s: seq<K>, t: seq<K>, x: K)
    requires x in s
    ensures IndexOf(s + t, x) == IndexOf(s, x)
  {
    if s[0] != x {
      assert (s + t)[1..] == s[1..] + t;
      IndexOfExtended(s[1..], t, x);
    }
  }

  /** `d[k] = v`. */
  function Put<K(==,!new), V>(d: Dict<K, V>, k: K, v: V): (r: Dict<K, V>)
    ensures Keys(r) == if k in Keys(d) then Keys(d) else Keys(d) + [k]
    ensures DistinctKeys(d) ==> DistinctKeys(r)
    ensures Get(r, k) == Some(v)
    ensures forall k' :: k' != k ==> Get(r, k') == Get(d, k')
  {
    if k in Keys(d) then
      var i := IndexOf(Keys(d), k);
      var r := d[i := (k, v)];
      assert Keys(r) == Keys(d);
      r
    else
      var r := d + [(k, v)];
      assert Keys(r) == Keys(d) + [k];
      forall k' | k' in Keys(d)
        ensures IndexOf(Keys(r), k') == IndexOf(Keys(d), k')
      {
        IndexOfExtended(Keys(d), [k], k');
      }
      assert forall i :: 0 <= i < |d| ==> Keys(d)[i] == d[i].0;
      r
  }
}
