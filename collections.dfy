// List and map helpers shared by the Python and Kotlin parts: removing the first equal element
// (Python's list.remove and Kotlin's `without`), `withFirst`, and `reverseMap`
// (utils/extensions/CommonExtensions.kt). A Kotlin map whose iteration order matters is an
// association list of entries, in that order, with pairwise distinct keys.

module Collections {
  import opened Text

  /** The first element equal to x goes; without one the list stays as it is. */
  function RemoveFirst<T(==)>(s: seq<T>, x: T): (r: seq<T>)
    ensures x !in s ==> r == s
    ensures x in s ==> |r| == |s| - 1
    ensures forall y :: y in r ==> y in s
  {
    if s == [] then []
    else if s[0] == x then s[1..]
    else [s[0]] + RemoveFirst(s[1..], x)
  }

  /** Exactly one copy of x leaves the multiset of elements, when there is one. */
  lemma {:induction false} RemoveFirstMultiset<T>(s: seq<T>, x: T)
    ensures multiset(RemoveFirst(s, x)) == multiset(s) - multiset{x}
  {
    if s != [] {
      assert s == [s[0]] + s[1..];
      var m := multiset(s[1..]);
      assert multiset(s) == multiset{s[0]} + m;
      if s[0] != x {
        var r := RemoveFirst(s[1..], x);
        RemoveFirstMultiset(s[1..], x);
        assert RemoveFirst(s, x) == [s[0]] + r;
        assert multiset(RemoveFirst(s, x)) == multiset{s[0]} + (m - multiset{x});
      }
    }
  }

  ghost predicate Distinct<T>(s: seq<T>) {
    forall i, j :: 0 <= i < j < |s| ==> s[i] != s[j]
  }

  /** The position of the first element equal to x. */
  function Position<T(==)>(s: seq<T>, x: T): (i: nat)
    requires x in s
    ensures i < |s| && s[i] == x && x !in s[..i]
  {
    if s[0] == x then 0
    else
      var i := Position(s[1..], x);
      assert s[..i + 1] == [s[0]] + s[1..][..i];
      i + 1
  }

  /** Removing x cuts the list at x's first occurrence. */
  lemma {:induction false} RemoveFirstAt<T>(s: seq<T>, x: T)
    requires x in s
    ensures RemoveFirst(s, x) == s[..Position(s, x)] + s[Position(s, x) + 1..]
  {
    if s[0] != x {
      RemoveFirstAt(s[1..], x);
      var k := Position(s[1..], x);
      assert s[..k + 1] == [s[0]] + s[1..][..k];
      assert s[k + 2..] == s[1..][k + 1..];
    }
  }

  /** In a list without duplicates the position of an element is the only index holding it. */
  lemma PositionDistinct<T>(s: seq<T>, j: nat)
    requires Distinct(s) && j < |s|
    ensures Position(s, s[j]) == j
  {
  }

  /** In a list without duplicates, removing x removes every occurrence of x and keeps the list
      free of duplicates. */
  lemma {:induction false} RemoveFirstDistinct<T>(s: seq<T>, x: T)
    requires Distinct(s)
    ensures Distinct(RemoveFirst(s, x))
    ensures forall y :: y in RemoveFirst(s, x) <==> y in s && y != x
  {
    if s != [] {
      assert Distinct(s[1..]) by {
        forall i, j | 0 <= i < j < |s[1..]| ensures s[1..][i] != s[1..][j] {
          assert s[1..][i] == s[i + 1] && s[1..][j] == s[j + 1];
        }
      }
      assert s[0] !in s[1..] by {
        forall j | 0 <= j < |s[1..]| ensures s[1..][j] != s[0] {
          assert s[1..][j] == s[j + 1];
        }
      }
      assert s == [s[0]] + s[1..];
      if s[0] != x {
        RemoveFirstDistinct(s[1..], x);
        var r := RemoveFirst(s, x);
        assert r == [s[0]] + RemoveFirst(s[1..], x);
        forall i, j | 0 <= i < j < |r| ensures r[i] != r[j] {
          if i == 0 {
            assert r[j] in RemoveFirst(s[1..], x) by { assert r[j] == RemoveFirst(s[1..], x)[j - 1]; }
          } else {
            assert r[i] == RemoveFirst(s[1..], x)[i - 1] && r[j] == RemoveFirst(s[1..], x)[j - 1];
          }
        }
      }
    }
  }

  /** Removing an element just appended gives the list back when it was not there before: the
      first equal element is the one appended. */
  lemma {:induction false} RemoveAppended<T>(s: seq<T>, x: T)
    requires x !in s
    ensures RemoveFirst(s + [x], x) == s
  {
    if s != [] {
      assert (s + [x])[1..] == s[1..] + [x];
      RemoveAppended(s[1..], x);
    }
  }

  /** withFirst (CommonExtensions.kt:128-132): e, then the list. */
  function WithFirst<T>(s: seq<T>, e: T): (r: seq<T>)
    ensures |r| == |s| + 1 && r[0] == e && r[1..] == s
  {
    [e] + s
  }

  /** Removing the element that withFirst added gives the list back. */
  lemma WithFirstThenWithout<T>(s: seq<T>, e: T)
    ensures RemoveFirst(WithFirst(s, e), e) == s
  {
  }

  // ---------------------------------------------------------------------------
  // Association lists

  lemma AppendAssoc<T>(a: seq<T>, b: seq<T>, c: seq<T>)
    ensures (a + b) + c == a + (b + c)
  {
  }

  function Keys<K, V>(d: seq<(K, V)>): (r: seq<K>)
    ensures |r| == |d| && forall i :: 0 <= i < |d| ==> r[i] == d[i].0
  {
    if d == [] then [] else [d[0].0] + Keys(d[1..])
  }

  ghost predicate DistinctKeys<K, V>(d: seq<(K, V)>) {
    forall i, j :: 0 <= i < j < |d| ==> d[i].0 != d[j].0
  }

  /** The values of the entries, each once, in the order they first appear (the order of
      groupBy's groups). */
  function Values<K, V(==)>(d: seq<(K, V)>): (r: seq<V>)
    ensures forall j :: 0 <= j < |d| ==> d[j].1 in r
    ensures forall i :: 0 <= i < |r| ==> exists j :: 0 <= j < |d| && d[j].1 == r[i]
    ensures forall a, b :: 0 <= a < b < |r| ==> r[a] != r[b]
  {
    if d == [] then []
    else
      var p, v := Values(d[..|d| - 1]), d[|d| - 1].1;
      assert forall j :: 0 <= j < |d| - 1 ==> d[..|d| - 1][j] == d[j];
      if v in p then p else p + [v]
  }

  /** The keys of the entries whose value is v, in entry order. */
  function KeysWithValue<K, V(==)>(d: seq<(K, V)>, v: V): seq<K> {
    if d == [] then []
    else KeysWithValue(d[..|d| - 1], v) + (if d[|d| - 1].1 == v then [d[|d| - 1].0] else [])
  }

  /** reverseMap (CommonExtensions.kt:121): each value of the map, in the order it first
      appears, is mapped to the keys that map to it, in the map's entry order. */
  function ReverseMap<K, V(==)>(d: seq<(K, V)>): (r: seq<(V, seq<K>)>)
    ensures |r| == |Values(d)| && forall i :: 0 <= i < |r| ==> r[i] == (Values(d)[i], KeysWithValue(d, Values(d)[i]))
  {
    var vs := Values(d);
    seq(|vs|, i requires 0 <= i < |vs| => (vs[i], KeysWithValue(d, vs[i])))
  }

  /** A key is in the group of v iff some entry maps it to v. */
  lemma {:induction false} KeysWithValueExactly<K, V>(d: seq<(K, V)>, v: V, k: K)
    ensures k in KeysWithValue(d, v) <==> (k, v) in d
  {
    if d != [] {
      var p := d[..|d| - 1];
      KeysWithValueExactly(p, v, k);
      assert d == p + [d[|d| - 1]];
      if (k, v) in d && (k, v) !in p {
        assert d[|d| - 1] == (k, v);
      }
    }
  }

  /** reverseMap has one group per value of the map and no other. */
  lemma ReverseMapValues<K, V>(d: seq<(K, V)>)
    ensures var r := ReverseMap(d);
            && DistinctKeys(r)
            && (forall j :: 0 <= j < |d| ==> exists i :: 0 <= i < |r| && r[i].0 == d[j].1)
            && (forall i :: 0 <= i < |r| ==> exists j :: 0 <= j < |d| && d[j].1 == r[i].0)
  {
    var r := ReverseMap(d);
    forall j | 0 <= j < |d| ensures exists i :: 0 <= i < |r| && r[i].0 == d[j].1 {
      var i :| 0 <= i < |Values(d)| && Values(d)[i] == d[j].1;
      assert r[i].0 == d[j].1;
    }
  }

  /** A key is listed under v iff its entry maps it to v, and no group is empty. */
  lemma ReverseMapKeys<K, V>(d: seq<(K, V)>)
    ensures var r := ReverseMap(d);
            && (forall i, k :: 0 <= i < |r| ==> (k in r[i].1 <==> (k, r[i].0) in d))
            && (forall i :: 0 <= i < |r| ==> r[i].1 != [])
  {
    var r := ReverseMap(d);
    forall i, k | 0 <= i < |r| ensures k in r[i].1 <==> (k, r[i].0) in d {
      KeysWithValueExactly(d, r[i].0, k);
    }
    forall i | 0 <= i < |r| ensures r[i].1 != [] {
      GroupNotEmpty(d, r[i].0);
    }
  }

  lemma GroupNotEmpty<K, V>(d: seq<(K, V)>, v: V)
    requires v in Values(d)
    ensures KeysWithValue(d, v) != []
  {
    var j :| 0 <= j < |d| && d[j].1 == v;
    KeysWithValueExactly(d, v, d[j].0);
    assert (d[j].0, v) == d[j];
  }

  /** The value of the first entry with key k. */
  function Lookup<K(==), V>(d: seq<(K, V)>, k: K): (r: Option<V>)
    ensures r.None? <==> k !in Keys(d)
    ensures r.Some? ==> (k, r.value) in d
  {
    if d == [] then None
    else if d[0].0 == k then Some(d[0].1)
    else Lookup(d[1..], k)
  }

  /** Python's d[k] = v (and Kotlin's put) on an insertion-ordered map: an existing key keeps
      its place and takes the new value, a new key goes at the end. */
  function Put<K(==), V>(d: seq<(K, V)>, k: K, v: V): seq<(K, V)> {
    if d == [] then [(k, v)]
    else if d[0].0 == k then [(k, v)] + d[1..]
    else [d[0]] + Put(d[1..], k, v)
  }

  /** After a put, k maps to v and every other key to what it mapped to before. */
  lemma {:induction false} PutLookup<K, V>(d: seq<(K, V)>, k: K, v: V, j: K)
    ensures Lookup(Put(d, k, v), j) == if j == k then Some(v) else Lookup(d, j)
  {
    if d != [] && d[0].0 != k {
      PutLookup(d[1..], k, v, j);
    }
  }

  /** A put keeps the keys and their order, and appends a key that is new. */
  lemma {:induction false} PutKeys<K, V>(d: seq<(K, V)>, k: K, v: V)
    ensures k in Keys(d) ==> Keys(Put(d, k, v)) == Keys(d)
    ensures k !in Keys(d) ==> Keys(Put(d, k, v)) == Keys(d) + [k]
  {
    if d != [] {
      assert Keys(d) == [d[0].0] + Keys(d[1..]);
      if d[0].0 != k {
        PutKeys(d[1..], k, v);
        assert Keys(Put(d, k, v)) == [d[0].0] + Keys(Put(d[1..], k, v));
      } else {
        assert Keys(Put(d, k, v)) == [k] + Keys(d[1..]);
      }
    }
  }

  /** A put keeps the keys pairwise distinct. */
  lemma PutDistinct<K, V>(d: seq<(K, V)>, k: K, v: V)
    requires DistinctKeys(d)
    ensures DistinctKeys(Put(d, k, v))
  {
    PutKeys(d, k, v);
    var r := Put(d, k, v);
    forall i, j | 0 <= i < j < |r| ensures r[i].0 != r[j].0 {
      assert Keys(r)[i] == r[i].0 && Keys(r)[j] == r[j].0;
      if k !in Keys(d) && j == |d| {
        assert r[i].0 == Keys(d)[i] == d[i].0;
      } else {
        assert Keys(r)[i] == Keys(d)[i] && Keys(r)[j] == Keys(d)[j];
      }
    }
  }
  /** A put with a new key appends the entry. */
  lemma {:induction false} PutNew<K, V>(d: seq<(K, V)>, k: K, v: V)
    requires k !in Keys(d)
    ensures Put(d, k, v) == d + [(k, v)]
  {
    if d != [] {
      assert Keys(d) == [d[0].0] + Keys(d[1..]);
      PutNew(d[1..], k, v);
      assert d == [d[0]] + d[1..];
    }
  }

  /** Every entry after a put is an old one or the new one. */
  lemma {:induction false} PutEntries<K, V>(d: seq<(K, V)>, k: K, v: V)
    ensures forall e :: e in Put(d, k, v) ==> e in d || e == (k, v)
  {
    if d != [] && d[0].0 != k {
      PutEntries(d[1..], k, v);
    }
  }

  /** Python's del d[k] (and Kotlin's remove(k)) on an insertion-ordered map with distinct keys:
      the entry of k leaves, the others keep their order. */
  function RemoveKey<K(==), V>(d: seq<(K, V)>, k: K): (r: seq<(K, V)>)
    ensures |r| <= |d|
  {
    if d == [] then []
    else if d[0].0 == k then d[1..]
    else [d[0]] + RemoveKey(d[1..], k)
  }

  /** The entries that remain are old ones. */
  lemma {:induction false} RemoveKeyEntries<K, V>(d: seq<(K, V)>, k: K)
    ensures forall e :: e in RemoveKey(d, k) ==> e in d
  {
    if d != [] {
      RemoveKeyEntries(d[1..], k);
    }
  }

  /** The tail of a map with distinct keys has distinct keys, none of them the head's. */
  lemma TailDistinct<K, V>(d: seq<(K, V)>)
    requires d != [] && DistinctKeys(d)
    ensures DistinctKeys(d[1..])
    ensures forall e :: e in d[1..] ==> e.0 != d[0].0
  {
    forall i, j | 0 <= i < j < |d[1..]| ensures d[1..][i].0 != d[1..][j].0 {
      assert d[1..][i] == d[i + 1] && d[1..][j] == d[j + 1];
    }
  }

  /** With distinct keys, a removal keeps them distinct and k is gone. */
  lemma {:induction false} RemoveKeyDistinct<K, V>(d: seq<(K, V)>, k: K)
    requires DistinctKeys(d)
    ensures DistinctKeys(RemoveKey(d, k)) && k !in Keys(RemoveKey(d, k))
  {
    if d != [] {
      TailDistinct(d);
      RemoveKeyDistinct(d[1..], k);
      var r, t := RemoveKey(d, k), RemoveKey(d[1..], k);
      if d[0].0 != k {
        RemoveKeyEntries(d[1..], k);
        assert r == [d[0]] + t;
        forall i, j | 0 <= i < j < |r| ensures r[i].0 != r[j].0 {
          assert r[j] == t[j - 1];
          if i > 0 {
            assert r[i] == t[i - 1];
          } else {
            assert r[j] in t;
          }
        }
        assert Keys(r) == [d[0].0] + Keys(t);
      } else {
        assert r == d[1..];
        forall i | 0 <= i < |r| ensures Keys(r)[i] != k {
          assert r[i] in d[1..];
        }
      }
    }
  }

  /** After a removal k is absent and every other key maps to what it mapped to before. */
  lemma {:induction false} RemoveKeyLookup<K, V>(d: seq<(K, V)>, k: K, j: K)
    requires DistinctKeys(d)
    ensures Lookup(RemoveKey(d, k), j) == if j == k then None else Lookup(d, j)
  {
    if d != [] {
      TailDistinct(d);
      if d[0].0 != k {
        RemoveKeyLookup(d[1..], k, j);
      } else if j != k {
        assert Lookup(d, j) == Lookup(d[1..], j);
      } else {
        RemoveKeyDistinct(d, k);
      }
    }
  }
}
