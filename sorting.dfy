// A sort by an integer key, descending, as Python's sorted(key=..., reverse=True) and
// Kotlin's sortedByDescending order their inputs; a sort by a string key, ascending, as
// Python's sorted(key=...) orders strings (by code points); and the first-n prefix of take(n)
// and of a loop that breaks after n items.

module Sorting {

  ghost predicate SortedDesc<T>(t: seq<T>, key: T -> int) {
    forall i, j :: 0 <= i < j < |t| ==> key(t[i]) >= key(t[j])
  }

  /** Inserts x after every element whose key is at least x's, so equal keys keep the order in
      which they were inserted. */
  function InsertDesc<T>(t: seq<T>, x: T, key: T -> int): seq<T> {
    if t == [] then [x]
    else if key(t[0]) < key(x) then [x] + t
    else [t[0]] + InsertDesc(t[1..], x, key)
  }

  function SortDesc<T>(s: seq<T>, key: T -> int): seq<T> {
    if s == [] then [] else InsertDesc(SortDesc(s[..|s| - 1], key), s[|s| - 1], key)
  }

  lemma InsertDescProps<T>(t: seq<T>, x: T, key: T -> int)
    requires SortedDesc(t, key)
    ensures SortedDesc(InsertDesc(t, x, key), key)
    ensures multiset(InsertDesc(t, x, key)) == multiset(t) + multiset{x}
  {
    InsertDescSorted(t, x, key);
    InsertDescMultiset(t, x, key);
  }

  lemma {:induction false} InsertDescMultiset<T>(t: seq<T>, x: T, key: T -> int)
    ensures multiset(InsertDesc(t, x, key)) == multiset(t) + multiset{x}
  {
    if t != [] && key(t[0]) >= key(x) {
      InsertDescMultiset(t[1..], x, key);
      assert t == [t[0]] + t[1..];
    }
  }

  /** Inserting keeps every key under a bound that x and all of t are under. */
  lemma {:induction false} InsertDescBounded<T>(t: seq<T>, x: T, key: T -> int, b: int)
    requires forall i :: 0 <= i < |t| ==> key(t[i]) <= b
    requires key(x) <= b
    ensures forall i :: 0 <= i < |InsertDesc(t, x, key)| ==> key(InsertDesc(t, x, key)[i]) <= b
  {
    if t != [] && key(t[0]) >= key(x) {
      InsertDescBounded(t[1..], x, key, b);
      assert InsertDesc(t, x, key) == [t[0]] + InsertDesc(t[1..], x, key);
    }
  }

  lemma {:induction false} InsertDescSorted<T>(t: seq<T>, x: T, key: T -> int)
    requires SortedDesc(t, key)
    ensures SortedDesc(InsertDesc(t, x, key), key)
  {
    if t == [] {
    } else if key(t[0]) >= key(x) {
      var rest := InsertDesc(t[1..], x, key);
      InsertDescSorted(t[1..], x, key);
      InsertDescBounded(t[1..], x, key, key(t[0]));
      var r := [t[0]] + rest;
      forall i, j | 0 <= i < j < |r| ensures key(r[i]) >= key(r[j]) {
        assert r[j] == rest[j - 1];
        if i > 0 {
          assert r[i] == rest[i - 1];
        }
      }
    } else {
      var r := [x] + t;
      forall i, j | 0 <= i < j < |r| ensures key(r[i]) >= key(r[j]) {
        assert r[j] == t[j - 1];
        if i > 0 {
          assert r[i] == t[i - 1];
        } else {
          assert key(t[0]) >= key(t[j - 1]);
        }
      }
    }
  }

  /** SortDesc orders by the key, newest (largest) first, and keeps every element exactly once. */
  lemma {:induction false} SortDescProps<T>(s: seq<T>, key: T -> int)
    ensures SortedDesc(SortDesc(s, key), key)
    ensures multiset(SortDesc(s, key)) == multiset(s)
  {
    if s != [] {
      var i := |s| - 1;
      SortDescProps(s[..i], key);
      InsertDescProps(SortDesc(s[..i], key), s[i], key);
      assert s == s[..i] + [s[i]];
    }
  }

  function Min(a: nat, b: nat): nat { if a <= b then a else b }

  /** The first n elements, or all of them when there are fewer. */
  function Take<T>(s: seq<T>, n: nat): (r: seq<T>)
    ensures |r| == Min(|s|, n) && r == s[..|r|]
  {
    s[..Min(|s|, n)]
  }

  /** Taking the first n of a list sorted descending keeps the n largest: everything left out
      has a key no larger than anything kept. */
  lemma TakeKeepsLargest<T>(t: seq<T>, key: T -> int, n: nat)
    requires SortedDesc(t, key)
    ensures SortedDesc(Take(t, n), key)
    ensures forall i, j :: 0 <= i < |Take(t, n)| <= j < |t| ==> key(t[j]) <= key(Take(t, n)[i])
  {
  }

  /** The first n of the sorted list: as many as there are, up to n, each one of the input,
      largest first, and none left out larger than one kept. */
  lemma TopByKey<T>(s: seq<T>, key: T -> int, n: nat)
    ensures var h := Take(SortDesc(s, key), n);
            && |h| == Min(|s|, n)
            && (forall x :: x in h ==> x in s)
            && SortedDesc(h, key)
            && (forall e, x :: e in s && e !in h && x in h ==> key(e) <= key(x))
  {
    var t := SortDesc(s, key);
    SortDescProps(s, key);
    TakeKeepsLargest(t, key, n);
    var h := Take(t, n);
    assert |t| == |s| by {
      assert |multiset(t)| == |multiset(s)|;
    }
    forall x | x in h ensures x in s {
      assert x in multiset(t);
    }
    forall e, x | e in s && e !in h && x in h ensures key(e) <= key(x) {
      assert e in multiset(t);
      var j :| 0 <= j < |t| && t[j] == e;
      var i :| 0 <= i < |h| && h[i] == x;
      assert j >= |h|;
    }
  }

  // ---------------------------------------------------------------------------
  // Strings, ascending

  /** Python's a <= b on strings: code point by code point, a proper prefix first. */
  predicate StrLe(a: string, b: string) {
    if a == [] then true
    else if b == [] then false
    else if a[0] != b[0] then a[0] < b[0]
    else StrLe(a[1..], b[1..])
  }

  lemma {:induction false} StrLeTotal(a: string, b: string)
    ensures StrLe(a, b) || StrLe(b, a)
  {
    if a != [] && b != [] && a[0] == b[0] {
      StrLeTotal(a[1..], b[1..]);
    }
  }

  lemma {:induction false} StrLeTrans(a: string, b: string, c: string)
    requires StrLe(a, b) && StrLe(b, c)
    ensures StrLe(a, c)
  {
    if a != [] && b != [] && c != [] && a[0] == b[0] && b[0] == c[0] {
      StrLeTrans(a[1..], b[1..], c[1..]);
    }
  }

  ghost predicate SortedAsc<T>(t: seq<T>, key: T -> string) {
    forall i, j :: 0 <= i < j < |t| ==> StrLe(key(t[i]), key(t[j]))
  }

  /** Inserts x after every element whose key is at most x's, so equal keys keep the order in
      which they were inserted. */
  function InsertAsc<T>(t: seq<T>, x: T, key: T -> string): seq<T> {
    if t == [] then [x]
    else if !StrLe(key(t[0]), key(x)) then [x] + t
    else [t[0]] + InsertAsc(t[1..], x, key)
  }

  function SortAsc<T>(s: seq<T>, key: T -> string): seq<T> {
    if s == [] then [] else InsertAsc(SortAsc(s[..|s| - 1], key), s[|s| - 1], key)
  }

  lemma InsertAscProps<T>(t: seq<T>, x: T, key: T -> string)
    requires SortedAsc(t, key)
    ensures SortedAsc(InsertAsc(t, x, key), key)
    ensures multiset(InsertAsc(t, x, key)) == multiset(t) + multiset{x}
  {
    InsertAscElems(t, x, key);
    InsertAscSorted(t, x, key);
  }

  lemma {:induction false} InsertAscElems<T>(t: seq<T>, x: T, key: T -> string)
    ensures multiset(InsertAsc(t, x, key)) == multiset(t) + multiset{x}
  {
    if t != [] && StrLe(key(t[0]), key(x)) {
      InsertAscElems(t[1..], x, key);
      assert t == [t[0]] + t[1..];
    }
  }

  /** Inserting keeps every key above a bound that x and all of t are above. */
  lemma {:induction false} InsertAscBounded<T>(t: seq<T>, x: T, key: T -> string, b: string)
    requires forall i :: 0 <= i < |t| ==> StrLe(b, key(t[i]))
    requires StrLe(b, key(x))
    ensures forall i :: 0 <= i < |InsertAsc(t, x, key)| ==> StrLe(b, key(InsertAsc(t, x, key)[i]))
  {
    if t != [] && StrLe(key(t[0]), key(x)) {
      InsertAscBounded(t[1..], x, key, b);
      assert InsertAsc(t, x, key) == [t[0]] + InsertAsc(t[1..], x, key);
    }
  }

  lemma {:induction false} InsertAscSorted<T>(t: seq<T>, x: T, key: T -> string)
    requires SortedAsc(t, key)
    ensures SortedAsc(InsertAsc(t, x, key), key)
  {
    if t == [] {
    } else if !StrLe(key(t[0]), key(x)) {
      StrLeTotal(key(t[0]), key(x));
      forall j | 0 < j < |[x] + t| ensures StrLe(key(x), key(([x] + t)[j])) {
        if j > 1 {
          StrLeTrans(key(x), key(t[0]), key(t[j - 1]));
        }
      }
      assert SortedAsc([x] + t, key);
    } else {
      var rest := InsertAsc(t[1..], x, key);
      InsertAscSorted(t[1..], x, key);
      InsertAscBounded(t[1..], x, key, key(t[0]));
      var r := [t[0]] + rest;
      forall i, j | 0 <= i < j < |r| ensures StrLe(key(r[i]), key(r[j])) {
        if i > 0 {
          assert r[i] == rest[i - 1] && r[j] == rest[j - 1];
        }
      }
    }
  }

  /** SortAsc orders by the key, smallest first, and keeps every element exactly once. */
  lemma {:induction false} SortAscProps<T>(s: seq<T>, key: T -> string)
    ensures SortedAsc(SortAsc(s, key), key)
    ensures multiset(SortAsc(s, key)) == multiset(s)
  {
    if s != [] {
      var i := |s| - 1;
      SortAscProps(s[..i], key);
      InsertAscProps(SortAsc(s[..i], key), s[i], key);
      assert s == s[..i] + [s[i]];
    }
  }
}
