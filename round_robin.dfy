// The round-robin partition used by the Choose dialog (dialogs/choose_dialog.py:97-104) and
// the teams command (user_commands/commands.py:66-73): position p of the list goes to group
// p mod n, so every element lands in exactly one group and group sizes differ by at most one.

module RoundRobin {

  /** Group g of the partition of s into n groups: the elements at positions p with p % n == g,
      in order. */
  function Group<T>(s: seq<T>, g: nat, n: nat): seq<T>
    requires n > 0
  {
    if s == [] then []
    else Group(s[..|s| - 1], g, n) + (if (|s| - 1) % n == g then [s[|s| - 1]] else [])
  }

  function Partition<T>(s: seq<T>, n: nat): (groups: seq<seq<T>>)
    requires n > 0
    ensures |groups| == n
  {
    seq(n, g requires 0 <= g < n => Group(s, g, n))
  }

  function Flatten<T>(groups: seq<seq<T>>): seq<T> {
    if groups == [] then [] else groups[0] + Flatten(groups[1..])
  }

  lemma {:induction false} MulAtLeast(d: nat, n: nat)
    requires d >= 1
    ensures d * n >= n
  {
    if d > 1 {
      MulAtLeast(d - 1, n);
      assert d * n == (d - 1) * n + n;
    }
  }

  lemma MulWithinIsZero(d: int, n: nat)
    requires n > 0 && -(n as int) < d * n < n
    ensures d == 0
  {
    if d >= 1 {
      MulAtLeast(d, n);
      assert false;
    } else if d <= -1 {
      assert false;
    }
  }

  lemma DivModUnique(a: nat, n: nat, q: int, r: int)
    requires n > 0 && 0 <= r < n && a == q * n + r
    ensures a / n == q && a % n == r
  {
    var q', r' := a / n, a % n;
    assert (q - q') * n == r' - r;
    MulWithinIsZero(q - q', n);
  }

  /** How quotient and remainder move when the dividend grows by one. */
  lemma DivModNext(i: nat, n: nat)
    requires n > 0
    ensures i % n < n - 1 ==> (i + 1) % n == i % n + 1 && (i + 1) / n == i / n
    ensures i % n == n - 1 ==> (i + 1) % n == 0 && (i + 1) / n == i / n + 1
  {
    var q, r := i / n, i % n;
    assert i == q * n + r;
    if r < n - 1 {
      DivModUnique(i + 1, n, q, r + 1);
    } else {
      assert i + 1 == (q + 1) * n + 0;
      DivModUnique(i + 1, n, q + 1, 0);
    }
  }

  lemma ModBelow(a: nat, n: nat)
    requires 0 < n
    ensures a < n ==> a % n == a
    ensures a == n ==> a % n == 0
  {
    if a < n {
      DivModUnique(a, n, 0, a);
    } else if a == n {
      DivModUnique(a, n, 1, 0);
    }
  }

  /** Group g holds |s| / n elements, plus one when g is below |s| % n. */
  lemma {:induction false} GroupSize<T>(s: seq<T>, g: nat, n: nat)
    requires n > 0 && g < n
    ensures |Group(s, g, n)| == |s| / n + (if g < |s| % n then 1 else 0)
  {
    if s != [] {
      var i := |s| - 1;
      GroupSize(s[..i], g, n);
      DivModNext(i, n);
    }
  }

  /** Any two groups differ in size by at most one. */
  lemma Balanced<T>(s: seq<T>, n: nat, g1: nat, g2: nat)
    requires n > 0 && g1 < n && g2 < n
    ensures |Partition(s, n)[g1]| <= |Partition(s, n)[g2]| + 1
  {
    GroupSize(s, g1, n);
    GroupSize(s, g2, n);
  }

  /** The element at position p is element number p / n of group p % n. */
  lemma {:induction false} GroupAt<T>(s: seq<T>, p: nat, n: nat)
    requires n > 0 && p < |s|
    ensures p / n < |Group(s, p % n, n)| && Group(s, p % n, n)[p / n] == s[p]
  {
    var i := |s| - 1;
    var g := p % n;
    GroupSize(s[..i], g, n);
    if p == i {
      assert |Group(s[..i], g, n)| == p / n;
    } else {
      GroupAt(s[..i], p, n);
      assert s[..i][p] == s[p];
    }
  }

  lemma {:induction false} FlattenAppendTo<T>(groups: seq<seq<T>>, j: nat, x: T)
    requires j < |groups|
    ensures multiset(Flatten(groups[j := groups[j] + [x]])) == multiset(Flatten(groups)) + multiset{x}
  {
    var gs := groups[j := groups[j] + [x]];
    if j == 0 {
      assert gs[1..] == groups[1..];
    } else {
      assert gs[1..] == groups[1..][j - 1 := groups[1..][j - 1] + [x]];
      FlattenAppendTo(groups[1..], j - 1, x);
    }
  }

  /** Putting one more element at the end of the list appends it to group |s| % n only. */
  lemma PartitionSnoc<T>(s: seq<T>, x: T, n: nat)
    requires n > 0
    ensures Partition(s + [x], n) == Partition(s, n)[|s| % n := Partition(s, n)[|s| % n] + [x]]
  {
    var s' := s + [x];
    assert s'[..|s'| - 1] == s;
    var a := Partition(s', n);
    var b := Partition(s, n)[|s| % n := Partition(s, n)[|s| % n] + [x]];
    forall g | 0 <= g < n ensures a[g] == b[g] {
      assert a[g] == Group(s', g, n);
    }
  }

  /** Every element lands in exactly one group: the groups together are a permutation of s. */
  lemma {:induction false} PartitionIsPermutation<T>(s: seq<T>, n: nat)
    requires n > 0
    ensures multiset(Flatten(Partition(s, n))) == multiset(s)
  {
    if s == [] {
      var empty := Partition(s, n);
      assert forall g :: 0 <= g < n ==> empty[g] == [];
      FlattenEmpties(empty);
    } else {
      var i := |s| - 1;
      assert s == s[..i] + [s[i]];
      PartitionIsPermutation(s[..i], n);
      PartitionSnoc(s[..i], s[i], n);
      FlattenAppendTo(Partition(s[..i], n), i % n, s[i]);
    }
  }

  lemma {:induction false} FlattenEmpties<T>(groups: seq<seq<T>>)
    requires forall g :: 0 <= g < |groups| ==> groups[g] == []
    ensures Flatten(groups) == []
  {
    if groups != [] {
      FlattenEmpties(groups[1..]);
    }
  }

  /** The loop of the source: a cycling index i = (i + 1) % n over the elements, appending each
      element to groups[i]. */
  method Distribute<T>(s: seq<T>, n: nat) returns (groups: seq<seq<T>>)
    requires n > 0
    ensures groups == Partition(s, n)
  {
    groups := seq(n, _ => []);
    assert groups == Partition(s[..0], n);
    var i := 0;
    var k := 0;
    while k < |s|
      invariant 0 <= k <= |s| && i == k % n
      invariant groups == Partition(s[..k], n)
    {
      PartitionSnoc(s[..k], s[k], n);
      assert s[..k + 1] == s[..k] + [s[k]];
      groups := groups[i := groups[i] + [s[k]]];
      DivModNext(k, n);
      ModBelow(i + 1, n);
      i := (i + 1) % n;
      k := k + 1;
    }
    assert s[..k] == s;
  }
}
