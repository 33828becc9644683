// Shared helpers: an Option type and the handful of Python / Kotlin string
// operations the bot relies on (strip, split, join, startswith, replace).
// Characters are Unicode code points; whitespace is the ASCII whitespace that
// Python's str.isspace and Kotlin's Char.isWhitespace both accept.

module Text {

  datatype Option<T> = None | Some(value: T)

  predicate IsSpace(c: char) {
    c == ' ' || c == '\t' || c == '\n' || c == '\r' || c == '\U{B}' || c == '\U{C}'
    || ('\U{1C}' <= c <= '\U{1F}')
  }

  predicate IsBlank(s: string) {
    forall i :: 0 <= i < |s| ==> IsSpace(s[i])
  }

  predicate StartsWith(s: string, p: string) {
    |p| <= |s| && s[..|p|] == p
  }

  /** The position of the first occurrence of c in s. */
  function IndexOf(s: string, c: char): (r: Option<nat>)
    ensures r.None? <==> c !in s
    ensures r.Some? ==> r.value < |s| && s[r.value] == c && c !in s[..r.value]
  {
    if s == [] then None
    else if s[0] == c then Some(0)
    else match IndexOf(s[1..], c)
      case None => None
      case Some(i) => assert s[..i + 1] == [s[0]] + s[1..][..i]; Some(i + 1)
  }

  /** Python's str.lstrip() with no argument. */
  function TrimStart(s: string): (r: string)
    ensures |r| <= |s|
  {
    if s != [] && IsSpace(s[0]) then TrimStart(s[1..]) else s
  }

  /** lstrip() removes a blank prefix and leaves a text that does not start with whitespace. */
  lemma {:induction false} TrimStartFacts(s: string)
    ensures var r := TrimStart(s);
            r == s[|s| - |r|..] && IsBlank(s[..|s| - |r|]) && (r == [] || !IsSpace(r[0]))
  {
    if s != [] && IsSpace(s[0]) {
      TrimStartFacts(s[1..]);
      var r := TrimStart(s[1..]);
      assert s[..|s| - |r|] == [s[0]] + s[1..][..|s| - 1 - |r|];
    }
  }

  /** Python's str.rstrip() with no argument. */
  function TrimEnd(s: string): (r: string)
    ensures |r| <= |s|
  {
    if s != [] && IsSpace(s[|s| - 1]) then TrimEnd(s[..|s| - 1]) else s
  }

  /** rstrip() removes a blank suffix and leaves a text that does not end with whitespace. */
  lemma {:induction false} TrimEndFacts(s: string)
    ensures var r := TrimEnd(s);
            r == s[..|r|] && IsBlank(s[|r|..]) && (r == [] || !IsSpace(r[|r| - 1]))
  {
    if s != [] && IsSpace(s[|s| - 1]) {
      TrimEndFacts(s[..|s| - 1]);
      var r := TrimEnd(s[..|s| - 1]);
      assert s[|r|..] == s[..|s| - 1][|r|..] + [s[|s| - 1]];
    }
  }

  /** Python's str.strip() (and Kotlin's trim()) on ASCII whitespace. */
  function Strip(s: string): (r: string)
    ensures r == [] || (!IsSpace(r[0]) && !IsSpace(r[|r| - 1]))
    ensures IsBlank(s) <==> r == []
  {
    StripFacts(s);
    TrimEnd(TrimStart(s))
  }

  lemma StripFacts(s: string)
    ensures var r := TrimEnd(TrimStart(s));
            && (r == [] || (!IsSpace(r[0]) && !IsSpace(r[|r| - 1])))
            && (IsBlank(s) <==> r == [])
  {
    var t := TrimStart(s);
    var r := TrimEnd(t);
    TrimStartFacts(s);
    TrimEndFacts(t);
    var k := |s| - |t|;
    if r != [] {
      assert r[0] == t[0];
      assert s[k] == t[0];
    } else {
      assert IsBlank(t) by {
        assert t[|r|..] == t;
      }
      assert t == [];
      assert s[..k] == s;
    }
  }

  lemma StripOfUnpadded(s: string)
    requires s == [] || (!IsSpace(s[0]) && !IsSpace(s[|s| - 1]))
    ensures Strip(s) == s
  {
  }

  /** Stripping an unpadded text followed by blanks gives the text back. */
  lemma StripPadded(n: string, pad: string)
    requires n == [] || (!IsSpace(n[0]) && !IsSpace(n[|n| - 1]))
    requires IsBlank(pad)
    ensures Strip(n + pad) == n
  {
    if n != [] {
      assert (n + pad)[0] == n[0];
      assert TrimStart(n + pad) == n + pad;
      TrimEndPadded(n, pad);
    }
  }

  lemma {:induction false} TrimEndPadded(n: string, pad: string)
    requires n != [] && !IsSpace(n[|n| - 1])
    requires IsBlank(pad)
    ensures TrimEnd(n + pad) == n
  {
    if pad == [] {
      assert n + pad == n;
    } else {
      var p := pad[..|pad| - 1];
      assert (n + pad)[..|n + pad| - 1] == n + p;
      TrimEndPadded(n, p);
    }
  }

  /** Python's str.split(sep) for a one-character separator: the pieces between separators. */
  function Split(s: string, sep: char): (r: seq<string>)
    ensures |r| >= 1
    ensures forall i :: 0 <= i < |r| ==> sep !in r[i]
  {
    if s == [] then [[]]
    else if s[0] == sep then [[]] + Split(s[1..], sep)
    else
      var t := Split(s[1..], sep);
      [[s[0]] + t[0]] + t[1..]
  }

  /** Python's sep.join(parts) (and Kotlin's joinToString(sep)). */
  function Join(sep: string, parts: seq<string>): string {
    if |parts| == 0 then []
    else if |parts| == 1 then parts[0]
    else parts[0] + sep + Join(sep, parts[1..])
  }

  lemma {:induction false} JoinSplit(s: string, sep: char)
    ensures Join([sep], Split(s, sep)) == s
  {
    if s == [] {
    } else if s[0] == sep {
      JoinSplit(s[1..], sep);
      assert Split(s, sep) == [[]] + Split(s[1..], sep);
    } else {
      JoinSplit(s[1..], sep);
      var t := Split(s[1..], sep);
      assert Split(s, sep) == [[s[0]] + t[0]] + t[1..];
      JoinConsHead([sep], s[0], t);
      assert [s[0]] + s[1..] == s;
    }
  }

  /** Putting a character in front of the first part puts it in front of the join. */
  lemma JoinConsHead(sep: string, c: char, t: seq<string>)
    requires |t| >= 1
    ensures Join(sep, [[c] + t[0]] + t[1..]) == [c] + Join(sep, t)
  {
    var u := [[c] + t[0]] + t[1..];
    if |t| > 1 {
      assert u[1..] == t[1..];
      assert Join(sep, u) == ([c] + t[0]) + sep + Join(sep, t[1..]);
      assert Join(sep, t) == t[0] + sep + Join(sep, t[1..]);
    }
  }

  lemma {:induction false} SplitJoin(parts: seq<string>, sep: char)
    requires |parts| >= 1
    requires forall i :: 0 <= i < |parts| ==> sep !in parts[i]
    ensures Split(Join([sep], parts), sep) == parts
  {
    if |parts| == 1 {
      SplitFree(parts[0], sep);
    } else {
      SplitJoin(parts[1..], sep);
      SplitPrefix(parts[0], Join([sep], parts[1..]), sep);
      assert Join([sep], parts) == parts[0] + ([sep] + Join([sep], parts[1..]));
    }
  }

  lemma {:induction false} SplitFree(s: string, sep: char)
    requires sep !in s
    ensures Split(s, sep) == [s]
  {
    if s != [] {
      SplitFree(s[1..], sep);
      assert [s[0]] + s[1..] == s;
    }
  }

  lemma {:induction false} SplitPrefix(a: string, b: string, sep: char)
    requires sep !in a
    ensures Split(a + [sep] + b, sep) == [a] + Split(b, sep)
  {
    if a == [] {
      assert a + [sep] + b == [sep] + b;
      assert ([sep] + b)[1..] == b;
    } else {
      assert (a + [sep] + b)[1..] == a[1..] + [sep] + b;
      SplitPrefix(a[1..], b, sep);
      assert [a[0]] + a[1..] == a;
    }
  }

  /** Appending one part to a join adds the separator and that part. */
  lemma {:induction false} JoinSnoc(sep: string, a: seq<string>, x: string)
    ensures Join(sep, a + [x]) == if a == [] then x else Join(sep, a) + sep + x
  {
    if |a| == 0 {
      assert a + [x] == [x];
    } else if |a| == 1 {
      assert (a + [x])[1..] == [x];
    } else {
      assert (a + [x])[1..] == a[1..] + [x];
      JoinSnoc(sep, a[1..], x);
    }
  }

  /** Joining two non-empty lists of parts is joining each and putting the separator between. */
  lemma {:induction false} JoinAppend(sep: string, a: seq<string>, b: seq<string>)
    requires a != [] && b != []
    ensures Join(sep, a + b) == Join(sep, a) + sep + Join(sep, b)
  {
    if |a| == 1 {
      assert (a + b)[1..] == b;
    } else {
      assert (a + b)[1..] == a[1..] + b;
      JoinAppend(sep, a[1..], b);
    }
  }

  /** A join of non-empty parts starts with the first part's first character and ends with the
      last part's last character. */
  lemma {:induction false} JoinEnds(sep: string, parts: seq<string>)
    requires |parts| >= 1 && forall i :: 0 <= i < |parts| ==> parts[i] != []
    ensures var j := Join(sep, parts);
            j != [] && j[0] == parts[0][0] && j[|j| - 1] == parts[|parts| - 1][|parts[|parts| - 1]| - 1]
  {
    if |parts| > 1 {
      JoinEnds(sep, parts[1..]);
    }
  }

  /** A character in neither the separator nor any part is not in the join. */
  lemma {:induction false} JoinFree(sep: string, parts: seq<string>, c: char)
    requires c !in sep && forall i :: 0 <= i < |parts| ==> c !in parts[i]
    ensures c !in Join(sep, parts)
  {
    if |parts| > 1 {
      JoinFree(sep, parts[1..], c);
    }
  }

  /** A character absent from a text is absent from each of its pieces. */
  lemma {:induction false} SplitFreeOf(s: string, sep: char, c: char)
    requires c !in s
    ensures forall k :: 0 <= k < |Split(s, sep)| ==> c !in Split(s, sep)[k]
  {
    if s != [] {
      assert c !in s[1..] by {
        forall j | 0 <= j < |s[1..]| ensures s[1..][j] != c {
          assert s[1..][j] == s[j + 1];
        }
      }
      SplitFreeOf(s[1..], sep, c);
    }
  }

  /** Stripping removes characters and adds none. */
  lemma StripFreeOf(s: string, c: char)
    requires c !in s
    ensures c !in Strip(s)
  {
    var t := TrimStart(s);
    TrimStartFacts(s);
    assert c !in t;
    var r := TrimEnd(t);
    TrimEndFacts(t);
    assert c !in r;
  }

  /** Stripping twice is stripping once. */
  lemma StripTwice(s: string)
    ensures Strip(Strip(s)) == Strip(s)
  {
    StripOfUnpadded(Strip(s));
  }

  /** Python's str.split(sep, 1): the text before the first separator and the rest. */
  function SplitOnce(s: string, sep: char): (r: seq<string>)
    ensures sep !in s ==> r == [s]
    ensures sep in s ==> |r| == 2 && r[0] + [sep] + r[1] == s && sep !in r[0]
  {
    match IndexOf(s, sep)
    case None => [s]
    case Some(i) =>
      assert s == s[..i] + [sep] + s[i + 1..];
      [s[..i], s[i + 1..]]
  }

  /** A separator preceded by a text without one is where split(sep, 1) cuts. */
  lemma SplitOnceAt(a: string, b: string, sep: char)
    requires sep !in a
    ensures SplitOnce(a + [sep] + b, sep) == [a, b]
  {
    var s := a + [sep] + b;
    assert s[|a|] == sep;
    var r := SplitOnce(s, sep);
    assert |r[0]| == |a|;
    assert r[0] == s[..|a|] && a == s[..|a|];
    assert r[1] == s[|a| + 1..] && b == s[|a| + 1..];
  }

  /** One whitespace character before an unpadded text is stripped away. */
  lemma StripLeadingSpace(c: char, x: string)
    requires IsSpace(c) && x != [] && !IsSpace(x[0]) && !IsSpace(x[|x| - 1])
    ensures Strip([c] + x) == x
  {
    assert ([c] + x)[1..] == x;
    assert TrimStart([c] + x) == TrimStart(x);
  }

  /** The maximal runs of non-whitespace characters, in order (Python's re.split(r"\s+", s)
      with the empty pieces dropped). */
  function Words(s: string): (r: seq<string>)
    ensures forall i :: 0 <= i < |r| ==> r[i] != [] && !HasSpace(r[i])
  {
    if s == [] then []
    else if IsSpace(s[0]) then Words(s[1..])
    else
      var t := Words(s[1..]);
      if |s| > 1 && !IsSpace(s[1]) && t != [] then [[s[0]] + t[0]] + t[1..]
      else [[s[0]]] + t
  }

  predicate HasSpace(s: string) {
    exists i :: 0 <= i < |s| && IsSpace(s[i])
  }

  /** The characters of s that are not whitespace, in order. */
  function NonSpace(s: string): string {
    if s == [] then [] else (if IsSpace(s[0]) then [] else [s[0]]) + NonSpace(s[1..])
  }

  function Concat(parts: seq<string>): string {
    if parts == [] then [] else parts[0] + Concat(parts[1..])
  }

  /** Gluing the words back together gives exactly the non-whitespace characters. */
  lemma {:induction false} WordsCoverText(s: string)
    ensures Concat(Words(s)) == NonSpace(s)
  {
    if s == [] {
    } else if IsSpace(s[0]) {
      WordsCoverText(s[1..]);
    } else {
      WordsCoverText(s[1..]);
      var t := Words(s[1..]);
      if |s| > 1 && !IsSpace(s[1]) && t != [] {
        assert Concat([[s[0]] + t[0]] + t[1..]) == [s[0]] + t[0] + Concat(t[1..]);
        assert Concat(t) == t[0] + Concat(t[1..]);
      } else {
        assert Concat([[s[0]]] + t) == [s[0]] + Concat(t);
      }
    }
  }

  /** Python's str.replace(p, r): every non-overlapping occurrence of p, scanning from
      the left, is replaced by r. */
  function Replace(s: string, p: string, r: string): string
    requires p != []
    decreases |s|
  {
    if |s| < |p| then s
    else if s[..|p|] == p then r + Replace(s[|p|..], p, r)
    else [s[0]] + Replace(s[1..], p, r)
  }

  /** Every character of s followed by r. */
  function Interleave(s: string, r: string): string {
    if s == [] then [] else [s[0]] + r + Interleave(s[1..], r)
  }

  /** Python's s.replace(p, r), also for an empty p, which puts r around every character. */
  function ReplaceAll(s: string, p: string, r: string): string {
    if p == [] then r + Interleave(s, r) else Replace(s, p, r)
  }

  /** Replacing one character by another changes exactly the positions that hold it. */
  lemma {:induction false} ReplaceChar(s: string, c: char, d: char)
    ensures |Replace(s, [c], [d])| == |s|
    ensures forall i :: 0 <= i < |s| ==> Replace(s, [c], [d])[i] == (if s[i] == c then d else s[i])
    decreases |s|
  {
    if |s| >= 1 {
      ReplaceChar(s[1..], c, d);
      assert s[..1] == [c] <==> s[0] == c;
    }
  }

  predicate OccursAt(s: string, p: string, j: int) {
    0 <= j && j + |p| <= |s| && s[j..j + |p|] == p
  }

  lemma OccursShift(s: string, p: string, j: int)
    requires 1 <= j && s != []
    ensures OccursAt(s, p, j) == OccursAt(s[1..], p, j - 1)
  {
    if j + |p| <= |s| {
      var a, b := s[j..j + |p|], s[1..][j - 1..j - 1 + |p|];
      forall k | 0 <= k < |p| ensures a[k] == b[k] {
        assert a[k] == s[j + k];
        assert b[k] == s[1..][j - 1 + k];
      }
      assert a == b;
    }
  }

  /** The position of the first occurrence of the text p in s (Python's str.find, with None
      for -1). */
  function Find(s: string, p: string): (k: Option<nat>)
    requires p != []
    ensures k.Some? ==> k.value + |p| <= |s|
    decreases |s|
  {
    if |s| < |p| then None
    else if s[..|p|] == p then Some(0)
    else match Find(s[1..], p)
      case None => None
      case Some(i) => Some(i + 1)
  }

  /** Find gives an occurrence with none before it, or None when p does not occur at all. */
  lemma {:induction false} FindIsFirst(s: string, p: string)
    requires p != []
    ensures Find(s, p).Some? ==> OccursAt(s, p, Find(s, p).value)
    ensures Find(s, p).Some? ==> forall j :: 0 <= j < Find(s, p).value ==> !OccursAt(s, p, j)
    ensures Find(s, p).None? ==> forall j :: 0 <= j ==> !OccursAt(s, p, j)
    decreases |s|
  {
    if |s| >= |p| && s[..|p|] != p {
      FindIsFirst(s[1..], p);
      assert !OccursAt(s, p, 0);
      match Find(s[1..], p)
      case None =>
        forall j | 1 <= j ensures !OccursAt(s, p, j) {
          OccursShift(s, p, j);
        }
      case Some(i) =>
        assert Find(s, p) == Some(i + 1);
        OccursShift(s, p, i + 1);
        forall j | 1 <= j < i + 1 ensures !OccursAt(s, p, j) {
          OccursShift(s, p, j);
        }
    }
  }

  /** Replace works occurrence by occurrence: the text before the first occurrence is kept,
      that occurrence becomes r, and the rest is treated the same way; without an occurrence
      the text is unchanged. */
  lemma {:induction false} ReplaceByFirstOccurrence(s: string, p: string, r: string)
    requires p != []
    ensures Find(s, p).None? ==> Replace(s, p, r) == s
    ensures Find(s, p).Some? ==>
      Replace(s, p, r) == s[..Find(s, p).value] + r + Replace(s[Find(s, p).value + |p|..], p, r)
  {
    match Find(s, p)
    case None => ReplaceWithout(s, p, r);
    case Some(i) => ReplaceAtFirst(s, p, r, i);
  }

  lemma {:induction false} ReplaceWithout(s: string, p: string, r: string)
    requires p != [] && Find(s, p).None?
    ensures Replace(s, p, r) == s
    decreases |s|
  {
    if |s| >= |p| {
      ReplaceWithout(s[1..], p, r);
      ReplaceStep(s, p, r);
      assert [s[0]] + s[1..] == s;
    }
  }

  lemma ReplaceAtFirst(s: string, p: string, r: string, i: nat)
    requires p != [] && Find(s, p) == Some(i)
    ensures Replace(s, p, r) == s[..i] + r + Replace(s[i + |p|..], p, r)
  {
    SplitAtFirst(s, p, i);
    ReplaceAround(s[..i], s[i..], p, r);
  }

  /** A text without occurrences, then one occurrence, then the rest. */
  lemma ReplaceAround(a: string, b: string, p: string, r: string)
    requires p != [] && |b| >= |p| && b[..|p|] == p
    requires forall j :: 0 <= j < |a| ==> !OccursAt(a + b, p, j)
    ensures Replace(a + b, p, r) == a + r + Replace(b[|p|..], p, r)
  {
    ReplaceKeepsPrefix(a, b, p, r);
    ReplaceAtStart(b, p, r);
  }

  /** Cut at the first occurrence, s is a text without occurrences followed by one starting at 0. */
  lemma SplitAtFirst(s: string, p: string, i: nat)
    requires p != [] && Find(s, p) == Some(i)
    ensures s[..i] + s[i..] == s
    ensures forall j :: 0 <= j < |s[..i]| ==> !OccursAt(s[..i] + s[i..], p, j)
    ensures |s[i..]| >= |p| && s[i..][..|p|] == p && s[i..][|p|..] == s[i + |p|..]
  {
    FindIsFirst(s, p);
    assert s[..i] + s[i..] == s;
    var b := s[i..];
    assert OccursAt(s, p, i);
    forall k | 0 <= k < |p| ensures b[..|p|][k] == p[k] {
      assert b[..|p|][k] == s[i + k] == s[i..i + |p|][k];
    }
  }

  lemma ReplaceAtStart(s: string, p: string, r: string)
    requires p != [] && |s| >= |p| && s[..|p|] == p
    ensures Replace(s, p, r) == r + Replace(s[|p|..], p, r)
  {
  }

  lemma ReplaceStep(s: string, p: string, r: string)
    requires p != [] && |s| >= |p| && s[..|p|] != p
    ensures Replace(s, p, r) == [s[0]] + Replace(s[1..], p, r)
  {
  }

  /** A prefix in which no occurrence of p starts is kept as it is. */
  lemma {:induction false} ReplaceKeepsPrefix(a: string, b: string, p: string, r: string)
    requires p != []
    requires forall j :: 0 <= j < |a| ==> !OccursAt(a + b, p, j)
    ensures Replace(a + b, p, r) == a + Replace(b, p, r)
    decreases |a|
  {
    if a != [] {
      var s := a + b;
      assert !OccursAt(s, p, 0);
      if |s| < |p| {
        assert Replace(s, p, r) == s;
        assert Replace(b, p, r) == b;
      } else {
        assert s[1..] == a[1..] + b;
        forall j | 0 <= j < |a[1..]| ensures !OccursAt(a[1..] + b, p, j) {
          OccursShift(s, p, j + 1);
        }
        assert s[0..|p|] == s[..|p|];
        assert Replace(s, p, r) == [s[0]] + Replace(s[1..], p, r);
        ReplaceKeepsPrefix(a[1..], b, p, r);
        assert s[0] == a[0] && [a[0]] + a[1..] == a;
      }
    } else {
      assert a + b == b;
    }
  }

  /** The first character of p occurs nowhere else in p ("#USER", "#CHANNEL"), so an
      occurrence of p cannot start inside another one. */
  predicate HeadUnique(p: string) {
    p != [] && p[0] !in p[1..]
  }

  /** No occurrence of p starts in a piece without one that is followed by p. */
  lemma NoOccurrenceBeforeSeparator(q: string, p: string, rest: string)
    requires HeadUnique(p) && Find(q, p).None?
    ensures forall j :: 0 <= j < |q| ==> !OccursAt(q + (p + rest), p, j)
  {
    FindIsFirst(q, p);
    var s := q + (p + rest);
    forall j | 0 <= j < |q| ensures !OccursAt(s, p, j) {
      if j + |p| <= |q| {
        assert !OccursAt(q, p, j);
        assert s[j..j + |p|] == q[j..j + |p|];
      } else {
        var k := |q| - j;
        assert s[j + k] == p[0];
        assert p[k] == p[1..][k - 1];
        NotOccursByChar(s, p, j, k);
      }
    }
  }

  /** Replacing p in pieces joined by p, none of which holds p, joins the pieces by r. */
  lemma {:induction false} ReplaceJoin(parts: seq<string>, p: string, r: string)
    requires HeadUnique(p)
    requires forall i :: 0 <= i < |parts| ==> Find(parts[i], p).None?
    ensures Replace(Join(p, parts), p, r) == Join(r, parts)
    decreases |parts|
  {
    if |parts| == 1 {
      ReplaceWithout(parts[0], p, r);
    } else if |parts| > 1 {
      var q, rest := parts[0], Join(p, parts[1..]);
      NoOccurrenceBeforeSeparator(q, p, rest);
      assert Join(p, parts) == q + (p + rest);
      ReplaceKeepsPrefix(q, p + rest, p, r);
      assert (p + rest)[..|p|] == p && (p + rest)[|p|..] == rest;
      ReplaceJoin(parts[1..], p, r);
    }
  }

  /** An occurrence of p at position j needs every character of p in place. */
  lemma NotOccursByChar(s: string, p: string, j: nat, k: nat)
    requires k < |p| && (j + k < |s| ==> s[j + k] != p[k])
    ensures !OccursAt(s, p, j)
  {
  }

  /** Kotlin's String.replaceFirst(c, r): only the first occurrence of c is replaced. */
  function ReplaceFirst(s: string, c: char, r: string): (t: string)
    ensures c !in s ==> t == s
    ensures c in s ==> exists k :: 0 <= k < |s| && s[k] == c && c !in s[..k] && t == s[..k] + r + s[k + 1..]
  {
    match IndexOf(s, c)
    case None => s
    case Some(k) => s[..k] + r + s[k + 1..]
  }

  /** ASCII lower-casing of one character. */
  function LowerChar(c: char): char {
    if 'A' <= c <= 'Z' then (c as int + 32) as char else c
  }

  function Lower(s: string): (r: string)
    ensures |r| == |s| && forall i :: 0 <= i < |s| ==> r[i] == LowerChar(s[i])
  {
    if s == [] then [] else [LowerChar(s[0])] + Lower(s[1..])
  }

  predicate IsDigit(c: char) { '0' <= c <= '9' }

  function DigitsValue(s: string): nat
    requires forall i :: 0 <= i < |s| ==> IsDigit(s[i])
  {
    if s == [] then 0
    else
      assert IsDigit(s[|s| - 1]);
      DigitsValue(s[..|s| - 1]) * 10 + (s[|s| - 1] as int - '0' as int)
  }

  /** Python's int(s) on a string: surrounding whitespace, an optional sign and a non-empty
      run of ASCII digits; None stands for the ValueError. */
  function ParseInt(s: string): (r: Option<int>)
    ensures r.Some? ==> Strip(s) != []
  {
    ParseSigned(Strip(s))
  }

  /** An optional sign and a non-empty run of ASCII digits, with nothing around them. */
  function ParseSigned(t: string): (r: Option<int>)
    ensures r.Some? ==> t != []
  {
    if t == [] then None
    else
      var digits := if t[0] == '-' || t[0] == '+' then t[1..] else t;
      if digits != [] && forall i :: 0 <= i < |digits| ==> IsDigit(digits[i]) then
        var v: int := DigitsValue(digits);
        Some(if t[0] == '-' then -v else v)
      else None
  }

  /** int() strips the text itself, so `int(text.strip())` and `int(text)` agree. */
  lemma ParseIntStripped(s: string)
    ensures ParseInt(Strip(s)) == ParseInt(s)
  {
    StripTwice(s);
  }

  /** The decimal text of a natural number (Python's str(n)). */
  function NatToString(n: nat): (s: string)
    ensures s != [] && forall i :: 0 <= i < |s| ==> IsDigit(s[i])
    ensures DigitsValue(s) == n
  {
    if n < 10 then [('0' as int + n) as char]
    else
      var h := NatToString(n / 10);
      var s := h + [('0' as int + n % 10) as char];
      assert s[..|s| - 1] == h;
      s
  }

  /** Reading back the decimal text of a number gives the number. */
  lemma ParseIntOfNat(n: nat)
    ensures ParseInt(NatToString(n)) == Some(n)
  {
    var s := NatToString(n);
    StripOfUnpadded(s);
    assert IsDigit(s[0]) && s[0] != '-' && s[0] != '+';
    assert ParseSigned(s) == Some(DigitsValue(s));
  }
}
