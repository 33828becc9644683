// The Kotlin translation helpers. Both utils/extensions/Translate.kt and
// utils/extensions/TranslationExtensions.kt look a text up in the table of the language (cached
// per language after the first load) and fall back to a "[Translate to …]" marker; they differ in
// how the attributes fill the '#' placeholders. Translate.kt splits the text at every '#' and
// interleaves the pieces with the attributes; TranslationExtensions.kt replaces the first '#'
// once per attribute. The translation resources are an input: a table per language, empty when
// the resource is missing.

module KotlinTranslate {
  import opened Text
  import opened Collections
  import RoundRobin
  import opened KotlinLanguage

  /** The text in the chosen language (Translate.kt:42-58): English texts are their own
      translation; otherwise the table's entry, or the marker when there is none or it is blank. */
  function Resolved(lang: Language, text: string, table: map<string, string>): (r: string)
    ensures lang == English ==> r == text
    ensures lang != English && text in table && !IsBlank(table[text]) ==> r == table[text]
    ensures lang != English && (text !in table || IsBlank(table[text])) ==> r == MissingMarker(lang, text)
  {
    if lang == English then text
    else
      var found := if text in table then table[text] else "";
      if IsBlank(found) then MissingMarker(lang, text) else found
  }

  /** "[Translate to $lang]: $this", with the language's toString (Language.kt). */
  function MissingMarker(lang: Language, text: string): string {
    "[Translate to " + LanguageName(lang) + "]: " + text
  }

  /** The n-th element, or nothing past the end. */
  function At(s: seq<string>, n: nat): string {
    if n < |s| then s[n] else ""
  }

  function Rest(s: seq<string>): seq<string> {
    if s == [] then [] else s[1..]
  }

  /** What the loop of Translate.kt:62-69 has built after n rounds. */
  function Woven(parts: seq<string>, attrs: seq<string>, n: nat): string {
    if n == 0 then "" else Woven(parts, attrs, n - 1) + At(parts, n - 1) + At(attrs, n - 1)
  }

  function Max(a: nat, b: nat): nat {
    if a < b then b else a
  }

  /** The pieces interleaved with the attributes, for as many rounds as the longer of the two. */
  function Weave(parts: seq<string>, attrs: seq<string>): string {
    Woven(parts, attrs, Max(|parts|, |attrs|))
  }

  /** Rounds after both lists ran out add nothing. */
  lemma {:induction false} WovenPast(parts: seq<string>, attrs: seq<string>, n: nat)
    requires n >= |parts| && n >= |attrs|
    ensures Woven(parts, attrs, n) == Weave(parts, attrs)
    decreases n
  {
    if n > Max(|parts|, |attrs|) {
      WovenPast(parts, attrs, n - 1);
    }
  }

  /** Peeling the first round off: the first piece, the first attribute, then the rest woven. */
  lemma {:induction false} WovenCons(parts: seq<string>, attrs: seq<string>, n: nat)
    requires n >= 1
    ensures Woven(parts, attrs, n) == At(parts, 0) + At(attrs, 0) + Woven(Rest(parts), Rest(attrs), n - 1)
  {
    if n > 1 {
      WovenCons(parts, attrs, n - 1);
      assert At(parts, n - 1) == At(Rest(parts), n - 2);
      assert At(attrs, n - 1) == At(Rest(attrs), n - 2);
      var head := At(parts, 0) + At(attrs, 0);
      var mid := Woven(Rest(parts), Rest(attrs), n - 2);
      assert Woven(parts, attrs, n) == (head + mid) + At(parts, n - 1) + At(attrs, n - 1);
      AppendAssoc(head, mid, At(parts, n - 1));
      AppendAssoc(head, mid + At(parts, n - 1), At(attrs, n - 1));
    }
  }

  lemma WeaveCons(parts: seq<string>, attrs: seq<string>)
    requires parts != [] || attrs != []
    ensures Weave(parts, attrs) == At(parts, 0) + At(attrs, 0) + Weave(Rest(parts), Rest(attrs))
  {
    WovenCons(parts, attrs, Max(|parts|, |attrs|));
  }

  /** The translations cache of one file (Translate.kt:9, TranslationExtensions.kt:7). */
  class Translations {
    var cache: map<Language, map<string, string>>

    constructor()
      ensures cache == map[]
    {
      cache := map[];
    }

    /** The table of a language other than English, loaded from its resource on first use and
        kept from then on, whatever the resource says later. */
    method Table(lang: Language, resource: Language -> map<string, string>) returns (table: map<string, string>)
      requires lang != English
      modifies this
      ensures cache == if lang in old(cache) then old(cache) else old(cache)[lang := resource(lang)]
      ensures table == cache[lang]
    {
      if lang !in cache {
        cache := cache[lang := resource(lang)];
      }
      table := cache[lang];
    }

    /** String.translate(language, attributes) of Translate.kt:38-72: the language is the given
        one or the default; the resolved text is split at every '#' (keeping empty pieces) and
        the pieces are interleaved with the attributes. */
    method Translate(language: Option<Language>, defaultLanguage: Language, text: string, attributes: seq<string>,
                     resource: Language -> map<string, string>) returns (r: string)
      modifies this
      ensures var lang := if language.Some? then language.value else defaultLanguage;
              && cache == (if lang == English || lang in old(cache) then old(cache) else old(cache)[lang := resource(lang)])
              && r == Weave(Split(Resolved(lang, text, if lang == English then map[] else cache[lang]), '#'), attributes)
    {
      var lang := if language.Some? then language.value else defaultLanguage;
      var resolved := text;
      if lang != English {
        var table := Table(lang, resource);
        resolved := Resolved(lang, text, table);
      }
      var parts := Split(resolved, '#');
      var out := "";
      var ctr := 0;
      var rounds := Max(|parts|, |attributes|);
      while ctr < rounds
        invariant ctr <= rounds
        invariant out == Woven(parts, attributes, ctr)
      {
        if ctr < |parts| {
          out := out + parts[ctr];
        }
        if ctr < |attributes| {
          out := out + attributes[ctr];
        }
        ctr := ctr + 1;
      }
      r := out;
    }

    /** String.translate(language, attributes) of TranslationExtensions.kt:22-46: the same lookup,
        then each attribute in turn replaces the first '#' left. */
    method TranslateByReplace(language: Option<Language>, defaultLanguage: Language, text: string,
                              attributes: seq<string>, resource: Language -> map<string, string>) returns (r: string)
      modifies this
      ensures var lang := if language.Some? then language.value else defaultLanguage;
              && cache == (if lang == English || lang in old(cache) then old(cache) else old(cache)[lang := resource(lang)])
              && r == Substituted(Resolved(lang, text, if lang == English then map[] else cache[lang]), attributes)
    {
      var lang := if language.Some? then language.value else defaultLanguage;
      var out := text;
      if lang != English {
        var table := Table(lang, resource);
        out := Resolved(lang, text, table);
      }
      ghost var resolved := out;
      var i := 0;
      while i < |attributes|
        invariant i <= |attributes|
        invariant Substituted(resolved, attributes) == Substituted(out, attributes[i..])
      {
        assert attributes[i..][0] == attributes[i] && attributes[i..][1..] == attributes[i + 1..];
        out := ReplaceFirst(out, '#', attributes[i]);
        i := i + 1;
      }
      r := out;
    }
  }

  /** Each attribute in turn replacing the first '#' left. */
  function Substituted(text: string, attrs: seq<string>): string
    decreases |attrs|
  {
    if attrs == [] then text else Substituted(ReplaceFirst(text, '#', attrs[0]), attrs[1..])
  }

  /** The text with every copy of c taken out. */
  function DropChar(s: string, c: char): (r: string)
    ensures c !in r
    ensures forall ch :: ch in r ==> ch in s
  {
    if s == [] then [] else (if s[0] == c then [] else [s[0]]) + DropChar(s[1..], c)
  }

  /** Splitting at a separator after a piece without it. */
  lemma {:induction false} SplitAfterPiece(p: string, rest: string, sep: char)
    requires sep !in p
    ensures Split(p + [sep] + rest, sep) == [p] + Split(rest, sep)
  {
    if p != [] {
      var s := p + [sep] + rest;
      assert s[0] == p[0] && s[1..] == p[1..] + [sep] + rest;
      SplitAfterPiece(p[1..], rest, sep);
      var t := Split(s[1..], sep);
      assert t[0] == p[1..] && t[1..] == Split(rest, sep);
      assert [p[0]] + p[1..] == p;
    } else {
      assert p + [sep] + rest == [sep] + rest;
      assert ([sep] + rest)[1..] == rest;
    }
  }

  /** A text without the separator is one piece. */
  lemma {:induction false} SplitWhole(s: string, sep: char)
    requires sep !in s
    ensures Split(s, sep) == [s]
  {
    if s != [] {
      SplitWhole(s[1..], sep);
      assert [s[0]] + s[1..] == s;
    }
  }

  /** The first occurrence behind a prefix without one. */
  lemma {:induction false} IndexOfAfter(pre: string, s: string, c: char)
    requires c !in pre
    ensures IndexOf(pre + s, c) == if IndexOf(s, c).Some? then Some(|pre| + IndexOf(s, c).value) else None
  {
    if pre != [] {
      assert (pre + s)[0] == pre[0] && (pre + s)[1..] == pre[1..] + s;
      IndexOfAfter(pre[1..], s, c);
    } else {
      assert pre + s == s;
    }
  }

  /** Replacing the first '#' behind a prefix without one. */
  lemma ReplaceFirstAfter(pre: string, s: string, a: string)
    requires '#' !in pre
    ensures ReplaceFirst(pre + s, '#', a) == pre + ReplaceFirst(s, '#', a)
  {
    IndexOfAfter(pre, s, '#');
    var t := pre + s;
    match IndexOf(s, '#')
    case None =>
    case Some(j) =>
      assert t[..|pre| + j] == pre + s[..j];
      assert t[|pre| + j + 1..] == s[j + 1..];
      AppendAssoc(pre, s[..j], a);
      AppendAssoc(pre, s[..j] + a, s[j + 1..]);
  }

  /** A text, attributes and '#' placeholders that agree in number: every '#' receives the
      attribute of its position. */
  predicate Matching(parts: seq<string>, attrs: seq<string>) {
    |parts| == |attrs| + 1 && forall i :: 0 <= i < |attrs| ==> '#' !in attrs[i]
  }

  /** When the attributes match the placeholders in number and hold no '#' themselves, the two
      versions agree. */
  lemma {:induction false} VersionsAgree(text: string, attrs: seq<string>)
    requires Matching(Split(text, '#'), attrs)
    ensures Substituted(text, attrs) == Weave(Split(text, '#'), attrs)
    decreases |attrs|
  {
    var parts := Split(text, '#');
    SplitFacts(text);
    if attrs == [] {
      NoPlaceholderAgrees(text);
    } else {
      var k := SplitFirst(text);
      var rest := text[k + 1..];
      FirstPlaceholder(text, attrs);
      assert Matching(Split(rest, '#'), attrs[1..]) by {
        assert forall i :: 0 <= i < |attrs[1..]| ==> attrs[1..][i] == attrs[i + 1];
      }
      VersionsAgree(rest, attrs[1..]);
      WeaveCons(parts, attrs);
      assert At(parts, 0) == text[..k] && Rest(parts) == Split(rest, '#');
      assert At(attrs, 0) == attrs[0] && Rest(attrs) == attrs[1..];
      AppendAssoc(text[..k], attrs[0], Weave(Split(rest, '#'), attrs[1..]));
    }
  }

  /** A text without placeholders and no attributes: both versions give the text. */
  lemma NoPlaceholderAgrees(text: string)
    requires '#' !in text
    ensures Substituted(text, []) == Weave(Split(text, '#'), [])
  {
    SplitWhole(text, '#');
    WeaveAlone([text]);
    assert RoundRobin.Flatten([text]) == text + RoundRobin.Flatten([]);
  }

  /** The first placeholder: the piece before it is the first piece, and it receives the first
      attribute. */
  lemma FirstPlaceholder(text: string, attrs: seq<string>)
    requires '#' in text && attrs != [] && '#' !in attrs[0]
    ensures var k := SplitFirst(text);
            && Split(text, '#') == [text[..k]] + Split(text[k + 1..], '#')
            && Substituted(text, attrs) == text[..k] + attrs[0] + Substituted(text[k + 1..], attrs[1..])
  {
    var k := SplitFirst(text);
    var p0, rest := text[..k], text[k + 1..];
    assert text == p0 + ['#'] + rest;
    SplitAfterPiece(p0, rest, '#');
    var a := attrs[0];
    assert ReplaceFirst(text, '#', a) == p0 + a + rest by {
      IndexOfAfter(p0, ['#'] + rest, '#');
      assert text == p0 + (['#'] + rest);
      assert text[..|p0|] == p0 && text[|p0| + 1..] == rest;
    }
    SubstitutedAfter(p0 + a, rest, attrs[1..]);
  }

  /** The position of the first '#' of a text that has one. */
  function SplitFirst(text: string): (k: nat)
    requires '#' in text
    ensures k < |text| && text[k] == '#' && '#' !in text[..k]
  {
    IndexOf(text, '#').value
  }

  /** A text splits into one piece exactly when it has no separator. */
  lemma SplitFacts(text: string)
    ensures '#' !in text <==> |Split(text, '#')| == 1
  {
    if '#' !in text {
      SplitWhole(text, '#');
    } else {
      var k := SplitFirst(text);
      assert text == text[..k] + ['#'] + text[k + 1..];
      SplitAfterPiece(text[..k], text[k + 1..], '#');
    }
  }

  /** Substituting behind a prefix without '#' leaves the prefix in front. */
  lemma {:induction false} SubstitutedAfter(pre: string, s: string, attrs: seq<string>)
    requires '#' !in pre
    ensures Substituted(pre + s, attrs) == pre + Substituted(s, attrs)
    decreases |attrs|
  {
    if attrs != [] {
      ReplaceFirstAfter(pre, s, attrs[0]);
      SubstitutedAfter(pre, ReplaceFirst(s, '#', attrs[0]), attrs[1..]);
    }
  }

  /** Without attributes the pieces are joined up again. */
  lemma {:induction false} WeaveAlone(parts: seq<string>)
    ensures Weave(parts, []) == RoundRobin.Flatten(parts)
  {
    if parts == [] {
      assert Weave([], []) == "";
    } else {
      WeaveCons(parts, []);
      WeaveAlone(parts[1..]);
    }
  }

  lemma {:induction false} FlattenSplit(text: string, c: char)
    ensures RoundRobin.Flatten(Split(text, c)) == DropChar(text, c)
  {
    if text != [] {
      var t := Split(text[1..], c);
      FlattenSplit(text[1..], c);
      if text[0] == c {
        assert ([[]] + t)[1..] == t;
      } else {
        var parts := [[text[0]] + t[0]] + t[1..];
        assert parts[1..] == t[1..];
        assert RoundRobin.Flatten(t) == t[0] + RoundRobin.Flatten(t[1..]);
        AppendAssoc([text[0]], t[0], RoundRobin.Flatten(t[1..]));
      }
    }
  }

  /** Without attributes every '#' is dropped. */
  lemma UnmatchedPlaceholdersVanish(text: string)
    ensures Weave(Split(text, '#'), []) == DropChar(text, '#')
  {
    WeaveAlone(Split(text, '#'));
    FlattenSplit(text, '#');
  }

  /** An English text without placeholders and without attributes comes back unchanged. */
  lemma EnglishPlainUnchanged(text: string)
    requires '#' !in text
    ensures Weave(Split(Resolved(English, text, map[]), '#'), []) == text
    ensures Substituted(Resolved(English, text, map[]), []) == text
  {
    SplitWhole(text, '#');
    WeaveAlone([text]);
    assert RoundRobin.Flatten([text]) == text + RoundRobin.Flatten([]);
  }

  /** Attributes beyond the placeholders are appended at the end, one after the other. */
  lemma {:induction false} ExtraAttributesAppended(parts: seq<string>, attrs: seq<string>)
    requires |attrs| >= |parts|
    ensures Weave(parts, attrs) == Weave(parts, attrs[..|parts|]) + RoundRobin.Flatten(attrs[|parts|..])
    decreases |attrs|
  {
    if attrs != [] {
      WeaveCons(parts, attrs);
      if parts == [] {
        assert Weave(parts, attrs[..0]) == "";
        ExtraAttributesAppended([], attrs[1..]);
        assert attrs[1..][..0] == [];
        assert Weave([], []) == "";
        assert Rest(attrs) == attrs[1..];
        assert attrs[0..] == attrs;
      } else {
        ExtraAttributesAppended(Rest(parts), Rest(attrs));
        var short := attrs[..|parts|];
        WeaveCons(parts, short);
        assert Rest(short) == Rest(attrs)[..|Rest(parts)|];
        assert Rest(attrs)[|Rest(parts)|..] == attrs[|parts|..];
        AppendAssoc(At(parts, 0) + At(attrs, 0), Weave(Rest(parts), Rest(short)), RoundRobin.Flatten(attrs[|parts|..]));
      }
    }
  }

  /** A missing or blank translation shows the marker with the language's name in place of the
      text. */
  lemma MissingTranslationMarked(lang: Language, text: string, table: map<string, string>)
    requires lang != English && '#' !in MissingMarker(lang, text)
    requires text !in table || IsBlank(table[text])
    ensures Weave(Split(Resolved(lang, text, table), '#'), []) == MissingMarker(lang, text)
  {
    var marked := MissingMarker(lang, text);
    SplitWhole(marked, '#');
    WeaveAlone([marked]);
    assert RoundRobin.Flatten([marked]) == marked + RoundRobin.Flatten([]);
  }

  /** Where the versions part: with an attribute that holds a '#', the replacing version sends
      the next attribute into it while the splitting version leaves it alone. */
  lemma VersionsDiffer()
    ensures Weave(Split("#", '#'), ["#", "x"]) == "#x"
    ensures Substituted("#", ["#", "x"]) == "x"
  {
    assert Split("#", '#') == ["", ""];
    assert ReplaceFirst("#", '#', "#") == "#";
    assert ReplaceFirst("#", '#', "x") == "x";
    WeaveCons(["", ""], ["#", "x"]);
    WeaveCons([""], ["x"]);
    assert Weave([], []) == "";
  }
}
