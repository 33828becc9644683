// The Kotlin /emojify command (src/main/kotlin/org/fuchss/deltabot/command/user/Emojify.kt): the
// text is lower-cased, everything but letters, digits, spaces, '!' and '?' is dropped, and each
// remaining character becomes a Discord emoji code.

module KotlinEmojify {
  import opened Text

  /** The characters kept (Emojify.kt:13, 26). */
  predicate Allowed(c: char) {
    ('a' <= c <= 'z') || ('0' <= c <= '9') || c == ' ' || c == '!' || c == '?'
  }

  predicate AllAllowed(s: string) {
    forall i :: 0 <= i < |s| ==> Allowed(s[i])
  }

  /** The characters of a text that are allowed, in order. */
  function Kept(s: string): (r: string)
    ensures |r| <= |s|
    ensures AllAllowed(r)
    ensures forall i :: 0 <= i < |s| && Allowed(s[i]) ==> s[i] in r
  {
    if s == [] then [] else (if Allowed(s[0]) then [s[0]] else []) + Kept(s[1..])
  }

  /** The filter keeps exactly the allowed characters: taking it over two halves is taking it over
      each. */
  lemma {:induction false} KeptConcat(a: string, b: string)
    ensures Kept(a + b) == Kept(a) + Kept(b)
  {
    if a != [] {
      assert (a + b)[0] == a[0] && (a + b)[1..] == a[1..] + b;
      KeptConcat(a[1..], b);
    } else {
      assert a + b == b;
    }
  }

  /** A text of allowed characters only passes the filter unchanged. */
  lemma {:induction false} KeptAllowed(s: string)
    requires AllAllowed(s)
    ensures Kept(s) == s
  {
    if s != [] {
      KeptAllowed(s[1..]);
    }
  }

  /** The filtered text of Emojify.kt:25-26 (ASCII lower-casing). */
  function Filtered(raw: string): string {
    Kept(Lower(raw))
  }

  /** An upper-case letter is kept as its lower-case letter. */
  lemma UpperKept(c: char)
    requires 'A' <= c <= 'Z'
    ensures Filtered([c]) == [(c as int + 32) as char]
  {
  }

  function EmojiOfDigit(c: char): string
    requires '0' <= c <= '9'
  {
    match c
    case '0' => ":zero:"
    case '1' => ":one:"
    case '2' => ":two:"
    case '3' => ":three:"
    case '4' => ":four:"
    case '5' => ":five:"
    case '6' => ":six:"
    case '7' => ":seven:"
    case '8' => ":eight:"
    case _ => ":nine:"
  }

  /** emojify (Emojify.kt:37-52) on the allowed characters. */
  function Emoji(c: char): (r: string)
    requires Allowed(c)
  {
    if c == ' ' then " "
    else if c == '?' then ":question:"
    else if c == '!' then ":exclamation:"
    else if '0' <= c <= '9' then EmojiOfDigit(c)
    else ":regional_indicator_" + [c] + ":"
  }

  /** Every code but the space's is a ":name:" code; a letter's names the letter itself. */
  lemma EmojiShape(c: char)
    requires Allowed(c)
    ensures Emoji(c) == " " <==> c == ' '
    ensures c != ' ' ==> |Emoji(c)| >= 3 && Emoji(c)[0] == ':' && Emoji(c)[|Emoji(c)| - 1] == ':' && ' ' !in Emoji(c)
    ensures 'a' <= c <= 'z' ==> Emoji(c) == ":regional_indicator_" + [c] + ":"
  {
    if '0' <= c <= '9' {
      match c {
        case '0' => case '1' => case '2' => case '3' => case '4' =>
        case '5' => case '6' => case '7' => case '8' => case _ =>
      }
    } else if 'a' <= c <= 'z' {
      var r := Emoji(c);
      assert r[|r| - 1] == ':';
      assert forall i :: 0 <= i < |r| ==> r[i] != ' ' by {
        forall i | 0 <= i < |r| ensures r[i] != ' ' {
          if i < 20 {
            assert r[i] == ":regional_indicator_"[i];
          }
        }
      }
    }
  }

  /** A letter and a digit never share a code: a letter's code is 22 characters long and no
      digit's is. */
  lemma LetterCodesAreTheirOwn(c: char, d: char)
    requires 'a' <= c <= 'z' && Allowed(d) && !('a' <= d <= 'z')
    ensures Emoji(c) != Emoji(d)
  {
    assert |Emoji(c)| == 22;
    if '0' <= d <= '9' {
      match d {
        case '0' => case '1' => case '2' => case '3' => case '4' =>
        case '5' => case '6' => case '7' => case '8' => case _ =>
      }
    }
  }

  /** Two letters have the same code only if they are the same letter. */
  lemma LetterCodesDiffer(c: char, d: char)
    requires 'a' <= c <= 'z' && 'a' <= d <= 'z' && c != d
    ensures Emoji(c) != Emoji(d)
  {
    assert Emoji(c)[20] == c && Emoji(d)[20] == d;
  }

  /** The emoji codes of a text, joined (Emojify.kt:33). */
  function Emojis(text: string): string
    requires AllAllowed(text)
  {
    if text == [] then [] else Emoji(text[0]) + Emojis(text[1..])
  }

  lemma {:induction false} EmojisConcat(a: string, b: string)
    requires AllAllowed(a)
    requires AllAllowed(b)
    ensures Emojis(a + b) == Emojis(a) + Emojis(b)
  {
    if a != [] {
      assert (a + b)[0] == a[0] && (a + b)[1..] == a[1..] + b;
      EmojisConcat(a[1..], b);
    } else {
      assert a + b == b;
    }
  }

  lemma BlankConcat(a: string, b: string)
    ensures IsBlank(a + b) <==> IsBlank(a) && IsBlank(b)
  {
    if IsBlank(a) && IsBlank(b) {
      forall i | 0 <= i < |a + b| ensures IsSpace((a + b)[i]) {
        if i >= |a| {
          assert (a + b)[i] == b[i - |a|];
        }
      }
    }
    if IsBlank(a + b) {
      forall i | 0 <= i < |b| ensures IsSpace(b[i]) {
        assert (a + b)[|a| + i] == b[i];
      }
      forall i | 0 <= i < |a| ensures IsSpace(a[i]) {
        assert (a + b)[i] == a[i];
      }
    }
  }

  /** The codes are blank exactly when the text is: only a space becomes blank. */
  lemma {:induction false} EmojisBlank(text: string)
    requires AllAllowed(text)
    ensures IsBlank(Emojis(text)) <==> IsBlank(text)
  {
    if text != [] {
      EmojisBlank(text[1..]);
      EmojiShape(text[0]);
      BlankConcat(Emoji(text[0]), Emojis(text[1..]));
      BlankConcat([text[0]], text[1..]);
      assert text == [text[0]] + text[1..];
      assert IsBlank(Emoji(text[0])) <==> text[0] == ' ';
    }
  }

  datatype EmojifyReply = NoValidLetter | Emojified(text: string)

  /** handle (Emojify.kt:24-35): a missing option is the empty text; a blank filtered text is
      refused, otherwise the reply is "> " and the codes of the filtered text. */
  function Handle(option: Option<string>): (r: EmojifyReply)
    ensures r == NoValidLetter <==> IsBlank(Filtered(if option.Some? then option.value else ""))
    ensures r.Emojified? ==> r.text == "> " + Emojis(Filtered(option.value)) && !IsBlank(Emojis(Filtered(option.value)))
  {
    EmojisBlank(Filtered(if option.Some? then option.value else ""));
    var text := Filtered(if option.Some? then option.value else "");
    if IsBlank(text) then NoValidLetter else Emojified("> " + Emojis(text))
  }

  /** A filtered text is blank exactly when it holds only spaces, i.e. when the input had no
      letter, digit, '!' or '?' (upper-case letters count once lower-cased). */
  lemma {:induction false} BlankMeansNoLetter(raw: string)
    ensures IsBlank(Filtered(raw)) <==> forall i :: 0 <= i < |raw| ==> !Allowed(LowerChar(raw[i])) || LowerChar(raw[i]) == ' '
  {
    var low := Lower(raw);
    var text := Filtered(raw);
    if IsBlank(text) {
      forall i | 0 <= i < |raw| ensures !Allowed(LowerChar(raw[i])) || LowerChar(raw[i]) == ' ' {
        if Allowed(low[i]) {
          var j :| 0 <= j < |text| && text[j] == low[i];
          assert IsSpace(text[j]);
        }
      }
    } else {
      var j :| 0 <= j < |text| && !IsSpace(text[j]);
      assert text[j] in low by {
        KeptFrom(low, j);
      }
      var i :| 0 <= i < |low| && low[i] == text[j];
      assert Allowed(text[j]) && text[j] != ' ';
    }
  }

  /** Every character kept comes from the text. */
  lemma {:induction false} KeptFrom(s: string, j: nat)
    requires j < |Kept(s)|
    ensures Kept(s)[j] in s
  {
    if !Allowed(s[0]) || j > 0 {
      KeptFrom(s[1..], if Allowed(s[0]) then j - 1 else j);
    }
  }
}
