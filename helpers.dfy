// The helpers of the Python user commands (user_commands/helpers.py): cropping the command word,
// reading a number parameter, and recognising a special day ("heute", "morgen", "übermorgen")
// with the DAYS table of constants.py, which utils.py repeats with the same search.
// The regular expressions of DAYS are word alternatives between word boundaries; the model
// matches them literally, case-insensitively on ASCII letters and the German umlauts.

module Helpers {
  import opened Text

  /** __crop_command (user_commands/helpers.py:11-15): the text after the first space, stripped,
      or "" when there is no space. */
  function CropCommand(raw: string): (r: string)
    ensures ' ' !in raw ==> r == []
    ensures ' ' in raw ==> r == Strip(raw[IndexOf(raw, ' ').value + 1..])
    ensures r == [] || (!IsSpace(r[0]) && !IsSpace(r[|r| - 1]))
  {
    var msg := SplitOnce(raw, ' ');
    if |msg| == 1 then [] else Strip(msg[1])
  }

  /** A command word followed by a space and any argument crops to the argument, stripped; an
      unpadded argument comes back as it is. */
  lemma CropOfCommand(cmd: string, arg: string)
    requires ' ' !in cmd
    ensures CropCommand(cmd + " " + arg) == Strip(arg)
    ensures arg == [] || (!IsSpace(arg[0]) && !IsSpace(arg[|arg| - 1])) ==> CropCommand(cmd + " " + arg) == arg
  {
    var raw := cmd + " " + arg;
    assert raw[|cmd|] == ' ';
    var msg := SplitOnce(raw, ' ');
    assert |msg[0]| == |cmd|;
    assert msg[1] == raw[|cmd| + 1..];
    assert raw[|cmd| + 1..] == arg;
    if arg == [] || (!IsSpace(arg[0]) && !IsSpace(arg[|arg| - 1])) {
      StripOfUnpadded(arg);
    }
  }

  /** __read_number_param (user_commands/helpers.py:18-28): the second of exactly two
      space-separated words of the stripped text, when it is an integer of at least 1; in every
      other case the default. */
  function ReadNumberParam(text: string, default: int): (r: int)
    ensures var split := Split(Strip(text), ' ');
            r == default || (|split| == 2 && ParseInt(split[1]) == Some(r) && r >= 1)
    ensures |Split(Strip(text), ' ')| != 2 ==> r == default
    ensures default >= 1 ==> r >= 1
  {
    var split := Split(Strip(text), ' ');
    if |split| == 2 then
      match ParseInt(split[1])
      case Some(v) => if v < 1 then default else v
      case None => default
    else default
  }

  /** "/roll 20" reads as 20: a command word and a positive number give the number. */
  lemma ReadNumberOfCommand(cmd: string, n: nat, default: int)
    requires cmd != [] && ' ' !in cmd && !IsSpace(cmd[0])
    requires n >= 1
    ensures ReadNumberParam(cmd + " " + NatToString(n), default) == n
  {
    var digits := NatToString(n);
    var text := cmd + " " + digits;
    SplitCommandWord(cmd, digits);
    ParseIntOfNat(n);
    ReadNumberOfSplit(text, default, cmd, digits, n);
  }

  lemma ReadNumberOfSplit(text: string, default: int, cmd: string, digits: string, n: int)
    requires Split(Strip(text), ' ') == [cmd, digits] && ParseInt(digits) == Some(n) && n >= 1
    ensures ReadNumberParam(text, default) == n
  {
  }

  lemma PairOfSingletons<T>(a: T, b: T)
    ensures [a] + [b] == [a, b]
  {
  }

  lemma SplitCommandWord(cmd: string, digits: string)
    requires cmd != [] && ' ' !in cmd && !IsSpace(cmd[0])
    requires digits != [] && forall i :: 0 <= i < |digits| ==> IsDigit(digits[i])
    ensures Strip(cmd + " " + digits) == cmd + " " + digits
    ensures Split(cmd + " " + digits, ' ') == [cmd, digits]
  {
    var text := cmd + " " + digits;
    assert text[0] == cmd[0];
    assert text[|text| - 1] == digits[|digits| - 1];
    StripOfUnpadded(text);
    SplitFree(digits, ' ');
    SplitPrefix(cmd, digits, ' ');
    assert text == cmd + [' '] + digits;
    assert Split(text, ' ') == [cmd] + Split(digits, ' ');
    PairOfSingletons(cmd, digits);
  }

  // ---------------------------------------------------------------------------
  // Special days

  /** One entry of DAYS: the words of its regular expression, the day offset, and the text. */
  datatype DayPattern = DayPattern(alternatives: seq<string>, offset: int, name: string)

  /** DAYS (constants.py:7-11, utils.py:10-14). */
  const Days: seq<DayPattern> := [
    DayPattern(["heute"], 0, "heute"),
    DayPattern(["morgen", "in einem tag", "in 1 tag"], 1, "morgen"),
    DayPattern(["übermorgen", "in zwei tagen", "in 2 tagen"], 2, "übermorgen")
  ]

  /** A character of \w: ASCII letters and digits, '_' and the German letters. */
  predicate WordChar(c: char) {
    ('a' <= c <= 'z') || ('A' <= c <= 'Z') || ('0' <= c <= '9') || c == '_'
    || c == 'ä' || c == 'ö' || c == 'ü' || c == 'ß' || c == 'Ä' || c == 'Ö' || c == 'Ü'
  }

  /** The lower-case form re.IGNORECASE compares. */
  function Fold(c: char): char {
    if c == 'Ä' then 'ä' else if c == 'Ö' then 'ö' else if c == 'Ü' then 'ü' else LowerChar(c)
  }

  /** \b at position i: a word character on exactly one side. */
  predicate Boundary(s: string, i: nat)
    requires i <= |s|
  {
    (i > 0 && WordChar(s[i - 1])) != (i < |s| && WordChar(s[i]))
  }

  /** \b alt \b matches s at position i. */
  predicate MatchAt(s: string, i: nat, alt: string) {
    && i + |alt| <= |s|
    && (forall k :: 0 <= k < |alt| ==> Fold(s[i + k]) == alt[k])
    && Boundary(s, i) && Boundary(s, i + |alt|)
  }

  /** The alternative that matches at i: the first of them in the pattern that does. */
  function FirstAlt(s: string, i: nat, alts: seq<string>): (r: Option<nat>)
    ensures r.Some? ==> r.value < |alts| && MatchAt(s, i, alts[r.value])
    ensures r.Some? ==> forall a :: 0 <= a < r.value ==> !MatchAt(s, i, alts[a])
    ensures r.None? ==> forall a :: 0 <= a < |alts| ==> !MatchAt(s, i, alts[a])
  {
    if alts == [] then None
    else if MatchAt(s, i, alts[0]) then Some(0)
    else match FirstAlt(s, i, alts[1..])
      case None => None
      case Some(a) => Some(a + 1)
  }

  /** The spans of re.finditer from position i: the leftmost match, then the search goes on at
      its end. */
  function Finditer(s: string, alts: seq<string>, i: nat): (r: seq<(nat, nat)>)
    requires forall a :: 0 <= a < |alts| ==> alts[a] != []
    ensures forall j :: 0 <= j < |r| ==> i <= r[j].0 < r[j].1 <= |s|
    ensures forall j :: 0 <= j < |r| ==> exists a :: 0 <= a < |alts| && MatchAt(s, r[j].0, alts[a]) && r[j].1 == r[j].0 + |alts[a]|
    ensures forall j, k :: 0 <= j < k < |r| ==> r[j].1 <= r[k].0
    decreases |s| - i
  {
    if i >= |s| then []
    else match FirstAlt(s, i, alts)
      case Some(a) =>
        var rest := Finditer(s, alts, i + |alts[a]|);
        [(i, i + |alts[a]|)] + rest
      case None => Finditer(s, alts, i + 1)
  }

  /** Where no alternative matches from i on, finditer finds nothing; and a match it misses
      cannot start at a position from which nothing matches. */
  lemma {:induction false} FinditerEmpty(s: string, alts: seq<string>, i: nat)
    requires forall a :: 0 <= a < |alts| ==> alts[a] != []
    requires forall j, a :: i <= j < |s| && 0 <= a < |alts| ==> !MatchAt(s, j, alts[a])
    ensures Finditer(s, alts, i) == []
    decreases |s| - i
  {
    if i < |s| {
      assert FirstAlt(s, i, alts) == None;
      FinditerEmpty(s, alts, i + 1);
    }
  }

  function MinStart(spans: seq<(nat, nat)>): (m: nat)
    requires spans != []
    ensures exists j :: 0 <= j < |spans| && spans[j].0 == m
    ensures forall j :: 0 <= j < |spans| ==> m <= spans[j].0
  {
    if |spans| == 1 then spans[0].0
    else
      var t := MinStart(spans[1..]);
      assert forall j :: 1 <= j < |spans| ==> spans[j] == spans[1..][j - 1];
      if spans[0].0 <= t then spans[0].0 else t
  }

  function MaxEnd(spans: seq<(nat, nat)>): (m: nat)
    requires spans != []
    ensures exists j :: 0 <= j < |spans| && spans[j].1 == m
    ensures forall j :: 0 <= j < |spans| ==> spans[j].1 <= m
  {
    if |spans| == 1 then spans[0].1
    else
      var t := MaxEnd(spans[1..]);
      assert forall j :: 1 <= j < |spans| ==> spans[j] == spans[1..][j - 1];
      if spans[0].1 >= t then spans[0].1 else t
  }

  lemma DaysWellFormed()
    ensures forall d, a :: 0 <= d < |Days| && 0 <= a < |Days[d].alternatives| ==> Days[d].alternatives[a] != []
  {
  }

  /** The matches of entry d of DAYS in the text. */
  function DayMatches(text: string, d: nat): seq<(nat, nat)>
    requires d < |Days|
  {
    DaysWellFormed();
    Finditer(text, Days[d].alternatives, 0)
  }

  /** The first entry of DAYS from d on that has a match (the loop of find_day_by_special_rgx,
      whose `continue` skips the entries without one). */
  function FirstDay(text: string, d: nat): (r: Option<nat>)
    requires d <= |Days|
    ensures r.Some? ==> d <= r.value < |Days| && DayMatches(text, r.value) != []
    ensures r.Some? ==> forall l :: d <= l < r.value ==> DayMatches(text, l) == []
    ensures r.None? ==> forall e :: d <= e < |Days| ==> DayMatches(text, e) == []
    decreases |Days| - d
  {
    if d == |Days| then None
    else if DayMatches(text, d) != [] then Some(d)
    else FirstDay(text, d + 1)
  }

  /** find_day_by_special_rgx (user_commands/helpers.py:44-54, utils.py:40-58): for the first
      entry of DAYS with a match, its offset, the smallest start and the largest end of its
      matches, and its text; None (the four None values) when no entry matches. */
  function FindDay(text: string): (r: Option<(int, nat, nat, string)>)
    ensures r.None? <==> forall e :: 0 <= e < |Days| ==> DayMatches(text, e) == []
    ensures r.Some? ==> var e := FirstDay(text, 0).value;
                        r.value == (Days[e].offset, MinStart(DayMatches(text, e)), MaxEnd(DayMatches(text, e)), Days[e].name)
    ensures r.Some? ==> 0 <= r.value.0 <= 2 && r.value.1 < r.value.2 <= |text|
  {
    match FirstDay(text, 0)
    case None => None
    case Some(e) =>
      var ms := DayMatches(text, e);
      assert ms[0].0 < ms[0].1;
      Some((Days[e].offset, MinStart(ms), MaxEnd(ms), Days[e].name))
  }

  lemma CharsOfUebermorgen(j: nat)
    requires j < 10
    ensures var s := "übermorgen"; Fold(s[j]) == s[j] && s[j] != 'h' && s[j] != 'i' && (s[j] == 'm' <==> j == 4)
  {
    assert j == 0 || j == 1 || j == 2 || j == 3 || j == 4 || j == 5 || j == 6 || j == 7 || j == 8 || j == 9;
  }

  lemma NoHeuteInUebermorgen()
    ensures DayMatches("übermorgen", 0) == []
  {
    var s := "übermorgen";
    DaysWellFormed();
    forall j, a | 0 <= j < |s| && 0 <= a < |Days[0].alternatives| ensures !MatchAt(s, j, Days[0].alternatives[a]) {
      CharsOfUebermorgen(j);
      assert Fold(s[j]) != Days[0].alternatives[a][0];
    }
    FinditerEmpty(s, Days[0].alternatives, 0);
  }

  lemma NoMorgenInUebermorgen()
    ensures DayMatches("übermorgen", 1) == []
  {
    var s := "übermorgen";
    DaysWellFormed();
    forall j, a | 0 <= j < |s| && 0 <= a < |Days[1].alternatives| ensures !MatchAt(s, j, Days[1].alternatives[a]) {
      CharsOfUebermorgen(j);
      if j == 4 {
        assert WordChar(s[3]) && WordChar(s[4]);
        assert !Boundary(s, 4);
      } else {
        assert Fold(s[j]) != Days[1].alternatives[a][0];
      }
    }
    FinditerEmpty(s, Days[1].alternatives, 0);
  }

  /** "übermorgen" is the day after tomorrow, not "morgen": the word boundary before "morgen"
      fails inside the longer word. */
  lemma UebermorgenIsNotMorgen()
    ensures FindDay("übermorgen") == Some((2, 0, 10, "übermorgen"))
  {
    var s := "übermorgen";
    NoHeuteInUebermorgen();
    NoMorgenInUebermorgen();
    UebermorgenMatches();
    assert FirstDay(s, 0) == Some(2);
  }

  /** The whole word is the one match of its own entry. */
  lemma UebermorgenMatches()
    ensures DayMatches("übermorgen", 2) == [(0, 10)]
  {
    var s := "übermorgen";
    DaysWellFormed();
    assert FirstAlt(s, 0, Days[2].alternatives) == Some(0) by {
      forall k | 0 <= k < 10 ensures Fold(s[k]) == Days[2].alternatives[0][k] {
        CharsOfUebermorgen(k);
      }
      assert MatchAt(s, 0, Days[2].alternatives[0]);
    }
    assert Finditer(s, Days[2].alternatives, 10) == [];
  }
}
