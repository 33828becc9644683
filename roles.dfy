// The role chooser of the Python bot (user_commands/roles.py). Each guild has at most one role
// message; its text lists, one line per entry, which emoji stands for which role mention. The
// bot keeps no mapping of its own: add and del read the mapping back from the text of the
// message, change it and write the new text, so the commands rely on reading back what was
// written. A reaction on the message then gives or takes the role it stands for.

module Roles {
  import opened Text
  import opened Collections
  import opened Helpers

  // ---------------------------------------------------------------------------
  // The text of the role message (roles.py:89-90, 115-138, 146)

  // The texts are written in pieces so that the verifier can check them a piece at a time.
  const SwitcherText := "**Wähle Deine Rollen " + "auf diesem Server :)**"
  const NoRoles := "*Aktuell können keine " + "Rollen gewählt werden " + ".. warte auf den " + "Gildenleiter :)*"
  const ReactionsHint := "Bitte Reactions zum " + "An- und Abwählen " + "verwenden"
  const Arrow: char := '→'

  /** A dict from emoji to role mention, in insertion order. */
  type Mapping = seq<(string, string)>

  /** The first text of a new role message; it has no entries. */
  const InitialText := SwitcherText + "\n" + NoRoles

  function EntryLine(e: (string, string)): string {
    e.0 + [Arrow] + e.1
  }

  function EntryLines(m: Mapping): (r: seq<string>)
    ensures |r| == |m| && forall i :: 0 <= i < |m| ==> r[i] == EntryLine(m[i])
  {
    if m == [] then [] else [EntryLine(m[0])] + EntryLines(m[1..])
  }

  /** Every entry line, each followed by a newline. */
  function Entries(m: Mapping): string {
    if m == [] then [] else EntryLine(m[0]) + "\n" + Entries(m[1..])
  }

  /** The text __mapping_to_message writes for a mapping. */
  function MappingText(m: Mapping): string {
    if m == [] then SwitcherText + "\n\n" + NoRoles
    else Strip(SwitcherText + "\n\n" + Entries(m) + "\n" + ReactionsHint)
  }

  /** What one line of the message adds to the mapping: a stripped line with exactly one arrow
      sets the text before it to the text after it. */
  function ReadLine(m: Mapping, line: string): Mapping {
    var data := Split(Strip(line), Arrow);
    if |data| == 2 then Put(m, data[0], data[1]) else m
  }

  function ReadLines(m: Mapping, lines: seq<string>): Mapping
    decreases |lines|
  {
    if lines == [] then m else ReadLines(ReadLine(m, lines[0]), lines[1..])
  }

  /** The mapping __load_mappings reads from the text of the role message. */
  function ParseMappings(content: string): Mapping {
    ReadLines([], Split(content, '\n'))
  }

  /** __mapping_to_message (roles.py:130-138): one line per entry in order. */
  method MappingToMessage(mappings: Mapping) returns (res: string)
    ensures res == MappingText(mappings)
  {
    if |mappings| == 0 {
      return SwitcherText + "\n\n" + NoRoles;
    }
    res := SwitcherText + "\n\n";
    var k := 0;
    while k < |mappings|
      invariant 0 <= k <= |mappings|
      invariant res == SwitcherText + "\n\n" + Entries(mappings[..k])
    {
      EntriesSnoc(mappings[..k], mappings[k]);
      assert mappings[..k + 1] == mappings[..k] + [mappings[k]];
      res := res + (EntryLine(mappings[k]) + "\n");
      k := k + 1;
    }
    assert mappings[..k] == mappings;
    res := Strip(res + "\n" + ReactionsHint);
  }

  /** __load_mappings (roles.py:115-127), once the message is fetched. */
  method LoadMappings(content: string) returns (mappings: Mapping)
    ensures mappings == ParseMappings(content)
  {
    var lines := Split(content, '\n');
    mappings := [];
    var k := 0;
    while k < |lines|
      invariant 0 <= k <= |lines|
      invariant ReadLines(mappings, lines[k..]) == ParseMappings(content)
    {
      assert lines[k..] == [lines[k]] + lines[k + 1..];
      var data := Split(Strip(lines[k]), Arrow);
      if |data| == 2 {
        mappings := Put(mappings, data[0], data[1]);
      }
      k := k + 1;
    }
  }

  lemma {:induction false} EntriesSnoc(m: Mapping, e: (string, string))
    ensures Entries(m + [e]) == Entries(m) + (EntryLine(e) + "\n")
  {
    if m != [] {
      assert (m + [e])[1..] == m[1..] + [e];
      EntriesSnoc(m[1..], e);
    }
  }

  // ---------------------------------------------------------------------------
  // Reading back what was written

  /** An entry whose line reads back as itself: no arrow and no newline in it, the emoji does
      not start and the mention does not end with whitespace (strip would cut it). */
  predicate CleanEntry(e: (string, string)) {
    Arrow !in e.0 && Arrow !in e.1 && '\n' !in e.0 && '\n' !in e.1
    && (e.0 == [] || !IsSpace(e.0[0])) && (e.1 == [] || !IsSpace(e.1[|e.1| - 1]))
  }

  ghost predicate CleanMapping(m: Mapping) {
    DistinctKeys(m) && forall i :: 0 <= i < |m| ==> CleanEntry(m[i])
  }

  /** A text that is one line and holds no arrow. */
  predicate Plain(s: string) {
    '\n' !in s && Arrow !in s
  }

  /** The fixed lines are plain. */
  lemma FixedLinesPlain()
    ensures Plain(SwitcherText) && Plain(NoRoles) && Plain(ReactionsHint)
  {
    SwitcherTextPlain();
    NoRolesPlain();
    ReactionsHintPlain();
  }

  /** Two plain texts make a plain text. */
  lemma PlainConcat(a: string, b: string)
    requires Plain(a) && Plain(b)
    ensures Plain(a + b)
  {
  }

  lemma SwitcherTextPlain()
    ensures Plain(SwitcherText)
  {
    SwitcherHead();
    SwitcherTail();
    PlainConcat("**Wähle Deine Rollen ", "auf diesem Server :)**");
  }

  lemma SwitcherHead() ensures Plain("**Wähle Deine Rollen ") {}
  lemma SwitcherTail() ensures Plain("auf diesem Server :)**") {}

  lemma NoRolesPlain()
    ensures Plain(NoRoles)
  {
    var a, b, c, d := "*Aktuell können keine ", "Rollen gewählt werden ", ".. warte auf den ", "Gildenleiter :)*";
    NoRolesFirst();
    NoRolesSecond();
    NoRolesThird();
    NoRolesFourth();
    PlainConcat(a, b);
    PlainConcat(a + b, c);
    PlainConcat(a + b + c, d);
  }

  lemma NoRolesFirst() ensures Plain("*Aktuell können keine ") {}
  lemma NoRolesSecond() ensures Plain("Rollen gewählt werden ") {}
  lemma NoRolesThird() ensures Plain(".. warte auf den ") {}
  lemma NoRolesFourth() ensures Plain("Gildenleiter :)*") {}

  lemma ReactionsHintPlain()
    ensures Plain(ReactionsHint)
  {
    var a, b, c := "Bitte Reactions zum ", "An- und Abwählen ", "verwenden";
    HintFirst();
    HintSecond();
    HintThird();
    PlainConcat(a, b);
    PlainConcat(a + b, c);
  }

  lemma HintFirst() ensures Plain("Bitte Reactions zum ") {}
  lemma HintSecond() ensures Plain("An- und Abwählen ") {}
  lemma HintThird() ensures Plain("verwenden") {}

  /** A line without an arrow adds nothing. */
  lemma PlainLine(m: Mapping, line: string)
    requires Arrow !in line
    ensures ReadLine(m, line) == m
  {
    StripFreeOf(line, Arrow);
    SplitFree(Strip(line), Arrow);
  }

  /** The line of a clean entry sets exactly that entry. */
  lemma EntryLineReads(m: Mapping, e: (string, string))
    requires CleanEntry(e)
    ensures ReadLine(m, EntryLine(e)) == Put(m, e.0, e.1)
  {
    var line := EntryLine(e);
    assert line[|e.0|] == Arrow;
    assert line[0] == if e.0 == [] then Arrow else e.0[0];
    assert line[|line| - 1] == if e.1 == [] then Arrow else e.1[|e.1| - 1];
    StripOfUnpadded(line);
    SplitPrefix(e.0, e.1, Arrow);
    SplitFree(e.1, Arrow);
  }

  lemma {:induction false} ReadLinesAppend(m: Mapping, a: seq<string>, b: seq<string>)
    ensures ReadLines(m, a + b) == ReadLines(ReadLines(m, a), b)
    decreases |a|
  {
    if a != [] {
      assert (a + b)[0] == a[0] && (a + b)[1..] == a[1..] + b;
      ReadLinesAppend(ReadLine(m, a[0]), a[1..], b);
    } else {
      assert a + b == b;
    }
  }

  /** Reading the lines of clean entries with new keys appends them in order. */
  lemma {:induction false} ReadEntryLines(m0: Mapping, m: Mapping)
    requires DistinctKeys(m0 + m) && forall i :: 0 <= i < |m| ==> CleanEntry(m[i])
    ensures ReadLines(m0, EntryLines(m)) == m0 + m
    decreases |m|
  {
    if m != [] {
      var e := m[0];
      assert (m0 + m)[|m0|] == e;
      forall j | 0 <= j < |m0| ensures Keys(m0)[j] != e.0 {
        assert (m0 + m)[j] == m0[j];
      }
      PutNew(m0, e.0, e.1);
      EntryLineReads(m0, e);
      assert m0 + m == (m0 + [e]) + m[1..];
      forall i | 0 <= i < |m[1..]| ensures CleanEntry(m[1..][i]) {
        assert m[1..][i] == m[i + 1];
      }
      ReadEntryLines(m0 + [e], m[1..]);
    }
  }

  /** The entry lines joined by newlines, then the rest after one more newline. */
  lemma {:induction false} JoinEntries(m: Mapping, rest: seq<string>)
    requires rest != []
    ensures Join("\n", EntryLines(m) + rest) == Entries(m) + Join("\n", rest)
    decreases |m|
  {
    if m != [] {
      var t := EntryLines(m[1..]) + rest;
      var u := [EntryLine(m[0])] + t;
      assert EntryLines(m) + rest == u && |u| > 1 && u[1..] == t;
      JoinEntries(m[1..], rest);
    } else {
      assert EntryLines(m) + rest == rest;
    }
  }

  /** The texts around the entries: plain lines, the header starting and the hint ending with
      something other than whitespace, so that strip leaves the text alone. */
  predicate Frame(header: string, none: string, hint: string) {
    Plain(header) && Plain(none) && Plain(hint)
    && header != [] && !IsSpace(header[0]) && hint != [] && !IsSpace(hint[|hint| - 1])
  }

  lemma FixedFrame()
    ensures Frame(SwitcherText, NoRoles, ReactionsHint)
  {
    FixedLinesPlain();
    assert SwitcherText[0] == '*';
    assert ReactionsHint[|ReactionsHint| - 1] == 'n';
  }

  /** The text of a non-empty mapping is its lines joined by newlines: the header, a blank, the
      entries, a blank and the hint. */
  lemma FramedLines(m: Mapping, header: string, hint: string)
    requires m != [] && header != [] && !IsSpace(header[0]) && hint != [] && !IsSpace(hint[|hint| - 1])
    ensures Strip(header + "\n\n" + Entries(m) + "\n" + hint)
         == Join("\n", [header, ""] + EntryLines(m) + ["", hint])
  {
    StripFrame(header, Entries(m), hint);
    JoinFrame(header, EntryLines(m), hint);
    JoinEntries(m, ["", hint]);
  }

  /** Strip leaves a framed text alone. */
  lemma StripFrame(header: string, body: string, hint: string)
    requires header != [] && !IsSpace(header[0]) && hint != [] && !IsSpace(hint[|hint| - 1])
    ensures Strip(header + "\n\n" + body + "\n" + hint) == header + "\n\n" + (body + ("\n" + hint))
  {
    var raw := header + "\n\n" + body + "\n" + hint;
    assert raw[0] == header[0] && raw[|raw| - 1] == hint[|hint| - 1];
    StripOfUnpadded(raw);
  }

  /** Joining the header, a blank, some lines, a blank and the hint. */
  lemma JoinFrame(header: string, ls: seq<string>, hint: string)
    ensures Join("\n", [header, ""] + ls + ["", hint]) == header + "\n\n" + Join("\n", ls + ["", hint])
    ensures Join("\n", ["", hint]) == "\n" + hint
  {
    var tail := ls + ["", hint];
    var blankTail := [""] + tail;
    var lines := [header, ""] + ls + ["", hint];
    assert blankTail[1..] == tail && |tail| > 1;
    assert Join("\n", blankTail) == "\n" + Join("\n", tail);
    assert lines[1..] == blankTail;
    var post := ["", hint];
    assert post[1..] == [hint];
    assert Join("\n", post) == "\n" + hint;
  }

  /** Lines none of which holds a newline. */
  predicate OneLines(ls: seq<string>) {
    forall k :: 0 <= k < |ls| ==> '\n' !in ls[k]
  }

  lemma OneLinesConcat(a: seq<string>, b: seq<string>)
    requires OneLines(a) && OneLines(b)
    ensures OneLines(a + b)
  {
    forall k | 0 <= k < |a + b| ensures '\n' !in (a + b)[k] {
      if k < |a| {
        assert (a + b)[k] == a[k];
      } else {
        assert (a + b)[k] == b[k - |a|];
      }
    }
  }

  /** The lines of a framed non-empty mapping hold no newline. */
  lemma FramedLinesOneLine(m: Mapping, header: string, hint: string)
    requires Plain(header) && Plain(hint) && CleanMapping(m)
    ensures OneLines([header, ""] + EntryLines(m) + ["", hint])
  {
    var ls := EntryLines(m);
    forall k | 0 <= k < |ls| ensures '\n' !in ls[k] {
      assert ls[k] == EntryLine(m[k]) && CleanEntry(m[k]);
    }
    OneLinesConcat([header, ""], ls);
    OneLinesConcat([header, ""] + ls, ["", hint]);
  }

  /** Two lines without an arrow add nothing. */
  lemma PlainPair(m: Mapping, a: string, b: string)
    requires Arrow !in a && Arrow !in b
    ensures ReadLines(m, [a, b]) == m
  {
    PlainLine(m, a);
    PlainLine(m, b);
    assert ReadLines(m, [b]) == m by {
      assert [b][0] == b && [b][1..] == [];
    }
    assert [a, b][0] == a && [a, b][1..] == [b];
  }

  /** Reading back a framed text gives the mapping it was written for. */
  lemma ReadBackFramed(m: Mapping, header: string, none: string, hint: string)
    requires CleanMapping(m) && Frame(header, none, hint)
    ensures ParseMappings(if m == [] then header + "\n\n" + none
                          else Strip(header + "\n\n" + Entries(m) + "\n" + hint)) == m
  {
    if m == [] {
      var lines := [header, "", none];
      assert header + "\n\n" + none == Join("\n", lines) by {
        assert ["", none][1..] == [none];
        assert Join("\n", ["", none]) == "\n" + none;
        assert lines[1..] == ["", none];
      }
      SplitJoin(lines, '\n');
      PlainLine([], header);
      assert lines[1..] == ["", none];
      PlainPair([], "", none);
    } else {
      var pre, ls, post := [header, ""], EntryLines(m), ["", hint];
      assert ParseMappings(Strip(header + "\n\n" + Entries(m) + "\n" + hint)) == ReadLines([], pre + ls + post) by {
        FramedLines(m, header, hint);
        FramedLinesOneLine(m, header, hint);
        SplitJoin(pre + ls + post, '\n');
      }
      assert ReadLines([], pre + ls + post) == ReadLines(ReadLines(ReadLines([], pre), ls), post) by {
        ReadLinesAppend([], pre + ls, post);
        ReadLinesAppend([], pre, ls);
      }
      PlainPair([], header, "");
      assert ReadLines([], ls) == m by {
        assert [] + m == m;
        ReadEntryLines([], m);
      }
      PlainPair(m, "", hint);
    }
  }

  /** Reading back the text written for a clean mapping gives the mapping: what add and del rely
      on (roles.py:172-186, 203-216). */
  lemma ReadBack(m: Mapping)
    requires CleanMapping(m)
    ensures ParseMappings(MappingText(m)) == m
  {
    FixedFrame();
    ReadBackFramed(m, SwitcherText, NoRoles, ReactionsHint);
  }

  /** Two plain lines read as no entries. */
  lemma PlainPairEmpty(a: string, b: string)
    requires Plain(a) && Plain(b)
    ensures ParseMappings(a + "\n" + b) == []
  {
    var lines := [a, b];
    assert a + "\n" + b == Join("\n", lines) by {
      assert lines[1..] == [b];
    }
    SplitJoin(lines, '\n');
    PlainPair([], a, b);
  }

  /** A new role message has no entries. */
  lemma InitialTextEmpty()
    ensures ParseMappings(InitialText) == []
  {
    FixedLinesPlain();
    PlainPairEmpty(SwitcherText, NoRoles);
  }

  /** One parsed line is clean: the split pieces hold no arrow, no newline (the line came from a
      split on newlines), and the ends of the stripped line are not whitespace. */
  lemma ReadLineClean(m: Mapping, line: string)
    requires CleanMapping(m) && '\n' !in line
    ensures CleanMapping(ReadLine(m, line))
  {
    var t := Strip(line);
    var data := Split(t, Arrow);
    if |data| == 2 {
      StripFreeOf(line, '\n');
      SplitFreeOf(t, Arrow, '\n');
      JoinSplit(t, Arrow);
      assert t == data[0] + [Arrow] + data[1];
      assert data[0] != [] ==> data[0][0] == t[0];
      assert data[1] != [] ==> data[1][|data[1]| - 1] == t[|t| - 1];
      var e := (data[0], data[1]);
      assert CleanEntry(e);
      PutDistinct(m, data[0], data[1]);
      PutEntries(m, data[0], data[1]);
      var r := Put(m, data[0], data[1]);
      forall i | 0 <= i < |r| ensures CleanEntry(r[i]) {
        assert r[i] in r;
      }
    }
  }

  lemma {:induction false} ReadLinesClean(m: Mapping, lines: seq<string>)
    requires CleanMapping(m) && forall k :: 0 <= k < |lines| ==> '\n' !in lines[k]
    ensures CleanMapping(ReadLines(m, lines))
    decreases |lines|
  {
    if lines != [] {
      ReadLineClean(m, lines[0]);
      forall k | 0 <= k < |lines[1..]| ensures '\n' !in lines[1..][k] {
        assert lines[1..][k] == lines[k + 1];
      }
      ReadLinesClean(ReadLine(m, lines[0]), lines[1..]);
    }
  }

  /** Every mapping read from a message is clean, so whatever add or del writes for it reads
      back as written. */
  lemma ParsedClean(content: string)
    ensures CleanMapping(ParseMappings(content))
  {
    ReadLinesClean([], Split(content, '\n'));
  }

  // ---------------------------------------------------------------------------
  // RolesState (roles.py:12-43)

  class RolesState {
    /** _guild_to_message: the [channel id, message id] of the role message, by guild id. */
    var guildToMessage: map<int, seq<int>>
    /** What _store wrote last. */
    var saved: Option<map<int, seq<int>>>

    /** The state as _load left it. */
    constructor(loaded: map<int, seq<int>>)
      ensures guildToMessage == loaded && saved == None
    {
      guildToMessage := loaded;
      saved := None;
    }

    /** has_role_message (roles.py:30-34): a non-empty entry for the guild. */
    predicate HasRoleMessage(gid: int)
      reads this
    {
      gid in guildToMessage && guildToMessage[gid] != []
    }

    /** get_role_message (roles.py:36-38): the stored pair, or (None, None) without one. */
    function GetRoleMessage(gid: int): (r: Option<seq<int>>)
      reads this
      ensures r.Some? <==> HasRoleMessage(gid)
      ensures r.Some? ==> r.value == guildToMessage[gid] && r.value != []
    {
      if HasRoleMessage(gid) then Some(guildToMessage[gid]) else None
    }

    /** is_guild_message (roles.py:40-43): the stored pair is exactly [cid, mid]. */
    predicate IsGuildMessage(gid: int, cid: int, mid: int)
      reads this
      ensures IsGuildMessage(gid, cid, mid) ==> HasRoleMessage(gid) && GetRoleMessage(gid) == Some([cid, mid])
    {
      gid in guildToMessage && [cid, mid] == guildToMessage[gid]
    }

    /** add_role_message (roles.py:22-24) replaces the guild's entry and stores. */
    method AddRoleMessage(gid: int, cid: int, mid: int)
      modifies this
      ensures guildToMessage == old(guildToMessage)[gid := [cid, mid]] && saved == Some(guildToMessage)
      ensures IsGuildMessage(gid, cid, mid)
      ensures forall c, m :: IsGuildMessage(gid, c, m) <==> c == cid && m == mid
    {
      guildToMessage := guildToMessage[gid := [cid, mid]];
      saved := Some(guildToMessage);
    }

    /** remove_role_message (roles.py:26-28): `del` raises KeyError for a guild without an
        entry, before anything is stored. */
    method RemoveRoleMessage(gid: int) returns (raised: bool)
      modifies this
      ensures raised <==> gid !in old(guildToMessage)
      ensures raised ==> guildToMessage == old(guildToMessage) && saved == old(saved)
      ensures !raised ==> guildToMessage == old(guildToMessage) - {gid} && saved == Some(guildToMessage)
      ensures !HasRoleMessage(gid)
    {
      if gid !in guildToMessage {
        return true;
      }
      guildToMessage := guildToMessage - {gid};
      saved := Some(guildToMessage);
      return false;
    }
  }

  // ---------------------------------------------------------------------------
  // The commands (roles.py:59-231)

  datatype RolesSub = Init | Add | Del | Reset

  /** The sub-command of "/roles ..." (roles.py:60, 67, 77-84): the first space-separated word
      after the command word. The text always splits into at least one word, so a missing
      sub-command is the empty first word and gets the usage text. */
  function RolesSubcommand(content: string): (r: Option<RolesSub>)
    ensures r.Some? ==> CropCommand(content) != []
  {
    var word := Split(CropCommand(content), ' ')[0];
    if word == "init" then Some(Init)
    else if word == "add" then Some(Add)
    else if word == "del" then Some(Del)
    else if word == "reset" then Some(Reset)
    else None
  }

  /** "/roles add 😀 @Role" selects add: the word after the command word decides. */
  lemma SubcommandOfWord(cmd: string, word: string, rest: string)
    requires ' ' !in cmd && ' ' !in word && word in ["init", "add", "del", "reset"]
    requires !IsSpace(word[0]) && (rest == [] || !IsSpace(rest[|rest| - 1]))
    ensures RolesSubcommand(cmd + " " + word + " " + rest).Some?
  {
    assert word != [] && !IsSpace(word[|word| - 1]);
    FirstWordAfterCommand(cmd, word, rest);
  }

  /** The first word after the command word is the sub-command word. */
  lemma FirstWordAfterCommand(cmd: string, word: string, rest: string)
    requires ' ' !in cmd && ' ' !in word && word != [] && !IsSpace(word[0]) && !IsSpace(word[|word| - 1])
    requires rest == [] || !IsSpace(rest[|rest| - 1])
    ensures Split(CropCommand(cmd + " " + word + " " + rest), ' ')[0] == word
  {
    var arg := word + " " + rest;
    assert arg[0] == word[0] && arg[|arg| - 1] == if rest == [] then ' ' else rest[|rest| - 1];
    if rest == [] {
      assert cmd + " " + word + " " + rest == (cmd + " " + word) + " ";
      var raw := cmd + " " + word + " ";
      assert raw == cmd + " " + (word + " ");
      CropOfPadded(cmd, word);
      SplitFree(word, ' ');
    } else {
      assert cmd + " " + word + " " + rest == cmd + " " + arg;
      CropOfCommand(cmd, arg);
      SplitPrefix(word, rest, ' ');
    }
  }

  /** A command word, a space and a word followed by a trailing space crop to the word. */
  lemma CropOfPadded(cmd: string, word: string)
    requires ' ' !in cmd && ' ' !in word && word != [] && !IsSpace(word[0]) && !IsSpace(word[|word| - 1])
    ensures CropCommand(cmd + " " + (word + " ")) == word
  {
    var raw := cmd + " " + (word + " ");
    assert raw[|cmd|] == ' ';
    var msg := SplitOnce(raw, ' ');
    assert |msg[0]| == |cmd|;
    assert msg[1] == raw[|cmd| + 1..] == word + " ";
    assert IsBlank(" ");
    StripPadded(word, " ");
  }

  /** Whether __roles runs a sub-command (roles.py:62-86): admins and guild managers only, and
      only a known sub-command; either refusal is answered and nothing else happens. */
  function RolesCommand(isAdmin: bool, isManager: bool, content: string): (r: Option<RolesSub>)
    ensures r.Some? ==> (isAdmin || isManager) && RolesSubcommand(content) == r
    ensures (isAdmin || isManager) ==> r == RolesSubcommand(content)
  {
    if !isAdmin && !isManager then None else RolesSubcommand(content)
  }

  datatype RoleReply =
    | NoGuild | MessageExists | NoMessage | NotOneRole | NotOneEmoji(found: nat)
    | EmojiInUse(emoji: string) | EmojiUnused

  /** What add and del do: refuse with a reply, or edit the role message to the new text and
      add (or take back) the bot's reaction of the emoji. */
  datatype Edit = Rejected(reply: RoleReply) | Edited(content: string, emoji: string)

  /** __ensure_guild_message (roles.py:93-112): the guild, unless there is none or its role
      message does not exist as the caller needs. */
  method EnsureGuildMessage(state: RolesState, guild: Option<int>, shallExist: bool) returns (r: Option<RoleReply>)
    ensures r.None? <==> guild.Some? && state.HasRoleMessage(guild.value) == shallExist
    ensures guild.None? ==> r == Some(NoGuild)
    ensures guild.Some? && shallExist && !state.HasRoleMessage(guild.value) ==> r == Some(NoMessage)
    ensures guild.Some? && !shallExist && state.HasRoleMessage(guild.value) ==> r == Some(MessageExists)
  {
    if guild.None? {
      return Some(NoGuild);
    }
    if !shallExist && state.HasRoleMessage(guild.value) {
      return Some(MessageExists);
    }
    if shallExist && !state.HasRoleMessage(guild.value) {
      return Some(NoMessage);
    }
    return None;
  }

  /** __role_chooser_init (roles.py:141-148): posts the initial text and remembers the new
      message, unless the guild already has one. */
  method RoleChooserInit(state: RolesState, guild: Option<int>, cid: int, mid: int) returns (r: Option<RoleReply>)
    modifies state
    ensures r.None? <==> guild.Some? && !old(state.HasRoleMessage(guild.value))
    ensures r.None? ==> state.guildToMessage == old(state.guildToMessage)[guild.value := [cid, mid]]
                        && state.IsGuildMessage(guild.value, cid, mid)
    ensures r.Some? ==> state.guildToMessage == old(state.guildToMessage) && state.saved == old(state.saved)
  {
    r := EnsureGuildMessage(state, guild, false);
    if r.None? {
      state.AddRoleMessage(guild.value, cid, mid);
    }
  }

  /** __role_chooser_add_role (roles.py:151-187), given the text of the role message: exactly
      one role and one emoji, an emoji not yet in the mapping; the mapping with the new entry
      is written back. */
  method RoleChooserAdd(state: RolesState, guild: Option<int>, roleMentions: seq<string>, emojis: seq<string>,
                        content: string) returns (r: Edit)
    ensures guild.None? ==> r == Rejected(NoGuild)
    ensures guild.Some? && !state.HasRoleMessage(guild.value) ==> r == Rejected(NoMessage)
    ensures r.Rejected? && r.reply == NotOneRole <==>
              guild.Some? && state.HasRoleMessage(guild.value) && |roleMentions| != 1
    ensures r.Rejected? && r.reply.NotOneEmoji? <==>
              guild.Some? && state.HasRoleMessage(guild.value) && |roleMentions| == 1 && |emojis| != 1
    ensures r.Rejected? && r.reply.NotOneEmoji? ==> r.reply.found == |emojis|
    ensures r.Edited? <==> guild.Some? && state.HasRoleMessage(guild.value) && |roleMentions| == 1
                           && |emojis| == 1 && emojis[0] !in Keys(ParseMappings(content))
    ensures r.Edited? ==> r.emoji == emojis[0]
                          && r.content == MappingText(ParseMappings(content) + [(emojis[0], roleMentions[0])])
    ensures r.Edited? && CleanEntry((emojis[0], roleMentions[0])) ==>
              ParseMappings(r.content) == ParseMappings(content) + [(emojis[0], roleMentions[0])]
  {
    var refused := EnsureGuildMessage(state, guild, true);
    if refused.Some? {
      return Rejected(refused.value);
    }
    if |roleMentions| != 1 {
      return Rejected(NotOneRole);
    }
    if |emojis| != 1 {
      return Rejected(NotOneEmoji(|emojis|));
    }
    var role, emoji := roleMentions[0], emojis[0];
    var mappings := LoadMappings(content);
    if emoji in Keys(mappings) {
      return Rejected(EmojiInUse(emoji));
    }
    PutNew(mappings, emoji, role);
    mappings := Put(mappings, emoji, role);
    var text := MappingToMessage(mappings);
    if CleanEntry((emoji, role)) {
      ParsedClean(content);
      AddedReadsBack(ParseMappings(content), emoji, role);
    }
    return Edited(text, emoji);
  }

  /** Adding a clean entry with a new emoji to a parsed mapping reads back as that mapping with
      the entry at the end. */
  lemma AddedReadsBack(m: Mapping, emoji: string, role: string)
    requires CleanMapping(m) && emoji !in Keys(m) && CleanEntry((emoji, role))
    ensures ParseMappings(MappingText(m + [(emoji, role)])) == m + [(emoji, role)]
  {
    var r := m + [(emoji, role)];
    forall i, j | 0 <= i < j < |r| ensures r[i].0 != r[j].0 {
      if j == |m| {
        assert r[i].0 == Keys(m)[i];
      }
    }
    ReadBack(r);
  }

  /** __role_chooser_del_role (roles.py:190-217), given the text of the role message: exactly
      one emoji, one that is in the mapping; the mapping without it is written back. */
  method RoleChooserDel(state: RolesState, guild: Option<int>, emojis: seq<string>, content: string) returns (r: Edit)
    ensures guild.None? ==> r == Rejected(NoGuild)
    ensures guild.Some? && !state.HasRoleMessage(guild.value) ==> r == Rejected(NoMessage)
    ensures r.Rejected? && r.reply.NotOneEmoji? <==> guild.Some? && state.HasRoleMessage(guild.value) && |emojis| != 1
    ensures r.Rejected? && r.reply == EmojiUnused <==>
              guild.Some? && state.HasRoleMessage(guild.value) && |emojis| == 1 && emojis[0] !in Keys(ParseMappings(content))
    ensures r.Edited? <==> guild.Some? && state.HasRoleMessage(guild.value) && |emojis| == 1
                           && emojis[0] in Keys(ParseMappings(content))
    ensures r.Edited? ==> r.emoji == emojis[0]
                          && ParseMappings(r.content) == RemoveKey(ParseMappings(content), emojis[0])
                          && emojis[0] !in Keys(ParseMappings(r.content))
  {
    var refused := EnsureGuildMessage(state, guild, true);
    if refused.Some? {
      return Rejected(refused.value);
    }
    if |emojis| != 1 {
      return Rejected(NotOneEmoji(|emojis|));
    }
    var emoji := emojis[0];
    var mappings := LoadMappings(content);
    if emoji !in Keys(mappings) {
      return Rejected(EmojiUnused);
    }
    mappings := RemoveKey(mappings, emoji);
    var text := MappingToMessage(mappings);
    ParsedClean(content);
    RemovedReadsBack(ParseMappings(content), emoji);
    return Edited(text, emoji);
  }

  /** Removing an emoji from a parsed mapping reads back as the mapping without it. */
  lemma RemovedReadsBack(m: Mapping, emoji: string)
    requires CleanMapping(m)
    ensures ParseMappings(MappingText(RemoveKey(m, emoji))) == RemoveKey(m, emoji)
    ensures emoji !in Keys(RemoveKey(m, emoji))
  {
    var r := RemoveKey(m, emoji);
    RemoveKeyEntries(m, emoji);
    RemoveKeyDistinct(m, emoji);
    forall i | 0 <= i < |r| ensures CleanEntry(r[i]) {
      assert r[i] in r;
    }
    ReadBack(r);
  }

  /** __role_chooser_reset (roles.py:220-231): forgets the guild's role message (the message
      itself is deleted). */
  method RoleChooserReset(state: RolesState, guild: Option<int>) returns (r: Option<RoleReply>)
    modifies state
    ensures r.None? <==> guild.Some? && old(state.HasRoleMessage(guild.value))
    ensures r.None? ==> state.guildToMessage == old(state.guildToMessage) - {guild.value}
                        && !state.HasRoleMessage(guild.value)
    ensures r.Some? ==> state.guildToMessage == old(state.guildToMessage) && state.saved == old(state.saved)
  {
    r := EnsureGuildMessage(state, guild, true);
    if r.None? {
      var _ := state.RemoveRoleMessage(guild.value);
    }
  }

  // ---------------------------------------------------------------------------
  // A reaction on the role message (roles.py:234-277)

  /** Whether p occurs in s (Python's `p in s` on strings). */
  predicate IsInfix(p: string, s: string)
    decreases |s|
  {
    StartsWith(s, p) || (s != [] && IsInfix(p, s[1..]))
  }

  /** A role's id occurs in its own mention. */
  lemma IdInMention(id: string)
    ensures IsInfix(id, "<@&" + id + ">")
  {
    var s := "<@&" + id + ">";
    assert s[1..][1..][1..] == id + ">";
    assert (id + ">")[..|id|] == id;
    assert IsInfix(id, s[1..][1..][1..]);
    assert IsInfix(id, s[1..][1..]);
    assert IsInfix(id, s[1..]);
  }

  /** The ids of the guild's roles that occur in the mention. */
  function RolesIn(ids: seq<string>, mention: string): (r: seq<string>)
    ensures forall x :: x in r <==> x in ids && IsInfix(x, mention)
  {
    if ids == [] then []
    else (if IsInfix(ids[0], mention) then [ids[0]] else []) + RolesIn(ids[1..], mention)
  }

  /** The member's roles after a click on a role: taken when held, given otherwise. */
  function Toggle(roles: set<string>, id: string): (r: set<string>)
    ensures id in r <==> id !in roles
    ensures r - {id} == roles - {id}
  {
    if id in roles then roles - {id} else roles + {id}
  }

  /** A second click on the same role undoes the first. */
  lemma ToggleTwice(roles: set<string>, id: string)
    ensures Toggle(Toggle(roles, id), id) == roles
  {
    var once := Toggle(roles, id);
    assert once - {id} == roles - {id};
  }

  datatype ReactionResult =
    | NotRoleMessage          // not the guild's role message: the handler returns False
    | EmojiNotMapped          // answered "Emoji wird nicht verwendet"
    | NoSingleRole            // no role, or several, match the mention: nothing happens
    | Toggled(roles: set<string>)
    | NotPermitted            // the Discord call failed: answered, roles unchanged

  /** __handle_role_reaction given the text of the role message, the ids of the guild's roles,
      the roles the member holds, and whether Discord refuses the change. */
  method HandleRoleReaction(state: RolesState, gid: int, cid: int, mid: int, emoji: string, content: string,
                            guildRoles: seq<string>, memberRoles: set<string>, refused: bool)
    returns (handled: bool, r: ReactionResult)
    ensures handled <==> state.IsGuildMessage(gid, cid, mid)
    ensures !handled <==> r == NotRoleMessage
    ensures handled && Lookup(ParseMappings(content), emoji).None? ==> r == EmojiNotMapped
    ensures r.Toggled? || r == NotPermitted <==>
              handled && Lookup(ParseMappings(content), emoji).Some?
              && |RolesIn(guildRoles, Lookup(ParseMappings(content), emoji).value)| == 1
    ensures r.Toggled? || r == NotPermitted ==> (r == NotPermitted <==> refused)
    ensures r.Toggled? ==> var id := RolesIn(guildRoles, Lookup(ParseMappings(content), emoji).value)[0];
                           r.roles == Toggle(memberRoles, id)
  {
    if !state.IsGuildMessage(gid, cid, mid) {
      return false, NotRoleMessage;
    }
    var mappings := LoadMappings(content);
    var roleId := Lookup(mappings, emoji);
    if roleId.None? {
      return true, EmojiNotMapped;
    }
    var role := RolesIn(guildRoles, roleId.value);
    if |role| != 1 {
      return true, NoSingleRole;
    }
    if refused {
      return true, NotPermitted;
    }
    return true, Toggled(Toggle(memberRoles, role[0]));
  }
}
