// The admin area of the Kotlin polls (src/main/kotlin/org/fuchss/deltabot/command/user/polls/PollAdmin.kt):
// a message naming the poll type and poll id, with finish / delete / refresh buttons; a click on
// one of them is parsed back from the message text and passed to the manager registered for the
// type. The managers are named by strings, and whether the clicking user owns the poll is an
// input (the manager's isOwner).

module KotlinPollAdmin {
  import opened Text
  import opened Collections

  const PollTypeLine := "PollType: "
  const PollIdLine := "PollId: "

  /** The button ids: the names of the :octagonal_sign:, :put_litter_in_its_place: and :cyclone:
      emojis. */
  const FinishId := "\U{1F6D1}"
  const DeleteId := "\U{1F6AE}"
  const RefreshId := "\U{1F300}"

  predicate IsLineBreak(c: char) { c == '\n' || c == '\r' }

  /** Kotlin's String.lines(): split at "\r\n", "\n" and "\r". */
  function Lines(s: string): (r: seq<string>)
    ensures |r| >= 1
  {
    if s == [] then [[]]
    else if s[0] == '\n' then [[]] + Lines(s[1..])
    else if s[0] == '\r' then
      if |s| >= 2 && s[1] == '\n' then [[]] + Lines(s[2..]) else [[]] + Lines(s[1..])
    else
      var t := Lines(s[1..]);
      [[s[0]] + t[0]] + t[1..]
  }

  /** A line without line breaks followed by "\n" is the first line. */
  lemma {:induction false} LinesAfterLine(line: string, rest: string)
    requires NoBreaks(line)
    ensures Lines(line + "\n" + rest) == [line] + Lines(rest)
  {
    var s := line + "\n" + rest;
    if line == [] {
      assert s == "\n" + rest && s[1..] == rest;
    } else {
      assert s[0] == line[0] && s[1..] == line[1..] + "\n" + rest;
      LinesAfterLine(line[1..], rest);
      assert [line[0]] + line[1..] == line;
    }
  }

  /** The admin area's text (PollAdmin.kt:58-62); the note after the blank line is its (translated)
      greeting. */
  function AdminText(pollType: string, mid: string, note: string): string {
    PollTypeLine + pollType + "\n" + PollIdLine + mid + "\n\n" + note
  }

  /** The value after a line's prefix, trimmed, or "" without the prefix (PollAdmin.kt:36-37). */
  function ValueAfter(line: string, prefix: string): (r: string)
    ensures !StartsWith(line, prefix) ==> r == ""
    ensures r == [] || (!IsSpace(r[0]) && !IsSpace(r[|r| - 1]))
  {
    if StartsWith(line, prefix) then Strip(line[|prefix|..]) else ""
  }

  /** The poll type and poll id read from the message, when it has two lines (PollAdmin.kt:32-37). */
  function ParseAdmin(content: string): (r: Option<(string, string)>)
    ensures r.None? <==> |Lines(content)| < 2
  {
    var lines := Lines(content);
    if |lines| < 2 then None
    else Some((ValueAfter(lines[0], PollTypeLine), ValueAfter(lines[1], PollIdLine)))
  }

  /** A value that survives trimming and has no line break. */
  predicate Plain(v: string) {
    && (v == [] || (!IsSpace(v[0]) && !IsSpace(v[|v| - 1])))
    && NoBreaks(v)
  }

  predicate NoBreaks(v: string) {
    forall i :: 0 <= i < |v| ==> !IsLineBreak(v[i])
  }

  /** A prefix and a plain value make a line that reads back as the value. */
  lemma PrefixedLine(prefix: string, v: string)
    requires NoBreaks(prefix) && Plain(v)
    ensures NoBreaks(prefix + v)
    ensures ValueAfter(prefix + v, prefix) == v
  {
    var l := prefix + v;
    forall i | 0 <= i < |l| ensures !IsLineBreak(l[i]) {
      if i >= |prefix| {
        assert l[i] == v[i - |prefix|];
      } else {
        assert l[i] == prefix[i];
      }
    }
    assert l[..|prefix|] == prefix && l[|prefix|..] == v;
    StripOfUnpadded(v);
  }

  /** The admin text of a plain type and id reads back as that type and id, whatever the note. */
  lemma AdminTextRoundTrip(pollType: string, mid: string, note: string)
    requires Plain(pollType) && Plain(mid)
    ensures ParseAdmin(AdminText(pollType, mid, note)) == Some((pollType, mid))
  {
    var l0, l1 := PollTypeLine + pollType, PollIdLine + mid;
    assert NoBreaks(PollTypeLine) && NoBreaks(PollIdLine);
    PrefixedLine(PollTypeLine, pollType);
    PrefixedLine(PollIdLine, mid);
    var rest := "\n" + note;
    assert AdminText(pollType, mid, note) == l0 + "\n" + (l1 + "\n" + rest);
    LinesAfterLine(l1, rest);
    LinesAfterLine(l0, l1 + "\n" + rest);
  }

  /** What a click on the admin area does (PollAdmin.kt:23-56). */
  datatype AdminAction =
    | Ignored                                    // not the bot's message, another button, or fewer than two lines
    | NotFound                                   // "Message or Type not found", shown only to the clicker
    | NotOwner                                   // the manager denies ownership: nothing happens
    | Terminate(manager: string, mid: string)
    | RemovePoll(manager: string, mid: string)
    | RefreshPoll(manager: string, mid: string)

  class PollAdmin {
    /** pollXmanager: poll type to the name of its manager. */
    var managers: map<string, string>

    constructor()
      ensures managers == map[]
    {
      managers := map[];
    }

    /** register (PollAdmin.kt:72-74): a type registered again gets the new manager. */
    method Register(pollType: string, manager: string)
      modifies this
      ensures managers == old(managers)[pollType := manager]
      ensures managers[pollType] == manager
      ensures forall t :: t in old(managers) && t != pollType ==> t in managers && managers[t] == old(managers)[t]
    {
      managers := managers[pollType := manager];
    }

    /** handleAction (PollAdmin.kt:23-56). */
    function Action(selfAuthored: bool, buttonId: Option<string>, content: string, isOwner: (string, string) -> bool): (r: AdminAction)
      reads this
      ensures !selfAuthored ==> r == Ignored
      ensures (r.Terminate? || r.RemovePoll? || r.RefreshPoll?) ==>
                && ParseAdmin(content).Some? && ParseAdmin(content).value.0 in managers
                && r.manager == managers[ParseAdmin(content).value.0] && r.mid == ParseAdmin(content).value.1
                && r.mid != [] && isOwner(r.manager, r.mid)
      ensures r == NotFound <==>
                && selfAuthored && buttonId.Some? && buttonId.value in [FinishId, DeleteId, RefreshId]
                && ParseAdmin(content).Some?
                && var parsed := ParseAdmin(content).value;
                   parsed.0 == [] || parsed.1 == [] || parsed.0 !in managers
      ensures r == NotOwner <==>
                && selfAuthored && buttonId.Some? && buttonId.value in [FinishId, DeleteId, RefreshId]
                && ParseAdmin(content).Some?
                && var parsed := ParseAdmin(content).value;
                   parsed.0 != [] && parsed.1 != [] && parsed.0 in managers && !isOwner(managers[parsed.0], parsed.1)
      ensures r.Terminate? <==> selfAuthored && buttonId == Some(FinishId) && Acts(content, isOwner)
      ensures r.RemovePoll? <==> selfAuthored && buttonId == Some(DeleteId) && Acts(content, isOwner)
      ensures r.RefreshPoll? <==> selfAuthored && buttonId == Some(RefreshId) && Acts(content, isOwner)
    {
      var id := if buttonId.Some? then buttonId.value else "";
      if !selfAuthored || id !in [FinishId, DeleteId, RefreshId] then Ignored
      else
        match ParseAdmin(content)
        case None => Ignored
        case Some(parsed) =>
          var pollType, mid := parsed.0, parsed.1;
          if pollType == [] || mid == [] || pollType !in managers then NotFound
          else
            var handler := managers[pollType];
            if !isOwner(handler, mid) then NotOwner
            else if id == FinishId then Terminate(handler, mid)
            else if id == DeleteId then RemovePoll(handler, mid)
            else RefreshPoll(handler, mid)
    }

    /** The message names a registered type and a poll id, and the clicker owns that poll. */
    predicate Acts(content: string, isOwner: (string, string) -> bool)
      reads this
    {
      match ParseAdmin(content)
      case None => false
      case Some(parsed) =>
        parsed.0 != [] && parsed.1 != [] && parsed.0 in managers && isOwner(managers[parsed.0], parsed.1)
    }
  
    /** A click by the owner on an admin area made for a registered type reaches the type's
        manager with the poll id. */
    lemma ClickReachesManager(pollType: string, mid: string, note: string, button: string, isOwner: (string, string) -> bool)
      requires Plain(pollType) && Plain(mid) && pollType != [] && mid != []
      requires pollType in managers && isOwner(managers[pollType], mid)
      requires button in [FinishId, DeleteId, RefreshId]
      ensures var r := Action(true, Some(button), AdminText(pollType, mid, note), isOwner);
              r == (if button == FinishId then Terminate(managers[pollType], mid)
                    else if button == DeleteId then RemovePoll(managers[pollType], mid)
                    else RefreshPoll(managers[pollType], mid))
    {
      AdminTextRoundTrip(pollType, mid, note);
    }
  }
}
