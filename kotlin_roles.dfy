// The role chooser of the Kotlin bot (command/user/Roles.kt). Unlike the Python version it keeps
// the emoji-to-role mapping of each guild in its persisted state and renders the role message
// from it; a click on one of the message's buttons gives or takes the role of that emoji.

module KotlinRoles {
  import opened Text
  import opened Collections
  import Roles

  // ---------------------------------------------------------------------------
  // State (Roles.kt:232-261)

  /** A map from emoji to role mention, in insertion order (a LinkedHashMap). */
  type RoleMap = seq<(string, string)>

  datatype GuildState = GuildState(channelId: string, messageId: string, emojiToRole: RoleMap)

  /** No two emojis stand for the same role. */
  ghost predicate Injective(m: RoleMap) {
    forall i, j :: 0 <= i < j < |m| ==> m[i].1 != m[j].1
  }

  /** What handleAdd and handleDel keep for every guild: distinct emojis and distinct roles. */
  ghost predicate WellFormed(m: RoleMap) {
    DistinctKeys(m) && Injective(m)
  }

  class RolesState {
    var guild2Message: map<string, GuildState>
    /** The last state written by store(); None before the first write. */
    var saved: Option<map<string, GuildState>>

    constructor(loaded: map<string, GuildState>)
      ensures guild2Message == loaded && saved == None
    {
      guild2Message := loaded;
      saved := None;
    }

    ghost predicate Valid()
      reads this
    {
      forall g :: g in guild2Message ==> WellFormed(guild2Message[g].emojiToRole)
    }

    /** hasRoleMessage (Roles.kt:246) */
    predicate HasRoleMessage(g: string)
      reads this
    {
      g in guild2Message
    }

    /** getGuildState (Roles.kt:247): null for a guild without a role message. */
    function GetGuildState(g: string): (r: Option<GuildState>)
      reads this
      ensures r.Some? <==> HasRoleMessage(g)
      ensures r.Some? ==> r.value == guild2Message[g]
    {
      if g in guild2Message then Some(guild2Message[g]) else None
    }

    /** isGuildMessage (Roles.kt:249-254): the guild has a role message with exactly these ids. */
    predicate IsGuildMessage(g: string, cid: string, mid: string)
      reads this
      ensures IsGuildMessage(g, cid, mid) <==>
                GetGuildState(g).Some? && GetGuildState(g).value.channelId == cid
                && GetGuildState(g).value.messageId == mid
    {
      if g !in guild2Message then false
      else guild2Message[g].channelId == cid && guild2Message[g].messageId == mid
    }

    method Store()
      modifies this
      ensures guild2Message == old(guild2Message) && saved == Some(guild2Message)
    {
      saved := Some(guild2Message);
    }

    /** addRoleMessage (Roles.kt:236-239): a fresh guild state with an empty mapping replaces
        any old one, and the state is stored. */
    method AddRoleMessage(g: string, cid: string, mid: string)
      modifies this
      ensures guild2Message == old(guild2Message)[g := GuildState(cid, mid, [])]
      ensures saved == Some(guild2Message)
      ensures IsGuildMessage(g, cid, mid) && GetGuildState(g).value.emojiToRole == []
      ensures old(Valid()) ==> Valid()
    {
      guild2Message := guild2Message[g := GuildState(cid, mid, [])];
      saved := Some(guild2Message);
    }

    /** removeRoleMessage (Roles.kt:241-244): Kotlin's remove of an absent key does nothing. */
    method RemoveRoleMessage(g: string)
      modifies this
      ensures guild2Message == old(guild2Message) - {g} && saved == Some(guild2Message)
      ensures !HasRoleMessage(g)
      ensures old(Valid()) ==> Valid()
    {
      guild2Message := guild2Message - {g};
      saved := Some(guild2Message);
    }
  }

  // ---------------------------------------------------------------------------
  // The text of the role message (Roles.kt:29-30, 80, 203-215)

  // The texts are written in pieces so that the verifier can check them a piece at a time.
  const SwitcherText := "**Please choose your " + "roles on this server :)**"
  const NoRoles := "*At the moment, no " + "roles can be chosen " + ".. please wait for " + "your guild leader :)*"
  const ButtonsHint := "Please choose buttons " + "to select your roles .."
  /** The separator between emoji and mention as the source file spells it: the three characters
      a UTF-8 arrow becomes when its bytes are read as Windows-1252. */
  const Separator := " " + ['\U{E2}', '\U{2020}', '\U{2019}'] + " "

  /** The text handleInit posts (Roles.kt:80). */
  const InitialText := SwitcherText + "\n" + NoRoles

  function EntryLine(e: (string, string)): string {
    e.0 + Separator + e.1
  }

  function EntryLines(m: RoleMap): (r: seq<string>)
    ensures |r| == |m| && forall i :: 0 <= i < |m| ==> r[i] == EntryLine(m[i])
  {
    if m == [] then [] else [EntryLine(m[0])] + EntryLines(m[1..])
  }

  /** The text updateGuild writes: the header and the "no roles" line for an empty mapping,
      otherwise the header, a blank line, one line per entry, a blank line and the hint. */
  function GuildText(m: RoleMap): string {
    if m == [] then SwitcherText + "\n" + NoRoles
    else SwitcherText + "\n\n" + Join("\n", EntryLines(m)) + "\n\n" + ButtonsHint
  }

  /** The buttons updateGuild attaches: one per emoji, in the mapping's order (Roles.kt:214). */
  function GuildButtons(m: RoleMap): (r: seq<string>)
    ensures r == [] <==> m == []
    ensures |r| == |m| && forall i :: 0 <= i < |m| ==> r[i] == m[i].0
  {
    Keys(m)
  }

  lemma SwitcherTextOneLine()
    ensures '\n' !in SwitcherText
  {
    SwitcherHead();
    SwitcherTail();
  }

  lemma SwitcherHead() ensures '\n' !in "**Please choose your " {}
  lemma SwitcherTail() ensures '\n' !in "roles on this server :)**" {}

  lemma NoRolesOneLine()
    ensures '\n' !in NoRoles
  {
    NoRolesFirst();
    NoRolesSecond();
    NoRolesThird();
    NoRolesFourth();
  }

  lemma NoRolesFirst() ensures '\n' !in "*At the moment, no " {}
  lemma NoRolesSecond() ensures '\n' !in "roles can be chosen " {}
  lemma NoRolesThird() ensures '\n' !in ".. please wait for " {}
  lemma NoRolesFourth() ensures '\n' !in "your guild leader :)*" {}

  lemma ButtonsHintOneLine()
    ensures '\n' !in ButtonsHint
  {
    HintHead();
    HintTail();
  }

  lemma HintHead() ensures '\n' !in "Please choose buttons " {}
  lemma HintTail() ensures '\n' !in "to select your roles .." {}

  /** The message of an empty mapping is two lines: the header and the "no roles" line. */
  lemma EmptyGuildLines()
    ensures Split(GuildText([]), '\n') == [SwitcherText, NoRoles]
  {
    SwitcherTextOneLine();
    NoRolesOneLine();
    var lines := [SwitcherText, NoRoles];
    assert lines[1..] == [NoRoles];
    assert Join("\n", lines) == SwitcherText + "\n" + NoRoles;
    SplitJoin(lines, '\n');
  }

  /** For entries without newlines, the message has exactly one line per entry, in the mapping's
      order, between the header and the hint. */
  lemma GuildTextLines(m: RoleMap)
    requires m != [] && OneLineEntries(m)
    ensures Split(GuildText(m), '\n') == [SwitcherText, ""] + EntryLines(m) + ["", ButtonsHint]
  {
    EntryLinesOneLine(m);
    SwitcherTextOneLine();
    ButtonsHintOneLine();
    FramedSplit(SwitcherText, EntryLines(m), ButtonsHint);
  }

  /** No emoji and no mention holds a newline. */
  predicate OneLineEntries(m: RoleMap) {
    forall i :: 0 <= i < |m| ==> '\n' !in m[i].0 && '\n' !in m[i].1
  }

  lemma EntryLinesOneLine(m: RoleMap)
    requires OneLineEntries(m)
    ensures Roles.OneLines(EntryLines(m))
  {
    var ls := EntryLines(m);
    SeparatorOneLine();
    forall k | 0 <= k < |ls| ensures '\n' !in ls[k] {
      assert ls[k] == m[k].0 + Separator + m[k].1;
    }
  }

  /** A header, a blank line, some lines, a blank line and a hint split back into those lines. */
  lemma FramedSplit(header: string, ls: seq<string>, hint: string)
    requires ls != [] && Roles.OneLines(ls) && '\n' !in header && '\n' !in hint
    ensures Split(header + "\n\n" + Join("\n", ls) + "\n\n" + hint, '\n') == [header, ""] + ls + ["", hint]
  {
    var lines := [header, ""] + ls + ["", hint];
    FramedJoin(header, ls, hint);
    Roles.OneLinesConcat([header, ""], ls);
    Roles.OneLinesConcat([header, ""] + ls, ["", hint]);
    SplitJoin(lines, '\n');
  }

  /** The framed text is the join of its lines. */
  lemma FramedJoin(header: string, ls: seq<string>, hint: string)
    requires ls != []
    ensures header + "\n\n" + Join("\n", ls) + "\n\n" + hint == Join("\n", [header, ""] + ls + ["", hint])
  {
    Roles.JoinFrame(header, ls, hint);
    JoinAppend("\n", ls, ["", hint]);
    var j := Join("\n", ls);
    assert header + "\n\n" + (j + "\n" + ("\n" + hint)) == header + "\n\n" + j + "\n\n" + hint;
  }

  lemma SeparatorOneLine()
    ensures '\n' !in Separator
  {
  }

  // ---------------------------------------------------------------------------
  // Role ids (Roles.kt:185)

  /** Kotlin's drop(3).dropLast(1): both cut as much as there is. */
  function RoleIdOf(mention: string): (r: string)
    ensures |r| == if |mention| <= 4 then 0 else |mention| - 4
    ensures |mention| > 4 ==> r == mention[3..|mention| - 1]
  {
    var t := if |mention| <= 3 then [] else mention[3..];
    if t == [] then [] else t[..|t| - 1]
  }

  /** A role mention "<@&ID>" yields ID. */
  lemma RoleIdOfMention(id: string)
    ensures RoleIdOf("<@&" + id + ">") == id
  {
    var s := "<@&" + id + ">";
    assert s[3..|s| - 1] == id;
  }

  // ---------------------------------------------------------------------------
  // Mapping updates

  /** The roles the mapping hands out. */
  function MappedRoles(m: RoleMap): (r: seq<string>)
    ensures |r| == |m| && forall i :: 0 <= i < |m| ==> r[i] == m[i].1
  {
    if m == [] then [] else [m[0].1] + MappedRoles(m[1..])
  }

  /** An entry with a new emoji and a new role keeps the mapping well formed. */
  lemma AddKeepsWellFormed(m: RoleMap, emoji: string, role: string)
    requires WellFormed(m) && emoji !in Keys(m) && role !in MappedRoles(m)
    ensures WellFormed(m + [(emoji, role)])
  {
    var r := m + [(emoji, role)];
    forall i, j | 0 <= i < j < |r| ensures r[i].0 != r[j].0 && r[i].1 != r[j].1 {
      if j == |m| {
        assert r[i].0 == Keys(m)[i] && r[i].1 == MappedRoles(m)[i];
      }
    }
  }

  /** A removal keeps the mapping well formed. */
  lemma {:induction false} RemoveKeepsInjective(m: RoleMap, k: string)
    requires Injective(m)
    ensures Injective(RemoveKey(m, k))
  {
    if m != [] {
      var t := m[1..];
      assert Injective(t) by {
        forall i, j | 0 <= i < j < |t| ensures t[i].1 != t[j].1 {
          assert t[i] == m[i + 1] && t[j] == m[j + 1];
        }
      }
      RemoveKeepsInjective(t, k);
      if m[0].0 != k {
        var rt := RemoveKey(t, k);
        var r := [m[0]] + rt;
        RemoveKeyEntries(t, k);
        forall i, j | 0 <= i < j < |r| ensures r[i].1 != r[j].1 {
          assert r[j] == rt[j - 1];
          if i > 0 {
            assert r[i] == rt[i - 1];
          } else {
            assert r[j] in rt;
            var q :| 0 <= q < |t| && t[q] == r[j];
            assert t[q] == m[q + 1];
          }
        }
      } else {
        assert RemoveKey(m, k) == t;
      }
    }
  }

  // ---------------------------------------------------------------------------
  // The commands (Roles.kt:73-172)

  datatype Reply =
    | MessageAlreadyFound     // "Role message already found"
    | MessageCreated          // "Role message created .."
    | NoRoleMessage           // "No role message found"
    | MessageDeleted          // "Role message deleted .."
    | MissingRoleOrEmoji      // "You must provide both .. role and emoji .."
    | MissingEmoji            // "You must provide an emoji .."
    | RoleAlreadyMapped       // "Role already mapped .."
    | FoundEmojis(n: nat)     // "I've found # emojis :("
    | EmojiAlreadyUsed        // "Emoji already used .."
    | NoMappingForEmoji       // "I've found no mapping to this emoji"
    | UpdatedMessage          // "Updated role message"

  /** The edit of the role message: its new text and the ids of its buttons. */
  datatype RoleMessage = RoleMessage(text: string, buttons: seq<string>)

  function Render(m: RoleMap): RoleMessage {
    RoleMessage(GuildText(m), GuildButtons(m))
  }

  /** handleInit (Roles.kt:73-84): refused when the guild has a role message; otherwise the
      initial text is posted and the new message (cid, mid) becomes the guild's role message. */
  method HandleInit(state: RolesState, g: string, cid: string, mid: string) returns (reply: Reply, posted: Option<string>)
    modifies state
    ensures reply == MessageAlreadyFound <==> old(state.HasRoleMessage(g))
    ensures old(state.HasRoleMessage(g)) ==> posted == None && state.guild2Message == old(state.guild2Message)
                                              && state.saved == old(state.saved)
    ensures !old(state.HasRoleMessage(g)) ==>
              reply == MessageCreated && posted == Some(InitialText)
              && state.guild2Message == old(state.guild2Message)[g := GuildState(cid, mid, [])]
    ensures old(state.Valid()) ==> state.Valid()
  {
    if state.HasRoleMessage(g) {
      return MessageAlreadyFound, None;
    }
    state.AddRoleMessage(g, cid, mid);
    return MessageCreated, Some(InitialText);
  }

  /** handlePurge (Roles.kt:86-100): forgets the guild's role message and deletes it. */
  method HandlePurge(state: RolesState, g: string) returns (reply: Reply, deleted: Option<(string, string)>)
    modifies state
    ensures reply == NoRoleMessage <==> !old(state.HasRoleMessage(g))
    ensures !old(state.HasRoleMessage(g)) ==> deleted == None && state.guild2Message == old(state.guild2Message)
                                               && state.saved == old(state.saved)
    ensures old(state.HasRoleMessage(g)) ==>
              reply == MessageDeleted && state.guild2Message == old(state.guild2Message) - {g}
              && deleted == Some((old(state.guild2Message)[g].channelId, old(state.guild2Message)[g].messageId))
    ensures old(state.Valid()) ==> state.Valid()
  {
    if !state.HasRoleMessage(g) {
      return NoRoleMessage, None;
    }
    var st := state.GetGuildState(g).value;
    state.RemoveRoleMessage(g);
    return MessageDeleted, Some((st.channelId, st.messageId));
  }

  /** handleAdd (Roles.kt:102-138), given the emojis findAllEmojis finds in the emoji option.
      The checks come in the source's order; only when all pass is the entry added at the end
      of the mapping, the state stored and the message rendered anew. */
  method HandleAdd(state: RolesState, g: string, emoji: Option<string>, role: Option<string>, found: seq<string>)
    returns (reply: Reply, edit: Option<RoleMessage>)
    modifies state
    ensures !old(state.HasRoleMessage(g)) ==> reply == NoRoleMessage
    ensures reply == MissingRoleOrEmoji <==> old(state.HasRoleMessage(g)) && (emoji.None? || role.None?)
    ensures reply == RoleAlreadyMapped <==>
              old(state.HasRoleMessage(g)) && emoji.Some? && role.Some?
              && role.value in MappedRoles(old(state.guild2Message)[g].emojiToRole)
    ensures reply.FoundEmojis? <==>
              old(state.HasRoleMessage(g)) && emoji.Some? && role.Some?
              && role.value !in MappedRoles(old(state.guild2Message)[g].emojiToRole) && |found| != 1
    ensures reply.FoundEmojis? ==> reply.n == |found|
    ensures reply == EmojiAlreadyUsed <==>
              old(state.HasRoleMessage(g)) && emoji.Some? && role.Some?
              && role.value !in MappedRoles(old(state.guild2Message)[g].emojiToRole) && |found| == 1
              && found[0] in Keys(old(state.guild2Message)[g].emojiToRole)
    ensures reply != UpdatedMessage ==> edit == None && state.guild2Message == old(state.guild2Message)
                                        && state.saved == old(state.saved)
    ensures reply == UpdatedMessage ==>
              var st := old(state.guild2Message)[g];
              var m := st.emojiToRole + [(found[0], role.value)];
              state.guild2Message == old(state.guild2Message)[g := st.(emojiToRole := m)]
              && state.saved == Some(state.guild2Message) && edit == Some(Render(m))
    ensures old(state.Valid()) ==> state.Valid()
  {
    if !state.HasRoleMessage(g) {
      return NoRoleMessage, None;
    }
    if emoji.None? || role.None? {
      return MissingRoleOrEmoji, None;
    }
    var st := state.GetGuildState(g).value;
    if role.value in MappedRoles(st.emojiToRole) {
      return RoleAlreadyMapped, None;
    }
    if |found| != 1 {
      return FoundEmojis(|found|), None;
    }
    if found[0] in Keys(st.emojiToRole) {
      return EmojiAlreadyUsed, None;
    }
    PutNew(st.emojiToRole, found[0], role.value);
    var m := Put(st.emojiToRole, found[0], role.value);
    ghost var wasValid := state.Valid();
    state.guild2Message := state.guild2Message[g := st.(emojiToRole := m)];
    state.Store();
    if wasValid {
      AddKeepsWellFormed(st.emojiToRole, found[0], role.value);
    }
    return UpdatedMessage, Some(Render(m));
  }

  /** handleDel (Roles.kt:141-172), given the emojis findAllEmojis finds in the emoji option:
      the emoji's entry leaves the mapping, the state is stored and the message rendered anew. */
  method HandleDel(state: RolesState, g: string, emoji: Option<string>, found: seq<string>)
    returns (reply: Reply, edit: Option<RoleMessage>)
    modifies state
    ensures !old(state.HasRoleMessage(g)) ==> reply == NoRoleMessage
    ensures reply == MissingEmoji <==> old(state.HasRoleMessage(g)) && emoji.None?
    ensures reply.FoundEmojis? <==> old(state.HasRoleMessage(g)) && emoji.Some? && |found| != 1
    ensures reply.FoundEmojis? ==> reply.n == |found|
    ensures reply == NoMappingForEmoji <==>
              old(state.HasRoleMessage(g)) && emoji.Some? && |found| == 1
              && found[0] !in Keys(old(state.guild2Message)[g].emojiToRole)
    ensures reply != UpdatedMessage ==> edit == None && state.guild2Message == old(state.guild2Message)
                                        && state.saved == old(state.saved)
    ensures reply == UpdatedMessage ==>
              var st := old(state.guild2Message)[g];
              var m := RemoveKey(st.emojiToRole, found[0]);
              state.guild2Message == old(state.guild2Message)[g := st.(emojiToRole := m)]
              && state.saved == Some(state.guild2Message) && edit == Some(Render(m))
    ensures reply == UpdatedMessage && old(state.Valid()) ==>
              var m := state.guild2Message[g].emojiToRole;
              found[0] !in Keys(m)
              && forall e :: e != found[0] ==> Lookup(m, e) == Lookup(old(state.guild2Message)[g].emojiToRole, e)
    ensures old(state.Valid()) ==> state.Valid()
  {
    if !state.HasRoleMessage(g) {
      return NoRoleMessage, None;
    }
    if emoji.None? {
      return MissingEmoji, None;
    }
    if |found| != 1 {
      return FoundEmojis(|found|), None;
    }
    var st := state.GetGuildState(g).value;
    if found[0] !in Keys(st.emojiToRole) {
      return NoMappingForEmoji, None;
    }
    var m := RemoveKey(st.emojiToRole, found[0]);
    ghost var wasValid := state.Valid();
    state.guild2Message := state.guild2Message[g := st.(emojiToRole := m)];
    state.Store();
    if wasValid {
      RemoveKeyDistinct(st.emojiToRole, found[0]);
      RemoveKeepsInjective(st.emojiToRole, found[0]);
      forall e | e != found[0] ensures Lookup(m, e) == Lookup(st.emojiToRole, e) {
        RemoveKeyLookup(st.emojiToRole, found[0], e);
      }
    }
    return UpdatedMessage, Some(Render(m));
  }

  // ---------------------------------------------------------------------------
  // A click on the role message (Roles.kt:53-60, 174-201)

  datatype ClickReply =
    | RoleNotFound            // "I can't find the role :( .. ask your bot admin"
    | RemovedRole(id: string) // "I've removed # from your roles"
    | AddedRole(id: string)   // "I've added # to your roles"
    | NotAllowed              // "I'm not allowed to do that."

  /** handleRolesClick, given the ids of the guild's roles, the ids of the member's roles and
      whether Discord refuses the change. A role id that is not the guild's is a null role: it
      is not among the member's roles, and adding it throws, which is answered like a refusal. */
  method HandleRolesClick(state: RolesState, g: string, clickedId: string, guildRoles: set<string>,
                          memberRoles: set<string>, refused: bool)
    returns (reply: ClickReply, roles: set<string>)
    requires state.HasRoleMessage(g)
    ensures Lookup(state.guild2Message[g].emojiToRole, clickedId).None? <==> reply == RoleNotFound
    ensures reply == RoleNotFound || reply == NotAllowed ==> roles == memberRoles
    ensures Lookup(state.guild2Message[g].emojiToRole, clickedId).Some? ==>
              var id := RoleIdOf(Lookup(state.guild2Message[g].emojiToRole, clickedId).value);
              && (reply == NotAllowed <==> refused || id !in guildRoles)
              && (reply.RemovedRole? <==> !refused && id in guildRoles && id in memberRoles)
              && (reply.AddedRole? <==> !refused && id in guildRoles && id !in memberRoles)
              && (reply.RemovedRole? || reply.AddedRole? ==> reply.id == id)
              && (reply.RemovedRole? ==> roles == memberRoles - {id})
              && (reply.AddedRole? ==> roles == memberRoles + {id})
  {
    var st := state.GetGuildState(g).value;
    var mention := Lookup(st.emojiToRole, clickedId);
    if mention.None? {
      return RoleNotFound, memberRoles;
    }
    var roleId := RoleIdOf(mention.value);
    var role: Option<string> := if roleId in guildRoles then Some(roleId) else None;
    if role.Some? && role.value in memberRoles {
      if refused {
        return NotAllowed, memberRoles;
      }
      return RemovedRole(roleId), memberRoles - {roleId};
    } else {
      if role.None? || refused {
        return NotAllowed, memberRoles;
      }
      return AddedRole(roleId), memberRoles + {roleId};
    }
  }

  /** onEvent (Roles.kt:53-60): only button clicks on the guild's role message are handled; a
      click outside a guild is looked up under the empty guild id. */
  method OnEvent(state: RolesState, isButtonClick: bool, guild: Option<string>, cid: string, mid: string,
                 clickedId: string, guildRoles: set<string>, memberRoles: set<string>, refused: bool)
    returns (reply: Option<ClickReply>, roles: set<string>)
    ensures reply.Some? <==> isButtonClick && state.IsGuildMessage(if guild.Some? then guild.value else "", cid, mid)
    ensures reply.None? ==> roles == memberRoles
  {
    if !isButtonClick {
      return None, memberRoles;
    }
    var g := if guild.Some? then guild.value else "";
    if !state.IsGuildMessage(g, cid, mid) {
      return None, memberRoles;
    }
    var r;
    r, roles := HandleRolesClick(state, g, clickedId, guildRoles, memberRoles, refused);
    reply := Some(r);
  }

  /** A role added for an emoji is the role a click on that emoji's button toggles. */
  lemma AddedRoleIsClicked(m: RoleMap, emoji: string, id: string)
    requires emoji !in Keys(m)
    ensures Lookup(m + [(emoji, "<@&" + id + ">")], emoji) == Some("<@&" + id + ">")
    ensures RoleIdOf(Lookup(m + [(emoji, "<@&" + id + ">")], emoji).value) == id
  {
    PutNew(m, emoji, "<@&" + id + ">");
    PutLookup(m, emoji, "<@&" + id + ">", emoji);
    RoleIdOfMention(id);
  }
}
