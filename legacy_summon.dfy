// The summon poll of the older Python bot (legacy/user_commands/summon.py). As in the newer
// summon command the votes live in the message text, one line per reaction, but the answers are
// buttons, a user holds at most one answer, two of the five reactions may be custom emojis of
// the guild (shown in a message as "<:name:id>", identified by their name), and finish and
// cancel buttons end the poll. The records of the day updates are kept in a DictStore.
// Discord is abstracted: the message text, the guild's reactions and whether a message still
// exists are inputs; edits, deletions and refusals are recorded in a log.

module LegacySummon {
  import opened Text
  import opened Collections
  import opened Sorting
  import opened Stores
  import opened Schedulers
  import opened SummonCommands

  /** A summon reaction: a plain emoji, or a custom emoji with its name and its text in a message. */
  datatype Reaction = Plain(emoji: string) | Custom(name: string, shown: string)

  /** __to_emoji_ids (legacy/user_commands/summon.py:47-51) of one reaction. */
  function EmojiId(r: Reaction): string {
    match r
    case Plain(e) => e
    case Custom(n, _) => n
  }

  /** __to_emoji_ids of a list: the ids, in order. */
  function EmojiIds(rs: seq<Reaction>): (ids: seq<string>)
    ensures |ids| == |rs| && forall i :: 0 <= i < |rs| ==> ids[i] == EmojiId(rs[i])
  {
    if rs == [] then [] else [EmojiId(rs[0])] + EmojiIds(rs[1..])
  }

  /** How a reaction appears in a message, f"{emoji}". */
  function Shown(r: Reaction): string {
    match r
    case Plain(e) => e
    case Custom(_, s) => s
  }

  const FinishReaction := "\U{1F6D1}"
  const CancelReaction := "\U{1F6AE}"
  const PollRequest := "Bitte die Buttons zum Abstimmen benutzen:"
  const PollFinished := "*Umfrage beendet .. keine Abstimmung mehr möglich :)*"

  // ---------------------------------------------------------------------------
  // Reading the votes from the text (legacy/user_commands/summon.py:210-254)

  /** The sort key of __find_mention_type: the length, and -1 for an empty id. */
  function LengthKey(r: string): int {
    if r != [] then |r| else -1
  }

  /** The first id of rs that the line starts with. */
  function FirstPrefix(line: string, rs: seq<string>): (r: Option<nat>)
    ensures r.Some? ==> r.value < |rs| && StartsWith(line, rs[r.value])
    ensures r.Some? ==> forall j :: 0 <= j < r.value ==> !StartsWith(line, rs[j])
    ensures r.None? ==> forall j :: 0 <= j < |rs| ==> !StartsWith(line, rs[j])
  {
    if rs == [] then None
    else if StartsWith(line, rs[0]) then Some(0)
    else match FirstPrefix(line, rs[1..])
      case None => None
      case Some(k) => Some(k + 1)
  }

  /** __find_mention_type (legacy/user_commands/summon.py:210-215): the ids sorted by length,
      longest first and stably, and the first of them the line starts with. */
  function FindMentionType(line: string, ids: seq<string>): Option<string> {
    var sorted := SortDesc(ids, LengthKey);
    match FirstPrefix(line, sorted)
    case None => None
    case Some(k) => Some(sorted[k])
  }

  /** The reaction found for a line is the longest id the line starts with, and there is none
      exactly when no id is a prefix of the line. */
  lemma MentionTypeIsLongest(line: string, ids: seq<string>)
    ensures FindMentionType(line, ids).None? <==> forall q :: q in ids ==> !StartsWith(line, q)
    ensures FindMentionType(line, ids).Some? ==>
              var r := FindMentionType(line, ids).value;
              && r in ids && StartsWith(line, r)
              && forall q :: q in ids && StartsWith(line, q) ==> |q| <= |r|
  {
    var sorted := SortDesc(ids, LengthKey);
    SortDescProps(ids, LengthKey);
    SameElements(ids, sorted);
    FirstPrefixIsLongest(line, sorted);
  }

  lemma SameElements<T>(a: seq<T>, b: seq<T>)
    requires multiset(a) == multiset(b)
    ensures forall q :: q in a <==> q in b
  {
    forall q ensures q in a <==> q in b {
      assert q in a <==> q in multiset(a);
      assert q in b <==> q in multiset(b);
    }
  }

  /** In a list sorted by LengthKey, longest first, the first prefix of the line is a longest one. */
  lemma FirstPrefixIsLongest(line: string, sorted: seq<string>)
    requires SortedDesc(sorted, LengthKey)
    ensures FirstPrefix(line, sorted).None? <==> forall q :: q in sorted ==> !StartsWith(line, q)
    ensures FirstPrefix(line, sorted).Some? ==>
              var r := sorted[FirstPrefix(line, sorted).value];
              forall q :: q in sorted && StartsWith(line, q) ==> |q| <= |r|
  {
    var k := FirstPrefix(line, sorted);
    if k.Some? {
      var r := sorted[k.value];
      forall q | q in sorted && StartsWith(line, q) ensures |q| <= |r| {
        var j :| 0 <= j < |sorted| && sorted[j] == q;
        if j > k.value {
          assert LengthKey(q) <= LengthKey(r);
        }
      }
    }
  }

  /** The message text with every custom emoji written as its name, the reactions taken in
      order (legacy/user_commands/summon.py:229-233). */
  function CleanEmojis(rs: seq<Reaction>, content: string): string {
    if rs == [] then content
    else
      var c := CleanEmojis(rs[..|rs| - 1], content);
      match rs[|rs| - 1]
      case Plain(_) => c
      case Custom(n, s) => ReplaceAll(c, s, n)
  }

  /** With plain emojis only, the text is read as it is. */
  lemma {:induction false} CleanPlain(rs: seq<Reaction>, content: string)
    requires forall i :: 0 <= i < |rs| ==> rs[i].Plain?
    ensures CleanEmojis(rs, content) == content
  {
    if rs != [] {
      CleanPlain(rs[..|rs| - 1], content);
    }
  }

  /** What one line says (legacy/user_commands/summon.py:239-252): nothing for a blank line, a
      line without ':' or one that starts with no reaction id; otherwise the position of its
      reaction and the mentions after the first ':', split at commas. */
  function LegacyLineVotes(ids: seq<string>, line: string): (r: Option<(nat, seq<string>)>)
    ensures r.Some? ==> r.value.0 < |ids| && StartsWith(line, ids[r.value.0]) && ':' in line && !IsBlank(line)
    ensures r.Some? ==> r.value.1 == Mentions(Split(SplitOnce(line, ':')[1], ','))
  {
    if Strip(line) == [] then None
    else
      var split := SplitOnce(line, ':');
      var t := FindMentionType(line, ids);
      if |split| < 2 || t.None? then None
      else
        MentionTypeIsLongest(line, ids);
        Some((Position(ids, t.value), Mentions(Split(split[1], ','))))
  }

  /** The votes read from the lines before and up to the last one. */
  function LegacyTally(ids: seq<string>, lines: seq<string>): (t: seq<seq<string>>)
    ensures |t| == |ids|
  {
    if lines == [] then EmptyTally(|ids|)
    else
      var t := LegacyTally(ids, lines[..|lines| - 1]);
      var v := LegacyLineVotes(ids, lines[|lines| - 1]);
      if v.None? then t else t[v.value.0 := t[v.value.0] + v.value.1]
  }

  /** __read_text_reactions (legacy/user_commands/summon.py:218-254). */
  method ReadTextReactions(rs: seq<Reaction>, content: string) returns (result: seq<seq<string>>)
    ensures result == LegacyTally(EmojiIds(rs), Split(CleanEmojis(rs, content), '\n'))
  {
    var ids := EmojiIds(rs);
    var text := content;
    var e := 0;
    while e < |rs|
      invariant 0 <= e <= |rs|
      invariant text == CleanEmojis(rs[..e], content)
    {
      assert rs[..e + 1][..e] == rs[..e];
      if rs[e].Custom? {
        text := ReplaceAll(text, rs[e].shown, rs[e].name);
      }
      e := e + 1;
    }
    assert rs[..e] == rs;
    result := EmptyTally(|ids|);
    var lines := Split(text, '\n');
    var k := 0;
    assert lines[..0] == [];
    while k < |lines|
      invariant 0 <= k <= |lines|
      invariant result == LegacyTally(ids, lines[..k])
    {
      var line := lines[k];
      TallySnoc(ids, lines, k);
      if Strip(line) != [] {
        var split := SplitOnce(line, ':');
        var mentionType := FindMentionType(line, ids);
        if |split| >= 2 && mentionType.Some? {
          MentionTypeIsLongest(line, ids);
          var i := Position(ids, mentionType.value);
          var parts := Split(split[1], ',');
          assert LegacyLineVotes(ids, line) == Some((i, Mentions(parts)));
          var voters := AppendMentions(result[i], parts);
          result := result[i := voters];
        }
      }
      k := k + 1;
    }
    assert lines[..k] == lines;
  }

  lemma TallySnoc(ids: seq<string>, lines: seq<string>, k: nat)
    requires k < |lines|
    ensures var t := LegacyTally(ids, lines[..k]);
            var v := LegacyLineVotes(ids, lines[k]);
            LegacyTally(ids, lines[..k + 1]) == if v.None? then t else t[v.value.0 := t[v.value.0] + v.value.1]
  {
    assert lines[..k + 1][..k] == lines[..k];
  }

  /** Every reaction starts with no votes, so a text without vote lines has none. */
  lemma NoLinesNoVotes(ids: seq<string>)
    ensures LegacyTally(ids, []) == EmptyTally(|ids|)
    ensures forall i :: 0 <= i < |ids| ==> LegacyTally(ids, [])[i] == []
  {
  }

  /** A line adds its mentions, in order, to the list of its reaction, and to no other. */
  lemma LineAddsToItsReaction(ids: seq<string>, lines: seq<string>, line: string, i: nat)
    requires Distinct(ids) && i < |ids| && LegacyLineVotes(ids, line).Some?
    requires FindMentionType(line, ids) == Some(ids[i])
    ensures var t := LegacyTally(ids, lines);
            LegacyTally(ids, lines + [line]) == t[i := t[i] + Mentions(Split(SplitOnce(line, ':')[1], ','))]
  {
    assert (lines + [line])[..|lines|] == lines;
    PositionDistinct(ids, i);
  }

  // ---------------------------------------------------------------------------
  // A vote (legacy/user_commands/summon.py:303-344)

  /** What a click on reaction eid by m does to one reaction's list: the pressed one is toggled,
      every other one loses m. */
  function Adjusted(id: string, users: seq<string>, eid: string, m: string): seq<string> {
    if id == eid then Toggle(users, m) else RemoveFirst(users, m)
  }

  /** The loop of __update_message (legacy/user_commands/summon.py:316-327) over the reactions. */
  method AdjustVotes(ids: seq<string>, tally: seq<seq<string>>, eid: string, m: string) returns (t: seq<seq<string>>)
    requires |tally| == |ids|
    ensures |t| == |tally| && forall j :: 0 <= j < |t| ==> t[j] == Adjusted(ids[j], tally[j], eid, m)
  {
    t := tally;
    var j := 0;
    while j < |ids|
      invariant 0 <= j <= |ids| && |t| == |tally|
      invariant forall k :: 0 <= k < j ==> t[k] == Adjusted(ids[k], tally[k], eid, m)
      invariant forall k :: j <= k < |t| ==> t[k] == tally[k]
    {
      if ids[j] != eid && m in t[j] {
        t := t[j := RemoveFirst(t[j], m)];
      }
      if ids[j] == eid {
        t := t[j := Toggle(t[j], m)];
      }
      j := j + 1;
    }
  }

  /** Wherever m voted at most once, m keeps at most one vote after a click: on the pressed
      reaction, exactly when m had not voted for it. */
  lemma OneVotePerUser(ids: seq<string>, tally: seq<seq<string>>, eid: string, m: string, t: seq<seq<string>>)
    requires |tally| == |ids| == |t|
    requires forall j :: 0 <= j < |t| ==> t[j] == Adjusted(ids[j], tally[j], eid, m)
    requires forall j :: 0 <= j < |tally| ==> multiset(tally[j])[m] <= 1
    ensures forall j :: 0 <= j < |t| && ids[j] != eid ==> m !in t[j]
    ensures forall j :: 0 <= j < |t| && ids[j] == eid ==> (m in t[j] <==> m !in tally[j])
  {
    forall j | 0 <= j < |t| && ids[j] != eid ensures m !in t[j] {
      RemoveFirstMultiset(tally[j], m);
      assert multiset(t[j])[m] == 0;
    }
    forall j | 0 <= j < |t| && ids[j] == eid ensures m in t[j] <==> m !in tally[j] {
      if m in tally[j] {
        assert multiset(t[j])[m] == 0;
      }
    }
  }

  /** A summary line: the reaction as shown, the number of votes and the mentions. */
  function LegacyVoteLine(r: Reaction, users: seq<string>): string {
    Shown(r) + " `(" + NatToString(|users|) + ")`: " + Join(",", users)
  }

  /** The summary after n reactions (legacy/user_commands/summon.py:332-338): a newline and a
      line for each reaction with votes, in the reactions' order. */
  function LegacySummary(rs: seq<Reaction>, tally: seq<seq<string>>, n: nat): string
    requires n <= |tally| == |rs|
  {
    if n == 0 then []
    else LegacySummary(rs, tally, n - 1) + (if tally[n - 1] == [] then [] else "\n" + LegacyVoteLine(rs[n - 1], tally[n - 1]))
  }

  /** The summary is empty exactly when no reaction has a vote. */
  lemma {:induction false} LegacySummaryEmpty(rs: seq<Reaction>, tally: seq<seq<string>>, n: nat)
    requires n <= |tally| == |rs|
    ensures LegacySummary(rs, tally, n) == [] <==> forall j :: 0 <= j < n ==> tally[j] == []
  {
    if n > 0 {
      LegacySummaryEmpty(rs, tally, n - 1);
    }
  }

  /** The new text: the first line, the summary if there is one, and the request to vote. */
  function LegacyRender(head: string, rs: seq<Reaction>, tally: seq<seq<string>>): string
    requires |tally| == |rs|
  {
    var summary := LegacySummary(rs, tally, |tally|);
    (if summary == [] then head else head + "\n\nAktuell:\n" + Strip(summary)) + "\n\n" + PollRequest
  }

  /** Every reaction's list after m clicks the reaction with id eid. */
  function AdjustedTally(ids: seq<string>, tally: seq<seq<string>>, eid: string, m: string): (t: seq<seq<string>>)
    requires |tally| == |ids|
    ensures |t| == |tally|
  {
    seq(|ids|, j requires 0 <= j < |ids| => Adjusted(ids[j], tally[j], eid, m))
  }

  /** The text __update_message gives the message: the votes read from its text, then adjusted
      for the click, under its first line. */
  function LegacyVotedText(m: string, eid: string, text: string, rs: seq<Reaction>): string {
    var ids := EmojiIds(rs);
    LegacyRender(HeadLine(text), rs, AdjustedTally(ids, LegacyTally(ids, Split(CleanEmojis(rs, text), '\n')), eid, m))
  }

  /** __update_message (legacy/user_commands/summon.py:303-344): the text the message is
      edited to after m clicks the reaction with id eid. Votes are kept by the reaction's
      position; the source keeps them in a dictionary keyed by id, which is the same for
      distinct ids, as the guild's reactions have. */
  method UpdateMessage(m: string, eid: string, text: string, rs: seq<Reaction>) returns (result: string)
    ensures result == LegacyVotedText(m, eid, text, rs)
  {
    var ids := EmojiIds(rs);
    var read := ReadTextReactions(rs, text);
    var t := AdjustVotes(ids, read, eid, m);
    assert t == AdjustedTally(ids, read, eid, m);
    result := RenderLegacyVotes(HeadLine(text), rs, t);
  }

  /** The rendering part of __update_message (legacy/user_commands/summon.py:329-343). */
  method RenderLegacyVotes(head: string, rs: seq<Reaction>, t: seq<seq<string>>) returns (result: string)
    requires |t| == |rs|
    ensures result == LegacyRender(head, rs, t)
  {
    var summary := SummaryLines(rs, t);
    result := head;
    if summary != [] {
      result := result + "\n\nAktuell:\n" + Strip(summary);
    }
    result := result + "\n\n" + PollRequest;
  }

  /** The loop building the summary (legacy/user_commands/summon.py:332-338). */
  method SummaryLines(rs: seq<Reaction>, t: seq<seq<string>>) returns (summary: string)
    requires |t| == |rs|
    ensures summary == LegacySummary(rs, t, |t|)
  {
    summary := "";
    var k := 0;
    while k < |t|
      invariant 0 <= k <= |t|
      invariant summary == LegacySummary(rs, t, k)
    {
      SummaryStep(rs, t, k);
      if t[k] != [] {
        var line := LegacyVoteLine(rs[k], t[k]);
        summary := summary + ("\n" + line);
      }
      k := k + 1;
    }
  }

  lemma SummaryStep(rs: seq<Reaction>, t: seq<seq<string>>, k: nat)
    requires k < |t| == |rs|
    ensures t[k] == [] ==> LegacySummary(rs, t, k + 1) == LegacySummary(rs, t, k)
    ensures t[k] != [] ==> LegacySummary(rs, t, k + 1) == LegacySummary(rs, t, k) + ("\n" + LegacyVoteLine(rs[k], t[k]))
  {
  }


  // ---------------------------------------------------------------------------
  // The records of the day updates, kept in the DictStore

  /** One record (legacy/user_commands/summon.py:120-127); the timestamp is in whole seconds. */
  datatype LegacyUpdate = LegacyUpdate(ts: int, cid: int, mid: int, uid: int, dayValue: string, dayOffset: int)

  const RecordKeys: set<string> := {"ts", "cid", "mid", "uid", "day_value", "day_offset"}

  /** The dictionary a record is stored as. */
  function Record(u: LegacyUpdate): (j: Json)
    ensures j.JObj? && j.fields.Keys == RecordKeys
  {
    JObj(map["ts" := JInt(u.ts), "cid" := JInt(u.cid), "mid" := JInt(u.mid), "uid" := JInt(u.uid),
             "day_value" := JStr(u.dayValue), "day_offset" := JInt(u.dayOffset)])
  }

  /** The record a dictionary holds, if it is one. */
  function AsRecord(j: Json): Option<LegacyUpdate> {
    if j.JObj? && j.fields.Keys == RecordKeys
       && j.fields["ts"].JInt? && j.fields["cid"].JInt? && j.fields["mid"].JInt? && j.fields["uid"].JInt?
       && j.fields["day_value"].JStr? && j.fields["day_offset"].JInt?
    then Some(LegacyUpdate(j.fields["ts"].i, j.fields["cid"].i, j.fields["mid"].i, j.fields["uid"].i,
                           j.fields["day_value"].s, j.fields["day_offset"].i))
    else None
  }

  /** A record reads back as itself, and a dictionary that reads as a record is that record. */
  lemma RecordRoundTrip(u: LegacyUpdate, j: Json)
    ensures AsRecord(Record(u)) == Some(u)
    ensures AsRecord(j).Some? ==> Record(AsRecord(j).value) == j
  {
    if AsRecord(j).Some? {
      var f := Record(AsRecord(j).value).fields;
      assert f.Keys == j.fields.Keys;
      assert forall k :: k in f.Keys ==> f[k] == j.fields[k];
    }
  }

  /** The first record of the message mid in the channel cid (legacy/user_commands/summon.py:441-446). */
  function FindRecord(data: seq<Json>, mid: int, cid: int): (r: Option<nat>)
    ensures r.Some? ==> r.value < |data| && AsRecord(data[r.value]).Some?
                        && AsRecord(data[r.value]).value.mid == mid && AsRecord(data[r.value]).value.cid == cid
    ensures r.Some? ==> forall k :: 0 <= k < r.value ==> !Matches(data[k], mid, cid)
    ensures r.None? ==> forall k :: 0 <= k < |data| ==> !Matches(data[k], mid, cid)
  {
    if data == [] then None
    else if Matches(data[0], mid, cid) then Some(0)
    else match FindRecord(data[1..], mid, cid)
      case None => None
      case Some(k) => Some(k + 1)
  }

  predicate Matches(j: Json, mid: int, cid: int) {
    AsRecord(j).Some? && AsRecord(j).value.mid == mid && AsRecord(j).value.cid == cid
  }

  /** What the poll did to Discord. */
  datatype Effect = Edited(mid: int, text: string) | Closed(mid: int) | Deleted(mid: int) | Refused(uid: int, text: string)

  /** The text of a finished poll (legacy/user_commands/summon.py:132-143): the request to vote
      becomes the note that the poll is over. */
  function Terminated(content: string): string {
    ReplaceAll(content, PollRequest, PollFinished)
  }

  /** A poll's text, once terminated, no longer asks for votes when the note sits where the
      request was. */
  lemma TerminatedRewritesRequest(a: string, b: string)
    requires forall j :: 0 <= j < |a| ==> !OccursAt(a + PollRequest + b, PollRequest, j)
    ensures Terminated(a + PollRequest + b) == a + PollFinished + Replace(b, PollRequest, PollFinished)
  {
    assert a + PollRequest + b == a + (PollRequest + b);
    ReplaceKeepsPrefix(a, PollRequest + b, PollRequest, PollFinished);
    assert (PollRequest + b)[..|PollRequest|] == PollRequest && (PollRequest + b)[|PollRequest|..] == b;
    ReplaceByFirstOccurrence(PollRequest + b, PollRequest, PollFinished);
  }

  /** What pressing cancel or finish does to the records and to Discord: the poll's initiator
      removes its record (an absent one changes nothing) and the message is deleted (cancel) or
      the poll terminated (finish); anyone else changes no record and is refused. */
  predicate EndedBy(data0: seq<Json>, data: seq<Json>, saved0: Option<seq<Json>>, saved: Option<seq<Json>>,
                    effects0: seq<Effect>, effects: seq<Effect>,
                    button: string, mid: int, content: string, update: Json, initiator: int, uid: int)
  {
    if uid == initiator then
      && (update in data0 ==> data == RemoveFirst(data0, update) && saved == Some(data))
      && (update !in data0 ==> data == data0 && saved == saved0)
      && effects == effects0 + (if button == CancelReaction then [Deleted(mid)] else [Edited(mid, Terminated(content)), Closed(mid)])
    else
      && data == data0 && saved == saved0
      && effects == effects0 + [Refused(uid, if button == CancelReaction then "Nur der Initiator kann die Umfrage löschen"
                                              else "Nur der Initiator kann die Umfrage beenden")]
  }

  /** What a button pressed on a poll whose record is data0[i] does: the cancel and finish
      buttons end the poll as EndedBy says; a reaction of the guild is a vote and edits the
      message; any other button changes nothing. */
  predicate Pressed(data0: seq<Json>, data: seq<Json>, saved0: Option<seq<Json>>, saved: Option<seq<Json>>,
                    effects0: seq<Effect>, effects: seq<Effect>,
                    i: nat, mid: int, content: string, button: string, uid: int, m: string, rs: seq<Reaction>)
    requires i < |data0| && AsRecord(data0[i]).Some?
  {
    if button == CancelReaction || button == FinishReaction then
      EndedBy(data0, data, saved0, saved, effects0, effects, button, mid, content, data0[i], AsRecord(data0[i]).value.uid, uid)
    else
      && data == data0 && saved == saved0
      && effects == effects0 + (if button in EmojiIds(rs) then [Edited(mid, LegacyVotedText(m, button, content, rs))] else [])
  }

  /** The messages of Discord as far as the poll changes them: what it did, in order. */
  class DiscordLog {
    var effects: seq<Effect>

    constructor()
      ensures effects == []
    {
      effects := [];
    }
  }

  class LegacySummoner {
    const store: DictStore
    const scheduler: BotScheduler
    const discord: DiscordLog
    /** Task id k of the scheduler is `__execute_summon_update` of pending[k]. */
    var pending: seq<LegacyUpdate>

    ghost predicate Valid()
      reads this, scheduler
    {
      forall k :: 0 <= k < |scheduler.tasks| ==> 0 <= scheduler.tasks[k].func < |pending|
    }

    /** With the records the state file held, queued by `_init_summon_updates`
        (legacy/user_commands/summon.py:463-470) at their timestamps. */
    constructor(file: StoredFile, persisted: seq<LegacyUpdate>)
      requires |DictStoreData(file)| == |persisted|
      requires forall i :: 0 <= i < |persisted| ==> DictStoreData(file)[i] == Record(persisted[i])
      ensures Valid()
      ensures store.data == DictStoreData(file)
      ensures store.saved == (if LoadStep(map["_data" := JList([])], 1, file).Migrate? then None else Some(store.data))
      ensures pending == persisted && |scheduler.tasks| == |persisted|
      ensures forall i :: 0 <= i < |persisted| ==> scheduler.tasks[i] == Task(i, Some(persisted[i].ts))
      ensures discord.effects == []
    {
      store := new DictStore(file);
      scheduler := new BotScheduler();
      discord := new DiscordLog();
      pending := [];
      new;
      ghost var written := store.saved;
      var i := 0;
      while i < |persisted|
        invariant 0 <= i <= |persisted| && Valid()
        invariant pending == persisted[..i] && |scheduler.tasks| == i
        invariant forall j :: 0 <= j < i ==> scheduler.tasks[j] == Task(j, Some(persisted[j].ts))
        invariant store.data == DictStoreData(file) && store.saved == written && discord.effects == []
      {
        assert persisted[..i + 1] == persisted[..i] + [persisted[i]];
        scheduler.Queue(i, Some(persisted[i].ts));
        pending := pending + [persisted[i]];
        i := i + 1;
      }
      assert persisted[..i] == persisted;
    }

    /** __add_to_scheduler (legacy/user_commands/summon.py:103-129): nothing for an offset of -1
        or below; otherwise the record for the next midnight is stored, then queued. */
    method AddToScheduler(uid: int, cid: int, mid: int, offset: int, day: string, nextMidnight: int)
      requires Valid()
      modifies this, store, scheduler
      ensures Valid()
      ensures offset <= -1 ==> && pending == old(pending) && scheduler.tasks == old(scheduler.tasks)
                               && store.data == old(store.data) && store.saved == old(store.saved)
      ensures offset > -1 ==> var u := LegacyUpdate(nextMidnight, cid, mid, uid, day, offset);
                              && store.data == old(store.data) + [Record(u)] && store.saved == Some(store.data)
                              && pending == old(pending) + [u]
                              && scheduler.tasks == old(scheduler.tasks) + [Task(|old(pending)|, Some(nextMidnight))]
      ensures scheduler.ran == old(scheduler.ran)
    {
      if offset <= -1 {
        return;
      }
      var u := LegacyUpdate(nextMidnight, cid, mid, uid, day, offset);
      store.AddData(Record(u));
      scheduler.Queue(|pending|, Some(u.ts));
      pending := pending + [u];
    }

    /** __execute_summon_update (legacy/user_commands/summon.py:146-179) for task k, with the
        message's text if it still exists and the text of the next day (get_date_representation
        is not part of this model). The record goes first; a gone message ends the update; a
        negative new offset terminates the poll; otherwise the day text is replaced and the
        chain goes on one offset lower. */
    method ExecuteUpdate(k: TaskId, fetched: Option<string>, nextDay: string, nextMidnight: int)
      requires Valid() && 0 <= k < |pending|
      modifies this, store, scheduler, discord
      ensures Valid()
      ensures var u := old(pending)[k];
              var removed := if Record(u) in old(store.data) then RemoveFirst(old(store.data), Record(u)) else old(store.data);
              && (fetched.None? || u.dayOffset - 1 < 0 ==>
                    && store.data == removed && pending == old(pending) && scheduler.tasks == old(scheduler.tasks)
                    && store.saved == (if Record(u) in old(store.data) then Some(removed) else old(store.saved)))
              && (fetched.None? ==> discord.effects == old(discord.effects))
              && (fetched.Some? && u.dayOffset - 1 < 0 ==> discord.effects == old(discord.effects) + [Edited(u.mid, Terminated(fetched.value)), Closed(u.mid)])
              && (fetched.Some? && u.dayOffset - 1 >= 0 ==>
                    var day := "**" + nextDay + "**";
                    var next := LegacyUpdate(nextMidnight, u.cid, u.mid, u.uid, day, u.dayOffset - 1);
                    && discord.effects == old(discord.effects) + [Edited(u.mid, ReplaceAll(fetched.value, u.dayValue, day))]
                    && store.data == removed + [Record(next)] && store.saved == Some(store.data)
                    && pending == old(pending) + [next]
                    && scheduler.tasks == old(scheduler.tasks) + [Task(|old(pending)|, Some(nextMidnight))])
      ensures scheduler.ran == old(scheduler.ran)
    {
      var u := pending[k];
      store.RemoveData(Record(u));
      if fetched.None? {
        return;
      }
      var newOffset := u.dayOffset - 1;
      if newOffset < 0 {
        discord.effects := discord.effects + [Edited(u.mid, Terminated(fetched.value)), Closed(u.mid)];
        return;
      }
      var newValue := "**" + nextDay + "**";
      discord.effects := discord.effects + [Edited(u.mid, ReplaceAll(fetched.value, u.dayValue, newValue))];
      AddToScheduler(u.uid, u.cid, u.mid, newOffset, newValue, nextMidnight);
    }

    /** __check_cancel and __check_finish (legacy/user_commands/summon.py:257-300): the button
        is theirs whoever pressed it, but only the initiator removes the record, deleting the
        message (cancel) or terminating the poll (finish); anyone else is told so. */
    method CheckEnd(button: string, mid: int, content: string, update: Json, rec: LegacyUpdate, uid: int) returns (handled: bool)
      requires AsRecord(update) == Some(rec)
      modifies store, discord
      ensures handled == (button == CancelReaction || button == FinishReaction)
      ensures !handled ==> store.data == old(store.data) && store.saved == old(store.saved) && discord.effects == old(discord.effects)
      ensures handled ==> EndedBy(old(store.data), store.data, old(store.saved), store.saved, old(discord.effects), discord.effects,
                                  button, mid, content, update, rec.uid, uid)
    {
      if button == CancelReaction {
        if uid != rec.uid {
          discord.effects := discord.effects + [Refused(uid, "Nur der Initiator kann die Umfrage löschen")];
        } else {
          store.RemoveData(update);
          discord.effects := discord.effects + [Deleted(mid)];
        }
        return true;
      }
      if button == FinishReaction {
        if uid != rec.uid {
          discord.effects := discord.effects + [Refused(uid, "Nur der Initiator kann die Umfrage beenden")];
        } else {
          store.RemoveData(update);
          discord.effects := discord.effects + [Edited(mid, Terminated(content)), Closed(mid)];
        }
        return true;
      }
      return false;
    }

    /** __handling_button_summon (legacy/user_commands/summon.py:427-460) for button `button`
        pressed by the user uid (mention m) on the message mid in channel cid. Only a bot message
        with a record of this message and channel is handled, as Press says. */
    method HandleButton(fromBot: bool, mid: int, cid: int, content: string, button: string, uid: int, m: string, rs: seq<Reaction>)
      returns (handled: bool)
      modifies store, discord
      ensures handled == (fromBot && FindRecord(old(store.data), mid, cid).Some?)
      ensures !handled ==> store.data == old(store.data) && store.saved == old(store.saved) && discord.effects == old(discord.effects)
      ensures handled ==> Pressed(old(store.data), store.data, old(store.saved), store.saved, old(discord.effects), discord.effects,
                                  FindRecord(old(store.data), mid, cid).value, mid, content, button, uid, m, rs)
    {
      handled := false;
      if fromBot {
        var found := FindRecord(store.data, mid, cid);
        if found.Some? {
          Press(found.value, mid, content, button, uid, m, rs);
          handled := true;
        }
      }
    }

    /** The handling of a button pressed on a poll with the record data[i]
        (legacy/user_commands/summon.py:448-460). */
    method Press(i: nat, mid: int, content: string, button: string, uid: int, m: string, rs: seq<Reaction>)
      requires i < |store.data| && AsRecord(store.data[i]).Some?
      modifies store, discord
      ensures Pressed(old(store.data), store.data, old(store.saved), store.saved, old(discord.effects), discord.effects,
                      i, mid, content, button, uid, m, rs)
    {
      var update := store.data[i];
      var rec := AsRecord(update).value;
      var ended := CheckEnd(button, mid, content, update, rec, uid);
      if !ended && button in EmojiIds(rs) {
        Vote(mid, content, button, m, rs);
      }
    }

    /** The vote of __handling_button_summon (legacy/user_commands/summon.py:459): the message
        is edited to the text __update_message gives. */
    method Vote(mid: int, content: string, button: string, m: string, rs: seq<Reaction>)
      modifies discord
      ensures discord.effects == old(discord.effects) + [Edited(mid, LegacyVotedText(m, button, content, rs))]
    {
      var text := UpdateMessage(m, button, content, rs);
      discord.effects := discord.effects + [Edited(mid, text)];
    }
  }
}
