// The summon command of the Python bot (user_commands/summon.py). A summon message names its
// day ("**morgen**"); at every midnight a scheduled update rewrites the day one step closer
// ("**heute**", then "**'damals (am/um)'**") until the offset falls below zero. The votes are
// kept in the message text itself: one line per reaction with the mentions of its voters,
// which every reaction reads back, toggles and writes anew.
// The clock is a parameter (the next midnight), fetching the message is an input (its text,
// or None for NotFound), and an edit is recorded as (message id, new text).

module SummonCommands {
  import opened Text
  import opened Collections
  import opened Schedulers
  import opened Helpers

  /** One scheduled day update (user_commands/summon.py:84-90). */
  datatype Update = Update(ts: int, cid: int, mid: int, dayValue: string, dayOffset: int)

  /** SummonState (user_commands/summon.py:14-48). */
  class UpdateState {
    var updates: seq<Update>
    /** What was written to the file last. */
    var saved: Option<seq<Update>>

    constructor(persisted: seq<Update>)
      ensures updates == persisted && saved == None
    {
      updates := persisted;
      saved := None;
    }

    /** add_update (user_commands/summon.py:24-31). */
    method AddUpdate(u: Update)
      modifies this
      ensures updates == old(updates) + [u] && saved == Some(updates)
    {
      updates := updates + [u];
      saved := Some(updates);
    }

    /** remove_update (user_commands/summon.py:33-40): list.remove raises ValueError for an
        absent record (ok is false), and then nothing changes. */
    method RemoveUpdate(u: Update) returns (ok: bool)
      modifies this
      ensures ok == (u in old(updates))
      ensures ok ==> updates == RemoveFirst(old(updates), u) && saved == Some(updates)
      ensures !ok ==> updates == old(updates) && saved == old(saved)
    {
      if u !in updates {
        return false;
      }
      updates := RemoveFirst(updates, u);
      saved := Some(updates);
      return true;
    }
  }

  /** The day text after an update (user_commands/summon.py:119-121): the DAYS entry of the new
      offset, or 'damals (am/um)' once it is negative, in bold. */
  function NewDayValue(newOffset: int): (v: string)
    requires newOffset < |Days|
    ensures newOffset < 0 ==> v == "**'damals (am/um)'**"
    ensures 0 <= newOffset ==> v == "**" + Days[newOffset].name + "**"
  {
    "**" + (if newOffset < 0 then "'damals (am/um)'" else Days[newOffset].name) + "**"
  }

  /** An update rewrites the day of a summon text: when the old day text occurs once, the text
      around it is kept and the new day text takes its place. */
  lemma ReplaceDay(a: string, b: string, day: string, newDay: string)
    requires day != []
    requires forall j :: 0 <= j < |a| ==> !OccursAt(a + day + b, day, j)
    requires Find(b, day).None?
    ensures ReplaceAll(a + day + b, day, newDay) == a + newDay + b
  {
    assert a + day + b == a + (day + b);
    ReplaceKeepsPrefix(a, day + b, day, newDay);
    assert (day + b)[..|day|] == day && (day + b)[|day|..] == b;
    ReplaceByFirstOccurrence(b, day, newDay);
  }

  /** The records a chain of updates writes when it is scheduled at the given offset and day:
      one per offset down to 0. */
  function Countdown(offset: int, day: string): seq<(int, string)>
    requires offset <= |Days|
    decreases offset + 1
  {
    if offset <= -1 then [] else [(offset, day)] + Countdown(offset - 1, NewDayValue(offset - 1))
  }

  /** A chain started at offset o schedules o + 1 updates, then stops. */
  lemma {:induction false} CountdownLength(offset: int, day: string)
    requires offset <= |Days|
    ensures |Countdown(offset, day)| == if offset <= -1 then 0 else offset + 1
    decreases offset + 1
  {
    if offset > -1 {
      CountdownLength(offset - 1, NewDayValue(offset - 1));
    }
  }

  /** A summon for the day after tomorrow reads "morgen" after the first midnight and "heute"
      after the second; the third update writes 'damals (am/um)' and schedules nothing. */
  lemma CountdownFromUebermorgen()
    ensures Countdown(2, "**übermorgen**") == [(2, "**übermorgen**"), (1, "**morgen**"), (0, "**heute**")]
    ensures NewDayValue(0 - 1) == "**'damals (am/um)'**"
  {
    assert NewDayValue(1) == "**morgen**" && NewDayValue(0) == "**heute**";
    assert Countdown(0, "**heute**") == [(0, "**heute**")] + Countdown(-1, NewDayValue(-1));
    assert Countdown(1, "**morgen**") == [(1, "**morgen**")] + Countdown(0, "**heute**");
    assert Countdown(2, "**übermorgen**") == [(2, "**übermorgen**")] + Countdown(1, "**morgen**");
  }

  class Summoner {
    const state: UpdateState
    const scheduler: BotScheduler
    /** Task id k of the scheduler is `__execute_summon_update` of pending[k]. */
    var pending: seq<Update>
    /** The messages edited, in order. */
    var edits: seq<(int, string)>

    ghost predicate Valid()
      reads this, scheduler
    {
      forall t :: t in scheduler.tasks ==> 0 <= t.func < |pending|
    }

    /** With the records the state file held, queued by `_init_summon_updates`
        (user_commands/summon.py:263-270) at their own timestamps. */
    constructor(persisted: seq<Update>)
      ensures Valid()
      ensures state.updates == persisted && state.saved == None
      ensures pending == persisted && |scheduler.tasks| == |persisted|
      ensures forall i :: 0 <= i < |persisted| ==> scheduler.tasks[i] == Task(i, Some(persisted[i].ts))
      ensures edits == []
    {
      state := new UpdateState(persisted);
      scheduler := new BotScheduler();
      pending := [];
      edits := [];
      new;
      var i := 0;
      while i < |persisted|
        invariant 0 <= i <= |persisted| && Valid()
        invariant pending == persisted[..i] && |scheduler.tasks| == i
        invariant forall j :: 0 <= j < i ==> scheduler.tasks[j] == Task(j, Some(persisted[j].ts))
        invariant state.updates == persisted && state.saved == None && edits == []
      {
        assert persisted[..i + 1] == persisted[..i] + [persisted[i]];
        scheduler.Queue(i, Some(persisted[i].ts));
        pending := pending + [persisted[i]];
        i := i + 1;
      }
      assert persisted[..i] == persisted;
    }

    /** __add_to_scheduler (user_commands/summon.py:70-92): nothing for an offset of -1 or
        below; otherwise the record for the next midnight is persisted, then queued. */
    method AddToScheduler(cid: int, mid: int, offset: int, day: string, nextMidnight: int)
      requires Valid()
      modifies this, state, scheduler
      ensures Valid()
      ensures offset <= -1 ==> && pending == old(pending) && scheduler.tasks == old(scheduler.tasks)
                               && state.updates == old(state.updates) && state.saved == old(state.saved)
      ensures offset > -1 ==> var u := Update(nextMidnight, cid, mid, day, offset);
                              && state.updates == old(state.updates) + [u] && state.saved == Some(state.updates)
                              && pending == old(pending) + [u]
                              && scheduler.tasks == old(scheduler.tasks) + [Task(|old(pending)|, Some(nextMidnight))]
      ensures edits == old(edits) && scheduler.ran == old(scheduler.ran)
    {
      if offset <= -1 {
        return;
      }
      var u := Update(nextMidnight, cid, mid, day, offset);
      state.AddUpdate(u);
      scheduler.Queue(|pending|, Some(u.ts));
      pending := pending + [u];
    }

    /** __execute_summon_update (user_commands/summon.py:95-127) for task k. The record goes
        first, so an absent one raises (ok is false); a message that is gone ends the update;
        DAYS has no entry beyond offset 2, so an offset above 3 raises IndexError. Otherwise
        the day text is replaced and the chain goes on one offset lower. */
    method ExecuteUpdate(k: TaskId, fetched: Option<string>, nextMidnight: int) returns (ok: bool)
      requires Valid() && 0 <= k < |pending|
      modifies this, state, scheduler
      ensures Valid()
      ensures var u := old(pending)[k];
              && ok == (u in old(state.updates) && (fetched.None? || u.dayOffset - 1 < |Days|))
              && (u !in old(state.updates) ==> state.updates == old(state.updates) && state.saved == old(state.saved))
              && (u in old(state.updates) && (fetched.None? || u.dayOffset - 1 >= |Days|) ==>
                    state.updates == RemoveFirst(old(state.updates), u) && state.saved == Some(state.updates))
              && (!ok || fetched.None? ==> edits == old(edits) && pending == old(pending) && scheduler.tasks == old(scheduler.tasks))
              && (ok && fetched.Some? ==>
                    var day := NewDayValue(u.dayOffset - 1);
                    var next := if u.dayOffset - 1 >= 0 then [Update(nextMidnight, u.cid, u.mid, day, u.dayOffset - 1)] else [];
                    && edits == old(edits) + [(u.mid, ReplaceAll(fetched.value, u.dayValue, day))]
                    && state.updates == RemoveFirst(old(state.updates), u) + next
                    && pending == old(pending) + next
                    && scheduler.tasks == old(scheduler.tasks) + (if next == [] then [] else [Task(|old(pending)|, Some(nextMidnight))]))
      ensures scheduler.ran == old(scheduler.ran)
    {
      var u := pending[k];
      var removed := state.RemoveUpdate(u);
      if !removed {
        return false;
      }
      if fetched.None? {
        return true;
      }
      var newOffset := u.dayOffset - 1;
      if newOffset >= |Days| {
        return false;
      }
      var newValue := NewDayValue(newOffset);
      edits := edits + [(u.mid, ReplaceAll(fetched.value, u.dayValue, newValue))];
      AddToScheduler(u.cid, u.mid, newOffset, newValue, nextMidnight);
      return true;
    }
  }

  // ---------------------------------------------------------------------------
  // The votes, kept in the message text (user_commands/summon.py:181-256)

  /** __summon_reactions (user_commands/summon.py:54): thumbs up, question mark, thumbs down. */
  const SummonReactions: string := "\U{1F44D}\U{2753}\U{1F44E}"

  const Footer := "\n\n" + LastLine

  /** Distinct reactions outside ASCII, so none is whitespace, ':' , ',' or a letter of the
      fixed lines. */
  ghost predicate ValidReactions(reactions: string) {
    && (forall i, j :: 0 <= i < j < |reactions| ==> reactions[i] != reactions[j])
    && (forall i :: 0 <= i < |reactions| ==> reactions[i] >= '\U{80}')
  }

  lemma SummonReactionsValid()
    ensures ValidReactions(SummonReactions)
  {
  }

  predicate Unpadded(m: string) {
    m != [] && !IsSpace(m[0]) && !IsSpace(m[|m| - 1])
  }

  /** What a user mention has to be for the text to carry it: unpadded, on one line, no comma. */
  ghost predicate ValidMention(m: string) {
    Unpadded(m) && ',' !in m && '\n' !in m
  }

  /** A tally holds one list of mentions per reaction, in the reactions' order. */
  ghost predicate ValidTally(reactions: string, tally: seq<seq<string>>) {
    |tally| == |reactions| && forall i, j :: 0 <= i < |tally| && 0 <= j < |tally[i]| ==> ValidMention(tally[i][j])
  }

  /** Votes the text can hold: valid reactions, and a valid list of mentions for each. */
  ghost predicate Storable(reactions: string, tally: seq<seq<string>>) {
    ValidReactions(reactions) && ValidTally(reactions, tally)
  }

  function EmptyTally(n: nat): (t: seq<seq<string>>)
    ensures |t| == n && forall i :: 0 <= i < n ==> t[i] == []
  {
    seq(n, i => [])
  }

  /** The stripped pieces that are not empty, in order (user_commands/summon.py:201-204). */
  function Mentions(parts: seq<string>): (ms: seq<string>)
    ensures |ms| <= |parts|
    ensures forall i :: 0 <= i < |ms| ==> ms[i] != []
  {
    if parts == [] then []
    else
      var init := Mentions(parts[..|parts| - 1]);
      var m := Strip(parts[|parts| - 1]);
      if m == [] then init else init + [m]
  }

  /** What one line of the text says (user_commands/summon.py:191-201): nothing for a blank
      line, a line without ':' or one that does not start with a reaction; otherwise the index
      of its reaction and the mentions after the first ':', split at commas. */
  function LineVotes(reactions: string, line: string): (r: Option<(nat, seq<string>)>)
    ensures IsBlank(line) || ':' !in line || line[0] !in reactions ==> r.None?
    ensures r.Some? ==> r.value.0 < |reactions| && reactions[r.value.0] == line[0]
  {
    if Strip(line) == [] then None
    else
      var split := SplitOnce(line, ':');
      if |split| < 2 then None
      else match IndexOf(reactions, line[0])
        case None => None
        case Some(i) => Some((i, Mentions(Split(split[1], ','))))
  }

  /** The tally read from the lines before and up to the last one. */
  function TallyLines(reactions: string, lines: seq<string>): (t: seq<seq<string>>)
    ensures |t| == |reactions|
  {
    if lines == [] then EmptyTally(|reactions|)
    else
      var t := TallyLines(reactions, lines[..|lines| - 1]);
      var v := LineVotes(reactions, lines[|lines| - 1]);
      if v.None? then t else t[v.value.0 := t[v.value.0] + v.value.1]
  }

  lemma TallySnoc(reactions: string, lines: seq<string>, line: string)
    ensures TallyLines(reactions, lines + [line]) ==
              var v := LineVotes(reactions, line);
              var t := TallyLines(reactions, lines);
              if v.None? then t else t[v.value.0 := t[v.value.0] + v.value.1]
  {
    assert (lines + [line])[..|lines|] == lines;
  }

  lemma TallyStep(reactions: string, lines: seq<string>, k: nat)
    requires k < |lines|
    ensures TallyLines(reactions, lines[..k + 1]) ==
              var v := LineVotes(reactions, lines[k]);
              var t := TallyLines(reactions, lines[..k]);
              if v.None? then t else t[v.value.0 := t[v.value.0] + v.value.1]
  {
    assert lines[..k + 1][..k] == lines[..k];
  }

  lemma MentionsSnoc(parts: seq<string>, p: string)
    ensures Mentions(parts + [p]) == Mentions(parts) + (if Strip(p) == [] then [] else [Strip(p)])
  {
    assert (parts + [p])[..|parts|] == parts;
  }

  lemma MentionsStep(voters0: seq<string>, parts: seq<string>, j: nat)
    requires j < |parts|
    ensures voters0 + Mentions(parts[..j + 1]) ==
              voters0 + Mentions(parts[..j]) + (if Strip(parts[j]) == [] then [] else [Strip(parts[j])])
  {
    assert parts[..j + 1] == parts[..j] + [parts[j]];
    MentionsSnoc(parts[..j], parts[j]);
  }

  /** The inner loop of __read_reactions (user_commands/summon.py:201-205): the pieces are
      stripped and the non-empty ones appended to the reaction's list. */
  method AppendMentions(voters0: seq<string>, parts: seq<string>) returns (voters: seq<string>)
    ensures voters == voters0 + Mentions(parts)
  {
    voters := voters0;
    var j := 0;
    while j < |parts|
      invariant 0 <= j <= |parts|
      invariant voters == voters0 + Mentions(parts[..j])
    {
      MentionsStep(voters0, parts, j);
      var m := Strip(parts[j]);
      if |m| != 0 {
        voters := voters + [m];
      }
      j := j + 1;
    }
    assert parts[..j] == parts;
  }

  /** __read_reactions (user_commands/summon.py:181-208). */
  method ReadReactions(reactions: string, content: string) returns (result: seq<seq<string>>)
    ensures result == TallyLines(reactions, Split(content, '\n'))
  {
    result := EmptyTally(|reactions|);
    var lines := Split(content, '\n');
    var k := 0;
    assert lines[..0] == [];
    assert result == TallyLines(reactions, lines[..0]);
    while k < |lines|
      invariant 0 <= k <= |lines|
      invariant result == TallyLines(reactions, lines[..k])
    {
      var line := lines[k];
      TallyStep(reactions, lines, k);
      if Strip(line) != [] {
        var split := SplitOnce(line, ':');
        var mentionType := line[0];
        var idx := IndexOf(reactions, mentionType);
        if |split| >= 2 && idx.Some? {
          var i := idx.value;
          var parts := Split(split[1], ',');
          assert LineVotes(reactions, line) == Some((i, Mentions(parts)));
          var voters := AppendMentions(result[i], parts);
          result := result[i := voters];
        } else {
          assert LineVotes(reactions, line).None?;
        }
      } else {
        assert LineVotes(reactions, line).None?;
      }
      assert result == TallyLines(reactions, lines[..k + 1]);
      k := k + 1;
    }
    assert lines[..k] == lines;
  }

  /** A second reaction of the same kind withdraws the vote, a first one adds it at the end
      (user_commands/summon.py:239-242). */
  function Toggle(users: seq<string>, m: string): (r: seq<string>)
    ensures m in users ==> multiset(r) == multiset(users) - multiset{m}
    ensures m !in users ==> r == users + [m]
    ensures forall y :: y in r ==> y in users || y == m
  {
    if m in users then RemoveFirstMultiset(users, m); RemoveFirst(users, m) else users + [m]
  }

  /** In a list without duplicates a reaction flips exactly the reacting user's vote. */
  lemma ToggleFlips(users: seq<string>, m: string)
    requires Distinct(users)
    ensures Distinct(Toggle(users, m))
    ensures forall y :: y in Toggle(users, m) <==> (if y == m then m !in users else y in users)
  {
    if m in users {
      RemoveFirstDistinct(users, m);
    } else {
      var r := users + [m];
      forall i, j | 0 <= i < j < |r| ensures r[i] != r[j] {
        if j == |users| {
          assert r[i] in users;
        }
      }
    }
  }

  /** Reacting twice gives the votes back. */
  lemma ToggleTwice(users: seq<string>, m: string)
    requires m !in users
    ensures Toggle(Toggle(users, m), m) == users
  {
    RemoveAppended(users, m);
  }

  /** One summary line: the reaction, the number of votes and the mentions, comma separated. */
  function VoteLine(c: char, users: seq<string>): string {
    [c] + " `(" + NatToString(|users|) + ")`: " + Join(",", users)
  }

  /** The summary built by the loop of user_commands/summon.py:247-252 after n reactions: a
      newline and a line for each reaction with votes. */
  function Summary(reactions: string, tally: seq<seq<string>>, n: nat): string
    requires n <= |tally| == |reactions|
  {
    if n == 0 then []
    else Summary(reactions, tally, n - 1) + (if tally[n - 1] == [] then [] else "\n" + VoteLine(reactions[n - 1], tally[n - 1]))
  }

  /** The new message text (user_commands/summon.py:244-256): the first line, the current
      votes if there are any, and the request to vote. */
  function Render(head: string, reactions: string, tally: seq<seq<string>>): string
    requires |tally| == |reactions|
  {
    var summary := Summary(reactions, tally, |tally|);
    (if summary == [] then head else head + "\n\nAktuell:\n" + Strip(summary)) + Footer
  }

  /** The lines of the summary after n reactions. */
  function VoteLines(reactions: string, tally: seq<seq<string>>, n: nat): (ls: seq<string>)
    requires n <= |tally| == |reactions|
  {
    if n == 0 then []
    else VoteLines(reactions, tally, n - 1) + (if tally[n - 1] == [] then [] else [VoteLine(reactions[n - 1], tally[n - 1])])
  }

  lemma NewlineJoin(j: string, l: string)
    ensures ("\n" + j) + ("\n" + l) == "\n" + (j + "\n" + l)
  {
  }

  lemma {:induction false} SummaryIsJoin(reactions: string, tally: seq<seq<string>>, n: nat)
    requires n <= |tally| == |reactions|
    ensures Summary(reactions, tally, n) == if VoteLines(reactions, tally, n) == [] then [] else "\n" + Join("\n", VoteLines(reactions, tally, n))
  {
    if n > 0 {
      SummaryIsJoin(reactions, tally, n - 1);
      var s := Summary(reactions, tally, n - 1);
      var ls := VoteLines(reactions, tally, n - 1);
      if tally[n - 1] == [] {
        assert Summary(reactions, tally, n) == s + [] == s;
        assert VoteLines(reactions, tally, n) == ls + [] == ls;
      } else {
        var l := VoteLine(reactions[n - 1], tally[n - 1]);
        assert Summary(reactions, tally, n) == s + ("\n" + l);
        assert VoteLines(reactions, tally, n) == ls + [l];
        JoinSnoc("\n", ls, l);
        if ls != [] {
          NewlineJoin(Join("\n", ls), l);
        } else {
          assert s + ("\n" + l) == "\n" + l;
        }
      }
    }
  }

  lemma VoteLineShape(reactions: string, tally: seq<seq<string>>, i: nat)
    requires Storable(reactions, tally) && i < |tally| == |reactions| && tally[i] != []
    ensures var l := VoteLine(reactions[i], tally[i]);
            Unpadded(l) && '\n' !in l && l[0] == reactions[i]
  {
    var users := tally[i];
    JoinEnds(",", users);
    JoinFree(",", users, '\n');
    var ds := NatToString(|users|);
    assert '\n' !in ds by {
      forall k | 0 <= k < |ds| ensures ds[k] != '\n' {
        assert IsDigit(ds[k]);
      }
    }
  }

  lemma {:induction false} VoteLinesShape(reactions: string, tally: seq<seq<string>>, n: nat)
    requires Storable(reactions, tally) && n <= |tally| == |reactions|
    ensures forall k :: 0 <= k < |VoteLines(reactions, tally, n)| ==>
              Unpadded(VoteLines(reactions, tally, n)[k]) && '\n' !in VoteLines(reactions, tally, n)[k]
  {
    if n > 0 {
      VoteLinesShape(reactions, tally, n - 1);
      if tally[n - 1] != [] {
        VoteLineShape(reactions, tally, n - 1);
      }
    }
  }

  /** Lines that say nothing leave the tally as it is. */
  lemma {:induction false} TallySkips(reactions: string, lines: seq<string>, ext: seq<string>)
    requires Silent(reactions, ext)
    ensures TallyLines(reactions, lines + ext) == TallyLines(reactions, lines)
  {
    if ext == [] {
      assert lines + ext == lines;
    } else {
      var e := ext[..|ext| - 1];
      assert (lines + ext)[..|lines + ext| - 1] == lines + e;
      assert forall k :: 0 <= k < |e| ==> e[k] == ext[k];
      TallySkips(reactions, lines, e);
    }
  }

  /** Stripping the pieces after the first one gives the mentions again. */
  lemma {:induction false} MentionsOfParts(parts: seq<string>, users: seq<string>)
    requires |parts| == |users|
    requires forall i :: 0 <= i < |parts| ==> Strip(parts[i]) == users[i] && users[i] != []
    ensures Mentions(parts) == users
  {
    if parts != [] {
      var n := |parts| - 1;
      var init, before := parts[..n], users[..n];
      forall i | 0 <= i < n ensures Strip(init[i]) == before[i] && before[i] != [] {
        assert init[i] == parts[i] && before[i] == users[i];
      }
      MentionsOfParts(init, before);
      assert parts == init + [parts[n]];
      MentionsSnoc(init, parts[n]);
      assert before + [users[n]] == users;
    }
  }

  lemma SplitAfterSpace(x: string)
    ensures Split(" " + x, ',') == [" " + Split(x, ',')[0]] + Split(x, ',')[1..]
  {
    assert (" " + x)[0] == ' ' && (" " + x)[1..] == x;
  }

  lemma VoterParts(users: seq<string>)
    requires users != [] && forall k :: 0 <= k < |users| ==> ValidMention(users[k])
    ensures Split(" " + Join(",", users), ',') == [" " + users[0]] + users[1..]
  {
    forall k | 0 <= k < |users| ensures ',' !in users[k] {
    }
    SplitJoin(users, ',');
    SplitAfterSpace(Join([','], users));
  }

  lemma StripVoterParts(users: seq<string>, parts: seq<string>)
    requires users != [] && forall k :: 0 <= k < |users| ==> ValidMention(users[k])
    requires parts == [" " + users[0]] + users[1..]
    ensures forall k :: 0 <= k < |parts| ==> Strip(parts[k]) == users[k] && users[k] != []
  {
    forall k | 0 <= k < |users| ensures Strip(parts[k]) == users[k] {
      if k == 0 {
        StripLeadingSpace(' ', users[0]);
      } else {
        assert parts[k] == users[k];
        StripOfUnpadded(users[k]);
      }
    }
  }

  /** The mentions after the ':' of a summary line are the voters again. */
  lemma MentionsOfVoters(users: seq<string>)
    requires users != [] && forall k :: 0 <= k < |users| ==> ValidMention(users[k])
    ensures Mentions(Split(" " + Join(",", users), ',')) == users
  {
    VoterParts(users);
    var parts := Split(" " + Join(",", users), ',');
    StripVoterParts(users, parts);
    MentionsOfParts(parts, users);
  }

  /** The text before the ':' of a summary line has no ':' of its own. */
  lemma VoteLinePrefix(c: char, n: nat)
    requires c != ':'
    ensures ':' !in [c] + " `(" + NatToString(n) + ")`"
  {
    var ds := NatToString(n);
    var pre := [c] + " `(" + ds + ")`";
    forall k | 0 <= k < |pre| ensures pre[k] != ':' {
      if 4 <= k < 4 + |ds| {
        assert pre[k] == ds[k - 4] && IsDigit(ds[k - 4]);
      }
    }
  }

  /** A summary line reads back as its reaction and its mentions. */
  lemma VoteLineReads(reactions: string, tally: seq<seq<string>>, i: nat)
    requires Storable(reactions, tally) && i < |tally| == |reactions| && tally[i] != []
    ensures LineVotes(reactions, VoteLine(reactions[i], tally[i])) == Some((i, tally[i]))
  {
    var users := tally[i];
    var c := reactions[i];
    var pre := [c] + " `(" + NatToString(|users|) + ")`";
    var rest := " " + Join(",", users);
    assert VoteLine(c, users) == pre + [':'] + rest;
    VoteLinePrefix(c, |users|);
    SplitOnceAt(pre, rest, ':');
    VoteLineShape(reactions, tally, i);
    assert IndexOf(reactions, c) == Some(i);
    MentionsOfVoters(users);
  }

  /** The tally after the summary lines of the first n reactions: their votes, and none yet for
      the others. */
  ghost function PartialTally(tally: seq<seq<string>>, n: nat): (t: seq<seq<string>>)
    requires n <= |tally|
    ensures |t| == |tally|
  {
    tally[..n] + EmptyTally(|tally| - n)
  }

  lemma PartialStep(tally: seq<seq<string>>, n: nat)
    requires 0 < n <= |tally|
    ensures var t := PartialTally(tally, n - 1);
            t[n - 1] + tally[n - 1] == tally[n - 1] && t[n - 1 := tally[n - 1]] == PartialTally(tally, n)
    ensures tally[n - 1] == [] ==> PartialTally(tally, n - 1) == PartialTally(tally, n)
  {
    var t := PartialTally(tally, n - 1);
    assert t[n - 1] == [];
    assert [] + tally[n - 1] == tally[n - 1];
    var u := PartialTally(tally, n);
    assert forall i :: 0 <= i < |tally| ==> t[n - 1 := tally[n - 1]][i] == u[i];
  }

  /** A line that starts with an ASCII character says nothing. */
  lemma AsciiLineSaysNothing(reactions: string, line: string)
    requires ValidReactions(reactions) && line != [] && line[0] < '\U{80}'
    ensures LineVotes(reactions, line).None?
  {
  }

  lemma TallyAddsVoteLine(reactions: string, tally: seq<seq<string>>, lines: seq<string>, i: nat)
    requires Storable(reactions, tally) && i < |tally| == |reactions| && tally[i] != []
    ensures var t := TallyLines(reactions, lines);
            TallyLines(reactions, lines + [VoteLine(reactions[i], tally[i])]) == t[i := t[i] + tally[i]]
  {
    TallySnoc(reactions, lines, VoteLine(reactions[i], tally[i]));
    VoteLineReads(reactions, tally, i);
  }

  lemma TallyOfNoLines(reactions: string, tally: seq<seq<string>>, pre: seq<string>)
    requires |tally| == |reactions| && TallyLines(reactions, pre) == EmptyTally(|reactions|)
    ensures TallyLines(reactions, pre + VoteLines(reactions, tally, 0)) == PartialTally(tally, 0)
  {
    assert pre + VoteLines(reactions, tally, 0) == pre;
    assert PartialTally(tally, 0) == EmptyTally(|tally|);
  }

  /** A reaction with votes adds its summary line, which the tally reads. */
  lemma VoteLineStep(reactions: string, tally: seq<seq<string>>, lines: seq<string>, n: nat)
    requires Storable(reactions, tally) && |tally| == |reactions|
    requires 0 < n <= |tally| && tally[n - 1] != []
    requires TallyLines(reactions, lines) == PartialTally(tally, n - 1)
    ensures TallyLines(reactions, lines + [VoteLine(reactions[n - 1], tally[n - 1])]) == PartialTally(tally, n)
  {
    PartialStep(tally, n);
    TallyAddsVoteLine(reactions, tally, lines, n - 1);
  }

  /** One more reaction: its summary line, if it has votes, adds its votes to the tally. */
  lemma TallyStepAt(reactions: string, tally: seq<seq<string>>, pre: seq<string>, n: nat)
    requires Storable(reactions, tally) && 0 < n <= |tally| == |reactions|
    requires TallyLines(reactions, pre + VoteLines(reactions, tally, n - 1)) == PartialTally(tally, n - 1)
    ensures TallyLines(reactions, pre + VoteLines(reactions, tally, n)) == PartialTally(tally, n)
  {
    var ls := VoteLines(reactions, tally, n - 1);
    if tally[n - 1] == [] {
      assert VoteLines(reactions, tally, n) == ls;
      PartialStep(tally, n);
    } else {
      var l := VoteLine(reactions[n - 1], tally[n - 1]);
      assert pre + VoteLines(reactions, tally, n) == (pre + ls) + [l];
      VoteLineStep(reactions, tally, pre + ls, n);
    }
  }

  /** The tally read from the summary lines of the first n reactions. */
  lemma TallyOfVoteLines(reactions: string, tally: seq<seq<string>>, pre: seq<string>, n: nat)
    requires Storable(reactions, tally) && n <= |tally| == |reactions|
    requires TallyLines(reactions, pre) == EmptyTally(|reactions|)
    ensures TallyLines(reactions, pre + VoteLines(reactions, tally, n)) == PartialTally(tally, n)
  {
    TallyOfNoLines(reactions, tally, pre);
    var k := 0;
    while k < n
      invariant k <= n
      invariant TallyLines(reactions, pre + VoteLines(reactions, tally, k)) == PartialTally(tally, k)
    {
      TallyStepAt(reactions, tally, pre, k + 1);
      k := k + 1;
    }
  }

  const LastLine := "Bitte Reactions zum Abstimmen benutzen:"

  /** The lines of a rendered message. */
  ghost function RenderedLines(head: string, reactions: string, tally: seq<seq<string>>): seq<string>
    requires |tally| == |reactions|
  {
    var ls := VoteLines(reactions, tally, |tally|);
    if ls == [] then [head, "", LastLine] else [head, "", "Aktuell:"] + ls + ["", LastLine]
  }

  /** A rendered message is its first line, the summary lines if there are any, and the
      footer. */
  lemma RenderShape(head: string, reactions: string, tally: seq<seq<string>>)
    requires Storable(reactions, tally) && |tally| == |reactions|
    ensures var ls := VoteLines(reactions, tally, |tally|);
            Render(head, reactions, tally) ==
              if ls == [] then head + Footer else head + "\n\nAktuell:\n" + Join("\n", ls) + Footer
  {
    var n := |tally|;
    var ls := VoteLines(reactions, tally, n);
    SummaryIsJoin(reactions, tally, n);
    if ls != [] {
      VoteLinesShape(reactions, tally, n);
      JoinEnds("\n", ls);
      StripLeadingSpace('\n', Join("\n", ls));
    }
  }

  lemma JoinNoVotes(head: string)
    ensures Join("\n", [head, "", LastLine]) == head + Footer
  {
    assert [head, "", LastLine][1..] == ["", LastLine] && ["", LastLine][1..] == [LastLine];
    assert Join("\n", ["", LastLine]) == "" + "\n" + LastLine;
  }

  lemma JoinWithVotes(head: string, ls: seq<string>)
    requires ls != []
    ensures Join("\n", [head, "", "Aktuell:"] + ls + ["", LastLine]) == head + "\n\nAktuell:\n" + Join("\n", ls) + Footer
  {
    var pre := [head, "", "Aktuell:"];
    JoinAppend("\n", pre, ls);
    JoinAppend("\n", pre + ls, ["", LastLine]);
    JoinHead(head);
    JoinFooter();
  }

  lemma JoinHead(head: string)
    ensures Join("\n", [head, "", "Aktuell:"]) == head + "\n\nAktuell:"
  {
    var pre := [head, "", "Aktuell:"];
    assert pre[1..] == ["", "Aktuell:"] && pre[1..][1..] == ["Aktuell:"];
    assert Join("\n", ["", "Aktuell:"]) == "" + "\n" + "Aktuell:";
    assert Join("\n", pre) == head + "\n" + Join("\n", ["", "Aktuell:"]);
  }

  lemma JoinFooter()
    ensures Join("\n", ["", LastLine]) == "\n" + LastLine
  {
    assert ["", LastLine][1..] == [LastLine];
    assert Join("\n", ["", LastLine]) == "" + "\n" + LastLine;
  }

  lemma RenderIsJoin(head: string, reactions: string, tally: seq<seq<string>>)
    requires Storable(reactions, tally) && |tally| == |reactions|
    ensures Render(head, reactions, tally) == Join("\n", RenderedLines(head, reactions, tally))
  {
    RenderShape(head, reactions, tally);
    var ls := VoteLines(reactions, tally, |tally|);
    if ls == [] {
      JoinNoVotes(head);
    } else {
      JoinWithVotes(head, ls);
    }
  }

  /** The fixed lines hold no newline. */
  lemma FixedLinesOneLine()
    ensures '\n' !in LastLine && '\n' !in "Aktuell:"
  {
  }

  lemma SplitRendered(head: string, reactions: string, tally: seq<seq<string>>)
    requires Storable(reactions, tally) && |tally| == |reactions| && '\n' !in head
    ensures Split(Render(head, reactions, tally), '\n') == RenderedLines(head, reactions, tally)
  {
    var lines := RenderedLines(head, reactions, tally);
    assert forall k :: 0 <= k < |lines| ==> '\n' !in lines[k] by {
      var ls := VoteLines(reactions, tally, |tally|);
      VoteLinesShape(reactions, tally, |tally|);
      var post: seq<string> := ["", LastLine];
      var pre: seq<string> := if ls == [] then [head] else [head, "", "Aktuell:"];
      assert lines == pre + ls + post;
      FixedLinesOneLine();
      assert forall k :: 0 <= k < |pre| ==> '\n' !in pre[k];
      assert forall k :: 0 <= k < |post| ==> '\n' !in post[k];
      forall k | 0 <= k < |lines| ensures '\n' !in lines[k] {
        if k < |pre| {
          assert lines[k] == pre[k];
        } else if k < |pre| + |ls| {
          assert lines[k] == ls[k - |pre|];
        } else {
          assert lines[k] == post[k - |pre| - |ls|];
        }
      }
    }
    RenderIsJoin(head, reactions, tally);
    SplitJoin(lines, '\n');
  }

  /** The fixed lines of a rendered message say nothing. */
  lemma FixedLinesSayNothing(reactions: string)
    requires ValidReactions(reactions)
    ensures LineVotes(reactions, "").None? && LineVotes(reactions, "Aktuell:").None?
    ensures LineVotes(reactions, LastLine).None?
  {
    assert IsBlank("");
    AsciiLineSaysNothing(reactions, LastLine);
    AsciiLineSaysNothing(reactions, "Aktuell:");
  }

  /** No line of the list adds a vote. */
  ghost predicate Silent(reactions: string, lines: seq<string>) {
    forall k :: 0 <= k < |lines| ==> LineVotes(reactions, lines[k]).None?
  }

  /** Lines that say nothing store the empty tally. */
  lemma {:induction false} SilentLines(reactions: string, lines: seq<string>)
    requires Silent(reactions, lines)
    ensures TallyLines(reactions, lines) == EmptyTally(|reactions|)
  {
    if lines != [] {
      var p := lines[..|lines| - 1];
      assert forall k :: 0 <= k < |p| ==> p[k] == lines[k];
      SilentLines(reactions, p);
    }
  }

  lemma SilentPair(reactions: string, a: string, b: string)
    requires LineVotes(reactions, a).None? && LineVotes(reactions, b).None?
    ensures Silent(reactions, [a, b])
  {
    var ls := [a, b];
    forall k | 0 <= k < |ls| ensures LineVotes(reactions, ls[k]).None? {
      if k == 0 { assert ls[k] == a; } else { assert ls[k] == b; }
    }
  }

  lemma SilentTriple(reactions: string, a: string, b: string, c: string)
    requires LineVotes(reactions, a).None? && LineVotes(reactions, b).None? && LineVotes(reactions, c).None?
    ensures Silent(reactions, [a, b, c])
  {
    var ls := [a, b, c];
    forall k | 0 <= k < |ls| ensures LineVotes(reactions, ls[k]).None? {
      if k == 0 { assert ls[k] == a; } else if k == 1 { assert ls[k] == b; } else { assert ls[k] == c; }
    }
  }

  /** The lines a rendered message puts around the summary say nothing. */
  lemma SilentFrames(head: string, reactions: string)
    requires ValidReactions(reactions)
    requires head == [] || head[0] !in reactions
    ensures Silent(reactions, [head]) && Silent(reactions, [head, "", "Aktuell:"])
    ensures Silent(reactions, ["", LastLine])
  {
    FixedLinesSayNothing(reactions);
    assert LineVotes(reactions, head).None?;
    SilentTriple(reactions, head, "", "Aktuell:");
    SilentPair(reactions, "", LastLine);
  }

  /** Lines that say nothing around the summary lines leave the tally they store. */
  lemma TallyOfFramedLines(reactions: string, tally: seq<seq<string>>, pre: seq<string>, tail: seq<string>)
    requires Storable(reactions, tally) && |tally| == |reactions|
    requires Silent(reactions, pre) && Silent(reactions, tail)
    ensures TallyLines(reactions, pre + VoteLines(reactions, tally, |tally|) + tail) == tally
  {
    var lines := pre + VoteLines(reactions, tally, |tally|);
    assert TallyLines(reactions, lines) == tally by {
      SilentLines(reactions, pre);
      TallyOfVoteLines(reactions, tally, pre, |tally|);
      PartialTallyFull(tally);
    }
    TallySkips(reactions, lines, tail);
  }


  lemma PartialTallyFull(tally: seq<seq<string>>)
    ensures PartialTally(tally, |tally|) == tally
  {
  }

  lemma TallyOfRenderedLines(head: string, reactions: string, tally: seq<seq<string>>)
    requires Storable(reactions, tally) && |tally| == |reactions|
    requires head == [] || head[0] !in reactions
    ensures TallyLines(reactions, RenderedLines(head, reactions, tally)) == tally
  {
    var ls := VoteLines(reactions, tally, |tally|);
    SilentFrames(head, reactions);
    if ls == [] {
      assert RenderedLines(head, reactions, tally) == [head] + ls + ["", LastLine];
      TallyOfFramedLines(reactions, tally, [head], ["", LastLine]);
    } else {
      assert RenderedLines(head, reactions, tally) == [head, "", "Aktuell:"] + ls + ["", LastLine];
      TallyOfFramedLines(reactions, tally, [head, "", "Aktuell:"], ["", LastLine]);
    }
  }

  /** The text written is the store of the votes: reading a rendered message gives back the
      tally it was rendered from, whatever the first line, as long as that line is one line and
      does not start with a reaction. */
  lemma ReadRendered(head: string, reactions: string, tally: seq<seq<string>>)
    requires ValidReactions(reactions) && ValidTally(reactions, tally)
    requires '\n' !in head && (head == [] || head[0] !in reactions)
    ensures TallyLines(reactions, Split(Render(head, reactions, tally), '\n')) == tally
  {
    SplitRendered(head, reactions, tally);
    TallyOfRenderedLines(head, reactions, tally);
  }

  // ---------------------------------------------------------------------------
  // Every mention read from a text is one the text can hold again

  /** The mentions read from pieces without ',' and newline are valid mentions. */
  lemma {:induction false} MentionsValid(parts: seq<string>)
    requires forall k :: 0 <= k < |parts| ==> ',' !in parts[k] && '\n' !in parts[k]
    ensures forall j :: 0 <= j < |Mentions(parts)| ==> ValidMention(Mentions(parts)[j])
  {
    if parts != [] {
      var init := parts[..|parts| - 1];
      var p := parts[|parts| - 1];
      forall k | 0 <= k < |init| ensures ',' !in init[k] && '\n' !in init[k] {
        assert init[k] == parts[k];
      }
      MentionsValid(init);
      StripFreeOf(p, ',');
      StripFreeOf(p, '\n');
      var m := Strip(p);
      assert parts == init + [p];
      MentionsSnoc(init, p);
      var before, ms := Mentions(init), Mentions(parts);
      forall j | 0 <= j < |ms| ensures ValidMention(ms[j]) {
        if j < |before| {
          assert ms[j] == before[j];
        } else {
          assert ms[j] == m;
        }
      }
    }
  }

  /** The votes a line says are valid mentions. */
  lemma LineVotesValid(reactions: string, line: string)
    requires '\n' !in line && LineVotes(reactions, line).Some?
    ensures forall j :: 0 <= j < |LineVotes(reactions, line).value.1| ==> ValidMention(LineVotes(reactions, line).value.1[j])
  {
    var split := SplitOnce(line, ':');
    var rest := split[1];
    assert '\n' !in rest by {
      forall k | 0 <= k < |rest| ensures rest[k] != '\n' {
        assert rest[k] == line[|split[0]| + 1 + k];
      }
    }
    SplitFreeOf(rest, ',', '\n');
    assert LineVotes(reactions, line).value.1 == Mentions(Split(rest, ','));
    MentionsValid(Split(rest, ','));
  }

  /** Whatever the text, the tally read from its lines is one a text can hold. */
  lemma {:induction false} TallyLinesValid(reactions: string, lines: seq<string>)
    requires forall k :: 0 <= k < |lines| ==> '\n' !in lines[k]
    ensures ValidTally(reactions, TallyLines(reactions, lines))
  {
    if lines != [] {
      var init := lines[..|lines| - 1];
      var line := lines[|lines| - 1];
      assert forall k :: 0 <= k < |init| ==> init[k] == lines[k];
      TallyLinesValid(reactions, init);
      if LineVotes(reactions, line).Some? {
        LineVotesValid(reactions, line);
        var t := TallyLines(reactions, init);
        var v := LineVotes(reactions, line).value;
        ValidTallyAppend(reactions, t, v.0, v.1);
      }
    }
  }

  lemma ValidTallyAppend(reactions: string, t: seq<seq<string>>, i: nat, ms: seq<string>)
    requires ValidTally(reactions, t) && i < |t|
    requires forall j :: 0 <= j < |ms| ==> ValidMention(ms[j])
    ensures ValidTally(reactions, t[i := t[i] + ms])
  {
    var u := t[i := t[i] + ms];
    forall a, b | 0 <= a < |u| && 0 <= b < |u[a]| ensures ValidMention(u[a][b]) {
      if a == i && b >= |t[i]| {
        assert u[a][b] == ms[b - |t[i]|];
      }
    }
  }

  /** The votes after mention m reacts with reaction i. */
  function Voted(tally: seq<seq<string>>, i: nat, m: string): (t: seq<seq<string>>)
    requires i < |tally|
    ensures |t| == |tally| && t[i] == Toggle(tally[i], m)
    ensures forall j :: 0 <= j < |tally| && j != i ==> t[j] == tally[j]
  {
    tally[i := Toggle(tally[i], m)]
  }

  /** A valid mention keeps the tally valid. */
  lemma VotedValid(reactions: string, tally: seq<seq<string>>, i: nat, m: string)
    requires ValidTally(reactions, tally) && i < |tally| && ValidMention(m)
    ensures ValidTally(reactions, Voted(tally, i, m))
  {
    var u := Voted(tally, i, m);
    forall a, b | 0 <= a < |u| && 0 <= b < |u[a]| ensures ValidMention(u[a][b]) {
      if a == i {
        assert u[a][b] in Toggle(tally[i], m);
        if u[a][b] != m {
          var c :| 0 <= c < |tally[i]| && tally[i][c] == u[a][b];
        }
      }
    }
  }

  // ---------------------------------------------------------------------------
  // Recognising a summon message (user_commands/summon.py:64-67, 221-225). Python's \d also
  // takes digits outside ASCII; here a digit is an ASCII one.

  predicate AllDigits(s: string) {
    forall k :: 0 <= k < |s| ==> IsDigit(s[k])
  }

  /** The mention <@digits>, or <@!digits> with the exclamation mark. */
  function MentionText(bang: bool, ds: string): string {
    "<@" + (if bang then "!" else "") + ds + ">"
  }

  /** The texts the pattern <@!?\d+> matches. */
  ghost predicate IsMention(m: string) {
    exists bang: bool, ds: string :: ds != [] && AllDigits(ds) && m == MentionText(bang, ds)
  }

  /** The end of the run of digits from i. */
  function DigitsEnd(s: string, i: nat): (e: nat)
    requires i <= |s|
    ensures i <= e <= |s| && AllDigits(s[i..e]) && (e == |s| || !IsDigit(s[e]))
    decreases |s| - i
  {
    if i < |s| && IsDigit(s[i]) then
      var e := DigitsEnd(s, i + 1);
      assert forall k :: 0 <= k < e - i ==> s[i..e][k] == s[i + k];
      e
    else i
  }

  /** A run of digits that stops at a non-digit or at the end is the one DigitsEnd finds. */
  lemma {:induction false} DigitsEndOf(s: string, i: nat, e: nat)
    requires i <= e <= |s| && AllDigits(s[i..e]) && (e == |s| || !IsDigit(s[e]))
    ensures DigitsEnd(s, i) == e
    decreases e - i
  {
    if i < e {
      assert s[i] == s[i..e][0];
      assert s[i + 1..e] == s[i..e][1..];
      DigitsEndOf(s, i + 1, e);
    }
  }

  /** Where the mention that starts at i ends, if one starts there. The pattern leaves no choice:
      "!" is taken when it is there, and the digits run up to the first non-digit. */
  function MentionEnd(s: string, i: nat): (r: Option<nat>)
    requires i <= |s|
    ensures r.Some? ==> i + 4 <= r.value <= |s|
  {
    if i + 2 <= |s| && s[i] == '<' && s[i + 1] == '@' then
      var j := if i + 2 < |s| && s[i + 2] == '!' then i + 3 else i + 2;
      var e := DigitsEnd(s, j);
      if j < e < |s| && s[e] == '>' then Some(e + 1) else None
    else None
  }

  lemma MentionEndSound(s: string, i: nat)
    requires i <= |s| && MentionEnd(s, i).Some?
    ensures IsMention(s[i..MentionEnd(s, i).value])
  {
    var e := MentionEnd(s, i).value;
    var bang := i + 2 < |s| && s[i + 2] == '!';
    var j := if bang then i + 3 else i + 2;
    var ds := s[j..e - 1];
    assert AllDigits(ds) by {
      assert forall k :: 0 <= k < |ds| ==> ds[k] == s[j..DigitsEnd(s, j)][k];
    }
    assert s[i..e] == MentionText(bang, ds);
  }

  lemma MentionEndComplete(s: string, i: nat, bang: bool, ds: string)
    requires ds != [] && AllDigits(ds)
    requires i + |MentionText(bang, ds)| <= |s| && s[i..i + |MentionText(bang, ds)|] == MentionText(bang, ds)
    ensures MentionEnd(s, i) == Some(i + |MentionText(bang, ds)|)
  {
    var m := MentionText(bang, ds);
    var j := if bang then i + 3 else i + 2;
    assert s[i] == m[0] && s[i + 1] == m[1];
    assert s[i + 2] == m[2];
    assert bang <==> s[i + 2] == '!' by {
      if !bang { assert m[2] == ds[0]; }
    }
    var e := j + |ds|;
    assert s[e] == m[|m| - 1] == '>';
    assert AllDigits(s[j..e]) by {
      assert forall k :: 0 <= k < |ds| ==> s[j..e][k] == m[j - i + k] == ds[k];
    }
    DigitsEndOf(s, j, e);
  }

  /** MentionEnd finds exactly the mentions the pattern matches at i. */
  lemma MentionEndIff(s: string, i: nat, e: nat)
    requires i <= e <= |s|
    ensures MentionEnd(s, i) == Some(e) <==> IsMention(s[i..e])
  {
    if MentionEnd(s, i) == Some(e) {
      MentionEndSound(s, i);
    }
    if IsMention(s[i..e]) {
      var bang: bool, ds: string :| ds != [] && AllDigits(ds) && s[i..e] == MentionText(bang, ds);
      MentionEndComplete(s, i, bang, ds);
    }
  }

  /** The text after the user's mention in the first summon template. */
  const Opener := ": Wer wäre"

  /** re.search(r"^<@!?\d+>: Wer wäre", h). */
  predicate OpensWithMention(h: string) {
    match MentionEnd(h, 0)
    case None => false
    case Some(e) => StartsWith(h[e..], Opener)
  }

  /** r"\(<@!?\d+>\)$" matches from j: "(", a mention, and ")" as the last character. */
  predicate ParenMentionAt(h: string, j: nat) {
    j + 1 < |h| && h[j] == '(' && MentionEnd(h, j + 1) == Some(|h| - 1) && h[|h| - 1] == ')'
  }

  /** re.search of the second pattern, from position j on. */
  function ClosesFrom(h: string, j: nat): (b: bool)
    requires j <= |h|
    ensures b <==> exists k :: j <= k < |h| && ParenMentionAt(h, k)
    decreases |h| - j
  {
    if j == |h| then false else ParenMentionAt(h, j) || ClosesFrom(h, j + 1)
  }

  /** The first line of a summon message matches one of the two patterns. */
  predicate IsSummonHead(h: string) {
    OpensWithMention(h) || ClosesFrom(h, 0)
  }

  /** text.split("\n")[0].strip(). */
  function HeadLine(text: string): (h: string)
    ensures '\n' !in h && Strip(h) == h
  {
    var first := Split(text, '\n')[0];
    StripFreeOf(first, '\n');
    StripTwice(first);
    Strip(first)
  }

  /** The first pattern matches exactly a mention at the start followed by ": Wer wäre". */
  lemma OpensWithMentionIff(h: string)
    ensures OpensWithMention(h) <==> exists e :: 0 <= e <= |h| && IsMention(h[..e]) && StartsWith(h[e..], Opener)
  {
    if OpensWithMention(h) {
      var e := MentionEnd(h, 0).value;
      MentionEndIff(h, 0, e);
      assert h[0..e] == h[..e];
    }
    if exists e :: 0 <= e <= |h| && IsMention(h[..e]) && StartsWith(h[e..], Opener) {
      var e :| 0 <= e <= |h| && IsMention(h[..e]) && StartsWith(h[e..], Opener);
      assert h[0..e] == h[..e];
      MentionEndIff(h, 0, e);
    }
  }

  /** The texts the second pattern matches: "(", a mention from j + 1, and ")" at the end. */
  ghost predicate ClosedByMention(h: string, j: nat) {
    j < |h| - 1 && h[j] == '(' && IsMention(h[j + 1..|h| - 1]) && h[|h| - 1] == ')'
  }

  lemma ParenMentionAtIff(h: string, j: nat)
    ensures ParenMentionAt(h, j) <==> ClosedByMention(h, j)
  {
    if j + 1 < |h| {
      MentionEndIff(h, j + 1, |h| - 1);
    }
  }

  /** The second pattern matches exactly a text ending in "(", a mention and ")". */
  lemma ClosesIff(h: string)
    ensures ClosesFrom(h, 0) <==> exists j :: ClosedByMention(h, j)
  {
    if ClosesFrom(h, 0) {
      var j :| 0 <= j < |h| && ParenMentionAt(h, j);
      ParenMentionAtIff(h, j);
    }
    if exists j :: ClosedByMention(h, j) {
      var j :| ClosedByMention(h, j);
      ParenMentionAtIff(h, j);
    }
  }

  /** The first template (user_commands/summon.py:57), "<user>: Wer wäre ...", is recognised. */
  lemma FirstTemplateIsSummon(bang: bool, uid: nat, rest: string)
    ensures IsSummonHead(MentionText(bang, NatToString(uid)) + Opener + rest)
  {
    var m := MentionText(bang, NatToString(uid));
    var h := m + Opener + rest;
    assert h[..|m|] == m && h[|m|..][..|Opener|] == Opener;
    assert IsMention(h[..|m|]);
    OpensWithMentionIff(h);
  }

  /** The other templates (user_commands/summon.py:58-60) end in "(<user>)" and are recognised. */
  lemma OtherTemplatesAreSummons(front: string, bang: bool, uid: nat)
    ensures IsSummonHead(front + "(" + MentionText(bang, NatToString(uid)) + ")")
  {
    var m := MentionText(bang, NatToString(uid));
    var h := front + "(" + m + ")";
    var j := |front|;
    assert h[j] == '(' && h[|h| - 1] == ')';
    assert h[j + 1..|h| - 1] == m;
    assert ClosedByMention(h, j);
    ClosesIff(h);
  }

  /** A first line that neither starts with "<" nor ends with ")" is no summon. */
  lemma PlainLineIsNoSummon(h: string)
    requires h == [] || (h[0] != '<' && h[|h| - 1] != ')')
    ensures !IsSummonHead(h)
  {
  }

  // ---------------------------------------------------------------------------
  // Handling a reaction (user_commands/summon.py:211-256)

  /** The emoji names of __summon_reactions (user_commands/summon.py:54). */
  const ReactionNames: seq<string> := ["\U{1F44D}", "\U{2753}", "\U{1F44E}"]

  /** The position of an emoji name among the allowed ones. */
  function ReactionIndex(react: string): (r: Option<nat>)
    ensures r.Some? <==> react in ReactionNames
    ensures r.Some? ==> r.value < |SummonReactions| && ReactionNames[r.value] == react
  {
    if |react| == 1 then
      assert ReactionNames[0] == [SummonReactions[0]] && ReactionNames[1] == [SummonReactions[1]];
      assert ReactionNames[2] == [SummonReactions[2]];
      assert react == [react[0]];
      IndexOf(SummonReactions, react[0])
    else None
  }

  /** The votes held in a message text (__read_reactions with __summon_reactions). */
  function ReadTally(text: string): (t: seq<seq<string>>)
    ensures |t| == |SummonReactions|
  {
    TallyLines(SummonReactions, Split(text, '\n'))
  }

  /** The text a reaction of reaction i by mention m writes. */
  function ReactedText(text: string, m: string, i: nat): string
    requires i < |SummonReactions|
  {
    Render(HeadLine(text), SummonReactions, Voted(ReadTally(text), i, m))
  }

  /** The message text built from the votes (user_commands/summon.py:244-254): the summary loop
      over the reactions, then the head, the summary if there is one, and the request to vote. */
  method RenderVotes(head: string, tally: seq<seq<string>>) returns (result: string)
    requires |tally| == |SummonReactions|
    ensures result == Render(head, SummonReactions, tally)
  {
    var summary := "";
    var k := 0;
    while k < |tally|
      invariant 0 <= k <= |tally|
      invariant summary == Summary(SummonReactions, tally, k)
    {
      if tally[k] != [] {
        summary := summary + ("\n" + VoteLine(SummonReactions[k], tally[k]));
      }
      k := k + 1;
    }
    result := head;
    if summary != [] {
      result := head + "\n\nAktuell:\n" + Strip(summary);
    }
    result := result + Footer;
  }

  /** __handling_reaction_summon for a reaction react of the user with mention m on a message
      with the given text. A message not written by the bot, or whose first line matches neither
      pattern, is not handled. A handled reaction is always removed again; only an allowed one
      edits the message, toggling the user's vote and writing the votes anew. */
  method HandleReaction(fromBot: bool, text: string, m: string, react: string)
    returns (handled: bool, removed: bool, edited: Option<string>)
    ensures handled == (fromBot && IsSummonHead(HeadLine(text)))
    ensures removed == handled
    ensures edited.Some? <==> handled && ReactionIndex(react).Some?
    ensures edited.Some? ==> edited.value == ReactedText(text, m, ReactionIndex(react).value)
  {
    var isSummon, head := SummonHead(fromBot, text);
    if !isSummon {
      return false, false, None;
    }
    var idx := ReactionIndex(react);
    if idx.None? {
      return true, true, None;
    }
    var result := ReactTo(text, head, idx.value, m);
    return true, true, Some(result);
  }

  /** Whether the message is a summon of the bot (user_commands/summon.py:220-227), and its
      first line. */
  method SummonHead(fromBot: bool, text: string) returns (isSummon: bool, head: string)
    ensures isSummon == (fromBot && IsSummonHead(HeadLine(text))) && head == HeadLine(text)
  {
    head := HeadLine(text);
    isSummon := fromBot && (OpensWithMention(head) || ClosesFrom(head, 0));
  }

  /** The vote of m on reaction i and the new text (user_commands/summon.py:237-256). */
  method ReactTo(text: string, head: string, i: nat, m: string) returns (result: string)
    requires head == HeadLine(text) && i < |SummonReactions|
    ensures result == ReactedText(text, m, i)
  {
    var reactions := ReadReactions(SummonReactions, text);
    reactions := reactions[i := Toggle(reactions[i], m)];
    result := RenderVotes(head, reactions);
  }

  /** Text that starts with a newline after a head of one line has that head as its first line. */
  lemma FirstLineOf(head: string, t: string)
    requires '\n' !in head && t != [] && t[0] == '\n'
    ensures Split(head + t, '\n')[0] == head
  {
    assert head + t == head + ['\n'] + t[1..];
    SplitPrefix(head, t[1..], '\n');
  }

  /** The first line of a rendered message is the head it was rendered with. */
  lemma RenderKeepsHead(head: string, reactions: string, tally: seq<seq<string>>)
    requires |tally| == |reactions| && '\n' !in head && Strip(head) == head
    ensures HeadLine(Render(head, reactions, tally)) == head
  {
    var summary := Summary(reactions, tally, |tally|);
    var t := if summary == [] then Footer else "\n\nAktuell:\n" + Strip(summary) + Footer;
    assert Render(head, reactions, tally) == head + t;
    FirstLineOf(head, t);
  }

  /** A reaction keeps the first line, so the message stays a summon, and the text written reads
      back as the votes read before with the reacting user's vote toggled. */
  lemma VoteRoundTrip(text: string, m: string, i: nat)
    requires i < |SummonReactions| && ValidMention(m)
    requires HeadLine(text) == [] || HeadLine(text)[0] !in SummonReactions
    ensures HeadLine(ReactedText(text, m, i)) == HeadLine(text)
    ensures ReadTally(ReactedText(text, m, i)) == Voted(ReadTally(text), i, m)
  {
    var tally := ReadTally(text);
    TallyLinesValid(SummonReactions, Split(text, '\n'));
    VotedValid(SummonReactions, tally, i, m);
    SummonReactionsValid();
    ReadRendered(HeadLine(text), SummonReactions, Voted(tally, i, m));
    RenderKeepsHead(HeadLine(text), SummonReactions, Voted(tally, i, m));
  }

  /** On a message the bot rendered, a reaction renders the toggled votes under the same head. */
  lemma ReactOnRendered(head: string, tally: seq<seq<string>>, m: string, i: nat)
    requires |tally| == |SummonReactions| && ValidTally(SummonReactions, tally) && i < |SummonReactions|
    requires '\n' !in head && Strip(head) == head && (head == [] || head[0] !in SummonReactions)
    ensures ReactedText(Render(head, SummonReactions, tally), m, i) == Render(head, SummonReactions, Voted(tally, i, m))
  {
    SummonReactionsValid();
    ReadRendered(head, SummonReactions, tally);
    RenderKeepsHead(head, SummonReactions, tally);
  }

  /** A second vote of the same user for the same reaction takes the first one back. */
  lemma VotedTwice(tally: seq<seq<string>>, i: nat, m: string)
    requires i < |tally| && m !in tally[i]
    ensures Voted(Voted(tally, i, m), i, m) == tally
  {
    ToggleTwice(tally[i], m);
  }

  /** Reacting twice in the same way withdraws the vote again: the message then shows the votes
      it held before. */
  lemma ReactTwice(text: string, m: string, i: nat)
    requires i < |SummonReactions| && ValidMention(m)
    requires HeadLine(text) == [] || HeadLine(text)[0] !in SummonReactions
    requires m !in ReadTally(text)[i]
    ensures ReactedText(ReactedText(text, m, i), m, i) == Render(HeadLine(text), SummonReactions, ReadTally(text))
  {
    TallyLinesValid(SummonReactions, Split(text, '\n'));
    ReactAgain(HeadLine(text), ReadTally(text), m, i);
  }

  lemma ReactAgain(head: string, tally: seq<seq<string>>, m: string, i: nat)
    requires |tally| == |SummonReactions| && ValidTally(SummonReactions, tally) && i < |SummonReactions| && ValidMention(m)
    requires '\n' !in head && Strip(head) == head && (head == [] || head[0] !in SummonReactions)
    requires m !in tally[i]
    ensures ReactedText(Render(head, SummonReactions, Voted(tally, i, m)), m, i) == Render(head, SummonReactions, tally)
  {
    VotedValid(SummonReactions, tally, i, m);
    ReactOnRendered(head, Voted(tally, i, m), m, i);
    VotedTwice(tally, i, m);
  }
}
