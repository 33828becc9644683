// Hidden messages of the Kotlin bot (src/main/kotlin/org/fuchss/deltabot/utils/extensions/HiddenMessagesExtensions.kt):
// a message can be collapsed to a preview of its first line and expanded again by a "Details"
// button. Each such message has a record holding where it is, its full text and whether it is
// collapsed; the manager keeps the records. Editing the Discord message is modelled as the
// text the message is edited to (None: not edited).

module KotlinHiddenMessages {
  import opened Text
  import opened Collections

  const HideId := "hide-message"
  const MaxContent := 24

  datatype Channel = PrivateChannel(user: string) | GuildChannel(guild: string, channel: string)

  /** The parts of a Discord message the feature reads. */
  datatype Msg = Msg(id: string, channel: Channel, contentRaw: string, contentDisplay: string)

  /** HiddenMessage (HiddenMessagesExtensions.kt:240-264): where the message is, its full text,
      and whether it is collapsed now. Only the flag changes after creation. */
  class HiddenMessage {
    const gid: string
    const uid: string
    const cid: string
    const mid: string
    const isPrivateChannel: bool
    const content: string
    var hidden: bool

    /** The record createHiddenMessage makes for a message (HiddenMessagesExtensions.kt:79-83). */
    constructor(m: Msg)
      ensures RecordOf(this, m) && !hidden
    {
      match m.channel {
        case PrivateChannel(u) =>
          gid, uid, cid := "", u, "";
          isPrivateChannel := true;
        case GuildChannel(g, c) =>
          gid, uid, cid := g, "", c;
          isPrivateChannel := false;
      }
      mid := m.id;
      content := m.contentRaw;
      hidden := false;
    }
  }

  /** A record made for the message: its place, its id and its raw text at that moment. */
  predicate RecordOf(hm: HiddenMessage, m: Msg) {
    && hm.mid == m.id && hm.content == m.contentRaw
    && match m.channel
       case PrivateChannel(u) => hm.isPrivateChannel && hm.gid == "" && hm.uid == u && hm.cid == ""
       case GuildChannel(g, c) => !hm.isPrivateChannel && hm.gid == g && hm.uid == "" && hm.cid == c
  }

  /** The lookup key of findMessage (HiddenMessagesExtensions.kt:132-137): a private record by
      message id and user, a guild record by message id, channel and guild. */
  predicate Matches(hm: HiddenMessage, m: Msg) {
    match m.channel
    case PrivateChannel(u) => hm.isPrivateChannel && hm.mid == m.id && hm.uid == u
    case GuildChannel(g, c) => !hm.isPrivateChannel && hm.mid == m.id && hm.cid == c && hm.gid == g
  }

  /** A record is found again for the message it was made for. */
  lemma RecordMatches(hm: HiddenMessage, m: Msg)
    requires RecordOf(hm, m)
    ensures Matches(hm, m)
  {
  }

  /** findMessage (HiddenMessagesExtensions.kt:129-138): the first matching record. */
  function FindRecord(records: seq<HiddenMessage>, m: Msg): (r: Option<HiddenMessage>)
    ensures r.Some? ==> r.value in records && Matches(r.value, m)
    ensures r.None? <==> forall hm :: hm in records ==> !Matches(hm, m)
  {
    if records == [] then None
    else if Matches(records[0], m) then Some(records[0])
    else FindRecord(records[1..], m)
  }

  /** A record appended after no match is the one found. */
  lemma {:induction false} FindAppended(records: seq<HiddenMessage>, hm: HiddenMessage, m: Msg)
    requires FindRecord(records, m).None? && Matches(hm, m)
    ensures FindRecord(records + [hm], m) == Some(hm)
  {
    if records != [] {
      assert (records + [hm])[1..] == records[1..] + [hm];
      FindAppended(records[1..], hm, m);
    } else {
      assert [hm][0] == hm;
    }
  }

  /** An appended record does not change what an earlier match finds. */
  lemma {:induction false} FindKept(records: seq<HiddenMessage>, hm: HiddenMessage, m: Msg)
    requires FindRecord(records, m).Some?
    ensures FindRecord(records + [hm], m) == FindRecord(records, m)
  {
    if !Matches(records[0], m) {
      assert (records + [hm])[1..] == records[1..] + [hm];
      FindKept(records[1..], hm, m);
    }
  }

  /** The first piece of a split is the text up to the first separator. */
  lemma {:induction false} SplitHeadIsPrefix(s: string, sep: char)
    ensures |Split(s, sep)[0]| <= |s| && Split(s, sep)[0] == s[..|Split(s, sep)[0]|]
  {
    if s != [] && s[0] != sep {
      SplitHeadIsPrefix(s[1..], sep);
    }
  }

  /** The collapsed text (HiddenMessagesExtensions.kt:95-96): at most 24 characters of the first
      line, then "...". */
  function Preview(display: string): (r: string)
    ensures |r| >= 3 && r[|r| - 3..] == "..."
    ensures |r| <= MaxContent + 3 && '\n' !in r[..|r| - 3]
    ensures |r| - 3 <= |display| && r[..|r| - 3] == display[..|r| - 3]
    ensures |Split(display, '\n')[0]| <= MaxContent ==> r[..|r| - 3] == Split(display, '\n')[0]
    ensures |Split(display, '\n')[0]| > MaxContent ==> MaxContent <= |display| && r == display[..MaxContent] + "..."
  {
    var firstLine := Split(display, '\n')[0];
    SplitHeadIsPrefix(display, '\n');
    var kept := if |firstLine| > MaxContent then firstLine[..MaxContent] else firstLine;
    assert (kept + "...")[..|kept|] == kept;
    kept + "..."
  }

  /** hideMessage (HiddenMessagesExtensions.kt:91-101): a collapsed record is left alone;
      otherwise the message becomes its preview and the record is marked collapsed (then
      persisted, which fails outside an initialised manager). */
  method HideMessage(m: Msg, hm: HiddenMessage, initialized: bool) returns (edit: Option<string>, ok: bool)
    modifies hm
    ensures hm.hidden
    ensures old(hm.hidden) ==> edit.None? && ok
    ensures !old(hm.hidden) ==> edit == Some(Preview(m.contentDisplay)) && ok == initialized
  {
    if hm.hidden {
      return None, true;
    }
    edit := Some(Preview(m.contentDisplay));
    hm.hidden := true;
    ok := initialized;
  }

  /** unhideMessage (HiddenMessagesExtensions.kt:104-112): an expanded record is left alone;
      otherwise the message gets back the text kept in the record, the record is marked expanded,
      and with a scheduler a collapse is queued for later. */
  method UnhideMessage(withScheduler: bool, hm: HiddenMessage, initialized: bool) returns (edit: Option<string>, rehide: bool, ok: bool)
    modifies hm
    ensures !hm.hidden
    ensures !old(hm.hidden) ==> edit.None? && !rehide && ok
    ensures old(hm.hidden) ==> edit == Some(hm.content) && ok == initialized && rehide == (ok && withScheduler)
  {
    if !hm.hidden {
      return None, false, true;
    }
    edit := Some(hm.content);
    hm.hidden := false;
    ok := initialized;
    rehide := ok && withScheduler;
  }

  /** handleHiddenMessageClick (HiddenMessagesExtensions.kt:169-175): a click expands a collapsed
      message (queueing its collapse again) and collapses an expanded one. */
  method Click(m: Msg, hm: HiddenMessage) returns (edit: Option<string>, rehide: bool)
    modifies hm
    ensures hm.hidden == !old(hm.hidden)
    ensures edit == Some(if old(hm.hidden) then hm.content else Preview(m.contentDisplay))
    ensures rehide == old(hm.hidden)
  {
    var ok;
    if hm.hidden {
      edit, rehide, ok := UnhideMessage(true, hm, true);
    } else {
      edit, ok := HideMessage(m, hm, true);
      rehide := false;
    }
  }

  class HiddenMessageManager {
    /** The scheduler and the session are set (isInitialized, HiddenMessagesExtensions.kt:127). */
    var initialized: bool
    var records: seq<HiddenMessage>

    constructor()
      ensures !initialized && records == []
    {
      initialized := false;
      records := [];
    }

    /** initHiddenMessages with init (HiddenMessagesExtensions.kt:28-31, 119-125): a second
        initialisation is an error; the first adds the stored records. */
    method Init(stored: seq<HiddenMessage>) returns (ok: bool)
      modifies this
      ensures ok == !old(initialized) && initialized
      ensures records == if ok then old(records) + stored else old(records)
    {
      if initialized {
        return false;
      }
      records := records + stored;
      initialized := true;
      ok := true;
    }

    /** addHM (HiddenMessagesExtensions.kt:199-204). */
    method AddHM(hm: HiddenMessage) returns (ok: bool)
      modifies this
      ensures ok == initialized && initialized == old(initialized)
      ensures records == if ok then old(records) + [hm] else old(records)
    {
      if !initialized {
        return false;
      }
      records := records + [hm];
      ok := true;
    }

    /** removeHM (HiddenMessagesExtensions.kt:206-211). */
    method RemoveHM(hm: HiddenMessage) returns (ok: bool)
      modifies this
      ensures ok == initialized && initialized == old(initialized)
      ensures records == if ok then RemoveFirst(old(records), hm) else old(records)
    {
      if !initialized {
        return false;
      }
      records := RemoveFirst(records, hm);
      ok := true;
    }

    /** Message.hide (HiddenMessagesExtensions.kt:45-64): refused for a message with buttons or
        before initialisation; a message without a record gets one holding its raw text; with
        directHide the record is then collapsed. */
    method Hide(m: Msg, hasButtons: bool, directHide: bool) returns (edit: Option<string>, ok: bool)
      modifies this, set x | x in records
      ensures ok == (!hasButtons && old(initialized)) && initialized == old(initialized)
      ensures !ok ==> records == old(records) && edit.None? && forall x :: x in old(records) ==> x.hidden == old(x.hidden)
      ensures ok ==> FindRecord(records, m).Some?
      ensures ok && FindRecord(old(records), m).Some? ==> records == old(records)
      ensures ok && FindRecord(old(records), m).None? ==>
                && |records| == |old(records)| + 1 && records[..|old(records)|] == old(records)
                && fresh(records[|old(records)|]) && RecordOf(records[|old(records)|], m)
      ensures ok ==> var hm := FindRecord(records, m).value;
                     && hm.hidden == (directHide || (hm in old(records) && old(hm.hidden)))
                     && edit == (if directHide && !(hm in old(records) && old(hm.hidden)) then Some(Preview(m.contentDisplay)) else None)
                     && forall x :: x in old(records) && x != hm ==> x.hidden == old(x.hidden)
    {
      if hasButtons || !initialized {
        return None, false;
      }
      var found := FindRecord(records, m);
      if found.None? {
        var hm := new HiddenMessage(m);
        FindAppended(records, hm, m);
        ok := AddHM(hm);
      } else {
        ok := true;
      }
      var hm := FindRecord(records, m).value;
      if directHide {
        edit, ok := HideMessage(m, hm, initialized);
      } else {
        edit := None;
      }
    }

    /** Message.unhide (HiddenMessagesExtensions.kt:67-76): refused before initialisation; a
        message without a record is left alone; otherwise the record is expanded, giving the
        message back the raw text kept at its creation, and dropped. */
    method Unhide(m: Msg) returns (edit: Option<string>, ok: bool)
      modifies this, set x | x in records
      ensures ok == old(initialized) && initialized == old(initialized)
      ensures !ok || FindRecord(old(records), m).None? ==>
                records == old(records) && edit.None? && forall x :: x in old(records) ==> x.hidden == old(x.hidden)
      ensures ok && FindRecord(old(records), m).Some? ==>
                var hm := FindRecord(old(records), m).value;
                && records == RemoveFirst(old(records), hm) && !hm.hidden
                && edit == (if old(hm.hidden) then Some(hm.content) else None)
                && forall x :: x in old(records) && x != hm ==> x.hidden == old(x.hidden)
    {
      if !initialized {
        return None, false;
      }
      var found := FindRecord(records, m);
      if found.None? {
        return None, true;
      }
      var hm := found.value;
      var rehide;
      edit, rehide, ok := UnhideMessage(false, hm, initialized);
      ok := RemoveHM(hm);
    }

    /** onEvent for a deleted message (HiddenMessagesExtensions.kt:150-155): its record goes. */
    method OnDelete(m: Msg)
      requires initialized
      modifies this
      ensures initialized
      ensures records == if FindRecord(old(records), m).Some? then RemoveFirst(old(records), FindRecord(old(records), m).value) else old(records)
    {
      var found := FindRecord(records, m);
      if found.Some? {
        var ok := RemoveHM(found.value);
      }
    }

    /** onEvent for a button click (HiddenMessagesExtensions.kt:162-166): only the hide button of a
        message with a record acts, flipping the record. */
    method OnButton(m: Msg, buttonId: Option<string>) returns (edit: Option<string>)
      modifies set x | x in records
      ensures buttonId != Some(HideId) || FindRecord(records, m).None? ==>
                edit.None? && forall x :: x in records ==> x.hidden == old(x.hidden)
      ensures buttonId == Some(HideId) && FindRecord(records, m).Some? ==>
                var hm := FindRecord(records, m).value;
                && hm.hidden == !old(hm.hidden)
                && edit == Some(if old(hm.hidden) then hm.content else Preview(m.contentDisplay))
                && forall x :: x in records && x != hm ==> x.hidden == old(x.hidden)
    {
      if buttonId != Some(HideId) {
        return None;
      }
      var found := FindRecord(records, m);
      if found.None? {
        return None;
      }
      var rehide;
      edit, rehide := Click(m, found.value);
    }

    /** checkForHide (HiddenMessagesExtensions.kt:177-197): the hide reaction on one of the bot's
        own messages expands and drops the record of a message that has one, and otherwise hides
        the message at once. */
    method OnReaction(m: Msg, isHideEmoji: bool, selfAuthored: bool, hasButtons: bool) returns (edit: Option<string>)
      modifies this, set x | x in records
      ensures initialized == old(initialized)
      ensures !old(initialized) || !isHideEmoji || !selfAuthored ==>
                records == old(records) && edit.None? && forall x :: x in old(records) ==> x.hidden == old(x.hidden)
      ensures old(initialized) && isHideEmoji && selfAuthored && FindRecord(old(records), m).Some? ==>
                var hm := FindRecord(old(records), m).value;
                && records == RemoveFirst(old(records), hm) && !hm.hidden
                && edit == (if old(hm.hidden) then Some(hm.content) else None)
                && forall x :: x in old(records) && x != hm ==> x.hidden == old(x.hidden)
      ensures old(initialized) && isHideEmoji && selfAuthored && FindRecord(old(records), m).None? && hasButtons ==>
                records == old(records) && edit.None? && forall x :: x in old(records) ==> x.hidden == old(x.hidden)
      ensures old(initialized) && isHideEmoji && selfAuthored && FindRecord(old(records), m).None? && !hasButtons ==>
                && |records| == |old(records)| + 1 && records[..|old(records)|] == old(records)
                && fresh(records[|old(records)|]) && RecordOf(records[|old(records)|], m)
                && FindRecord(records, m).Some? && FindRecord(records, m).value.hidden
                && edit == Some(Preview(m.contentDisplay))
                && forall x :: x in old(records) ==> x.hidden == old(x.hidden)
    {
      if !initialized || !isHideEmoji || !selfAuthored {
        return None;
      }
      var ok;
      if FindRecord(records, m).Some? {
        edit, ok := Unhide(m);
      } else {
        edit, ok := Hide(m, hasButtons, true);
      }
    }
  }
}
