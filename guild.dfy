// The guild managers of the legacy Python bot (legacy/user_commands/guild.py): a persisted
// dictionary from the guild id, written as a string, to the ids of the guild's managers, and the
// command that toggles the managers named in a message.
//
// Python's dictionary compares keys by value and type, so an int never finds a str key; the keys
// are modelled as tagged values to make that visible. The file is written by `saved`, as in
// stores.dfy; the user lookup of the bot is an input (the set of ids that can be fetched).

module LegacyGuild {
  import opened Text
  import opened Collections

  /** A dictionary key as Python compares it: an int key never equals a str key. */
  datatype PyKey = IntKey(i: int) | StrKey(s: string)

  type Managers = map<PyKey, seq<int>>

  /** str(guild.id), the key under which a guild is written. */
  function GuildKey(gid: nat): PyKey {
    StrKey(NatToString(gid))
  }

  /** Different guilds have different keys. */
  lemma GuildKeyInjective(a: nat, b: nat)
    requires GuildKey(a) == GuildKey(b)
    ensures a == b
  {
    ParseIntOfNat(a);
    ParseIntOfNat(b);
  }

  /** Every key is a string: both the JSON file and str(guild.id) give only strings. */
  predicate StringKeyed(m: Managers) {
    forall k :: k in m ==> k.StrKey?
  }

  /** is_guild_manager (guild.py:33-36): no guild, or no entry for it, means no manager. */
  predicate IsManagerIn(m: Managers, guild: Option<nat>, uid: int) {
    guild.Some? && GuildKey(guild.value) in m && uid in m[GuildKey(guild.value)]
  }

  lemma ManagerNeedsEntry(m: Managers, guild: Option<nat>, uid: int)
    ensures guild.None? ==> !IsManagerIn(m, guild, uid)
    ensures guild.Some? && GuildKey(guild.value) !in m ==> !IsManagerIn(m, guild, uid)
    ensures guild.Some? && GuildKey(guild.value) in m ==> (IsManagerIn(m, guild, uid) <==> uid in m[GuildKey(guild.value)])
  {
  }

  /** The state after add_guild_manager as written (guild.py:20-24): the membership test looks
      for the int id, the write uses the string. None is the KeyError of indexing by a string
      that is not there. */
  function AddedAsWritten(m: Managers, gid: nat, uid: int): Option<Managers> {
    if IntKey(gid) in m then
      if GuildKey(gid) in m then Some(m[GuildKey(gid) := m[GuildKey(gid)] + [uid]]) else None
    else Some(m[GuildKey(gid) := [uid]])
  }

  /** The state after remove_guild_manager as written (guild.py:28-31), with None for the errors
      of the first branch; the second result says whether the file is written. */
  function RemovedAsWritten(m: Managers, gid: nat, uid: int): (Option<Managers>, bool) {
    if IntKey(gid) in m then
      if GuildKey(gid) in m && uid in m[GuildKey(gid)] then (Some(m[GuildKey(gid) := RemoveFirst(m[GuildKey(gid)], uid)]), true)
      else (None, true)
    else (Some(m), false)
  }

  /** As written, with string keys, adding a manager throws away the guild's other managers and
      removing one changes nothing and writes nothing. */
  lemma AsWrittenLosesManagers(m: Managers, gid: nat, uid: int)
    requires StringKeyed(m)
    ensures AddedAsWritten(m, gid, uid) == Some(m[GuildKey(gid) := [uid]])
    ensures RemovedAsWritten(m, gid, uid) == (Some(m), false)
  {
    assert IntKey(gid) !in m;
  }

  /** A guild with manager 1: adding manager 2 leaves only 2, and removing 1 keeps 1. */
  lemma AsWrittenExample()
    ensures var m: Managers := map[GuildKey(5) := [1]];
            && AddedAsWritten(m, 5, 2) == Some(map[GuildKey(5) := [2]])
            && RemovedAsWritten(m, 5, 1).0 == Some(m)
            && IsManagerIn(RemovedAsWritten(m, 5, 1).0.value, Some(5), 1)
            && !IsManagerIn(AddedAsWritten(m, 5, 2).value, Some(5), 1)
  {
    var m: Managers := map[GuildKey(5) := [1]];
    AsWrittenLosesManagers(m, 5, 2);
    AsWrittenLosesManagers(m, 5, 1);
    assert map[GuildKey(5) := [1]][GuildKey(5) := [2]] == map[GuildKey(5) := [2]];
  }

  /** add_guild_manager with the key test done on the string, as intended: the id is appended to
      the guild's list, or starts it. */
  function Added(m: Managers, gid: nat, uid: int): (r: Managers)
    ensures StringKeyed(m) ==> StringKeyed(r)
    ensures r.Keys == m.Keys + {GuildKey(gid)}
    ensures r[GuildKey(gid)] == (if GuildKey(gid) in m then m[GuildKey(gid)] else []) + [uid]
    ensures forall k :: k in m && k != GuildKey(gid) ==> r[k] == m[k]
  {
    if GuildKey(gid) in m then m[GuildKey(gid) := m[GuildKey(gid)] + [uid]]
    else m[GuildKey(gid) := [uid]]
  }

  /** remove_guild_manager with the string key test: the first copy of the id leaves the guild's
      list; None is the ValueError of removing an id the list does not hold. A guild without an
      entry is left alone. */
  function Removed(m: Managers, gid: nat, uid: int): (r: Option<Managers>)
    ensures r.None? <==> GuildKey(gid) in m && uid !in m[GuildKey(gid)]
    ensures GuildKey(gid) !in m ==> r == Some(m)
    ensures r.Some? && GuildKey(gid) in m ==>
              && r.value.Keys == m.Keys
              && r.value[GuildKey(gid)] == RemoveFirst(m[GuildKey(gid)], uid)
              && forall k :: k in m && k != GuildKey(gid) ==> r.value[k] == m[k]
  {
    if GuildKey(gid) in m then
      if uid in m[GuildKey(gid)] then Some(m[GuildKey(gid) := RemoveFirst(m[GuildKey(gid)], uid)]) else None
    else Some(m)
  }

  /** Adding then removing a new manager gives the state back. */
  lemma AddThenRemove(m: Managers, gid: nat, uid: int)
    requires GuildKey(gid) in m && uid !in m[GuildKey(gid)]
    ensures Removed(Added(m, gid, uid), gid, uid) == Some(m)
  {
    RemoveAppended(m[GuildKey(gid)], uid);
    assert Added(m, gid, uid)[GuildKey(gid) := m[GuildKey(gid)]] == m;
  }

  /** No guild lists a manager twice. */
  ghost predicate DistinctLists(m: Managers) {
    forall k :: k in m ==> Distinct(m[k])
  }

  /** One step of the loop of guild.py:71-76: a manager is removed, anyone else added. */
  function Toggled(m: Managers, gid: nat, uid: int): Managers {
    if IsManagerIn(m, Some(gid), uid) then Removed(m, gid, uid).value else Added(m, gid, uid)
  }

  /** The loop over the mentions, one toggle after the other. */
  function ToggledAll(m: Managers, gid: nat, mentions: seq<int>): Managers
    decreases |mentions|
  {
    if mentions == [] then m
    else Toggled(ToggledAll(m, gid, mentions[..|mentions| - 1]), gid, mentions[|mentions| - 1])
  }

  lemma DistinctSnoc(s: seq<int>, x: int)
    requires Distinct(s) && x !in s
    ensures Distinct(s + [x])
  {
    var t := s + [x];
    forall i, j | 0 <= i < j < |t| ensures t[i] != t[j] {
      if j == |s| {
        assert t[i] == s[i];
      } else {
        assert t[i] == s[i] && t[j] == s[j];
      }
    }
  }

  /** One toggle flips the status of that user in that guild, and nothing else. */
  lemma ToggledFlips(m: Managers, gid: nat, uid: int)
    requires StringKeyed(m) && DistinctLists(m)
    ensures var r := Toggled(m, gid, uid);
            && StringKeyed(r) && DistinctLists(r)
            && (IsManagerIn(r, Some(gid), uid) <==> !IsManagerIn(m, Some(gid), uid))
            && (forall v :: v != uid ==> (IsManagerIn(r, Some(gid), v) <==> IsManagerIn(m, Some(gid), v)))
            && (forall k :: k in m && k != GuildKey(gid) ==> k in r && r[k] == m[k])
  {
    var key := GuildKey(gid);
    var r := Toggled(m, gid, uid);
    if IsManagerIn(m, Some(gid), uid) {
      RemoveFirstDistinct(m[key], uid);
    } else {
      if key in m {
        DistinctSnoc(m[key], uid);
      }
      assert r[key] == (if key in m then m[key] else []) + [uid];
    }
  }

  /** The manager command flips exactly the mentioned users, each mentioned once, in the guild
      and leaves the other guilds alone. */
  lemma {:induction false} ToggledAllFlips(m: Managers, gid: nat, mentions: seq<int>)
    requires StringKeyed(m) && DistinctLists(m) && Distinct(mentions)
    ensures var r := ToggledAll(m, gid, mentions);
            && StringKeyed(r) && DistinctLists(r)
            && (forall v :: IsManagerIn(r, Some(gid), v) <==> (IsManagerIn(m, Some(gid), v) != (v in mentions)))
            && (forall k :: k in m && k != GuildKey(gid) ==> k in r && r[k] == m[k])
            decreases |mentions|
  {
    if mentions != [] {
      var front, last := mentions[..|mentions| - 1], mentions[|mentions| - 1];
      assert Distinct(front);
      assert last !in front;
      assert forall v :: v in mentions <==> v in front || v == last;
      ToggledAllFlips(m, gid, front);
      ToggledFlips(ToggledAll(m, gid, front), gid, last);
    }
  }

  /** What the manager command answers (guild.py:53-82). */
  datatype ManagerReply = NoGuild | NoMentions | NotAllowed | Current(managers: seq<int>)

  /** The ids of the list that the bot can fetch, in order (guild.py:38-46). */
  function Fetched(uids: seq<int>, fetchable: set<int>): (r: seq<int>)
    ensures |r| <= |uids|
    ensures forall u :: u in r <==> u in uids && u in fetchable
  {
    if uids == [] then []
    else
      var rest := Fetched(uids[..|uids| - 1], fetchable);
      var u := uids[|uids| - 1];
      assert forall v :: v in uids <==> v in uids[..|uids| - 1] || v == u;
      rest + (if u in fetchable then [u] else [])
  }

  class GuildState {
    var managers: Managers
    /** What was written to the file last. */
    var saved: Option<Managers>

    ghost predicate Valid()
      reads this
    {
      StringKeyed(managers)
    }

    /** The constructor (guild.py:15-18) with what the file held: its keys are JSON strings. */
    constructor(loaded: map<string, seq<int>>)
      ensures Valid() && saved.None?
      ensures forall s :: s in loaded <==> StrKey(s) in managers
      ensures forall s :: s in loaded ==> managers[StrKey(s)] == loaded[s]
    {
      managers := map s | s in loaded :: StrKey(s) := loaded[s];
      saved := None;
    }

    predicate IsGuildManager(guild: Option<nat>, uid: int)
      reads this
    {
      IsManagerIn(managers, guild, uid)
    }

    /** add_guild_manager, the key tested as a string, then written. */
    method AddGuildManager(gid: nat, uid: int)
      requires Valid()
      modifies this
      ensures Valid()
      ensures managers == Added(old(managers), gid, uid) && saved == Some(managers)
    {
      managers := Added(managers, gid, uid);
      saved := Some(managers);
    }

    /** remove_guild_manager, the key tested as a string; ok is false on the ValueError of an
        id the list does not hold, which leaves the state as it is. */
    method RemoveGuildManager(gid: nat, uid: int) returns (ok: bool)
      requires Valid()
      modifies this
      ensures Valid()
      ensures ok <==> Removed(old(managers), gid, uid).Some?
      ensures ok ==> managers == Removed(old(managers), gid, uid).value
      ensures !ok ==> managers == old(managers) && saved == old(saved)
      ensures ok && GuildKey(gid) in old(managers) ==> saved == Some(managers)
      ensures GuildKey(gid) !in old(managers) ==> saved == old(saved)
    {
      var key := GuildKey(gid);
      if key in managers {
        if uid !in managers[key] {
          return false;
        }
        managers := managers[key := RemoveFirst(managers[key], uid)];
        saved := Some(managers);
      }
      return true;
    }

    /** guild_managers (guild.py:38-46): the managers of the guild whose user the bot finds. */
    method GuildManagers(gid: nat, fetchable: set<int>) returns (users: seq<int>)
      ensures users == Fetched(if GuildKey(gid) in managers then managers[GuildKey(gid)] else [], fetchable)
    {
      var uids := if GuildKey(gid) in managers then managers[GuildKey(gid)] else [];
      users := [];
      var i := 0;
      while i < |uids|
        invariant i <= |uids|
        invariant users == Fetched(uids[..i], fetchable)
      {
        assert uids[..i + 1][..i] == uids[..i];
        if uids[i] in fetchable {
          users := users + [uids[i]];
        }
        i := i + 1;
      }
      assert uids[..i] == uids;
    }

    /** __guild_manager (guild.py:53-82): in a guild, with mentions, an admin or manager of the
        guild toggles every mentioned user, then the current managers are shown. */
    method ManagerCommand(guild: Option<nat>, author: int, authorIsAdmin: bool, mentions: seq<int>, fetchable: set<int>)
      returns (reply: ManagerReply)
      requires Valid()
      modifies this
      ensures Valid()
      ensures guild.None? ==> reply == NoGuild && managers == old(managers) && saved == old(saved)
      ensures guild.Some? && mentions == [] ==> reply == NoMentions && managers == old(managers) && saved == old(saved)
      ensures guild.Some? && mentions != [] && !authorIsAdmin && !IsManagerIn(old(managers), guild, author) ==>
                reply == NotAllowed && managers == old(managers) && saved == old(saved)
      ensures guild.Some? && mentions != [] && (authorIsAdmin || IsManagerIn(old(managers), guild, author)) ==>
                && managers == ToggledAll(old(managers), guild.value, mentions)
                && saved == Some(managers)
                && reply == Current(Fetched(if GuildKey(guild.value) in managers then managers[GuildKey(guild.value)] else [], fetchable))
    {
      if guild.None? {
        return NoGuild;
      }
      if |mentions| == 0 {
        return NoMentions;
      }
      if !authorIsAdmin && !IsGuildManager(guild, author) {
        return NotAllowed;
      }
      var gid := guild.value;
      var i := 0;
      while i < |mentions|
        invariant i <= |mentions|
        invariant Valid()
        invariant managers == ToggledAll(old(managers), gid, mentions[..i])
        invariant i > 0 ==> saved == Some(managers)
      {
        assert mentions[..i + 1][..i] == mentions[..i];
        var u := mentions[i];
        if IsGuildManager(guild, u) {
          var ok := RemoveGuildManager(gid, u);
        } else {
          AddGuildManager(gid, u);
        }
        i := i + 1;
      }
      assert mentions[..i] == mentions;
      var current := GuildManagers(gid, fetchable);
      return Current(current);
    }

    /** __show_guild_managers (guild.py:85-101): the same checks, without changing anything. */
    method ShowManagers(guild: Option<nat>, author: int, authorIsAdmin: bool, fetchable: set<int>) returns (reply: ManagerReply)
      ensures guild.None? ==> reply == NoGuild
      ensures guild.Some? && !authorIsAdmin && !IsManagerIn(managers, guild, author) ==> reply == NotAllowed
      ensures guild.Some? && (authorIsAdmin || IsManagerIn(managers, guild, author)) ==>
                reply == Current(Fetched(if GuildKey(guild.value) in managers then managers[GuildKey(guild.value)] else [], fetchable))
    {
      if guild.None? {
        return NoGuild;
      }
      if !authorIsAdmin && !IsGuildManager(guild, author) {
        return NotAllowed;
      }
      var current := GuildManagers(guild.value, fetchable);
      return Current(current);
    }
  }
}
