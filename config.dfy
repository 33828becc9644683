// The configuration of the Python bot (configuration.py): the admins, the channels it listens
// to and three switches, read back from a JSON file on start and written after every change.
// The NLU settings, the paths and the time-to-live are not modelled (nothing in the model
// reads them).

module Configs {
  import opened Text
  import opened Stores

  /** The attributes of Configuration that the bot's logic reads. */
  datatype ConfigState = ConfigState(admins: seq<int>, channels: seq<int>, debug: bool, respondAll: bool, keepMessages: bool)

  /** The defaults (configuration.py:13-29). */
  const Defaults := ConfigState([], [], false, false, true)

  function Ints(xs: seq<int>): (r: seq<Json>)
    ensures |r| == |xs| && forall i :: 0 <= i < |xs| ==> r[i] == JInt(xs[i])
  {
    if xs == [] then [] else [JInt(xs[0])] + Ints(xs[1..])
  }

  /** The JSON list read back as a list of ids, when all its items are integers. */
  function IntsOf(items: seq<Json>): (r: Option<seq<int>>)
    ensures r.Some? ==> Ints(r.value) == items
  {
    if items == [] then Some([])
    else if !items[0].JInt? then None
    else match IntsOf(items[1..])
      case None => None
      case Some(t) => Some([items[0].i] + t)
  }

  lemma {:induction false} IntsRoundTrip(xs: seq<int>)
    ensures IntsOf(Ints(xs)) == Some(xs)
  {
    if xs != [] {
      IntsRoundTrip(xs[1..]);
      assert Ints(xs) == [JInt(xs[0])] + Ints(xs[1..]);
      assert [xs[0]] + xs[1..] == xs;
    }
  }

  /** The attributes as they are written to the file (configuration.py:90-92). */
  function Encode(c: ConfigState): map<string, Json> {
    map["_admins" := JList(Ints(c.admins)), "_channels" := JList(Ints(c.channels)),
        "_debug_indicator" := JBool(c.debug), "_respond_all_indicator" := JBool(c.respondAll),
        "_keep_messages_indicator" := JBool(c.keepMessages)]
  }

  function ListOr(a: map<string, Json>, k: string, dflt: seq<int>): seq<int> {
    if k in a && a[k].JList? && IntsOf(a[k].items).Some? then IntsOf(a[k].items).value else dflt
  }

  function BoolOr(a: map<string, Json>, k: string, dflt: bool): bool {
    if k in a && a[k].JBool? then a[k].b else dflt
  }

  /** The attributes read back; an attribute of an unexpected JSON type keeps its value. */
  function Decode(a: map<string, Json>, c: ConfigState): ConfigState {
    ConfigState(ListOr(a, "_admins", c.admins), ListOr(a, "_channels", c.channels),
                BoolOr(a, "_debug_indicator", c.debug), BoolOr(a, "_respond_all_indicator", c.respondAll),
                BoolOr(a, "_keep_messages_indicator", c.keepMessages))
  }

  lemma DecodeEncode(c: ConfigState, d: ConfigState)
    ensures Decode(Encode(c), d) == c
  {
    IntsRoundTrip(c.admins);
    IntsRoundTrip(c.channels);
  }

  /** `_load` (configuration.py:94-110): unlike Loadable, a matching file is not written back,
      and `__migrate` only logs. Returns the new state and whether it is written. */
  function LoadConfig(c: ConfigState, file: StoredFile): (ConfigState, bool) {
    match LoadStep(Encode(c), 1, file)
    case Copied(a) => (Decode(a, c), false)
    case Migrate(_) => (c, false)
    case Reinitialise => (c, true)
  }

  /** A file the configuration wrote is read back as the configuration that wrote it, from any
      starting state, and is not written again. */
  lemma LoadConfigOfStored(c: ConfigState, d: ConfigState)
    ensures LoadConfig(d, Present(JObj(Encode(c)["version" := JInt(1)]))) == (c, false)
  {
    var f := Encode(c)["version" := JInt(1)];
    CopyOfStored(c, d);
    assert LoadStep(Encode(d), 1, Present(JObj(f))) == Copied(Encode(c));
    DecodeEncode(c, d);
  }

  lemma CopyOfStored(c: ConfigState, d: ConfigState)
    ensures var f := Encode(c)["version" := JInt(1)];
            CopyAttrs(Encode(d), f, f.Keys) == Encode(c)
  {
    var f := Encode(c)["version" := JInt(1)];
    var a := CopyAttrs(Encode(d), f, f.Keys);
    EncodedNamesPlain(d);
    EncodedNamesPlain(c);
    forall k | k in a ensures a[k] == Encode(c)[k] {
      assert k in Encode(d) && k in f && !IsDunder(k);
    }
    assert a.Keys == Encode(c).Keys;
  }

  /** The attributes written are the same five names whatever the state, none with "__". */
  lemma EncodedNamesPlain(c: ConfigState)
    ensures Encode(c).Keys == {"_admins", "_channels", "_debug_indicator", "_respond_all_indicator", "_keep_messages_indicator"}
    ensures forall k :: k in Encode(c) ==> !IsDunder(k)
  {
    assert "_admins"[1] == 'a' && "_channels"[1] == 'c' && "_debug_indicator"[1] == 'd';
    assert "_respond_all_indicator"[1] == 'r' && "_keep_messages_indicator"[1] == 'k';
  }

  /** A missing file, an unreadable one, or one without a version keeps the defaults and writes
      them; a file of another version changes nothing. */
  lemma LoadConfigFallbacks(c: ConfigState, file: StoredFile)
    ensures file.Missing? || file.Unreadable? ==> LoadConfig(c, file) == (c, true)
    ensures (file.Present? && file.content.JObj? && "version" in file.content.fields
             && !VersionMatches(file.content.fields["version"], 1)) ==> LoadConfig(c, file) == (c, false)
  {
  }

  class Configuration {
    var admins: seq<int>
    var channels: seq<int>
    var debug: bool
    var respondAll: bool
    var keepMessages: bool
    /** What was written to the file last. */
    var saved: Option<ConfigState>

    function State(): ConfigState
      reads this
    {
      ConfigState(admins, channels, debug, respondAll, keepMessages)
    }

    /** The constructor (configuration.py:13-31) sets the defaults and loads the file. */
    constructor(file: StoredFile)
      ensures State() == LoadConfig(Defaults, file).0
      ensures saved == (if LoadConfig(Defaults, file).1 then Some(Defaults) else None)
    {
      var (c, store) := LoadConfig(Defaults, file);
      admins, channels, debug, respondAll, keepMessages := c.admins, c.channels, c.debug, c.respondAll, c.keepMessages;
      saved := if store then Some(Defaults) else None;
    }

    method Store()
      modifies this
      ensures saved == Some(State()) && State() == old(State())
    {
      saved := Some(State());
    }

    /** is_admin (configuration.py:33-45): everyone is an admin while the list is empty;
        otherwise exactly the listed ids are. */
    method IsAdmin(user: int) returns (r: bool)
      ensures r <==> admins == [] || user in admins
    {
      if |admins| == 0 {
        return true;
      }
      var k := 0;
      while k < |admins|
        invariant 0 <= k <= |admins|
        invariant user !in admins[..k]
      {
        if admins[k] == user {
          return true;
        }
        assert admins[..k + 1] == admins[..k] + [admins[k]];
        k := k + 1;
      }
      assert admins[..k] == admins;
      return false;
    }

    /** add_admins (configuration.py:62-69): only an admin may add; every mentioned id is
        appended in order, duplicates included, and the state is written. */
    method AddAdmins(author: int, mentions: seq<int>)
      modifies this
      ensures author in old(admins) || old(admins) == [] ==>
                admins == old(admins) + mentions && saved == Some(State())
      ensures !(author in old(admins) || old(admins) == []) ==> State() == old(State()) && saved == old(saved)
      ensures channels == old(channels) && debug == old(debug) && respondAll == old(respondAll) && keepMessages == old(keepMessages)
    {
      var ok := IsAdmin(author);
      if !ok {
        return;
      }
      var k := 0;
      while k < |mentions|
        invariant 0 <= k <= |mentions|
        invariant admins == old(admins) + mentions[..k]
        invariant channels == old(channels) && debug == old(debug) && respondAll == old(respondAll) && keepMessages == old(keepMessages)
      {
        assert mentions[..k + 1] == mentions[..k] + [mentions[k]];
        admins := admins + [mentions[k]];
        k := k + 1;
      }
      assert mentions[..k] == mentions;
      Store();
    }

    /** add_channel (configuration.py:71-73) appends one id. */
    method AddChannel(id: int)
      modifies this
      ensures channels == old(channels) + [id] && saved == Some(State())
      ensures admins == old(admins) && debug == old(debug) && respondAll == old(respondAll) && keepMessages == old(keepMessages)
    {
      channels := channels + [id];
      Store();
    }

    /** The toggles (configuration.py:75-88) flip their switch and return its new value. */
    method ToggleDebug() returns (r: bool)
      modifies this
      ensures debug == !old(debug) && r == debug && saved == Some(State())
      ensures admins == old(admins) && channels == old(channels) && respondAll == old(respondAll) && keepMessages == old(keepMessages)
    {
      debug := !debug;
      Store();
      return debug;
    }

    method ToggleRespondAll() returns (r: bool)
      modifies this
      ensures respondAll == !old(respondAll) && r == respondAll && saved == Some(State())
      ensures admins == old(admins) && channels == old(channels) && debug == old(debug) && keepMessages == old(keepMessages)
    {
      respondAll := !respondAll;
      Store();
      return respondAll;
    }

    method ToggleKeepMessages() returns (r: bool)
      modifies this
      ensures keepMessages == !old(keepMessages) && r == keepMessages && saved == Some(State())
      ensures admins == old(admins) && channels == old(channels) && debug == old(debug) && respondAll == old(respondAll)
    {
      keepMessages := !keepMessages;
      Store();
      return keepMessages;
    }
  }

  /** Two toggles in a row give the switch back. */
  method ToggleTwice(c: Configuration)
    modifies c
    ensures c.State() == old(c.State())
  {
    var _ := c.ToggleDebug();
    var _ := c.ToggleDebug();
  }
}
