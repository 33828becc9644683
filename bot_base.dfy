// The base of the Python bot (bot_base.py): the registry of documented commands and the help
// text built from it, the persisted scheduled deletions, deleting a message now or later, and
// the NLU service built on first use. Discord is abstracted: a message is its id, its
// channel's id and whether it is a direct message; which messages still exist is an input;
// a deletion is recorded in a log. The deletion state's file is read as Loadable reads it
// (Stores); the constructor takes the records it held.

module BotBases {
  import opened Text
  import opened Collections
  import opened Sorting
  import opened Schedulers

  // ---------------------------------------------------------------------------
  // Command registry (bot_base.py:12-66)

  /** A command's key: its name and whether it is a system command. */
  type CmdKey = (string, bool)

  function CmdName(k: CmdKey): string {
    k.0
  }

  /** The name a command is documented under (bot_base.py:30-38): the given name, or the method
      name without its leading "__" and with every "_" made a "-", followed by a space and the
      parameters joined by spaces, stripped. None when neither a name is given nor the method
      name starts with "__" (the assertion fails). */
  function CommandName(methodName: string, name: Option<string>, params: Option<seq<string>>): (r: Option<string>)
    ensures r.None? <==> name.None? && !StartsWith(methodName, "__")
  {
    if name.None? && !StartsWith(methodName, "__") then None
    else
      var n := if name.Some? then name.value else Replace(methodName[2..], "_", "-");
      var ps := if params.Some? then params.value else [];
      Some(Strip(n + " " + Join(" ", ps)))
  }

  /** A command without a given name or parameters is documented under its method name less the
      "__", with "-" for "_": same length, the same characters elsewhere, no "_" left. */
  lemma CommandNameOfMethod(methodName: string)
    requires StartsWith(methodName, "__")
    requires var n := methodName[2..]; n == [] || (!IsSpace(n[0]) && !IsSpace(n[|n| - 1]))
    ensures var r := CommandName(methodName, None, None);
            && r.Some? && |r.value| == |methodName| - 2
            && (forall i :: 0 <= i < |r.value| ==>
                  r.value[i] == if methodName[i + 2] == '_' then '-' else methodName[i + 2])
            && '_' !in r.value
  {
    NameOfMethod(methodName);
    DashedName(methodName[2..]);
  }

  lemma NameOfMethod(methodName: string)
    requires StartsWith(methodName, "__")
    requires var n := methodName[2..]; n == [] || (!IsSpace(n[0]) && !IsSpace(n[|n| - 1]))
    ensures CommandName(methodName, None, None) == Some(Replace(methodName[2..], "_", "-"))
  {
    var n := methodName[2..];
    var d := Replace(n, "_", "-");
    NameWithoutParams(methodName);
    DashedUnpadded(n);
    StripPadded(d, " ");
  }

  /** "_" becomes "-" character by character. */
  lemma DashedName(n: string)
    ensures var d := Replace(n, "_", "-");
            && |d| == |n|
            && (forall i :: 0 <= i < |d| ==> d[i] == if n[i] == '_' then '-' else n[i])
            && '_' !in d
  {
    ReplaceChar(n, '_', '-');
    assert "_" == ['_'] && "-" == ['-'];
  }

  lemma NameWithoutParams(methodName: string)
    requires StartsWith(methodName, "__")
    ensures CommandName(methodName, None, None) == Some(Strip(Replace(methodName[2..], "_", "-") + " "))
  {
    var d := Replace(methodName[2..], "_", "-");
    assert Join(" ", []) == [];
    assert d + " " + Join(" ", []) == d + " ";
  }

  lemma DashedUnpadded(n: string)
    requires n == [] || (!IsSpace(n[0]) && !IsSpace(n[|n| - 1]))
    ensures var d := Replace(n, "_", "-"); d == [] || (!IsSpace(d[0]) && !IsSpace(d[|d| - 1]))
  {
    ReplaceChar(n, '_', '-');
  }

  /** With parameters, the name is the name, a space and the parameters joined by spaces. */
  lemma CommandNameWithParams(methodName: string, name: string, params: seq<string>)
    requires name != [] && !IsSpace(name[0])
    requires params != [] && Join(" ", params) != [] && !IsSpace(Join(" ", params)[|Join(" ", params)| - 1])
    ensures CommandName(methodName, Some(name), Some(params)) == Some(name + " " + Join(" ", params))
  {
    var s := name + " " + Join(" ", params);
    assert s[0] == name[0] && s[|s| - 1] == Join(" ", params)[|Join(" ", params)| - 1];
    StripOfUnpadded(s);
  }

  /** Every registered command has its subcommands registered, and both are maps. */
  ghost predicate Registry(commands: seq<(CmdKey, string)>, subcommands: seq<(string, seq<(string, string)>)>) {
    DistinctKeys(commands) && DistinctKeys(subcommands)
    && forall i :: 0 <= i < |commands| ==> commands[i].0.0 in Keys(subcommands)
  }

  /** Registering a command with its subcommands keeps the registry well formed. */
  lemma PutRegistry(commands: seq<(CmdKey, string)>, subcommands: seq<(string, seq<(string, string)>)>,
                    k: CmdKey, help: string, subs: seq<(string, string)>)
    requires Registry(commands, subcommands)
    ensures Registry(Put(commands, k, help), Put(subcommands, k.0, subs))
  {
    PutDistinct(commands, k, help);
    PutDistinct(subcommands, k.0, subs);
    PutKeys(commands, k, help);
    PutKeys(subcommands, k.0, subs);
    var cs := Put(commands, k, help);
    var ss := Put(subcommands, k.0, subs);
    forall i | 0 <= i < |cs| ensures cs[i].0.0 in Keys(ss) {
      assert Keys(cs)[i] == cs[i].0;
      if i < |commands| {
        assert Keys(commands)[i] == commands[i].0;
      }
    }
  }

  class CommandRegistry {
    /** `__registered_commands`: key -> help text, in insertion order. */
    var commands: seq<(CmdKey, string)>
    /** `__registered_subcommands`: command name -> (subcommand -> help text). */
    var subcommands: seq<(string, seq<(string, string)>)>

    ghost predicate Valid()
      reads this
    {
      Registry(commands, subcommands)
    }

    constructor()
      ensures Valid() && commands == [] && subcommands == []
    {
      commands := [];
      subcommands := [];
    }

    /** `__register_command` (bot_base.py:18-40): ok is false when the name cannot be derived,
        and then nothing is registered. */
    method RegisterCommand(methodName: string, helpMsg: string, isSystem: bool, name: Option<string>,
                           params: Option<seq<string>>, subs: Option<seq<(string, string)>>) returns (ok: bool)
      requires Valid()
      modifies this
      ensures Valid()
      ensures ok == CommandName(methodName, name, params).Some?
      ensures ok ==> var n := CommandName(methodName, name, params).value;
                     && commands == Put(old(commands), (n, isSystem), Strip(helpMsg))
                     && subcommands == Put(old(subcommands), n, if subs.Some? then subs.value else [])
      ensures !ok ==> commands == old(commands) && subcommands == old(subcommands)
    {
      var n := CommandName(methodName, name, params);
      if n.None? {
        return false;
      }
      var s := if subs.Some? then subs.value else [];
      PutRegistry(commands, subcommands, (n.value, isSystem), Strip(helpMsg), s);
      commands := Put(commands, (n.value, isSystem), Strip(helpMsg));
      subcommands := Put(subcommands, n.value, s);
      return true;
    }

    /** `command_meta` (bot_base.py:43-66): a command is registered only when it has a help text. */
    method CommandMeta(methodName: string, helpMsg: Option<string>, isSystem: bool, name: Option<string>,
                       params: Option<seq<string>>, subs: Option<seq<(string, string)>>) returns (ok: bool)
      requires Valid()
      modifies this
      ensures Valid()
      ensures helpMsg.None? ==> ok && commands == old(commands) && subcommands == old(subcommands)
      ensures helpMsg.Some? ==> ok == CommandName(methodName, name, params).Some?
      ensures helpMsg.Some? && ok ==>
                var n := CommandName(methodName, name, params).value;
                Lookup(commands, (n, isSystem)) == Some(Strip(helpMsg.value))
    {
      if helpMsg.None? {
        return true;
      }
      ok := RegisterCommand(methodName, helpMsg.value, isSystem, name, params, subs);
      if ok {
        var n := CommandName(methodName, name, params).value;
        PutLookup(old(commands), (n, isSystem), Strip(helpMsg.value), (n, isSystem));
      }
    }

    /** `_gen_message_for_commands` (bot_base.py:260-269) over the registry. */
    method GenMessageForCommands(commandType: string, isSystem: bool, symbol: string) returns (response: string)
      ensures response == CommandsMessage(commandType, isSystem, symbol, commands, subcommands)
    {
      response := RenderCommands(commandType, isSystem, symbol, commands, subcommands);
    }
  }

  /** `_gen_message_for_commands` (bot_base.py:260-269): the header, then the block of every
      command of the wanted kind, by name in ascending order. */
  method RenderCommands(commandType: string, isSystem: bool, symbol: string, commands: seq<(CmdKey, string)>,
                        subcommands: seq<(string, seq<(string, string)>)>) returns (response: string)
    ensures response == CommandsMessage(commandType, isSystem, symbol, commands, subcommands)
  {
    var keys := SortAsc(Keys(commands), CmdName);
    response := HelpHeader(commandType);
    var i := 0;
    while i < |keys|
      invariant 0 <= i <= |keys|
      invariant response == HelpHeader(commandType) + Blocks(keys[..i], isSystem, symbol, commands, subcommands)
    {
      var block := RenderBlock(keys[i], isSystem, symbol, commands, subcommands);
      BlocksSnoc(keys, i, isSystem, symbol, commands, subcommands);
      AppendAssoc(HelpHeader(commandType), Blocks(keys[..i], isSystem, symbol, commands, subcommands), block);
      response := response + block;
      i := i + 1;
    }
    assert keys[..i] == keys;
  }

  lemma BlocksSnoc(keys: seq<CmdKey>, i: nat, isSystem: bool, symbol: string, commands: seq<(CmdKey, string)>,
                   subcommands: seq<(string, seq<(string, string)>)>)
    requires i < |keys|
    ensures Blocks(keys[..i + 1], isSystem, symbol, commands, subcommands)
            == Blocks(keys[..i], isSystem, symbol, commands, subcommands) + Block(keys[i], isSystem, symbol, commands, subcommands)
  {
    assert keys[..i + 1][..i] == keys[..i];
  }

  /** One command's part of the help text (bot_base.py:264-268). */
  method RenderBlock(k: CmdKey, isSystem: bool, symbol: string, commands: seq<(CmdKey, string)>,
                     subcommands: seq<(string, seq<(string, string)>)>) returns (block: string)
    ensures block == Block(k, isSystem, symbol, commands, subcommands)
  {
    block := "";
    if k.1 == isSystem {
      block := BlockHead(symbol, k.0, HelpOf(commands, k));
      var subs := SubsOf(subcommands, k.0);
      var j := 0;
      while j < |subs|
        invariant 0 <= j <= |subs|
        invariant block == BlockHead(symbol, k.0, HelpOf(commands, k)) + SubLines(subs[..j])
      {
        assert subs[..j + 1][..j] == subs[..j];
        block := block + SubLine(subs[j]);
        j := j + 1;
      }
      assert subs[..j] == subs;
      block := block + "\n";
    }
  }

  function HelpHeader(commandType: string): string {
    "*Folgende " + commandType + " unterstütze ich:*\n\n"
  }

  function HelpOf(commands: seq<(CmdKey, string)>, k: CmdKey): string {
    match Lookup(commands, k)
    case Some(h) => h
    case None => ""
  }

  function SubsOf(subcommands: seq<(string, seq<(string, string)>)>, name: string): seq<(string, string)> {
    match Lookup(subcommands, name)
    case Some(s) => s
    case None => []
  }

  /** A command's name in bold after the command symbol, then its help text. */
  function BlockHead(symbol: string, name: string, help: string): string {
    "**" + symbol + name + "**\n" + help + "\n"
  }

  /** A subcommand's line: "→ **sub**: help". */
  function SubLine(sub: (string, string)): string {
    "→ **" + sub.0 + "**: " + sub.1 + "\n"
  }

  /** One line per subcommand, in the order it was given. */
  function SubLines(subs: seq<(string, string)>): string {
    if subs == [] then "" else SubLines(subs[..|subs| - 1]) + SubLine(subs[|subs| - 1])
  }

  /** The blocks of the commands of the wanted kind among keys, in the order of keys. */
  function Blocks(keys: seq<CmdKey>, isSystem: bool, symbol: string, commands: seq<(CmdKey, string)>,
                  subcommands: seq<(string, seq<(string, string)>)>): string {
    if keys == [] then ""
    else
      Blocks(keys[..|keys| - 1], isSystem, symbol, commands, subcommands)
      + Block(keys[|keys| - 1], isSystem, symbol, commands, subcommands)
  }

  /** The block of one command when it is of the wanted kind: its head, one line per
      subcommand, and an empty line. */
  function Block(k: CmdKey, isSystem: bool, symbol: string, commands: seq<(CmdKey, string)>,
                 subcommands: seq<(string, seq<(string, string)>)>): string {
    if k.1 == isSystem
    then BlockHead(symbol, k.0, HelpOf(commands, k)) + SubLines(SubsOf(subcommands, k.0)) + "\n"
    else ""
  }

  /** The help text for one kind of command: a header, then one block per registered command of
      that kind, by name in ascending order. */
  function CommandsMessage(commandType: string, isSystem: bool, symbol: string, commands: seq<(CmdKey, string)>,
                           subcommands: seq<(string, seq<(string, string)>)>): string {
    HelpHeader(commandType) + Blocks(SortAsc(Keys(commands), CmdName), isSystem, symbol, commands, subcommands)
  }

  function OfKind(keys: seq<CmdKey>, isSystem: bool): (r: seq<CmdKey>)
    ensures forall k :: k in r <==> k in keys && k.1 == isSystem
  {
    if keys == [] then []
    else OfKind(keys[..|keys| - 1], isSystem) + (if keys[|keys| - 1].1 == isSystem then [keys[|keys| - 1]] else [])
  }

  /** The commands listed in the help text: exactly the registered commands of that kind, each
      once, by name in ascending order. */
  function ListedCommands(commands: seq<(CmdKey, string)>, isSystem: bool): seq<CmdKey> {
    OfKind(SortAsc(Keys(commands), CmdName), isSystem)
  }

  lemma ListedCommandsExactly(commands: seq<(CmdKey, string)>, isSystem: bool)
    requires DistinctKeys(commands)
    ensures forall k :: k in ListedCommands(commands, isSystem) <==> k in Keys(commands) && k.1 == isSystem
    ensures NamesAscending(ListedCommands(commands, isSystem))
  {
    var keys := Keys(commands);
    var sorted := SortAsc(keys, CmdName);
    SortAscProps(keys, CmdName);
    SameElements(keys, sorted);
    KeysDistinct(commands);
    DistinctSorted(keys, sorted);
    OfKindOrdered(sorted, isSystem);
  }

  /** Pairwise distinct, by name in ascending order. */
  ghost predicate NamesAscending(l: seq<CmdKey>) {
    forall i, j :: 0 <= i < j < |l| ==> StrLe(l[i].0, l[j].0) && l[i] != l[j]
  }

  lemma SameElements(keys: seq<CmdKey>, sorted: seq<CmdKey>)
    requires multiset(sorted) == multiset(keys)
    ensures forall k :: k in sorted <==> k in keys
  {
    forall k ensures k in sorted <==> k in keys {
      assert k in sorted <==> k in multiset(sorted);
      assert k in keys <==> k in multiset(keys);
    }
  }

  lemma KeysDistinct<K, V>(d: seq<(K, V)>)
    requires DistinctKeys(d)
    ensures forall i, j :: 0 <= i < j < |Keys(d)| ==> Keys(d)[i] != Keys(d)[j]
  {
  }

  /** A permutation of a list without duplicates has none. */
  lemma DistinctSorted(keys: seq<CmdKey>, sorted: seq<CmdKey>)
    requires multiset(sorted) == multiset(keys)
    requires forall i, j :: 0 <= i < j < |keys| ==> keys[i] != keys[j]
    ensures forall i, j :: 0 <= i < j < |sorted| ==> sorted[i] != sorted[j]
  {
    forall i, j | 0 <= i < j < |sorted| ensures sorted[i] != sorted[j] {
      if sorted[i] == sorted[j] {
        var x := sorted[i];
        assert multiset(sorted) == multiset(sorted[..i]) + multiset{x} + multiset(sorted[i + 1..]) by {
          assert sorted == sorted[..i] + [x] + sorted[i + 1..];
        }
        assert x in sorted[i + 1..] by { assert sorted[i + 1..][j - i - 1] == x; }
        assert multiset(keys)[x] >= 2;
        OnceInDistinct(keys, x);
        assert false;
      }
    }
  }

  lemma {:induction false} OnceInDistinct(keys: seq<CmdKey>, x: CmdKey)
    requires forall i, j :: 0 <= i < j < |keys| ==> keys[i] != keys[j]
    ensures multiset(keys)[x] <= 1
  {
    if keys != [] {
      var p := keys[..|keys| - 1];
      OnceInDistinct(p, x);
      assert keys == p + [keys[|keys| - 1]];
      if keys[|keys| - 1] == x {
        assert x !in p;
      }
    }
  }

  /** Keeping one kind keeps the order and the distinctness. */
  lemma {:induction false} OfKindOrdered(s: seq<CmdKey>, isSystem: bool)
    requires SortedAsc(s, CmdName)
    requires forall i, j :: 0 <= i < j < |s| ==> s[i] != s[j]
    ensures NamesAscending(OfKind(s, isSystem))
  {
    assert NamesAscending(s);
    OfKindKeepsOrder(s, isSystem);
  }

  lemma {:induction false} OfKindKeepsOrder(s: seq<CmdKey>, isSystem: bool)
    requires NamesAscending(s)
    ensures NamesAscending(OfKind(s, isSystem))
  {
    if s != [] {
      var p := s[..|s| - 1];
      var x := s[|s| - 1];
      assert NamesAscending(p) by {
        forall i, j | 0 <= i < j < |p| ensures StrLe(p[i].0, p[j].0) && p[i] != p[j] {
          assert p[i] == s[i] && p[j] == s[j];
        }
      }
      OfKindKeepsOrder(p, isSystem);
      var l := OfKind(s, isSystem);
      var lp := OfKind(p, isSystem);
      if x.1 == isSystem {
        forall i | 0 <= i < |lp| ensures StrLe(lp[i].0, x.0) && lp[i] != x {
          assert lp[i] in p;
          var k :| 0 <= k < |p| && p[k] == lp[i];
          assert s[k] == lp[i];
        }
        assert l == lp + [x];
        forall i, j | 0 <= i < j < |l| ensures StrLe(l[i].0, l[j].0) && l[i] != l[j] {
          if j == |lp| {
            assert l[i] == lp[i] && l[j] == x;
          } else {
            assert l[i] == lp[i] && l[j] == lp[j];
          }
        }
      } else {
        assert l == lp;
      }
    }
  }

  /** The help text is the header followed by the blocks of exactly the listed commands, in
      the listed order: the commands of the other kind contribute nothing. */
  lemma MessageOfListed(commandType: string, isSystem: bool, symbol: string, commands: seq<(CmdKey, string)>,
                        subcommands: seq<(string, seq<(string, string)>)>)
    ensures CommandsMessage(commandType, isSystem, symbol, commands, subcommands)
            == HelpHeader(commandType) + Blocks(ListedCommands(commands, isSystem), isSystem, symbol, commands, subcommands)
  {
    BlocksOfKind(SortAsc(Keys(commands), CmdName), isSystem, symbol, commands, subcommands);
  }

  lemma {:induction false} BlocksOfKind(keys: seq<CmdKey>, isSystem: bool, symbol: string, commands: seq<(CmdKey, string)>,
                                        subcommands: seq<(string, seq<(string, string)>)>)
    ensures Blocks(keys, isSystem, symbol, commands, subcommands)
            == Blocks(OfKind(keys, isSystem), isSystem, symbol, commands, subcommands)
  {
    if keys != [] {
      var p := keys[..|keys| - 1];
      var x := keys[|keys| - 1];
      BlocksOfKind(p, isSystem, symbol, commands, subcommands);
      if x.1 == isSystem {
        var l := OfKind(p, isSystem) + [x];
        assert OfKind(keys, isSystem) == l;
        assert l[..|l| - 1] == OfKind(p, isSystem);
      } else {
        assert OfKind(keys, isSystem) == OfKind(p, isSystem);
      }
    }
  }

  /** A command registered with a help text is listed in the help text of its kind, whatever
      was registered before. */
  lemma RegisteredIsListed(commands: seq<(CmdKey, string)>, k: CmdKey, help: string)
    requires DistinctKeys(commands)
    ensures k in ListedCommands(Put(commands, k, help), k.1)
  {
    var r := Put(commands, k, help);
    PutDistinct(commands, k, help);
    PutKeys(commands, k, help);
    ListedCommandsExactly(r, k.1);
    assert k in Keys(r);
    var i :| 0 <= i < |Keys(r)| && Keys(r)[i] == k;
    assert r[i].0 == k;
  }

  // ---------------------------------------------------------------------------
  // Scheduled deletions (bot_base.py:113-163, 197-248)

  /** A deletion record: when, and which message in which channel. */
  datatype Deletion = Deletion(ts: int, cid: int, mid: int)

  /** A message as far as deleting it goes. */
  datatype Message = Message(id: int, cid: int, direct: bool)

  class DeletionState {
    var deletions: seq<Deletion>
    /** What was written to the file last. */
    var saved: Option<seq<Deletion>>

    /** The constructor (bot_base.py:118-121) with the records its file held. */
    constructor(persisted: seq<Deletion>)
      ensures deletions == persisted && saved == None
    {
      deletions := persisted;
      saved := None;
    }

    /** add_deletion (bot_base.py:123-130) appends the record and writes the state. */
    method AddDeletion(d: Deletion)
      modifies this
      ensures deletions == old(deletions) + [d] && saved == Some(deletions)
    {
      deletions := deletions + [d];
      saved := Some(deletions);
    }

    /** remove_deletion (bot_base.py:132-139): list.remove raises ValueError for an absent record
        (ok is false), and then nothing changes. */
    method RemoveDeletion(d: Deletion) returns (ok: bool)
      modifies this
      ensures ok == (d in old(deletions))
      ensures ok ==> deletions == RemoveFirst(old(deletions), d) && saved == Some(deletions)
      ensures !ok ==> deletions == old(deletions) && saved == old(saved)
    {
      if d !in deletions {
        return false;
      }
      deletions := RemoveFirst(deletions, d);
      saved := Some(deletions);
      return true;
    }
  }

  /** The scheduler entries for deletions queued from id base on: entry i runs task base + i at
      the record's timestamp. */
  function QueuedAt(base: int, ds: seq<Deletion>): (r: seq<Task>)
    ensures |r| == |ds|
  {
    if ds == [] then [] else QueuedAt(base, ds[..|ds| - 1]) + [Task(base + |ds| - 1, Some(ds[|ds| - 1].ts))]
  }

  lemma {:induction false} QueuedAtEntries(base: int, ds: seq<Deletion>)
    ensures forall i :: 0 <= i < |ds| ==> QueuedAt(base, ds)[i] == Task(base + i, Some(ds[i].ts))
  {
    if ds != [] {
      QueuedAtEntries(base, ds[..|ds| - 1]);
    }
  }

  /** Queuing one more record adds its entry at the end. */
  lemma QueuedAtSnoc(base: int, ds: seq<Deletion>, i: nat)
    requires i < |ds|
    ensures QueuedAt(base, ds[..i + 1]) == QueuedAt(base, ds[..i]) + [Task(base + i, Some(ds[i].ts))]
  {
    assert ds[..i + 1][..i] == ds[..i];
  }

  /** Whether `nlu` still holds the factory or the service built from it. */
  datatype NluSlot = Factory | Built(service: nat)

  class BotBase {
    const deletionState: DeletionState
    const scheduler: BotScheduler
    /** Task id k of the scheduler is `_execute_deletion` of pending[k]. */
    var pending: seq<Deletion>
    /** The messages deleted, as (channel, message) ids, in order. */
    var deleted: seq<(int, int)>
    var nlu: NluSlot
    /** How many services the factory has built. */
    var builds: nat

    ghost predicate Valid()
      reads this, scheduler
    {
      forall k :: 0 <= k < |scheduler.tasks| ==> 0 <= scheduler.tasks[k].func < |pending|
    }

    /** The constructor (bot_base.py:169-175): the NLU service is not built yet, and every
        persisted deletion is queued. */
    constructor(persisted: seq<Deletion>)
      ensures Valid()
      ensures deletionState.deletions == persisted && deletionState.saved == None
      ensures pending == persisted && scheduler.tasks == QueuedAt(0, persisted)
      ensures deleted == [] && nlu == Factory && builds == 0
    {
      deletionState := new DeletionState(persisted);
      scheduler := new BotScheduler();
      pending := [];
      deleted := [];
      nlu := Factory;
      builds := 0;
      new;
      InitDeletions();
    }

    /** `_init_deletions` (bot_base.py:197-200): each persisted record is queued once, in order,
        at its own timestamp. */
    method InitDeletions()
      requires Valid()
      modifies this, scheduler
      ensures Valid()
      ensures pending == old(pending) + deletionState.deletions
      ensures scheduler.tasks == old(scheduler.tasks) + QueuedAt(|old(pending)|, deletionState.deletions)
      ensures deleted == old(deleted) && nlu == old(nlu) && builds == old(builds)
      ensures scheduler.running == old(scheduler.running) && scheduler.ran == old(scheduler.ran)
    {
      var ds := deletionState.deletions;
      var i := 0;
      while i < |ds|
        invariant 0 <= i <= |ds| && Valid()
        invariant pending == old(pending) + ds[..i]
        invariant scheduler.tasks == old(scheduler.tasks) + QueuedAt(|old(pending)|, ds[..i])
        invariant deleted == old(deleted) && nlu == old(nlu) && builds == old(builds)
        invariant scheduler.running == old(scheduler.running) && scheduler.ran == old(scheduler.ran)
      {
        assert ds[..i + 1] == ds[..i] + [ds[i]];
        QueuedAtSnoc(|old(pending)|, ds, i);
        AppendAssoc(old(scheduler.tasks), QueuedAt(|old(pending)|, ds[..i]), [Task(|old(pending)| + i, Some(ds[i].ts))]);
        QueueDeletion(ds[i]);
        i := i + 1;
      }
      assert ds[..i] == ds;
    }

    /** `scheduler.queue(_execute_deletion(self, d), d["ts"])`. */
    method QueueDeletion(d: Deletion)
      requires Valid()
      modifies this, scheduler
      ensures Valid()
      ensures pending == old(pending) + [d]
      ensures scheduler.tasks == old(scheduler.tasks) + [Task(|old(pending)|, Some(d.ts))]
      ensures deleted == old(deleted) && nlu == old(nlu) && builds == old(builds)
      ensures scheduler.running == old(scheduler.running) && scheduler.ran == old(scheduler.ran)
    {
      scheduler.Queue(|pending|, Some(d.ts));
      pending := pending + [d];
    }

    /** `delete` (bot_base.py:223-248): a direct message is left alone; without a delay the
        message is deleted now (NotFound is swallowed); with one, the record is written first and
        then queued at now + delay under the same timestamp. */
    method Delete(m: Message, delay: Option<int>, now: int, present: set<(int, int)>)
      requires Valid()
      modifies this, scheduler, deletionState
      ensures Valid()
      ensures m.direct || delay.None? ==>
                pending == old(pending) && scheduler.tasks == old(scheduler.tasks)
                && deletionState.deletions == old(deletionState.deletions) && deletionState.saved == old(deletionState.saved)
      ensures m.direct ==> deleted == old(deleted)
      ensures !m.direct && delay.None? ==> deleted == old(deleted) + (if (m.cid, m.id) in present then [(m.cid, m.id)] else [])
      ensures !m.direct && delay.Some? ==>
                var d := Deletion(now + delay.value, m.cid, m.id);
                && deletionState.deletions == old(deletionState.deletions) + [d]
                && deletionState.saved == Some(deletionState.deletions)
                && pending == old(pending) + [d]
                && scheduler.tasks == old(scheduler.tasks) + [Task(|old(pending)|, Some(d.ts))]
                && deleted == old(deleted)
      ensures nlu == old(nlu) && builds == old(builds)
      ensures scheduler.running == old(scheduler.running) && scheduler.ran == old(scheduler.ran)
    {
      if m.direct {
        return;
      }
      if delay.None? {
        if (m.cid, m.id) in present {
          deleted := deleted + [(m.cid, m.id)];
        }
        return;
      }
      var d := Deletion(now + delay.value, m.cid, m.id);
      deletionState.AddDeletion(d);
      QueueDeletion(d);
    }

    /** `_execute_deletion` (bot_base.py:154-163) for task k: the record goes first, so an
        absent record raises before anything is deleted; a channel or message that no longer
        exists raises NotFound, which is swallowed. */
    method ExecuteDeletion(k: TaskId, present: set<(int, int)>) returns (ok: bool)
      requires Valid() && 0 <= k < |pending|
      modifies this, deletionState
      ensures Valid()
      ensures var d := old(pending)[k];
              && ok == (d in old(deletionState.deletions))
              && (ok ==> deletionState.deletions == RemoveFirst(old(deletionState.deletions), d)
                         && deletionState.saved == Some(deletionState.deletions)
                         && deleted == old(deleted) + (if (d.cid, d.mid) in present then [(d.cid, d.mid)] else []))
              && (!ok ==> deletionState.deletions == old(deletionState.deletions)
                          && deletionState.saved == old(deletionState.saved) && deleted == old(deleted))
      ensures pending == old(pending) && nlu == old(nlu) && builds == old(builds)
    {
      var d := pending[k];
      ok := deletionState.RemoveDeletion(d);
      if !ok {
        return;
      }
      if (d.cid, d.mid) in present {
        deleted := deleted + [(d.cid, d.mid)];
      }
    }

    /** Reading `nlu` (bot_base.py:173, 177-182): the first read builds the service and stores it
        in place of the factory; every later read returns that same service. */
    method Nlu() returns (s: nat)
      modifies this
      ensures nlu == Built(s)
      ensures old(nlu).Built? ==> s == old(nlu).service && builds == old(builds)
      ensures old(nlu).Factory? ==> builds == old(builds) + 1
      ensures pending == old(pending) && deleted == old(deleted)
    {
      if nlu.Factory? {
        builds := builds + 1;
        nlu := Built(builds);
      }
      return nlu.service;
    }
  }

  /** Two reads of `nlu` give the same service, and the factory runs at most once. */
  method NluReadTwice(b: BotBase) returns (s1: nat, s2: nat)
    modifies b
    ensures s1 == s2
    ensures b.builds <= old(b.builds) + 1
  {
    s1 := b.Nlu();
    s2 := b.Nlu();
  }

  /** A delayed delete whose task then runs leaves the deletion records as they were before and
      deletes the message if it still exists. */
  method DeleteLaterThenRun(b: BotBase, m: Message, delay: int, now: int, present: set<(int, int)>)
    requires b.Valid() && !m.direct
    requires Deletion(now + delay, m.cid, m.id) !in b.deletionState.deletions
    modifies b, b.scheduler, b.deletionState
    ensures b.deletionState.deletions == old(b.deletionState.deletions)
    ensures b.deleted == old(b.deleted) + (if (m.cid, m.id) in present then [(m.cid, m.id)] else [])
  {
    b.Delete(m, Some(delay), now, present);
    var k := |b.pending| - 1;
    RemoveAppended(old(b.deletionState.deletions), Deletion(now + delay, m.cid, m.id));
    var ok := b.ExecuteDeletion(k, present);
  }
}
