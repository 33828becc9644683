// The Kotlin slash-command handler (src/main/kotlin/org/fuchss/deltabot/command/CommandHandler.kt):
// on start-up the bot's commands are compared with the commands Discord has registered, the
// unregistered ones are reported as new and the stale ones deleted; a slash command is looked
// up by name and run only when its permission allows the caller.

module KotlinCommandHandler {
  import opened Text
  import opened Collections

  /** CommandPermissions.kt. */
  datatype Permission = All | GuildAdmin | Admin

  /** An option of a command: name, required flag, type, description and choices. */
  datatype OptionSpec = OptionSpec(name: string, required: bool, kind: int, description: string, choices: seq<string>)

  datatype SubSpec = SubSpec(name: string, description: string, options: seq<OptionSpec>)

  /** A command's data, as the bot creates it and as Discord reports it. */
  datatype CommandSpec = CommandSpec(name: string, description: string, options: seq<OptionSpec>, subcommands: seq<SubSpec>)

  /** A command Discord has registered, with its id. */
  datatype ActiveCommand = ActiveCommand(id: string, spec: CommandSpec)

  /** A command of the bot (BotCommand.kt). */
  datatype BotCommand = BotCommand(data: CommandSpec, permissions: Permission, isGlobal: bool, isInitialAdmin: bool)

  /** optionEqualsData on lists (CommandHandler.kt:199-202): same length, pairwise equal in
      every compared field. */
  predicate OptionsEqual(os: seq<OptionSpec>, ds: seq<OptionSpec>) {
    |os| == |ds| && forall i :: 0 <= i < |os| ==> os[i] == ds[i]
  }

  predicate SubsEqual(cs: seq<SubSpec>, ds: seq<SubSpec>) {
    |cs| == |ds| && forall i :: 0 <= i < |cs| ==> cs[i].name == ds[i].name && OptionsEqual(cs[i].options, ds[i].options)
  }

  /** The test of findCommand (CommandHandler.kt:150-162): same name, same options, and the same
      subcommands by name and options. The descriptions of the command and of its subcommands
      are not compared; those of the options are, as part of the options. */
  predicate Same(cmd: CommandSpec, data: CommandSpec) {
    cmd.name == data.name && OptionsEqual(cmd.options, data.options) && SubsEqual(cmd.subcommands, data.subcommands)
  }

  /** A command with its descriptions blanked. */
  function Undescribed(c: CommandSpec): CommandSpec {
    CommandSpec(c.name, "", c.options, UndescribedSubs(c.subcommands))
  }

  function UndescribedSubs(subs: seq<SubSpec>): (r: seq<SubSpec>)
    ensures |r| == |subs|
    ensures forall i :: 0 <= i < |subs| ==> r[i] == SubSpec(subs[i].name, "", subs[i].options)
  {
    if subs == [] then [] else [SubSpec(subs[0].name, "", subs[0].options)] + UndescribedSubs(subs[1..])
  }

  /** Two commands are the same for findCommand exactly when they agree once descriptions are
      ignored. */
  lemma SameIsEqualButDescriptions(a: CommandSpec, b: CommandSpec)
    ensures Same(a, b) <==> Undescribed(a) == Undescribed(b)
  {
    var sa, sb := UndescribedSubs(a.subcommands), UndescribedSubs(b.subcommands);
    if Same(a, b) {
      assert a.options == b.options;
      assert sa == sb by {
        forall i | 0 <= i < |sa| ensures sa[i] == sb[i] {
          assert a.subcommands[i].options == b.subcommands[i].options;
        }
      }
    }
    if Undescribed(a) == Undescribed(b) {
      assert sa == sb;
      forall i | 0 <= i < |a.subcommands|
        ensures a.subcommands[i].name == b.subcommands[i].name && OptionsEqual(a.subcommands[i].options, b.subcommands[i].options)
      {
        assert sa[i] == sb[i];
      }
    }
  }

  /** The first registered command that is the same as the bot's. */
  function FirstSame(active: seq<ActiveCommand>, data: CommandSpec): (r: Option<ActiveCommand>)
    ensures r.Some? ==> r.value in active && Same(r.value.spec, data)
    ensures r.None? <==> forall a :: a in active ==> !Same(a.spec, data)
  {
    if active == [] then None
    else if Same(active[0].spec, data) then Some(active[0])
    else FirstSame(active[1..], data)
  }

  /** findCommand (CommandHandler.kt:148-165). */
  method FindCommand(active: seq<ActiveCommand>, data: CommandSpec) returns (r: Option<ActiveCommand>)
    ensures r == FirstSame(active, data)
  {
    var i := 0;
    while i < |active|
      invariant i <= |active|
      invariant FirstSame(active, data) == FirstSame(active[i..], data)
    {
      assert active[i..][0] == active[i] && active[i..][1..] == active[i + 1..];
      if Same(active[i].spec, data) {
        return Some(active[i]);
      }
      i := i + 1;
    }
    return None;
  }

  predicate InScope(c: BotCommand, global: bool) {
    c.isGlobal == global
  }

  /** The bot's commands of the scope that Discord does not have (CommandHandler.kt:134-135). */
  function Fresh(commands: seq<BotCommand>, active: seq<ActiveCommand>, global: bool): (r: seq<BotCommand>)
    ensures forall c :: c in r <==> c in commands && InScope(c, global) && FirstSame(active, c.data).None?
  {
    if commands == [] then []
    else
      var last := commands[|commands| - 1];
      var before := Fresh(commands[..|commands| - 1], active, global);
      assert forall c :: c in commands <==> c in commands[..|commands| - 1] || c == last;
      before + (if InScope(last, global) && FirstSame(active, last.data).None? then [last] else [])
  }

  /** The registered commands the bot's commands of the scope matched (CommandHandler.kt:129-131). */
  function Matched(commands: seq<BotCommand>, active: seq<ActiveCommand>, global: bool): (r: seq<ActiveCommand>)
    ensures forall a :: a in r <==> exists c :: c in commands && InScope(c, global) && FirstSame(active, c.data) == Some(a)
  {
    if commands == [] then []
    else
      var last := commands[|commands| - 1];
      var before := Matched(commands[..|commands| - 1], active, global);
      assert forall c :: c in commands <==> c in commands[..|commands| - 1] || c == last;
      var found := FirstSame(active, last.data);
      before + (if InScope(last, global) && found.Some? then [found.value] else [])
  }

  /** One more command: Fresh and Matched grow by what that command contributes. */
  lemma ScopeStep(commands: seq<BotCommand>, active: seq<ActiveCommand>, global: bool, i: nat)
    requires i < |commands|
    ensures var c := commands[i];
      && Fresh(commands[..i + 1], active, global)
         == Fresh(commands[..i], active, global) + (if InScope(c, global) && FirstSame(active, c.data).None? then [c] else [])
      && Matched(commands[..i + 1], active, global)
         == Matched(commands[..i], active, global) + (if InScope(c, global) && FirstSame(active, c.data).Some? then [FirstSame(active, c.data).value] else [])
  {
    assert commands[..i + 1][..i] == commands[..i];
  }

  /** activeCommands.filter { c -> !oldCommands.contains(c) } (CommandHandler.kt:139). */
  function Unmatched(active: seq<ActiveCommand>, matched: seq<ActiveCommand>): (r: seq<ActiveCommand>)
    ensures forall a :: a in r <==> a in active && a !in matched
  {
    if active == [] then []
    else (if active[0] in matched then [] else [active[0]]) + Unmatched(active[1..], matched)
  }

  /** Every command of the scope is matched or new, never both; a command of the other scope is
      never new and matches nothing. */
  lemma OldOrNew(commands: seq<BotCommand>, active: seq<ActiveCommand>, global: bool, c: BotCommand)
    requires c in commands
    ensures InScope(c, global) ==> (c in Fresh(commands, active, global) <==> FirstSame(active, c.data).None?)
    ensures InScope(c, global) && FirstSame(active, c.data).Some? ==> FirstSame(active, c.data).value in Matched(commands, active, global)
    ensures !InScope(c, global) ==> c !in Fresh(commands, active, global)
  {
  }

  /** findNewCommandsAndDeleteOldOnes (CommandHandler.kt:121-145): the new commands of the scope,
      and the registered commands to delete. */
  method FindNewAndOld(commands: seq<BotCommand>, active: seq<ActiveCommand>, global: bool)
    returns (newCommands: seq<BotCommand>, toDelete: seq<ActiveCommand>)
    ensures newCommands == Fresh(commands, active, global)
    ensures toDelete == Unmatched(active, Matched(commands, active, global))
    ensures forall a :: a in toDelete <==>
              a in active && !exists c :: c in commands && InScope(c, global) && FirstSame(active, c.data) == Some(a)
  {
    newCommands := [];
    var oldCommands: seq<ActiveCommand> := [];
    var i := 0;
    while i < |commands|
      invariant i <= |commands|
      invariant newCommands == Fresh(commands[..i], active, global)
      invariant oldCommands == Matched(commands[..i], active, global)
    {
      ScopeStep(commands, active, global, i);
      var command := commands[i];
      var found := FindCommand(active, command.data);
      if found.Some? && global == command.isGlobal {
        oldCommands := oldCommands + [found.value];
      } else if global == command.isGlobal {
        newCommands := newCommands + [command];
      }
      i := i + 1;
    }
    assert commands[..i] == commands;
    toDelete := Unmatched(active, oldCommands);
  }

  /** A guild: its owner and its members. */
  datatype Guild = Guild(owner: string, members: set<string>)

  /** getAdminsMembersOfGuild (Configuration.kt:70-84): the owner and the configured admins that
      are members. */
  function GuildAdmins(g: Guild, admins: set<string>): (r: set<string>)
    ensures forall u :: u in r <==> u == g.owner || (u in admins && u in g.members)
  {
    {g.owner} + (admins * g.members)
  }

  /** isAdmin (CommandHandler.kt:184-186 with Configuration.kt:39-41): the owner of the guild or a
      configured admin. */
  predicate IsAdmin(guild: Option<Guild>, user: string, admins: set<string>) {
    (guild.Some? && guild.value.owner == user) || user in admins
  }

  datatype SlashOutcome = NotAnAdmin | Runs(command: Option<BotCommand>)

  /** The permission of the command run: an unknown name runs UnknownCommand, open to all. */
  function PermissionOf(command: Option<BotCommand>): Permission {
    if command.Some? then command.value.permissions else All
  }

  /** handleSlashCommand (CommandHandler.kt:167-182). */
  function HandleSlash(nameToCommand: map<string, BotCommand>, name: string, guild: Option<Guild>, user: string, admins: set<string>): (r: SlashOutcome)
    ensures r.Runs? ==> r.command == (if name in nameToCommand then Some(nameToCommand[name]) else None)
    ensures name !in nameToCommand ==> r == Runs(None)
    ensures var p := PermissionOf(if name in nameToCommand then Some(nameToCommand[name]) else None);
            r == NotAnAdmin <==>
              || (p == Admin && !IsAdmin(guild, user, admins))
              || (p == GuildAdmin && guild.Some? && user !in GuildAdmins(guild.value, admins))
  {
    var command := if name in nameToCommand then Some(nameToCommand[name]) else None;
    var permission := PermissionOf(command);
    if permission == Admin && !IsAdmin(guild, user, admins) then NotAnAdmin
    else if guild.Some? && permission == GuildAdmin && user !in GuildAdmins(guild.value, admins) then NotAnAdmin
    else Runs(command)
  }

  /** Who may run what: an admin command needs the guild owner or a configured admin; a guild-admin
      command in a guild needs the owner or a configured admin who is a member, and in a private
      channel anyone may run it; everything else is open. */
  lemma SlashPermissions(nameToCommand: map<string, BotCommand>, name: string, guild: Option<Guild>, user: string, admins: set<string>)
    requires name in nameToCommand
    ensures var c := nameToCommand[name];
            && (c.permissions == Admin ==> (HandleSlash(nameToCommand, name, guild, user, admins).Runs? <==> IsAdmin(guild, user, admins)))
            && (c.permissions == GuildAdmin && guild.None? ==> HandleSlash(nameToCommand, name, guild, user, admins) == Runs(Some(c)))
            && (c.permissions == GuildAdmin && guild.Some? ==>
                  (HandleSlash(nameToCommand, name, guild, user, admins).Runs? <==>
                   user == guild.value.owner || (user in admins && user in guild.value.members)))
            && (c.permissions == All ==> HandleSlash(nameToCommand, name, guild, user, admins) == Runs(Some(c)))
  {
  }

  /** commands.associateBy { name } (CommandHandler.kt:51): the last command of each name. */
  function ByName(commands: seq<BotCommand>): (r: map<string, BotCommand>)
    ensures forall n :: n in r <==> exists c :: c in commands && c.data.name == n
    ensures forall n :: n in r ==> r[n] in commands && r[n].data.name == n
  {
    if commands == [] then map[]
    else
      var last := commands[|commands| - 1];
      assert forall c :: c in commands <==> c in commands[..|commands| - 1] || c == last;
      ByName(commands[..|commands| - 1])[last.data.name := last]
  }

  /** associateBy keeps, for each name, the last command of the list with that name. */
  lemma {:induction false} ByNameKeepsLast(commands: seq<BotCommand>, n: string)
    requires n in ByName(commands)
    ensures exists i :: LastOfName(commands, n, i) && commands[i] == ByName(commands)[n]
  {
    var last := commands[|commands| - 1];
    var init := commands[..|commands| - 1];
    if n == last.data.name {
      assert LastOfName(commands, n, |commands| - 1);
    } else {
      assert n in ByName(init);
      ByNameKeepsLast(init, n);
      var i :| LastOfName(init, n, i) && init[i] == ByName(init)[n];
      LastOfNameExtend(commands, n, i);
    }
  }

  lemma LastOfNameExtend(commands: seq<BotCommand>, n: string, i: int)
    requires commands != [] && commands[|commands| - 1].data.name != n
    requires LastOfName(commands[..|commands| - 1], n, i)
    ensures LastOfName(commands, n, i) && commands[i] == commands[..|commands| - 1][i]
  {
    var init := commands[..|commands| - 1];
    forall j | i < j < |commands| ensures commands[j].data.name != n {
      if j < |init| {
        assert commands[j] == init[j];
      }
    }
  }

  /** Position i holds a command named n, and no later command has that name. */
  predicate LastOfName(commands: seq<BotCommand>, n: string, i: int) {
    0 <= i < |commands| && commands[i].data.name == n
    && forall j :: i < j < |commands| ==> commands[j].data.name != n
  }

  /** The first command of the list, as MutableList.find. */
  function FirstInitialAdmin(commands: seq<BotCommand>): (r: Option<BotCommand>)
    ensures r.Some? ==> r.value in commands && r.value.isInitialAdmin
    ensures r.None? <==> forall c :: c in commands ==> !c.isInitialAdmin
  {
    if commands == [] then None
    else if commands[0].isInitialAdmin then Some(commands[0])
    else FirstInitialAdmin(commands[1..])
  }

  class CommandHandler {
    var commands: seq<BotCommand>
    var nameToCommand: map<string, BotCommand>

    /** The initialiser (CommandHandler.kt:26-52): the bot's commands, with the initial-admin
        command while no admin is configured, and the table by name. */
    constructor(registered: seq<BotCommand>, initialAdmin: BotCommand, hasAdmins: bool)
      ensures commands == registered + (if hasAdmins then [] else [initialAdmin])
      ensures nameToCommand == ByName(commands)
    {
      var all := registered + (if hasAdmins then [] else [initialAdmin]);
      commands := all;
      nameToCommand := ByName(all);
    }

    /** initialUser (CommandHandler.kt:54-61): once the first admin is set, the initial-admin
        command leaves the list and its name leaves the table. */
    method InitialUser()
      modifies this
      ensures var found := FirstInitialAdmin(old(commands));
              && (found.None? ==> commands == old(commands) && nameToCommand == old(nameToCommand))
              && (found.Some? ==> commands == RemoveFirst(old(commands), found.value)
                                  && nameToCommand == old(nameToCommand) - {found.value.data.name})
    {
      var found := FirstInitialAdmin(commands);
      if found.None? {
        return;
      }
      commands := RemoveFirst(commands, found.value);
      nameToCommand := nameToCommand - {found.value.data.name};
    }

    /** handleSlashCommand on the handler's table. */
    function Handle(name: string, guild: Option<Guild>, user: string, admins: set<string>): SlashOutcome
      reads this
    {
      HandleSlash(nameToCommand, name, guild, user, admins)
    }
  }
}
