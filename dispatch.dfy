// Prefix dispatch of typed commands: the system commands after "\" (system_commands.py) and the
// user commands after "/" (user_commands/commands.py). Both files keep a list of handler
// functions sorted by the length of their names, longest first, try the word derived from each
// name against the start of the message, and fall back to an "unknown command" handler.
// A message is the fields read from it; the channel history erased by "\erase", the dice roll,
// and the shuffled members of the author's voice channel are inputs.

module CommandDispatch {
  import opened Text
  import opened Sorting
  import RoundRobin
  import Helpers
  import Configs

  /** The first command of cs whose prefix starts content: the loop over the sorted list that
      returns at the first template that accepts the message. */
  function FirstMatch<C>(cs: seq<C>, content: string, prefix: C -> string): (r: Option<C>)
    ensures r.Some? ==> r.value in cs && StartsWith(content, prefix(r.value))
    ensures r.None? <==> forall c :: c in cs ==> !StartsWith(content, prefix(c))
  {
    if cs == [] then None
    else if StartsWith(content, prefix(cs[0])) then Some(cs[0])
    else FirstMatch(cs[1..], content, prefix)
  }

  /** The loop of handle_system and handle_user over their command lists. */
  method FindCommand<C>(cs: seq<C>, content: string, prefix: C -> string) returns (r: Option<C>)
    ensures r == FirstMatch(cs, content, prefix)
  {
    var k := 0;
    while k < |cs|
      invariant 0 <= k <= |cs|
      invariant FirstMatch(cs, content, prefix) == FirstMatch(cs[k..], content, prefix)
    {
      assert cs[k..][1..] == cs[k + 1..];
      if StartsWith(content, prefix(cs[k])) {
        return Some(cs[k]);
      }
      k := k + 1;
    }
    return None;
  }

  /** In a list sorted by key, longest first, the command found first has the largest key of all
      the commands that match. */
  lemma {:induction false} FirstMatchLongest<C>(cs: seq<C>, content: string, prefix: C -> string, key: C -> int)
    requires SortedDesc(cs, key)
    requires FirstMatch(cs, content, prefix).Some?
    ensures forall d :: d in cs && StartsWith(content, prefix(d)) ==> key(d) <= key(FirstMatch(cs, content, prefix).value)
  {
    var c := FirstMatch(cs, content, prefix).value;
    if StartsWith(content, prefix(cs[0])) {
      forall d | d in cs && StartsWith(content, prefix(d)) ensures key(d) <= key(c) {
        var j :| 0 <= j < |cs| && cs[j] == d;
        if j > 0 {
          assert key(cs[0]) >= key(cs[j]);
        }
      }
    } else {
      var t := cs[1..];
      assert SortedDesc(t, key) by {
        forall i, j | 0 <= i < j < |t| ensures key(t[i]) >= key(t[j]) {
          assert t[i] == cs[i + 1] && t[j] == cs[j + 1];
        }
      }
      FirstMatchLongest(t, content, prefix, key);
      forall d | d in cs && StartsWith(content, prefix(d)) ensures d in t {
        var j :| 0 <= j < |cs| && cs[j] == d;
        assert j > 0;
        assert t[j - 1] == d;
      }
    }
  }

  /** When exactly one command of cs matches, the search finds that one, whatever the order. */
  lemma {:induction false} FirstMatchOfOnly<C>(cs: seq<C>, content: string, prefix: C -> string, c: C)
    requires c in cs && StartsWith(content, prefix(c))
    requires forall d :: d in cs && d != c ==> !StartsWith(content, prefix(d))
    ensures FirstMatch(cs, content, prefix) == Some(c)
  {
    if cs[0] != c {
      assert c in cs[1..];
      FirstMatchOfOnly(cs[1..], content, prefix, c);
    }
  }

  /** A text that starts with p does not start with a q that differs from p at a position both
      cover. */
  lemma PrefixExcludes(content: string, p: string, q: string, i: nat)
    requires i < |p| && i < |q| && p[i] != q[i]
    requires StartsWith(content, p)
    ensures !StartsWith(content, q)
  {
    assert content[..|p|][i] == content[i];
    if |q| <= |content| {
      assert content[..|q|][i] == content[i];
    }
  }

  /** Python's str.replace("_", "-") on a name without '_' keeps it. */
  lemma {:induction false} DashedPlain(s: string)
    requires '_' !in s
    ensures Replace(s, "_", "-") == s
    decreases |s|
  {
    if |s| >= 1 {
      assert s[..1] == [s[0]];
      DashedPlain(s[1..]);
    }
  }

  lemma DashedHead(b: string)
    requires '_' !in b
    ensures Replace("_" + b, "_", "-") == "-" + b
  {
    var s := "_" + b;
    assert s[..1] == "_" && s[1..] == b;
    DashedPlain(b);
  }

  /** ... and on a name with one '_' puts '-' in its place. */
  lemma {:induction false} DashedOne(a: string, b: string)
    requires '_' !in a && '_' !in b
    ensures Replace(a + "_" + b, "_", "-") == a + "-" + b
    decreases |a|
  {
    var s := a + "_" + b;
    if a == [] {
      DashedHead(b);
    } else {
      assert s[..1] == [a[0]];
      assert s[1..] == a[1..] + "_" + b;
      DashedOne(a[1..], b);
    }
  }

  /** The typed word of a command named "__" + base with base free of '_' is base. */
  lemma WordOfPlain(base: string)
    requires '_' !in base
    ensures Replace(("__" + base)[2..], "_", "-") == base
  {
    assert ("__" + base)[2..] == base;
    DashedPlain(base);
  }

  // ----- system commands (system_commands.py) -----

  /** SYSTEM_COMMAND_SYMBOL (constants.py:1). */
  const SystemSymbol := "\\"

  /** SystemCommandCallState (system_commands.py:11-14). */
  datatype CallState = DirectMessage | NoAdmin | Valid

  /** The call state a template hands to its handler (system_commands.py:188-203): an author who
      is not an admin gets NoAdmin wherever they write; an admin gets DirectMessage in a private
      channel and Valid elsewhere. */
  function CallStateOf(isAdmin: bool, direct: bool): (st: CallState)
    ensures st == NoAdmin <==> !isAdmin
    ensures st == DirectMessage <==> isAdmin && direct
  {
    if !isAdmin then NoAdmin else if direct then DirectMessage else Valid
  }

  /** The registered system commands (system_commands.py:211). */
  datatype SysCmd = RespondAll | Listen | Keep | Admin | Echo | State | Shutdown | Erase | Debug

  const SysRegistered: seq<SysCmd> := [RespondAll, Listen, Keep, Admin, Echo, State, Shutdown, Erase, Debug]

  /** The handler's `__name__` (system_commands.py:30-161); command_meta keeps it through
      functools.wraps. */
  function SysFunctionName(c: SysCmd): string {
    "__" + SysBase(c)
  }

  /** The handler's name without its two leading underscores. */
  function SysBase(c: SysCmd): string {
    match c
    case RespondAll => "respond" + "_" + "all"
    case Listen => "listen"
    case Keep => "keep"
    case Admin => "admin"
    case Echo => "echo"
    case State => "state"
    case Shutdown => "shutdown"
    case Erase => "erase"
    case Debug => "debug"
  }

  /** The sort key (system_commands.py:212). */
  function SysKey(c: SysCmd): int {
    |SysFunctionName(c)|
  }

  /** The order in which the commands are tried. */
  const SysCommands: seq<SysCmd> := SortDesc(SysRegistered, SysKey)

  /** The word typed for a command (system_commands.py:220): the name less its two underscores,
      '_' becoming '-'. */
  function SysWord(c: SysCmd): string {
    Replace(SysFunctionName(c)[2..], "_", "-")
  }

  function SysPrefix(c: SysCmd): string {
    SystemSymbol + SysWord(c)
  }

  /** The words a user types. */
  function SysWordTable(c: SysCmd): string {
    match c
    case RespondAll => "respond" + "-" + "all"
    case Listen => "listen"
    case Keep => "keep"
    case Admin => "admin"
    case Echo => "echo"
    case State => "state"
    case Shutdown => "shutdown"
    case Erase => "erase"
    case Debug => "debug"
  }

  lemma SysWords(c: SysCmd)
    ensures SysWord(c) == SysWordTable(c)
  {
    if c == RespondAll {
      RespondAllWord(c);
    } else {
      SysPlainWord(c);
    }
  }

  /** respond_all is typed respond-all. */
  lemma RespondAllWord(c: SysCmd)
    requires c == RespondAll
    ensures SysWord(c) == SysWordTable(c)
  {
    assert SysFunctionName(c)[2..] == SysBase(c);
    DashedOne("respond", "all");
  }

  /** Every command but respond-all has a name without '_': its word is that name. */
  lemma SysPlainWord(c: SysCmd)
    requires c != RespondAll
    ensures SysWord(c) == SysWordTable(c)
  {
    var b := SysBase(c);
    assert b == SysWordTable(c) && '_' !in b;
    assert SysFunctionName(c)[2..] == b;
    DashedPlain(b);
  }

  /** The commands are tried longest name first, and each registered command is tried once. */
  lemma SysCommandsOrder()
    ensures SortedDesc(SysCommands, SysKey)
    ensures multiset(SysCommands) == multiset(SysRegistered)
  {
    SortDescProps(SysRegistered, SysKey);
  }

  lemma SysRegisters(c: SysCmd)
    ensures c in SysRegistered
  {
  }

  /** Every command is tried. */
  lemma SysCommandsHold(c: SysCmd)
    ensures c in SysCommands
  {
    SysCommandsOrder();
    SysRegisters(c);
    assert c in multiset(SysRegistered);
  }

  /** No system command word is the start of another, so a message starts with at most one. */
  /** The command whose word begins with the letters x, y. */
  function SysOfInitials(x: char, y: char): Option<SysCmd> {
    if x == 'r' then Some(RespondAll)
    else if x == 'l' then Some(Listen)
    else if x == 'k' then Some(Keep)
    else if x == 'a' then Some(Admin)
    else if x == 'e' then (if y == 'c' then Some(Echo) else if y == 'r' then Some(Erase) else None)
    else if x == 's' then (if y == 't' then Some(State) else if y == 'h' then Some(Shutdown) else None)
    else if x == 'd' then Some(Debug)
    else None
  }

  /** The first two letters of a word name its command. */
  lemma SysInitialsName(c: SysCmd)
    ensures |SysWordTable(c)| >= 2 && SysOfInitials(SysWordTable(c)[0], SysWordTable(c)[1]) == Some(c)
  {
    match c {
      case RespondAll => {}
      case Listen => {}
      case Keep => {}
      case Admin => {}
      case Echo => {}
      case State => {}
      case Shutdown => {}
      case Erase => {}
      case Debug => {}
    }
  }

  /** Two words whose first two letters differ are never both typed after "\". */
  lemma WordsExclude(content: string, wc: string, wd: string)
    requires |wc| >= 2 && |wd| >= 2 && (wc[0] != wd[0] || wc[1] != wd[1])
    requires StartsWith(content, SystemSymbol + wc)
    ensures !StartsWith(content, SystemSymbol + wd)
  {
    var pc, pd := SystemSymbol + wc, SystemSymbol + wd;
    if wc[0] != wd[0] {
      assert pc[1] == wc[0] && pd[1] == wd[0];
      PrefixExcludes(content, pc, pd, 1);
    } else {
      assert pc[2] == wc[1] && pd[2] == wd[1];
      PrefixExcludes(content, pc, pd, 2);
    }
  }

  lemma SysPrefixesDisjoint(content: string, c: SysCmd, d: SysCmd)
    requires StartsWith(content, SysPrefix(c)) && c != d
    ensures !StartsWith(content, SysPrefix(d))
  {
    SysInitialsName(c);
    SysInitialsName(d);
    SysWords(c);
    SysWords(d);
    WordsExclude(content, SysWordTable(c), SysWordTable(d));
  }

  /** The handler a system message reaches: one of the commands, or `__unknown`. */
  datatype SysHandler = Command(cmd: SysCmd) | Unknown

  lemma SysOthersExcluded(content: string, c: SysCmd)
    requires StartsWith(content, SysPrefix(c))
    ensures forall d :: d != c ==> !StartsWith(content, SysPrefix(d))
  {
    forall d | d != c ensures !StartsWith(content, SysPrefix(d)) {
      SysPrefixesDisjoint(content, c, d);
    }
  }

  /** The handler chosen for a message's content (system_commands.py:219-224): the first command
      whose word follows "\", else `__unknown`, whose template accepts any content starting with
      "\" and none other. */
  function SysSelected(content: string): Option<SysHandler> {
    match FirstMatch(SysCommands, content, SysPrefix)
    case Some(c) => Some(Command(c))
    case None => if StartsWith(content, SystemSymbol) then Some(Unknown) else None
  }

  /** The first match is the one command whose word starts the message: the choice does not
      depend on the order of the list. */
  lemma SysSelectedIsOnlyMatch(content: string, c: SysCmd)
    ensures SysSelected(content) == Some(Command(c)) <==> StartsWith(content, SysPrefix(c))
  {
    if StartsWith(content, SysPrefix(c)) {
      SysOthersExcluded(content, c);
      SysCommandsHold(c);
      FirstMatchOfOnly(SysCommands, content, SysPrefix, c);
    }
  }

  /** A message as far as the dispatch reads it: its id, raw and cleaned text, author, mentioned
      users, channel, and whether the channel is private. */
  datatype InMessage = InMessage(id: int, content: string, cleanContent: string, author: int,
                                 mentions: seq<int>, channel: int, direct: bool)

  /** What a handler answers (the texts of system_commands.py:26-174). */
  datatype SysReply =
    | NotAuthorized
    | RespondAllNow(on: bool)
    | AlreadyListening
    | ListeningOn(channel: int)
    | DeletingNow(on: bool)
    | AdminsAre(admins: seq<int>)
    | StateOf(config: Configs.ConfigState)
    | ImpossibleInDm
    | DebugNow(on: bool)
    | UnknownCommand

  /** What a system command does outside the configuration: a reply, a text sent as it is, a
      message deleted, the bot shut down. */
  datatype SysEffect = Reply(reply: SysReply) | Sent(text: string) | Deleted(id: int) | ShutDown

  /** misc.delete (misc.py:80-92): skipped in debug mode unless forced, and in private channels. */
  function MiscDeletes(debug: bool, tryForce: bool, direct: bool): bool {
    !(debug && !tryForce) && !direct
  }

  /** The echo text (system_commands.py:93): the content without '<' and '>', so mentions show
      as their ids. */
  function Unbracketed(s: string): (r: string)
    ensures '<' !in r && '>' !in r
    ensures forall ch :: ch in r ==> ch in s
  {
    RemovedChar(s, '<', '>');
    var t := Replace(s, "<", "");
    RemovedChar(t, '>', '<');
    Replace(t, ">", "")
  }

  /** Replacing a character by nothing leaves no occurrence of it and adds no character. */
  lemma {:induction false} RemovedChar(s: string, c: char, other: char)
    ensures c !in Replace(s, [c], [])
    ensures forall ch :: ch in Replace(s, [c], []) ==> ch in s
    decreases |s|
  {
    if |s| >= 1 {
      RemovedChar(s[1..], c, other);
      assert s[..1] == [s[0]];
    }
  }

  /** The configuration after a handler ran (system_commands.py:30-170 with configuration.py:62-88):
      a non-admin changes nothing; the toggles flip their switch; listen appends the channel, but
      only outside private channels; admin appends the mentioned users when the author is an
      admin. */
  function SysConfigAfter(c: Configs.ConfigState, h: SysHandler, st: CallState, m: InMessage): (r: Configs.ConfigState)
    ensures st == NoAdmin || h == Unknown ==> r == c
    ensures r.channels == if h == Command(Listen) && st == Valid then c.channels + [m.channel] else c.channels
    ensures r.debug == (c.debug != (h == Command(Debug) && st != NoAdmin))
    ensures r.respondAll == (c.respondAll != (h == Command(RespondAll) && st != NoAdmin))
    ensures r.keepMessages == (c.keepMessages != (h == Command(Keep) && st != NoAdmin))
    ensures r.admins == c.admins || (h == Command(Admin) && st != NoAdmin && r.admins == c.admins + m.mentions)
  {
    if st == NoAdmin || h.Unknown? then c
    else match h.cmd
      case RespondAll => c.(respondAll := !c.respondAll)
      case Keep => c.(keepMessages := !c.keepMessages)
      case Debug => c.(debug := !c.debug)
      case Listen => if st == Valid then c.(channels := c.channels + [m.channel]) else c
      case Admin => if m.author in c.admins || c.admins == [] then c.(admins := c.admins + m.mentions) else c
      case _ => c
  }

  /** Whether the handler writes the configuration file. */
  function SysWrites(c: Configs.ConfigState, h: SysHandler, st: CallState, m: InMessage): bool {
    st != NoAdmin && h.Command? &&
    (h.cmd in {RespondAll, Keep, Debug} || (h.cmd == Listen && st == Valid)
     || (h.cmd == Admin && (m.author in c.admins || c.admins == [])))
  }

  /** The messages of the history "\erase" deletes: all but the command message. */
  function ErasedOthers(history: seq<int>, id: int): (r: seq<SysEffect>)
    ensures forall e :: e in r ==> e.Deleted? && e.id != id && e.id in history
    ensures forall x :: x in history && x != id ==> Deleted(x) in r
  {
    if history == [] then []
    else (if history[0] != id then [Deleted(history[0])] else []) + ErasedOthers(history[1..], id)
  }

  /** What the handler does besides the configuration (system_commands.py:25-174), given the
      configuration before (c) and after (n) it ran. */
  function SysRun(c: Configs.ConfigState, n: Configs.ConfigState, h: SysHandler, st: CallState, m: InMessage,
                  history: seq<int>): seq<SysEffect>
  {
    if h.Unknown? then [Reply(UnknownCommand)]
    else if st == NoAdmin then [Reply(NotAuthorized)]
    else match h.cmd
      case RespondAll => [Reply(RespondAllNow(n.respondAll))]
      case Listen => if st == DirectMessage then [Reply(AlreadyListening)] else [Reply(ListeningOn(m.channel))]
      case Keep => [Reply(DeletingNow(!n.keepMessages))]
      case Admin => [Reply(AdminsAre(n.admins))]
      case Echo => [Sent(Unbracketed(m.content))]
      case State => [Reply(StateOf(c))]
      case Shutdown => (if c.keepMessages && MiscDeletes(c.debug, true, m.direct) then [Deleted(m.id)] else []) + [ShutDown]
      case Erase =>
        if st == DirectMessage then [Reply(ImpossibleInDm)]
        else ErasedOthers(history, m.id) + (if c.keepMessages && MiscDeletes(c.debug, true, m.direct) then [Deleted(m.id)] else [])
      case Debug => [Reply(DebugNow(n.debug))]
  }

  /** `__handling_template` (system_commands.py:188-208): the handler's effects, then, except for
      DirectMessage, the command message is deleted through misc.delete with the debug flag as
      the handler left it. */
  function SysEffects(c: Configs.ConfigState, h: SysHandler, st: CallState, m: InMessage, history: seq<int>): seq<SysEffect> {
    var n := SysConfigAfter(c, h, st, m);
    SysRun(c, n, h, st, m, history)
      + (if st != DirectMessage && MiscDeletes(n.debug, false, m.direct) then [Deleted(m.id)] else [])
  }

  /** An admin writing in a private channel never has a message deleted. */
  lemma SysDirectDeletesNothing(c: Configs.ConfigState, h: SysHandler, m: InMessage, history: seq<int>)
    requires m.direct
    ensures forall e :: e in SysEffects(c, h, DirectMessage, m, history) ==> !e.Deleted?
  {
  }

  /** Outside private channels, and unless debug mode is on after the handler, the command
      message is deleted last, both for an admin and for anyone else. */
  lemma SysCommandMessageDeleted(c: Configs.ConfigState, h: SysHandler, st: CallState, m: InMessage, history: seq<int>)
    requires st != DirectMessage && !m.direct
    requires !SysConfigAfter(c, h, st, m).debug
    ensures var es := SysEffects(c, h, st, m, history); |es| > 0 && es[|es| - 1] == Deleted(m.id)
  {
  }

  /** "\debug" in a guild by an admin switches debug mode on and therefore keeps its own
      command message, which the template would otherwise delete. */
  lemma DebugOnKeepsItsMessage(c: Configs.ConfigState, m: InMessage, history: seq<int>)
    requires !c.debug && !m.direct
    ensures Deleted(m.id) !in SysEffects(c, Command(Debug), Valid, m, history)
  {
    var es := SysEffects(c, Command(Debug), Valid, m, history);
    assert es == [Reply(DebugNow(true))];
  }

  /** The outcome of a dispatch: not run, or run with a handler and a call state. */
  datatype SysDispatch = NotRun | Ran(handler: SysHandler, state: CallState)

  /** One handler run in its call state, through the configuration's own operations. */
  method RunSystem(config: Configs.Configuration, h: SysHandler, st: CallState, m: InMessage, history: seq<int>)
    returns (effects: seq<SysEffect>)
    modifies config
    ensures config.State() == SysConfigAfter(old(config.State()), h, st, m)
    ensures effects == SysRun(old(config.State()), config.State(), h, st, m, history)
    ensures config.saved == if SysWrites(old(config.State()), h, st, m) then Some(config.State()) else old(config.saved)
  {
    if h.Unknown? {
      return [Reply(UnknownCommand)];
    }
    if st == NoAdmin {
      return [Reply(NotAuthorized)];
    }
    var c := config.State();
    match h.cmd {
      case RespondAll =>
        var on := config.ToggleRespondAll();
        effects := [Reply(RespondAllNow(on))];
      case Listen =>
        if st == DirectMessage {
          effects := [Reply(AlreadyListening)];
        } else {
          config.AddChannel(m.channel);
          effects := [Reply(ListeningOn(m.channel))];
        }
      case Keep =>
        var on := config.ToggleKeepMessages();
        effects := [Reply(DeletingNow(!on))];
      case Admin =>
        config.AddAdmins(m.author, m.mentions);
        effects := [Reply(AdminsAre(config.admins))];
      case Echo =>
        effects := [Sent(Unbracketed(m.content))];
      case State =>
        effects := [Reply(StateOf(c))];
      case Shutdown =>
        effects := if c.keepMessages && MiscDeletes(c.debug, true, m.direct) then [Deleted(m.id)] else [];
        effects := effects + [ShutDown];
      case Erase =>
        if st == DirectMessage {
          effects := [Reply(ImpossibleInDm)];
        } else {
          effects := ErasedOthers(history, m.id);
          if c.keepMessages && MiscDeletes(c.debug, true, m.direct) {
            effects := effects + [Deleted(m.id)];
          }
        }
      case Debug =>
        var on := config.ToggleDebug();
        effects := [Reply(DebugNow(on))];
    }
  }

  /** handle_system (system_commands.py:215-225): false exactly when the cleaned, stripped text
      does not start with "\"; otherwise the selected handler runs in the author's call state,
      and nothing at all runs when neither a command nor `__unknown` accepts the raw text. */
  method HandleSystem(config: Configs.Configuration, m: InMessage, history: seq<int>)
    returns (handled: bool, ran: SysDispatch, effects: seq<SysEffect>)
    modifies config
    ensures handled == StartsWith(Strip(m.cleanContent), SystemSymbol)
    ensures ran == if handled && SysSelected(m.content).Some?
                   then Ran(SysSelected(m.content).value,
                            CallStateOf(old(config.admins) == [] || m.author in old(config.admins), m.direct))
                   else NotRun
    ensures ran.Ran? ==> config.State() == SysConfigAfter(old(config.State()), ran.handler, ran.state, m)
                         && effects == SysEffects(old(config.State()), ran.handler, ran.state, m, history)
                         && config.saved == if SysWrites(old(config.State()), ran.handler, ran.state, m)
                                            then Some(config.State()) else old(config.saved)
    ensures ran.NotRun? ==> config.State() == old(config.State()) && config.saved == old(config.saved) && effects == []
  {
    if !StartsWith(Strip(m.cleanContent), SystemSymbol) {
      return false, NotRun, [];
    }
    handled := true;
    var found := FindCommand(SysCommands, m.content, SysPrefix);
    var h: SysHandler;
    if found.Some? {
      h := Command(found.value);
    } else if StartsWith(m.content, SystemSymbol) {
      h := Unknown;
    } else {
      return true, NotRun, [];
    }
    var isAdmin := config.IsAdmin(m.author);
    var st := CallStateOf(isAdmin, m.direct);
    ran := Ran(h, st);
    effects := RunSystem(config, h, st, m, history);
    if st != DirectMessage && MiscDeletes(config.debug, false, m.direct) {
      effects := effects + [Deleted(m.id)];
    }
  }

  // ----- user commands (user_commands/commands.py) -----

  /** USER_COMMAND_SYMBOL (constants.py:4). */
  const UserSymbol := "/"

  /** The registered user commands (user_commands/commands.py:121). */
  datatype UserCmd = Help | Roll | Teams | Summon | Reminder

  const UserRegistered: seq<UserCmd> := [Help, Roll, Teams, Summon, Reminder]

  function UserFunctionName(c: UserCmd): string {
    "__" + match c
           case Help => "help"
           case Roll => "roll"
           case Teams => "teams"
           case Summon => "summon"
           case Reminder => "reminder"
  }

  /** The sort key (user_commands/commands.py:125). */
  function UserKey(c: UserCmd): int {
    |UserFunctionName(c)|
  }

  const UserCommands: seq<UserCmd> := SortDesc(UserRegistered, UserKey)

  /** The word typed for a command (user_commands/commands.py:150). */
  function UserWord(c: UserCmd): string {
    Replace(UserFunctionName(c)[2..], "_", "-")
  }

  function UserPrefix(c: UserCmd): string {
    UserSymbol + UserWord(c)
  }

  /** The words a user types. */
  function UserWordTable(c: UserCmd): string {
    match c
    case Help => "help"
    case Roll => "roll"
    case Teams => "teams"
    case Summon => "summon"
    case Reminder => "reminder"
  }

  lemma UserWords(c: UserCmd)
    ensures UserWord(c) == UserWordTable(c)
  {
    match c {
      case Help => WordOfPlain("help");
      case Roll => WordOfPlain("roll");
      case Teams => WordOfPlain("teams");
      case Summon => WordOfPlain("summon");
      case Reminder => WordOfPlain("reminder");
    }
  }

  lemma UserCommandsOrder()
    ensures SortedDesc(UserCommands, UserKey)
    ensures multiset(UserCommands) == multiset(UserRegistered)
  {
    SortDescProps(UserRegistered, UserKey);
  }

  lemma UserRegisters(c: UserCmd)
    ensures c in UserRegistered
  {
  }

  /** Every command is tried. */
  lemma UserCommandsHold(c: UserCmd)
    ensures c in UserCommands
  {
    UserCommandsOrder();
    UserRegisters(c);
    assert c in multiset(UserRegistered);
  }

  /** The command whose word begins with the letters x, y. */
  function UserOfInitials(x: char, y: char): Option<UserCmd> {
    if x == 'h' then Some(Help)
    else if x == 'r' then (if y == 'o' then Some(Roll) else if y == 'e' then Some(Reminder) else None)
    else if x == 't' then Some(Teams)
    else if x == 's' then Some(Summon)
    else None
  }

  /** The first two letters of a word name its command. */
  lemma UserInitialsName(c: UserCmd)
    ensures |UserWordTable(c)| >= 2 && UserOfInitials(UserWordTable(c)[0], UserWordTable(c)[1]) == Some(c)
  {
    match c {
      case Help => {}
      case Roll => {}
      case Teams => {}
      case Summon => {}
      case Reminder => {}
    }
  }

  lemma UserPrefixesDisjoint(content: string, c: UserCmd, d: UserCmd)
    requires StartsWith(content, UserPrefix(c)) && c != d
    ensures !StartsWith(content, UserPrefix(d))
  {
    UserWords(c);
    UserWords(d);
    UserInitialsName(c);
    UserInitialsName(d);
    if UserPrefix(c)[1] != UserPrefix(d)[1] {
      PrefixExcludes(content, UserPrefix(c), UserPrefix(d), 1);
    } else {
      assert UserPrefix(c)[2] != UserPrefix(d)[2];
      PrefixExcludes(content, UserPrefix(c), UserPrefix(d), 2);
    }
  }

  datatype UserHandler = UserCommand(cmd: UserCmd) | UnknownUser

  lemma UserOthersExcluded(content: string, c: UserCmd)
    requires StartsWith(content, UserPrefix(c))
    ensures forall d :: d != c ==> !StartsWith(content, UserPrefix(d))
  {
    forall d | d != c ensures !StartsWith(content, UserPrefix(d)) {
      UserPrefixesDisjoint(content, c, d);
    }
  }

  /** The handler chosen for a message's content (user_commands/commands.py:149-154). */
  function UserSelected(content: string): Option<UserHandler> {
    match FirstMatch(UserCommands, content, UserPrefix)
    case Some(c) => Some(UserCommand(c))
    case None => if StartsWith(content, UserSymbol) then Some(UnknownUser) else None
  }

  lemma UserSelectedIsOnlyMatch(content: string, c: UserCmd)
    ensures UserSelected(content) == Some(UserCommand(c)) <==> StartsWith(content, UserPrefix(c))
  {
    if StartsWith(content, UserPrefix(c)) {
      UserOthersExcluded(content, c);
      UserCommandsHold(c);
      FirstMatchOfOnly(UserCommands, content, UserPrefix, c);
    }
  }

  /** What a user command does: the help text sent, a die rolled, no voice channel found, the
      teams, the summon or reminder command run (not part of this model), the unknown command
      answered, the command message deleted. */
  datatype UserEffect =
    | HelpSent
    | Rolled(n: int)
    | NoVoiceChannel
    | TeamsOf(groups: seq<seq<string>>)
    | SummonRan
    | ReminderRan
    | UnknownUserCommand
    | UserDeleted(id: int)

  /** randint(1, dice) as a function of the random draw. */
  function RollOf(dice: int, draw: nat): (r: int)
    requires dice >= 1
    ensures 1 <= r <= dice
  {
    1 + draw % dice
  }

  /** Every side of the die can come up. */
  lemma RollCovers(dice: int, v: int)
    requires 1 <= v <= dice
    ensures RollOf(dice, v - 1) == v
  {
  }

  /** The handler's effects (user_commands/commands.py:15-90): roll reads the number of sides
      with default 6; teams reads the number of teams with default 2 and deals the (shuffled)
      members of the author's voice channel round-robin, or answers that there is none. */
  function UserRun(h: UserHandler, m: InMessage, draw: nat, voice: Option<seq<string>>): seq<UserEffect> {
    match h
    case UnknownUser => [UnknownUserCommand]
    case UserCommand(c) =>
      match c
      case Help => [HelpSent]
      case Roll => [Rolled(RollOf(Helpers.ReadNumberParam(m.content, 6), draw))]
      case Teams =>
        if voice.None? then [NoVoiceChannel]
        else [TeamsOf(RoundRobin.Partition(voice.value, Helpers.ReadNumberParam(m.content, 2)))]
      case Summon => [SummonRan]
      case Reminder => [ReminderRan]
  }

  /** `__handling_template` (user_commands/commands.py:99-118): the handler, then the command
      message is deleted through bot_base.delete, which leaves private channels alone. */
  function UserEffects(h: UserHandler, m: InMessage, draw: nat, voice: Option<seq<string>>): seq<UserEffect> {
    UserRun(h, m, draw, voice) + (if m.direct then [] else [UserDeleted(m.id)])
  }

  /** The roll lies between 1 and the number read (default 6); the teams are as many groups as
      the number read (default 2), holding every member of the voice channel once. */
  lemma UserEffectsBounds(h: UserHandler, m: InMessage, draw: nat, voice: Option<seq<string>>)
    ensures forall n :: Rolled(n) in UserEffects(h, m, draw, voice) ==> 1 <= n <= Helpers.ReadNumberParam(m.content, 6)
    ensures forall g :: TeamsOf(g) in UserEffects(h, m, draw, voice) ==>
              voice.Some? && |g| == Helpers.ReadNumberParam(m.content, 2)
              && multiset(RoundRobin.Flatten(g)) == multiset(voice.value)
  {
    var es := UserEffects(h, m, draw, voice);
    if h == UserCommand(Teams) && voice.Some? {
      RoundRobin.PartitionIsPermutation(voice.value, Helpers.ReadNumberParam(m.content, 2));
    }
  }

  /** One user handler; the teams are dealt by the loop of user_commands/commands.py:70-73. */
  method RunUser(h: UserHandler, m: InMessage, draw: nat, voice: Option<seq<string>>) returns (effects: seq<UserEffect>)
    ensures effects == UserRun(h, m, draw, voice)
  {
    match h {
      case UnknownUser => effects := [UnknownUserCommand];
      case UserCommand(c) =>
        match c {
          case Help => effects := [HelpSent];
          case Roll =>
            var dice := Helpers.ReadNumberParam(m.content, 6);
            effects := [Rolled(RollOf(dice, draw))];
          case Teams =>
            var num := Helpers.ReadNumberParam(m.content, 2);
            if voice.None? {
              effects := [NoVoiceChannel];
            } else {
              var groups := RoundRobin.Distribute(voice.value, num);
              effects := [TeamsOf(groups)];
            }
          case Summon => effects := [SummonRan];
          case Reminder => effects := [ReminderRan];
        }
    }
  }

  /** handle_user (user_commands/commands.py:138-155): false exactly when the cleaned, stripped
      text does not start with "/"; otherwise the selected handler runs and the command message
      is deleted outside private channels. */
  method HandleUser(m: InMessage, draw: nat, voice: Option<seq<string>>)
    returns (handled: bool, ran: Option<UserHandler>, effects: seq<UserEffect>)
    ensures handled == StartsWith(Strip(m.cleanContent), UserSymbol)
    ensures ran == if handled then UserSelected(m.content) else None
    ensures effects == if ran.Some? then UserEffects(ran.value, m, draw, voice) else []
  {
    if !StartsWith(Strip(m.cleanContent), UserSymbol) {
      return false, None, [];
    }
    handled := true;
    var found := FindCommand(UserCommands, m.content, UserPrefix);
    if found.Some? {
      ran := Some(UserCommand(found.value));
    } else if StartsWith(m.content, UserSymbol) {
      ran := Some(UnknownUser);
    } else {
      return true, None, [];
    }
    effects := RunUser(ran.value, m, draw, voice);
    if !m.direct {
      effects := effects + [UserDeleted(m.id)];
    }
  }
}
