// The per-user router: which dialog a message goes to, and the stack of suspended
// dialogs. The Python bot (deltabot.py) and three Kotlin generations
// (UserBotInstance.kt in cognitive/, cognitive/dialog/ and
// cognitive/dialogmanagement/) share the same precedence: the suspended dialog,
// then "not understood" for no intents or a low score, then the QnA dialog for
// intent names with the prefix "QnA", then the intent table.
//
// The router holds dialog ids; what the chosen dialog's proceed returns is an
// input (outcomeOf), since the dialogs themselves are modelled on their own.
// The intent table's keys are lower case, so the intent name is looked up in
// lower case (see Findings in README for the exact-case lookup of the source).

module Routing {
  import opened Text
  import opened DialogEngine
  import opened Nlu

  const NotUnderstandingId := "NotUnderstanding"
  const QnAId := "QnA"
  const ClockId := "Clock"
  const DebugId := "Debug"
  const NewsId := "News"
  const ShutdownId := "Shutdown"
  const CleanupId := "Cleanup"
  const QnAAnswerId := "QnAAnswer"
  const ChooseId := "Choose"
  const InternalErrorId := "InternalError"

  /** The dialogs a Python BotInstance loads (deltabot.py:27-38). */
  const PyDialogs: seq<string> :=
    [NotUnderstandingId, QnAId, ClockId, DebugId, NewsId, ShutdownId, CleanupId, QnAAnswerId, ChooseId]

  /** The Python intent table, keyed by lower-cased intent names (deltabot.py:40-50). */
  const PyIntentTable: map<string, string> :=
    map["none" := NotUnderstandingId, "qna" := QnAId, "clock" := ClockId, "debug" := DebugId,
        "news" := NewsId, "shutdown" := ShutdownId, "cleanup" := CleanupId,
        "answer" := QnAAnswerId, "choose" := ChooseId]

  predicate LowerCase(s: string) {
    Lower(s) == s
  }

  /** __lookup_dialog (deltabot.py:52-53): the position of the first loaded dialog whose id is
      the chosen one, or None when there is no chosen id or no dialog has it. */
  function LookupDialog(dialogs: seq<string>, id: Option<string>): (r: Option<nat>)
    ensures r.Some? ==> id.Some? && r.value < |dialogs| && dialogs[r.value] == id.value
                        && id.value !in dialogs[..r.value]
    ensures r.None? <==> id.None? || id.value !in dialogs
    decreases |dialogs|
  {
    if id.None? || dialogs == [] then None
    else if dialogs[0] == id.value then Some(0)
    else match LookupDialog(dialogs[1..], id)
      case None => None
      case Some(k) =>
        assert dialogs[..k + 1] == [dialogs[0]] + dialogs[1..][..k];
        Some(k + 1)
  }

  /** The dialog a lookup found. */
  function Found(dialogs: seq<string>, id: Option<string>): Option<string> {
    match LookupDialog(dialogs, id)
    case None => None
    case Some(k) => Some(dialogs[k])
  }

  /** Popping index 0 of the Python list (or nothing, when it is empty). */
  function PopFront(stack: seq<string>): seq<string> {
    if stack == [] then [] else stack[1..]
  }

  /** The id the Python handle chooses before the lookup (deltabot.py:60-72), with the table
      keyed by the lower-cased intent name. */
  function PyChoose(stack: seq<string>, intents: Option<seq<Intent>>, threshold: real): Option<string> {
    if stack != [] then Some(stack[0])
    else if intents.None? || intents.value == [] then Some(NotUnderstandingId)
    else
      var intent := intents.value[0];
      if intent.score <= threshold then Some(NotUnderstandingId)
      else if StartsWith(intent.name, "QnA") then Some(QnAId)
      else if Lower(intent.name) in PyIntentTable then Some(PyIntentTable[Lower(intent.name)])
      else None
  }

  /** The dialog the Python handle proceeds with, or None for "Dialog nicht gefunden". */
  function PyRoute(stack: seq<string>, intents: Option<seq<Intent>>, threshold: real): Option<string> {
    Found(PyDialogs, PyChoose(stack, intents, threshold))
  }

  /** Every id of the intent table names a loaded dialog. */
  lemma PyTableTargetsLoaded(key: string)
    requires key in PyIntentTable
    ensures PyIntentTable[key] in PyDialogs
  {
  }

  /** The routing precedence: a suspended dialog wins regardless of intents; otherwise no
      intents or a top score at or below the threshold give NotUnderstanding for any intent
      name; otherwise a name with the prefix "QnA" gives QnA; otherwise the table decides, and
      a name missing from it is the only way to get no dialog. */
  lemma PyRoutingPrecedence(stack: seq<string>, intents: Option<seq<Intent>>, threshold: real)
    requires forall i :: 0 <= i < |stack| ==> stack[i] in PyDialogs
    ensures stack != [] ==> PyRoute(stack, intents, threshold) == Some(stack[0])
    ensures stack == [] && (intents.None? || intents.value == []) ==>
      PyRoute(stack, intents, threshold) == Some(NotUnderstandingId)
    ensures stack == [] && intents.Some? && intents.value != [] && intents.value[0].score <= threshold ==>
      PyRoute(stack, intents, threshold) == Some(NotUnderstandingId)
    ensures stack == [] && intents.Some? && intents.value != [] && intents.value[0].score > threshold
            && StartsWith(intents.value[0].name, "QnA") ==>
      PyRoute(stack, intents, threshold) == Some(QnAId)
    ensures PyRoute(stack, intents, threshold).None? <==>
      stack == [] && intents.Some? && intents.value != [] && intents.value[0].score > threshold
      && !StartsWith(intents.value[0].name, "QnA") && Lower(intents.value[0].name) !in PyIntentTable
    ensures PyRoute(stack, intents, threshold).Some? ==> PyRoute(stack, intents, threshold).value in PyDialogs
  {
    var c := PyChoose(stack, intents, threshold);
    if stack == [] && intents.Some? && intents.value != [] && intents.value[0].score > threshold
       && !StartsWith(intents.value[0].name, "QnA") && Lower(intents.value[0].name) in PyIntentTable {
      PyTableTargetsLoaded(Lower(intents.value[0].name));
    }
  }

  /** The choice as written in deltabot.py:67: the exact intent name is looked up in the table
      whose keys are lower case. */
  function PyChooseAsWritten(stack: seq<string>, intents: Option<seq<Intent>>, threshold: real): Option<string> {
    if stack != [] then Some(stack[0])
    else if intents.None? || intents.value == [] then Some(NotUnderstandingId)
    else
      var intent := intents.value[0];
      if intent.score <= threshold then Some(NotUnderstandingId)
      else if StartsWith(intent.name, "QnA") then Some(QnAId)
      else if intent.name in PyIntentTable then Some(PyIntentTable[intent.name])
      else None
  }

  /** The two lookups agree on lower-case intent names. */
  lemma PyChoiceAgreesOnLowerCase(stack: seq<string>, intents: Option<seq<Intent>>, threshold: real)
    requires intents.Some? && intents.value != [] ==> LowerCase(intents.value[0].name)
    ensures PyChooseAsWritten(stack, intents, threshold) == PyChoose(stack, intents, threshold)
  {
  }

  /** The intent "Clock" with a high score finds no dialog as written, but the Clock dialog once
      the name is lower-cased. */
  lemma PyCapitalisedIntentIsNotFound()
    ensures LookupDialog(PyDialogs, PyChooseAsWritten([], Some([Intent("Clock", 0.95)]), 0.7)).None?
    ensures PyRoute([], Some([Intent("Clock", 0.95)]), 0.7) == Some(ClockId)
  {
    assert !StartsWith("Clock", "QnA") by { assert "Clock"[..3][0] == 'C' != "QnA"[0]; }
    LowerClock();
    ClockKeys();
    assert PyChooseAsWritten([], Some([Intent("Clock", 0.95)]), 0.7).None?;
    assert PyChoose([], Some([Intent("Clock", 0.95)]), 0.7) == Some(ClockId);
  }

  lemma ClockKeys()
    ensures "Clock" !in PyIntentTable && "clock" in PyIntentTable && PyIntentTable["clock"] == ClockId
  {
  }

  lemma LowerClock()
    ensures Lower("Clock") == "clock"
  {
    assert LowerChar('C') == 'c';
    assert Lower("Clock") == [LowerChar('C')] + Lower("lock");
  }

  /** What handle did with a message: the lookup failed, or the dialog ran to that result. */
  datatype PyOutcome = NotFound | Proceeded(id: string, result: ProceedResult)

  /** A Python BotInstance: the active dialog stack holds dialog ids, front first. */
  class BotInstance {
    var stack: seq<string>

    ghost predicate Valid()
      reads this
    {
      |stack| <= 1 && forall i :: 0 <= i < |stack| ==> stack[i] in PyDialogs
    }

    constructor ()
      ensures Valid() && stack == []
    {
      stack := [];
    }

    /** has_active_dialog (deltabot.py:83-84). */
    function HasActiveDialog(): (b: bool)
      reads this
      ensures b <==> |stack| > 0
    {
      |stack| != 0
    }

    /** handle (deltabot.py:55-81): pop the suspended id, choose and look up the dialog, report a
        missing dialog without proceeding, and push the id back only on WAIT_FOR_INPUT. The pop
        comes first, so a raising dialog leaves nothing suspended. */
    method Handle(intents: Option<seq<Intent>>, threshold: real, outcomeOf: string -> ProceedResult)
      returns (o: PyOutcome)
      requires Valid()
      modifies this
      ensures Valid()
      ensures var route := PyRoute(old(stack), intents, threshold);
        && (route.None? ==> o == NotFound && stack == PopFront(old(stack)))
        && (route.Some? ==>
              && o == Proceeded(route.value, outcomeOf(route.value))
              && stack == (if outcomeOf(route.value) == Finished(WaitForInput) then [route.value] else [])
                          + PopFront(old(stack)))
    {
      var dialog: Option<string>;
      if |stack| != 0 {
        dialog := Some(stack[0]);
        stack := stack[1..];
      } else if intents.None? || |intents.value| == 0 {
        dialog := Some(NotUnderstandingId);
      } else {
        var intent := intents.value[0].name;
        var score := intents.value[0].score;
        var key := Lower(intent);
        dialog := if key in PyIntentTable then Some(PyIntentTable[key]) else None;
        if score <= threshold {
          dialog := Some(NotUnderstandingId);
        } else if StartsWith(intent, "QnA") {
          dialog := Some(QnAId);
        }
      }
      var found := LookupDialog(PyDialogs, dialog);
      if found.None? {
        return NotFound;
      }
      var id := PyDialogs[found.value];
      var result := outcomeOf(id);
      if result == Finished(WaitForInput) {
        stack := [id] + stack;
      }
      return Proceeded(id, result);
    }
  }

  /** One message as the bot's on_message sees it. */
  datatype Message = Message(author: int, own: bool, direct: bool, mentionsBot: bool, channel: int)

  /** What on_message did with a message. */
  datatype MessageRoute = OwnMessage | SystemCommand | UserCommand | Ignored | Dialog(outcome: PyOutcome)

  /** The on_message decision (deltabot.py:120-123). */
  predicate ShouldHandle(m: Message, respondAll: bool, channels: seq<int>, active: bool) {
    m.direct || ((m.mentionsBot || respondAll) && m.channel in channels) || active
  }

  /** DeltaBot's map from author ids to their BotInstance. */
  class DeltaBot {
    var instances: map<int, BotInstance>

    /** Every instance is valid, and each author has an instance of their own. */
    ghost predicate Valid()
      reads this, instances.Values
    {
      && (forall a :: a in instances ==> instances[a].Valid())
      && (forall a, b :: a in instances && b in instances && a != b ==> instances[a] != instances[b])
    }

    /** The suspended dialogs of an author: none before the author's first message. */
    ghost function StackOf(a: int): seq<string>
      reads this, instances.Values
    {
      if a in instances then instances[a].stack else []
    }

    constructor ()
      ensures Valid() && instances == map[]
    {
      instances := map[];
    }

    /** __get_bot_instance (deltabot.py:157-163): the instance is created on the author's first
        message and the same object is returned afterwards. */
    method GetBotInstance(author: int) returns (inst: BotInstance)
      requires Valid()
      modifies this
      ensures Valid() && inst.Valid()
      ensures author in old(instances) ==> inst == old(instances)[author] && instances == old(instances)
      ensures author !in old(instances) ==> fresh(inst) && inst.stack == [] && instances == old(instances)[author := inst]
      ensures unchanged(old(instances).Values)
    {
      if author in instances {
        inst := instances[author];
      } else {
        inst := new BotInstance();
        instances := instances[author := inst];
      }
    }

    /** on_message (deltabot.py:102-131): own messages are ignored, system and then user commands
        take precedence and decide alone whether they handled the message (they are modelled in
        the command modules), and a message reaches the author's dialogs iff it is a direct
        message, or the bot is mentioned or responds to all in a configured channel, or the
        author has a suspended dialog. */
    method OnMessage(m: Message, handledBySystem: bool, handledByUser: bool, respondAll: bool,
                     channels: seq<int>, intents: Option<seq<Intent>>, threshold: real,
                     outcomeOf: string -> ProceedResult) returns (route: MessageRoute)
      requires Valid()
      modifies this, instances.Values
      ensures Valid()
      ensures m.own ==> route == OwnMessage
      ensures !m.own && handledBySystem ==> route == SystemCommand
      ensures !m.own && !handledBySystem && handledByUser ==> route == UserCommand
      ensures !m.own && !handledBySystem && !handledByUser ==> m.author in instances
      ensures !m.own && !handledBySystem && !handledByUser && m.author in old(instances) ==>
        (route.Dialog? <==> ShouldHandle(m, respondAll, channels, old(instances[m.author].stack) != []))
      ensures !m.own && !handledBySystem && !handledByUser && m.author !in old(instances) ==>
        (route.Dialog? <==> ShouldHandle(m, respondAll, channels, false))
      ensures route.Dialog? ==> m.author in instances
      ensures m.own || handledBySystem || handledByUser ==> instances == old(instances)
      ensures !m.own && !handledBySystem && !handledByUser ==> instances.Keys == old(instances.Keys) + {m.author}
      ensures forall a :: a in old(instances) && a != m.author ==>
                a in instances && instances[a] == old(instances[a]) && StackOf(a) == old(StackOf(a))
      ensures !route.Dialog? ==> StackOf(m.author) == old(StackOf(m.author))
      ensures route.Dialog? ==>
        var before := old(StackOf(m.author));
        var r := PyRoute(before, intents, threshold);
        && (r.None? ==> route.outcome == NotFound && StackOf(m.author) == PopFront(before))
        && (r.Some? ==>
              && route.outcome == Proceeded(r.value, outcomeOf(r.value))
              && StackOf(m.author) == (if outcomeOf(r.value) == Finished(WaitForInput) then [r.value] else [])
                                      + PopFront(before))
    {
      if m.own {
        return OwnMessage;
      }
      if handledBySystem {
        return SystemCommand;
      }
      if handledByUser {
        return UserCommand;
      }
      var inst := GetBotInstance(m.author);
      var handle := false;
      handle := handle || m.direct;
      handle := handle || ((m.mentionsBot || respondAll) && m.channel in channels);
      handle := handle || inst.HasActiveDialog();
      if !handle {
        return Ignored;
      }
      var o := inst.Handle(intents, threshold, outcomeOf);
      return Dialog(o);
    }
  }

  // ---------------------------------------------------------------------------
  // Kotlin routers. The stack is java.util.Stack: push and pop work at its end.

  /** The three Kotlin generations of UserBotInstance. */
  datatype KtVariant =
    | Cognitive        // cognitive/UserBotInstance.kt
    | CognitiveDialog  // cognitive/dialog/UserBotInstance.kt (adds a language)
    | DialogManagement // cognitive/dialogmanagement/UserBotInstance.kt

  /** The dialogs each generation loads (UserBotInstance.kt:20-23 and :16-19 in the older ones,
      :25-30 in dialogmanagement/). */
  function KtDialogs(v: KtVariant): seq<string> {
    if v == DialogManagement then [NotUnderstandingId, QnAId, ClockId, NewsId] else [NotUnderstandingId, QnAId]
  }

  /** The intent tables (DialogRegistry.kt:16-20; UserBotInstance.kt:24-26 and :20-22 in the
      older ones). */
  function KtIntentTable(v: KtVariant): map<string, string> {
    if v == DialogManagement then map["qna" := QnAId, "clock" := ClockId, "news" := NewsId]
    else map["qna" := QnAId]
  }

  /** Where a Kotlin handle sends a message: the help reply for "QnA-Tasks", or a dialog id. */
  datatype KtChoice = HelpReply | UseDialog(id: string)

  /** The choice of a Kotlin handle, with the table keyed by the lower-cased intent name. */
  function KtChoose(v: KtVariant, stack: seq<string>, intents: seq<Intent>, threshold: real): KtChoice {
    if stack != [] then UseDialog(stack[|stack| - 1])
    else if intents == [] then UseDialog(NotUnderstandingId)
    else
      var intent := intents[0];
      var table := KtIntentTable(v);
      var dialog := if Lower(intent.name) in table then table[Lower(intent.name)] else NotUnderstandingId;
      if intent.score <= threshold then UseDialog(NotUnderstandingId)
      else if intent.name == "QnA-Tasks" then HelpReply
      else if StartsWith(intent.name, "QnA") then UseDialog(QnAId)
      else UseDialog(dialog)
  }

  /** The choice as written (UserBotInstance.kt:48 and :41, :37 in the older ones): the exact
      intent name is looked up, and a miss falls back to NotUnderstanding. */
  function KtChooseAsWritten(v: KtVariant, stack: seq<string>, intents: seq<Intent>, threshold: real): KtChoice {
    if stack != [] then UseDialog(stack[|stack| - 1])
    else if intents == [] then UseDialog(NotUnderstandingId)
    else
      var intent := intents[0];
      var table := KtIntentTable(v);
      var dialog := if intent.name in table then table[intent.name] else NotUnderstandingId;
      if intent.score <= threshold then UseDialog(NotUnderstandingId)
      else if intent.name == "QnA-Tasks" then HelpReply
      else if StartsWith(intent.name, "QnA") then UseDialog(QnAId)
      else UseDialog(dialog)
  }

  /** In the dialogmanagement router the intent "Clock" silently goes to NotUnderstanding as
      written, and to the Clock dialog once the name is lower-cased. */
  lemma KtCapitalisedIntentIsNotUnderstood()
    ensures KtChooseAsWritten(DialogManagement, [], [Intent("Clock", 0.95)], 0.7) == UseDialog(NotUnderstandingId)
    ensures KtChoose(DialogManagement, [], [Intent("Clock", 0.95)], 0.7) == UseDialog(ClockId)
  {
    assert !StartsWith("Clock", "QnA") by { assert "Clock"[..3] != "QnA"; }
    assert Lower("Clock") == "clock" by {
      assert LowerChar('C') == 'c';
      assert Lower("Clock") == [LowerChar('C')] + Lower("lock");
    }
    assert "Clock" !in KtIntentTable(DialogManagement);
  }

  lemma KtChoiceAgreesOnLowerCase(v: KtVariant, stack: seq<string>, intents: seq<Intent>, threshold: real)
    requires intents != [] ==> LowerCase(intents[0].name)
    ensures KtChooseAsWritten(v, stack, intents, threshold) == KtChoose(v, stack, intents, threshold)
  {
  }

  /** The Kotlin routing precedence: the suspended dialog, then no intents, then the threshold,
      then "QnA-Tasks", then the "QnA" prefix, then the table with NotUnderstanding as default.
      When every suspended id is a loaded dialog, the chosen id is always a loaded dialog, so the
      `!!` of the older routers cannot fail. */
  lemma KtRoutingPrecedence(v: KtVariant, stack: seq<string>, intents: seq<Intent>, threshold: real)
    requires forall i :: 0 <= i < |stack| ==> stack[i] in KtDialogs(v)
    ensures stack != [] ==> KtChoose(v, stack, intents, threshold) == UseDialog(stack[|stack| - 1])
    ensures stack == [] && (intents == [] || intents[0].score <= threshold) ==>
      KtChoose(v, stack, intents, threshold) == UseDialog(NotUnderstandingId)
    ensures KtChoose(v, stack, intents, threshold) == HelpReply <==>
      stack == [] && intents != [] && intents[0].score > threshold && intents[0].name == "QnA-Tasks"
    ensures stack == [] && intents != [] && intents[0].score > threshold && intents[0].name != "QnA-Tasks"
            && StartsWith(intents[0].name, "QnA") ==>
      KtChoose(v, stack, intents, threshold) == UseDialog(QnAId)
    ensures KtChoose(v, stack, intents, threshold).UseDialog? ==>
      KtChoose(v, stack, intents, threshold).id in KtDialogs(v)
  {
  }

  /** The older routers know only NotUnderstanding and QnA: without a suspended dialog the choice
      is the help reply, NotUnderstanding or QnA, whatever the intents. */
  lemma KtOlderRoutersChooseBuiltIns(v: KtVariant, intents: seq<Intent>, threshold: real)
    requires v != DialogManagement
    ensures var c := KtChoose(v, [], intents, threshold);
      c == HelpReply || c == UseDialog(NotUnderstandingId) || c == UseDialog(QnAId)
  {
  }

  /** What a Kotlin handle did: replied with help, ran a dialog, or failed the `!!` lookup. */
  datatype KtOutcome = HelpReplied | RanDialog(id: string, result: ProceedResult) | NullLookup

  /** A Kotlin UserBotInstance of one generation with its stack of suspended dialog ids. */
  class UserBotInstance {
    const variant: KtVariant
    var activeDialogs: seq<string>

    ghost predicate Valid()
      reads this
    {
      |activeDialogs| <= 1
      && (variant != DialogManagement ==>
            forall i :: 0 <= i < |activeDialogs| ==> activeDialogs[i] in KtDialogs(variant))
    }

    constructor (variant: KtVariant)
      ensures Valid() && this.variant == variant && activeDialogs == []
    {
      this.variant := variant;
      activeDialogs := [];
    }

    /** handle: pop the suspended id, choose, answer "QnA-Tasks" with the help text without
        touching the stack, find the dialog (InternalErrorDialog when missing in dialogmanagement/,
        `!!` in the older generations) and push its id only on WAIT_FOR_INPUT. The older
        generations never reach the failing `!!`. */
    method Handle(intents: seq<Intent>, threshold: real, outcomeOf: string -> ProceedResult)
      returns (o: KtOutcome)
      requires Valid()
      modifies this
      ensures Valid()
      ensures o != NullLookup
      ensures var c := KtChoose(variant, old(activeDialogs), intents, threshold);
        && (c == HelpReply ==> o == HelpReplied && activeDialogs == old(activeDialogs) == [])
        && (c.UseDialog? ==>
              var id := if c.id in KtDialogs(variant) then c.id else InternalErrorId;
              var popped := if old(activeDialogs) == [] then [] else old(activeDialogs)[..|old(activeDialogs)| - 1];
              o == RanDialog(id, outcomeOf(id))
              && activeDialogs == popped + (if outcomeOf(id) == Finished(WaitForInput) then [id] else []))
    {
      var dialog: string;
      if |activeDialogs| != 0 {
        dialog := activeDialogs[|activeDialogs| - 1];
        activeDialogs := activeDialogs[..|activeDialogs| - 1];
      } else if |intents| == 0 {
        dialog := NotUnderstandingId;
      } else {
        var intent := intents[0].name;
        var score := intents[0].score;
        var table := KtIntentTable(variant);
        var key := Lower(intent);
        dialog := if key in table then table[key] else NotUnderstandingId;
        if score <= threshold {
          dialog := NotUnderstandingId;
        } else if intent == "QnA-Tasks" {
          return HelpReplied;
        } else if StartsWith(intent, "QnA") {
          dialog := QnAId;
        }
      }
      var instance: string;
      if dialog in KtDialogs(variant) {
        instance := dialog;
      } else if variant == DialogManagement {
        instance := InternalErrorId;
      } else {
        return NullLookup;
      }
      var result := outcomeOf(instance);
      if result == Finished(WaitForInput) {
        activeDialogs := activeDialogs + [instance];
      }
      return RanDialog(instance, result);
    }
  }
}
