// The question-and-answer dialogs (dialogs/qna.py). QnA answers an intent "QnA-<name>" with a
// random entry of the answer file QnA/<name>.json; QnAAnswer lets an admin add a new answer
// to such a file in three waiting steps.
//
// The QnA directory is an input: a map from each file's path to the answers it holds (the
// JSON decoding is not modelled). Random choices are an input index.

module QnADialogs {
  import opened Text
  import opened Nlu
  import opened DialogEngine

  /** The answer file of an intent: the name without its first four characters ("QnA-"), as
      Python's name[4:] (empty for shorter names). */
  function AnswerFile(intentName: string): string {
    "QnA/" + AnswerName(intentName) + ".json"
  }

  /** The intent "QnA-" + rest is answered from "QnA/" + rest + ".json". */
  lemma AnswerFileDropsPrefix(rest: string, sep: char)
    ensures AnswerFile("QnA" + [sep] + rest) == "QnA/" + rest + ".json"
  {
    assert ("QnA" + [sep] + rest)[4..] == rest;
  }

  // ---------------------------------------------------------------------------
  // QnA

  datatype QnAStepTag = AnswerStep

  /** The replies the dialog sent, in order. */
  datatype QnAFields = QnAFields(replies: seq<string>)

  /** The intents (None when the NLU was given no text, cognitive.py:107-108), the QnA directory,
      the index random.choice draws, and the author's and channel's names. */
  datatype QnATurn = QnATurn(intents: Option<seq<Intent>>, files: map<string, seq<string>>, pick: nat,
                             authorName: string, isDirect: bool, channelName: string)

  /** The intent name without its first four characters, as Python's name[4:]. */
  function AnswerName(intentName: string): string {
    if |intentName| >= 4 then intentName[4..] else ""
  }

  /** `_qna_step` (dialogs/qna.py:31-46): a missing file is reported and ends the dialog; otherwise
      a randomly chosen answer, with its placeholders filled in, is sent. Reading intents[0]
      raises without intents, and an empty answer list makes random.choice raise. */
  function QnAExec(s: QnAStepTag, f: QnAFields, t: QnATurn): StepOutcome<QnAStepTag, QnAFields> {
    if t.intents.None? || t.intents.value == [] then Raised([], f)
    else
      var intent := AnswerName(t.intents.value[0].name);
      var name := AnswerFile(t.intents.value[0].name);
      if name !in t.files then
        Returned(Some(Next), [], f.(replies := f.replies + ["Ich finde keinen Eintrag für " + intent]))
      else if t.files[name] == [] then Raised([], f)
      else
        var answer := t.files[name][t.pick % |t.files[name]|];
        Returned(Some(Next), [], f.(replies := f.replies + [Enhance(answer, t.authorName, t.isDirect, t.channelName)]))
  }

  function QnAWeight(s: QnAStepTag): nat { 1 }

  lemma QnATerminates()
    ensures Terminating(QnAExec, QnAWeight)
  {
  }

  /** QnA never waits: for a known intent it sends one of the file's answers, enhanced, and for
      an unknown file it says so; either way it returns NEXT. Without intents, or with an empty
      answer file, it raises. */
  lemma QnAAnswersFromFile(f: QnAFields, t: QnATurn)
    ensures var o := QnAExec(AnswerStep, f, t);
            && (t.intents.None? || t.intents.value == [] ==> o.Raised?)
            && (o.Returned? ==> o.result == Some(Next) && o.added == [] && |o.fields.replies| == |f.replies| + 1)
            && (t.intents.Some? && t.intents.value != [] ==>
                  var intentName := t.intents.value[0].name;
                  var name := AnswerFile(intentName);
                  && (name !in t.files ==>
                        o.Returned? && o.fields.replies == f.replies + ["Ich finde keinen Eintrag für " + AnswerName(intentName)])
                  && (name in t.files && t.files[name] == [] ==> o.Raised?)
                  && (name in t.files && t.files[name] != [] ==>
                        o.Returned? &&
                        exists k :: 0 <= k < |t.files[name]| &&
                          o.fields.replies == f.replies + [Enhance(t.files[name][k], t.authorName, t.isDirect, t.channelName)]))
  {
    if t.intents.Some? && t.intents.value != [] {
      var name := AnswerFile(t.intents.value[0].name);
      if name in t.files && t.files[name] != [] {
        var k := t.pick % |t.files[name]|;
        assert 0 <= k < |t.files[name]|;
      }
    }
  }

  // ---------------------------------------------------------------------------
  // QnAAnswer

  datatype AnswerStepTag = FindQnA | StoreQnAAskText | StoreTextAskConfirmation | StoreAnswer

  /** `_qna` and `_text`, and the last file written (its path and new contents). */
  datatype AnswerFields = AnswerFields(qna: Option<string>, text: Option<string>,
                                       written: Option<(string, seq<string>)>)

  /** The message text, the intents (None when the NLU was given no text), whether the author is
      an admin, and the QnA directory. */
  datatype AnswerTurn = AnswerTurn(content: string, intents: Option<seq<Intent>>, isAdmin: bool,
                                   files: map<string, seq<string>>)

  /** The answer to the confirmation is "yes". */
  predicate Yes(t: AnswerTurn) {
    t.intents.Some? && TopIntentIs(t.intents.value, "yes")
  }

  const AnswerInitialFields := AnswerFields(None, None, None)

  /** QnAAnswer.reset (dialogs/qna.py:116-119) also forgets the chosen file and text. */
  function AnswerReset(f: AnswerFields): AnswerFields {
    f.(qna := None, text := None)
  }

  /** The steps (dialogs/qna.py:61-114). Reading a file that vanished, or reaching the last step
      without a chosen file, raises, and so does len(None) on a confirmation without intents. */
  function AnswerExec(s: AnswerStepTag, f: AnswerFields, t: AnswerTurn): StepOutcome<AnswerStepTag, AnswerFields> {
    match s
    case FindQnA =>
      if !t.isAdmin then Returned(Some(Next), [], f)
      else Returned(Some(WaitForInput), [StoreQnAAskText], f)
    case StoreQnAAskText =>
      var name := "QnA/" + t.content + ".json";
      if name !in t.files then Returned(Some(Next), [], f)
      else Returned(Some(WaitForInput), [StoreTextAskConfirmation], f.(qna := Some(name)))
    case StoreTextAskConfirmation =>
      Returned(Some(WaitForInput), [StoreAnswer], f.(text := Some(t.content)))
    case StoreAnswer =>
      if t.intents.None? then Raised([], f)
      else if !Yes(t) then Returned(Some(Next), [], f)
      else if f.qna.None? || f.qna.value !in t.files || f.text.None? then Raised([], f)
      else Returned(Some(Next), [], f.(written := Some((f.qna.value, [f.text.value] + t.files[f.qna.value]))))
  }

  function AnswerWeight(s: AnswerStepTag): nat { 1 }

  lemma AnswerTerminates()
    ensures Terminating(AnswerExec, AnswerWeight)
  {
  }

  /** Each waiting step of the admin path adds exactly one successor. */
  lemma AnswerWaitsAddOneFollowUp(s: AnswerStepTag, f: AnswerFields, t: AnswerTurn)
    ensures var o := AnswerExec(s, f, t);
            o.Returned? && o.result == Some(WaitForInput) ==> |o.added| == 1
  {
  }

  /** A non-admin is refused: the dialog ends with NEXT and adds no step. */
  lemma NonAdminIsRefused(f: AnswerFields, t: AnswerTurn)
    requires !t.isAdmin
    ensures AnswerExec(FindQnA, f, t) == Returned(Some(Next), [], f)
  {
  }

  /** An unknown QnA name ends the dialog without choosing a file. */
  lemma UnknownNameEnds(f: AnswerFields, t: AnswerTurn)
    requires "QnA/" + t.content + ".json" !in t.files
    ensures AnswerExec(StoreQnAAskText, f, t) == Returned(Some(Next), [], f)
  {
  }

  /** A file is written only on "yes", with the new text first and the old answers after it in
      their order; any other answer changes nothing, and no intents at all raise. */
  lemma StoresOnlyOnYes(f: AnswerFields, t: AnswerTurn)
    ensures var o := AnswerExec(StoreAnswer, f, t);
            && (t.intents.None? ==> o == Raised([], f))
            && (t.intents.Some? && !Yes(t) ==> o == Returned(Some(Next), [], f))
            && (o.Returned? && o.fields.written != f.written ==>
                  && Yes(t) && f.qna.Some? && f.text.Some? && f.qna.value in t.files
                  && o.fields.written == Some((f.qna.value, [f.text.value] + t.files[f.qna.value])))
  {
  }

  /** The chosen file is set before the text is asked for, and both before the confirmation. */
  predicate AnswerInv(steps: seq<AnswerStepTag>, next: nat, f: AnswerFields) {
    forall k :: next <= k < |steps| ==>
      (steps[k] == StoreTextAskConfirmation ==> f.qna.Some?)
      && (steps[k] == StoreAnswer ==> f.qna.Some? && f.text.Some?)
  }

  lemma AnswerInvStep(steps: seq<AnswerStepTag>, next: nat, f: AnswerFields, t: AnswerTurn)
    requires AnswerInv(steps, next, f) && next < |steps|
    ensures var o := AnswerExec(steps[next], f, t);
            AnswerInv(steps + o.added, if o.Raised? then next else next + 1, o.fields)
  {
    var o := AnswerExec(steps[next], f, t);
    var steps' := steps + o.added;
    forall k | (if o.Raised? then next else next + 1) <= k < |steps'|
      ensures (steps'[k] == StoreTextAskConfirmation ==> o.fields.qna.Some?)
              && (steps'[k] == StoreAnswer ==> o.fields.qna.Some? && o.fields.text.Some?)
    {
      if k < |steps| {
        assert steps'[k] == steps[k];
      }
    }
  }

  lemma AnswerInvKept()
    ensures StepsKeep(AnswerExec, AnswerInv)
    ensures ResetKeeps(AnswerInv, [FindQnA], AnswerReset)
    ensures AnswerInv([FindQnA], 0, AnswerInitialFields)
  {
    forall steps: seq<AnswerStepTag>, next: nat, f: AnswerFields, t: AnswerTurn | AnswerInv(steps, next, f) && next < |steps|
      ensures var o := AnswerExec(steps[next], f, t);
              AnswerInv(steps + o.added, if o.Raised? then next else next + 1, o.fields)
    {
      AnswerInvStep(steps, next, f, t);
    }
  }

  /** In a reachable state, the last step fails only for a confirmation without intents or when
      the chosen file has meanwhile vanished from the QnA directory. */
  lemma StoreFailsOnlyForVanishedFile(steps: seq<AnswerStepTag>, next: nat, f: AnswerFields, t: AnswerTurn)
    requires AnswerInv(steps, next, f) && next < |steps| && steps[next] == StoreAnswer
    ensures AnswerExec(StoreAnswer, f, t).Raised? <==>
            t.intents.None? || (Yes(t) && f.qna.value !in t.files)
  {
  }

  /** After a proceed that ends the dialog, the chosen file and text are forgotten, the steps are
      back at [FindQnA], and the invariant holds. */
  lemma AnswerEndForgetsChoice(d: DialogState<AnswerStepTag, AnswerFields>, t: AnswerTurn)
    requires d.next <= |d.steps| && AnswerInv(d.steps, d.next, d.fields)
    ensures Terminating(AnswerExec, AnswerWeight)
    ensures var (r, after) := ProceedSpec(AnswerExec, AnswerWeight, [FindQnA], AnswerReset, d, t);
            && AnswerInv(after.steps, after.next, after.fields)
            && (r == Finished(Next) ==> after.steps == [FindQnA] && after.next == 0
                                         && after.fields.qna.None? && after.fields.text.None?)
  {
    AnswerTerminates();
    AnswerInvKept();
    ProceedKeeps(AnswerExec, AnswerWeight, AnswerInv, [FindQnA], AnswerReset, d, t);
    ProceedWaitsIffStepWaited(AnswerExec, AnswerWeight, [FindQnA], AnswerReset, d, t);
  }
}
