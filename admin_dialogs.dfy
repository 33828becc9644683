// The admin dialogs (dialogs/admin_dialogs.py). Cleanup asks for confirmation and then deletes
// the messages of the asking user and of the bot in the channel where it was asked; Shutdown
// stops the bot for an admin. The channel history and the admin test are inputs; deletions and
// the shutdown request are recorded in the dialogs' fields.

module AdminDialogs {
  import opened Text
  import opened Nlu
  import opened DialogEngine

  /** A Discord message as these dialogs see it. */
  datatype Msg = Msg(id: int, author: int, direct: bool)

  // ---------------------------------------------------------------------------
  // Shutdown

  datatype ShutdownStep = ShutdownStepTag
  datatype ShutdownFields = ShutdownFields(shutdownRequested: bool)
  datatype ShutdownTurn = ShutdownTurn(isAdmin: bool)

  /** `_shutdown_step` (dialogs/admin_dialogs.py:20-25): a non-admin is refused; an admin shuts
      the bot down. The step returns None on both paths. */
  function ShutdownExec(s: ShutdownStep, f: ShutdownFields, t: ShutdownTurn): StepOutcome<ShutdownStep, ShutdownFields> {
    if !t.isAdmin then Returned(None, [], f)
    else Returned(None, [], f.(shutdownRequested := true))
  }

  function ShutdownWeight(s: ShutdownStep): nat { 1 }

  /** The step returns None on both paths, so the dialog always ends with NEXT and is never
      suspended; the shutdown is requested exactly for an admin. */
  lemma ShutdownEndsAtOnce(f: ShutdownFields, t: ShutdownTurn)
    ensures Terminating(ShutdownExec, ShutdownWeight)
    ensures var (r, after) := ProceedSpec(ShutdownExec, ShutdownWeight, [ShutdownStepTag], (g: ShutdownFields) => g,
                                          DialogState([ShutdownStepTag], 0, f), t);
            && r == Finished(Next) && after.steps == [ShutdownStepTag] && after.next == 0
            && (after.fields.shutdownRequested <==> f.shutdownRequested || t.isAdmin)
  {
    var o := ShutdownExec(ShutdownStepTag, f, t);
    assert Loop(ShutdownExec, ShutdownWeight, [ShutdownStepTag], 0, f, t)
        == Loop(ShutdownExec, ShutdownWeight, [ShutdownStepTag], 1, o.fields, t);
  }

  // ---------------------------------------------------------------------------
  // Cleanup

  datatype CleanupStepTag = AskCleanup | VfyCleanup | CleanupStep

  /** `__channel_user_msg`, and the ids of the messages the dialog deleted, in order. */
  datatype CleanupFields = CleanupFields(channelUserMsg: Option<Msg>, deleted: seq<int>)

  /** The current message, the intents (None when the NLU was given no text, cognitive.py:107-108),
      whether its author is an admin, the bot's user id, and the history of the channel where the
      cleanup was asked. */
  datatype CleanupTurn = CleanupTurn(message: Msg, intents: Option<seq<Intent>>, isAdmin: bool, botUser: int, history: seq<Msg>)

  /** The answer to the confirmation is "yes". */
  predicate Confirmed(t: CleanupTurn) {
    t.intents.Some? && TopIntentIs(t.intents.value, "yes")
  }

  const CleanupInitial: seq<CleanupStepTag> := [AskCleanup, VfyCleanup]

  /** Cleanup.reset (dialogs/admin_dialogs.py:39-41) forgets the stored message. */
  function CleanupReset(f: CleanupFields): CleanupFields {
    f.(channelUserMsg := None)
  }

  /** The deletion test (dialogs/admin_dialogs.py:64-65): written by the original author or by
      the bot, and neither the original nor the current message. */
  predicate ShouldDelete(m: Msg, original: Msg, currentId: int, botUser: int) {
    (original.author == m.author || m.author == botUser) && m.id != original.id && m.id != currentId
  }

  /** The ids of the history's messages that pass the test, in history order. */
  function Deletions(history: seq<Msg>, original: Msg, currentId: int, botUser: int): (ids: seq<int>)
    ensures |ids| <= |history|
  {
    if history == [] then []
    else (if ShouldDelete(history[0], original, currentId, botUser) then [history[0].id] else [])
         + Deletions(history[1..], original, currentId, botUser)
  }

  /** A message id is deleted iff some message of the history with that id passes the test; the
      original and the current message are never deleted. */
  lemma {:induction false} DeletionsExactly(history: seq<Msg>, original: Msg, currentId: int, botUser: int, x: int)
    ensures x in Deletions(history, original, currentId, botUser) <==>
            exists m :: m in history && m.id == x && ShouldDelete(m, original, currentId, botUser)
    ensures original.id !in Deletions(history, original, currentId, botUser)
    ensures currentId !in Deletions(history, original, currentId, botUser)
  {
    if history != [] {
      DeletionsExactly(history[1..], original, currentId, botUser, x);
      if x in Deletions(history[1..], original, currentId, botUser) {
        var m :| m in history[1..] && m.id == x && ShouldDelete(m, original, currentId, botUser);
        assert m in history;
      }
      if exists m :: m in history && m.id == x && ShouldDelete(m, original, currentId, botUser) {
        var m :| m in history && m.id == x && ShouldDelete(m, original, currentId, botUser);
        if m != history[0] {
          assert m in history[1..];
        }
      }
    }
  }

  lemma {:induction false} DeletionsSnoc(history: seq<Msg>, m: Msg, original: Msg, currentId: int, botUser: int)
    ensures Deletions(history + [m], original, currentId, botUser)
            == Deletions(history, original, currentId, botUser)
               + (if ShouldDelete(m, original, currentId, botUser) then [m.id] else [])
  {
    if history == [] {
      assert [m][1..] == [];
    } else {
      assert (history + [m])[1..] == history[1..] + [m];
      DeletionsSnoc(history[1..], m, original, currentId, botUser);
    }
  }

  /** The deletion loop over the channel history, in history order. */
  method DeleteMatching(history: seq<Msg>, original: Msg, currentId: int, botUser: int) returns (ids: seq<int>)
    ensures ids == Deletions(history, original, currentId, botUser)
  {
    ids := [];
    var k := 0;
    while k < |history|
      invariant 0 <= k <= |history|
      invariant ids == Deletions(history[..k], original, currentId, botUser)
    {
      var m := history[k];
      DeletionsSnoc(history[..k], m, original, currentId, botUser);
      assert history[..k + 1] == history[..k] + [m];
      if ShouldDelete(m, original, currentId, botUser) {
        ids := ids + [m.id];
      }
      k := k + 1;
    }
    assert history[..k] == history;
  }

  /** The steps (dialogs/admin_dialogs.py:43-68). The cleanup step needs the message stored by
      the first step; without it, is_direct(None) raises. */
  function CleanupExec(s: CleanupStepTag, f: CleanupFields, t: CleanupTurn): StepOutcome<CleanupStepTag, CleanupFields> {
    match s
    case AskCleanup =>
      Returned(Some(WaitForInput), [], f.(channelUserMsg := Some(t.message)))
    case VfyCleanup =>
      // len(None) raises TypeError
      if t.intents.None? then Raised([], f)
      else Returned(Some(Next), if Confirmed(t) then [CleanupStep] else [], f)
    case CleanupStep =>
      if !t.isAdmin then Returned(None, [], f)
      else if f.channelUserMsg.None? then Raised([], f)
      else if f.channelUserMsg.value.direct then Returned(None, [], f)
      else
        var original := f.channelUserMsg.value;
        Returned(Some(Next), [], f.(deleted := f.deleted + Deletions(t.history, original, t.message.id, t.botUser)))
  }

  function CleanupWeight(s: CleanupStepTag): nat {
    if s == VfyCleanup then 2 else 1
  }

  lemma CleanupTerminates()
    ensures Terminating(CleanupExec, CleanupWeight)
  {
  }

  /** The first proceed stores the triggering message and suspends at the confirmation. */
  lemma FirstProceedAsks(f: CleanupFields, t: CleanupTurn)
    ensures Terminating(CleanupExec, CleanupWeight)
    ensures ProceedSpec(CleanupExec, CleanupWeight, CleanupInitial, CleanupReset, DialogState(CleanupInitial, 0, f), t)
            == (Finished(WaitForInput), DialogState(CleanupInitial, 1, f.(channelUserMsg := Some(t.message))))
  {
    CleanupTerminates();
    assert CleanupInitial + [] == CleanupInitial;
  }

  /** Answering "yes" appends the cleanup step, and it runs in the same proceed; the dialog then
      ends, with the stored message forgotten. Any other answer ends it without deleting. An
      answer without intents raises and leaves the dialog waiting at the confirmation. */
  lemma ConfirmationRunsCleanup(f: CleanupFields, t: CleanupTurn)
    requires f.channelUserMsg.Some?
    ensures Terminating(CleanupExec, CleanupWeight)
    ensures var (r, after) := ProceedSpec(CleanupExec, CleanupWeight, CleanupInitial, CleanupReset,
                                          DialogState(CleanupInitial, 1, f), t);
            && (t.intents.None? ==> r == Failed && after == DialogState(CleanupInitial, 1, f))
            && (t.intents.Some? ==>
                  && r == Finished(Next) && after.steps == CleanupInitial && after.next == 0
                  && after.fields.channelUserMsg.None?
                  && (!Confirmed(t) || !t.isAdmin || f.channelUserMsg.value.direct ==> after.fields.deleted == f.deleted)
                  && (Confirmed(t) && t.isAdmin && !f.channelUserMsg.value.direct ==>
                        after.fields.deleted == f.deleted + Deletions(t.history, f.channelUserMsg.value, t.message.id, t.botUser)))
  {
    CleanupTerminates();
    var o := CleanupExec(VfyCleanup, f, t);
    var steps := CleanupInitial + o.added;
    if t.intents.None? {
      assert steps == CleanupInitial;
      return;
    }
    LoopUnfold(CleanupExec, CleanupWeight, CleanupInitial, 1, f, t);
    if Confirmed(t) {
      assert steps == [AskCleanup, VfyCleanup, CleanupStep];
      LoopUnfold(CleanupExec, CleanupWeight, steps, 2, o.fields, t);
    } else {
      assert steps == CleanupInitial;
    }
  }

  /** A non-admin, or a cleanup first asked in a direct message, is refused and the step returns
      None without deleting anything. */
  lemma CleanupRefused(f: CleanupFields, t: CleanupTurn)
    requires !t.isAdmin || (f.channelUserMsg.Some? && f.channelUserMsg.value.direct)
    ensures CleanupExec(CleanupStep, f, t) == Returned(None, [], f)
  {
  }
}
