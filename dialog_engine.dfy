// The dialog step machine shared by every dialog of the bot: a dialog owns a
// growable list of steps and a cursor `next`; `proceed` runs the steps from the
// cursor until one asks for user input, and otherwise resets the dialog.
//
// Steps are tags (a type S chosen by each dialog) interpreted by a transition
// function `exec`: running a step on the dialog's own fields (type St) and the
// current input (type In) yields what the step returned, the steps it added with
// add_step, in order, and the new fields; or the exception it raised.

module DialogEngine {
  import opened Text

  /** The two results of a dialog (Python's and Kotlin's DialogResult). */
  datatype DialogResult = Next | WaitForInput

  /** What running one step did. A Python step may also return nothing (None). */
  datatype StepOutcome<S, St> =
    | Returned(result: Option<DialogResult>, added: seq<S>, fields: St)
    | Raised(added: seq<S>, fields: St)

  /** The outcome of proceed: the result it returns, or the exception escaping it. */
  datatype ProceedResult = Finished(result: DialogResult) | Failed

  /** One entry of the trace of a proceed call: the step that ran at a position and what it returned. */
  datatype Event<S> = Ran(step: S, result: Option<DialogResult>) | Threw(step: S)

  /** Where the step loop stopped: at the end of the list, after a waiting step, or at a raising step. */
  datatype Stop = RanOff | Waited | Aborted

  datatype LoopEnd<S, St> = LoopEnd(stop: Stop, steps: seq<S>, next: nat, fields: St)

  datatype DialogState<S, St> = DialogState(steps: seq<S>, next: nat, fields: St)

  function Weight<S>(weight: S -> nat, steps: seq<S>): nat {
    if steps == [] then 0 else weight(steps[0]) + Weight(weight, steps[1..])
  }

  lemma {:induction false} WeightAppend<S>(weight: S -> nat, a: seq<S>, b: seq<S>)
    ensures Weight(weight, a + b) == Weight(weight, a) + Weight(weight, b)
  {
    if a == [] {
      assert a + b == b;
    } else {
      assert (a + b)[1..] == a[1..] + b;
      WeightAppend(weight, a[1..], b);
    }
  }

  predicate Continues<S, St>(o: StepOutcome<S, St>) {
    o.Returned? && o.result != Some(WaitForInput)
  }

  /** A dialog's steps cannot run forever: a step that lets the loop go on adds steps of a
      smaller total weight than its own. */
  ghost predicate Terminating<S(!new), St(!new), In(!new)>(exec: (S, St, In) -> StepOutcome<S, St>, weight: S -> nat) {
    forall s: S, f: St, i: In {:trigger exec(s, f, i)} ::
      Continues(exec(s, f, i)) ==> Weight(weight, exec(s, f, i).added) < weight(s)
  }

  lemma PendingShrinks<S(!new), St(!new), In(!new)>(exec: (S, St, In) -> StepOutcome<S, St>, weight: S -> nat,
                                            steps: seq<S>, next: nat, fields: St, input: In)
    requires Terminating(exec, weight) && next < |steps|
    requires Continues(exec(steps[next], fields, input))
    ensures Weight(weight, (steps + exec(steps[next], fields, input).added)[next + 1..]) < Weight(weight, steps[next..])
  {
    var o := exec(steps[next], fields, input);
    assert (steps + o.added)[next + 1..] == steps[next + 1..] + o.added;
    WeightAppend(weight, steps[next + 1..], o.added);
    assert steps[next..][1..] == steps[next + 1..];
  }

  /** The loop of proceed (dialog_management.py:59-66): run the step at the cursor, append what
      it added, advance the cursor, and stop after a waiting step or at a raising one. */
  ghost function Loop<S(!new), St(!new), In(!new)>(exec: (S, St, In) -> StepOutcome<S, St>, weight: S -> nat,
                                           steps: seq<S>, next: nat, fields: St, input: In): (e: LoopEnd<S, St>)
    requires Terminating(exec, weight) && next <= |steps|
    decreases Weight(weight, steps[next..])
  {
    if next == |steps| then LoopEnd(RanOff, steps, next, fields)
    else
      var o := exec(steps[next], fields, input);
      match o
      case Raised(added, f) => LoopEnd(Aborted, steps + added, next, f)
      case Returned(r, added, f) =>
        if r == Some(WaitForInput) then LoopEnd(Waited, steps + added, next + 1, f)
        else
          PendingShrinks(exec, weight, steps, next, fields, input);
          Loop(exec, weight, steps + added, next + 1, f, input)
  }

  /** The steps the loop ran, in order, with what each returned. */
  ghost function Trace<S(!new), St(!new), In(!new)>(exec: (S, St, In) -> StepOutcome<S, St>, weight: S -> nat,
                                            steps: seq<S>, next: nat, fields: St, input: In): seq<Event<S>>
    requires Terminating(exec, weight) && next <= |steps|
    decreases Weight(weight, steps[next..])
  {
    if next == |steps| then []
    else
      var o := exec(steps[next], fields, input);
      match o
      case Raised(_, _) => [Threw(steps[next])]
      case Returned(r, added, f) =>
        if r == Some(WaitForInput) then [Ran(steps[next], r)]
        else
          PendingShrinks(exec, weight, steps, next, fields, input);
          [Ran(steps[next], r)] + Trace(exec, weight, steps + added, next + 1, f, input)
  }

  /** The whole of proceed: the loop, then reset() and NEXT when it ran off the end of the list
      (dialog_management.py:68-69, 79-85). */
  ghost function ProceedSpec<S(!new), St(!new), In(!new)>(exec: (S, St, In) -> StepOutcome<S, St>, weight: S -> nat,
                                                  initial: seq<S>, resetFields: St -> St,
                                                  d: DialogState<S, St>, input: In): (ProceedResult, DialogState<S, St>)
    requires Terminating(exec, weight) && d.next <= |d.steps|
  {
    var e := Loop(exec, weight, d.steps, d.next, d.fields, input);
    match e.stop
    case RanOff => (Finished(Next), DialogState(initial, 0, resetFields(e.fields)))
    case Waited => (Finished(WaitForInput), DialogState(e.steps, e.next, e.fields))
    case Aborted => (Failed, DialogState(e.steps, e.next, e.fields))
  }

  function Events<S>(trace: seq<Event<S>>): seq<S> {
    if trace == [] then [] else [trace[0].step] + Events(trace[1..])
  }

  predicate Waits<S>(e: Event<S>) {
    e.Ran? && e.result == Some(WaitForInput)
  }

  /** One turn of the loop for a step that lets it go on. */
  lemma LoopUnfold<S(!new), St(!new), In(!new)>(exec: (S, St, In) -> StepOutcome<S, St>, weight: S -> nat,
                                         steps: seq<S>, next: nat, fields: St, input: In)
    requires Terminating(exec, weight) && next < |steps|
    requires Continues(exec(steps[next], fields, input))
    ensures var o := exec(steps[next], fields, input);
            && Loop(exec, weight, steps, next, fields, input) == Loop(exec, weight, steps + o.added, next + 1, o.fields, input)
            && Trace(exec, weight, steps, next, fields, input)
               == [Ran(steps[next], o.result)] + Trace(exec, weight, steps + o.added, next + 1, o.fields, input)
  {
  }

  /** How the loop ends when the step at the cursor does not let it go on. */
  lemma LoopStopsHere<S(!new), St(!new), In(!new)>(exec: (S, St, In) -> StepOutcome<S, St>, weight: S -> nat,
                                            steps: seq<S>, next: nat, fields: St, input: In)
    requires Terminating(exec, weight) && next <= |steps|
    requires next < |steps| ==> !Continues(exec(steps[next], fields, input))
    ensures var e := Loop(exec, weight, steps, next, fields, input);
            && (next == |steps| ==> e == LoopEnd(RanOff, steps, next, fields))
            && (next < |steps| ==>
                  var o := exec(steps[next], fields, input);
                  e == LoopEnd(if o.Raised? then Aborted else Waited, steps + o.added,
                               if o.Raised? then next else next + 1, o.fields))
  {
  }

  /** The loop only appends to the step list and keeps the cursor within it; it stops at the end
      of the list, after a waiting step, or on a raising step, which keeps the cursor. */
  lemma {:induction false} LoopExtends<S(!new), St(!new), In(!new)>(exec: (S, St, In) -> StepOutcome<S, St>, weight: S -> nat,
                                                            steps: seq<S>, next: nat, fields: St, input: In)
    requires Terminating(exec, weight) && next <= |steps|
    ensures var e := Loop(exec, weight, steps, next, fields, input);
            && steps <= e.steps && next <= e.next <= |e.steps|
            && (e.stop == Aborted ==> e.next < |e.steps|)
            && (e.stop == RanOff ==> e.next == |e.steps|)
            && (e.stop == Waited ==> next < e.next)
    decreases Weight(weight, steps[next..])
  {
    if next < |steps| && Continues(exec(steps[next], fields, input)) {
      var o := exec(steps[next], fields, input);
      PendingShrinks(exec, weight, steps, next, fields, input);
      LoopUnfold(exec, weight, steps, next, fields, input);
      LoopExtends(exec, weight, steps + o.added, next + 1, o.fields, input);
      var e := Loop(exec, weight, steps, next, fields, input);
      assert steps <= steps + o.added <= e.steps;
    } else {
      LoopStopsHere(exec, weight, steps, next, fields, input);
    }
  }

  /** The loop runs exactly the steps from the old cursor to the new one (one more when a step
      raised), so steps added during the call run in the same call. */
  lemma {:induction false} LoopRunsInOrder<S(!new), St(!new), In(!new)>(exec: (S, St, In) -> StepOutcome<S, St>, weight: S -> nat,
                                                                steps: seq<S>, next: nat, fields: St, input: In)
    requires Terminating(exec, weight) && next <= |steps|
    ensures var e := Loop(exec, weight, steps, next, fields, input);
            var t := Trace(exec, weight, steps, next, fields, input);
            && next <= e.next <= |e.steps| && (e.stop == Aborted ==> e.next < |e.steps|)
            && Events(t) == e.steps[next..(if e.stop == Aborted then e.next + 1 else e.next)]
    decreases Weight(weight, steps[next..])
  {
    LoopExtends(exec, weight, steps, next, fields, input);
    var e := Loop(exec, weight, steps, next, fields, input);
    var t := Trace(exec, weight, steps, next, fields, input);
    if next == |steps| {
      LoopStopsHere(exec, weight, steps, next, fields, input);
    } else if Continues(exec(steps[next], fields, input)) {
      var o := exec(steps[next], fields, input);
      PendingShrinks(exec, weight, steps, next, fields, input);
      LoopRunsInOrder(exec, weight, steps + o.added, next + 1, o.fields, input);
      LoopUnfold(exec, weight, steps, next, fields, input);
      LoopExtends(exec, weight, steps + o.added, next + 1, o.fields, input);
      var t' := Trace(exec, weight, steps + o.added, next + 1, o.fields, input);
      EventsCons(Ran(steps[next], o.result), t');
      assert e.steps[next] == steps[next] by {
        assert steps + o.added <= e.steps;
      }
      SliceCons(e.steps, next, if e.stop == Aborted then e.next + 1 else e.next);
    } else {
      LoopStopsHere(exec, weight, steps, next, fields, input);
      assert e.steps[next..next + 1] == [steps[next]];
    }
  }

  lemma EventsCons<S>(ev: Event<S>, t: seq<Event<S>>)
    ensures Events([ev] + t) == [ev.step] + Events(t)
  {
    assert ([ev] + t)[1..] == t;
  }

  lemma SliceCons<T>(xs: seq<T>, lo: nat, hi: nat)
    requires lo < hi <= |xs|
    ensures xs[lo..hi] == [xs[lo]] + xs[lo + 1..hi]
  {
  }

  /** Every step but the last returned something other than WAIT_FOR_INPUT; the loop stopped
      after a waiting step exactly when the last one waited, and on a raising step exactly when
      the last one raised. */
  lemma {:induction false} LoopStopsAtFirstWait<S(!new), St(!new), In(!new)>(exec: (S, St, In) -> StepOutcome<S, St>, weight: S -> nat,
                                                                     steps: seq<S>, next: nat, fields: St, input: In)
    requires Terminating(exec, weight) && next <= |steps|
    ensures var e := Loop(exec, weight, steps, next, fields, input);
            var t := Trace(exec, weight, steps, next, fields, input);
            && (forall k :: 0 <= k < |t| - 1 ==> t[k].Ran? && !Waits(t[k]))
            && (e.stop == Waited <==> t != [] && Waits(t[|t| - 1]))
            && (e.stop == Aborted <==> t != [] && t[|t| - 1].Threw?)
    decreases Weight(weight, steps[next..])
  {
    if next < |steps| && Continues(exec(steps[next], fields, input)) {
      var o := exec(steps[next], fields, input);
      PendingShrinks(exec, weight, steps, next, fields, input);
      LoopUnfold(exec, weight, steps, next, fields, input);
      LoopStopsAtFirstWait(exec, weight, steps + o.added, next + 1, o.fields, input);
      var t := Trace(exec, weight, steps, next, fields, input);
      var t' := Trace(exec, weight, steps + o.added, next + 1, o.fields, input);
      assert t[1..] == t';
      assert forall k :: 1 <= k < |t| ==> t[k] == t'[k - 1];
    }
  }

  /** A property of a dialog's steps, cursor and fields that running any step keeps: the step
      list grows by what the step added, and the cursor moves past it unless it raised. */
  ghost predicate StepsKeep<S(!new), St(!new), In(!new)>(exec: (S, St, In) -> StepOutcome<S, St>,
                                                 inv: (seq<S>, nat, St) -> bool) {
    forall steps: seq<S>, next: nat, f: St, i: In {:trigger inv(steps, next, f), exec(steps[next], f, i)} ::
      inv(steps, next, f) && next < |steps| ==>
        var o := exec(steps[next], f, i);
        inv(steps + o.added, if o.Raised? then next else next + 1, o.fields)
  }

  /** The property holds again after reset() whenever it held with every step run. */
  ghost predicate ResetKeeps<S(!new), St(!new)>(inv: (seq<S>, nat, St) -> bool, initial: seq<S>, resetFields: St -> St) {
    forall steps: seq<S>, f: St {:trigger inv(steps, |steps|, f)} ::
      inv(steps, |steps|, f) ==> inv(initial, 0, resetFields(f))
  }

  lemma {:induction false} LoopKeeps<S(!new), St(!new), In(!new)>(exec: (S, St, In) -> StepOutcome<S, St>, weight: S -> nat,
                                                          inv: (seq<S>, nat, St) -> bool,
                                                          steps: seq<S>, next: nat, fields: St, input: In)
    requires Terminating(exec, weight) && next <= |steps|
    requires StepsKeep(exec, inv) && inv(steps, next, fields)
    ensures var e := Loop(exec, weight, steps, next, fields, input); inv(e.steps, e.next, e.fields)
    decreases Weight(weight, steps[next..])
  {
    if next < |steps| {
      var o := exec(steps[next], fields, input);
      assert inv(steps + o.added, if o.Raised? then next else next + 1, o.fields);
      if Continues(o) {
        PendingShrinks(exec, weight, steps, next, fields, input);
        LoopUnfold(exec, weight, steps, next, fields, input);
        LoopKeeps(exec, weight, inv, steps + o.added, next + 1, o.fields, input);
      }
    }
  }

  /** A property that every step and the reset keep holds after every proceed, whatever the
      input and whatever the steps return or raise. */
  lemma ProceedKeeps<S(!new), St(!new), In(!new)>(exec: (S, St, In) -> StepOutcome<S, St>, weight: S -> nat,
                                          inv: (seq<S>, nat, St) -> bool,
                                          initial: seq<S>, resetFields: St -> St, d: DialogState<S, St>, input: In)
    requires Terminating(exec, weight) && d.next <= |d.steps|
    requires StepsKeep(exec, inv) && ResetKeeps(inv, initial, resetFields) && inv(d.steps, d.next, d.fields)
    ensures var after := ProceedSpec(exec, weight, initial, resetFields, d, input).1;
            inv(after.steps, after.next, after.fields)
  {
    LoopKeeps(exec, weight, inv, d.steps, d.next, d.fields, input);
    LoopExtends(exec, weight, d.steps, d.next, d.fields, input);
    var e := Loop(exec, weight, d.steps, d.next, d.fields, input);
    if e.stop == RanOff {
      assert inv(e.steps, |e.steps|, e.fields);
    }
  }

  /** No step raises in a state with the property on an input that `ok` accepts. */
  ghost predicate NoStepRaises<S(!new), St(!new), In(!new)>(exec: (S, St, In) -> StepOutcome<S, St>,
                                                    inv: (seq<S>, nat, St) -> bool, ok: In -> bool) {
    forall steps: seq<S>, next: nat, f: St, i: In {:trigger inv(steps, next, f), exec(steps[next], f, i)} ::
      inv(steps, next, f) && next < |steps| && ok(i) ==> exec(steps[next], f, i).Returned?
  }

  lemma {:induction false} LoopNeverAborts<S(!new), St(!new), In(!new)>(exec: (S, St, In) -> StepOutcome<S, St>, weight: S -> nat,
                                                                inv: (seq<S>, nat, St) -> bool, ok: In -> bool,
                                                                steps: seq<S>, next: nat, fields: St, input: In)
    requires Terminating(exec, weight) && next <= |steps|
    requires StepsKeep(exec, inv) && NoStepRaises(exec, inv, ok) && ok(input) && inv(steps, next, fields)
    ensures Loop(exec, weight, steps, next, fields, input).stop != Aborted
    decreases Weight(weight, steps[next..])
  {
    if next < |steps| {
      var o := exec(steps[next], fields, input);
      assert o.Returned?;
      assert inv(steps + o.added, if o.Raised? then next else next + 1, o.fields);
      if Continues(o) {
        PendingShrinks(exec, weight, steps, next, fields, input);
        LoopUnfold(exec, weight, steps, next, fields, input);
        LoopNeverAborts(exec, weight, inv, ok, steps + o.added, next + 1, o.fields, input);
      }
    }
  }

  /** When no step raises on the input in a state with a kept property, proceed never fails. */
  lemma ProceedNeverFails<S(!new), St(!new), In(!new)>(exec: (S, St, In) -> StepOutcome<S, St>, weight: S -> nat,
                                               inv: (seq<S>, nat, St) -> bool, ok: In -> bool,
                                               initial: seq<S>, resetFields: St -> St, d: DialogState<S, St>, input: In)
    requires Terminating(exec, weight) && d.next <= |d.steps|
    requires StepsKeep(exec, inv) && NoStepRaises(exec, inv, ok) && ok(input) && inv(d.steps, d.next, d.fields)
    ensures ProceedSpec(exec, weight, initial, resetFields, d, input).0 != Failed
  {
    LoopNeverAborts(exec, weight, inv, ok, d.steps, d.next, d.fields, input);
  }

  /** Every step that returns WAIT_FOR_INPUT has added the step that reads the answer. */
  ghost predicate WaitingStepsAddFollowUp<S(!new), St(!new), In(!new)>(exec: (S, St, In) -> StepOutcome<S, St>) {
    forall s: S, f: St, i: In {:trigger exec(s, f, i)} ::
      exec(s, f, i).Returned? && exec(s, f, i).result == Some(WaitForInput) ==> exec(s, f, i).added != []
  }

  lemma {:induction false} LoopWaitsWithPending<S(!new), St(!new), In(!new)>(exec: (S, St, In) -> StepOutcome<S, St>, weight: S -> nat,
                                                                     steps: seq<S>, next: nat, fields: St, input: In)
    requires Terminating(exec, weight) && next <= |steps| && WaitingStepsAddFollowUp(exec)
    ensures var e := Loop(exec, weight, steps, next, fields, input); e.stop == Waited ==> e.next < |e.steps|
    decreases Weight(weight, steps[next..])
  {
    if next < |steps| {
      var o := exec(steps[next], fields, input);
      if Continues(o) {
        PendingShrinks(exec, weight, steps, next, fields, input);
        LoopUnfold(exec, weight, steps, next, fields, input);
        LoopWaitsWithPending(exec, weight, steps + o.added, next + 1, o.fields, input);
      } else if o.Returned? {
        assert o.added != [];
      }
    }
  }

  /** A dialog whose waiting steps always add their follow-up is never suspended without a step
      left to run. */
  lemma SuspendedHasPendingStep<S(!new), St(!new), In(!new)>(exec: (S, St, In) -> StepOutcome<S, St>, weight: S -> nat,
                                                     initial: seq<S>, resetFields: St -> St, d: DialogState<S, St>, input: In)
    requires Terminating(exec, weight) && d.next <= |d.steps| && WaitingStepsAddFollowUp(exec)
    ensures var (r, after) := ProceedSpec(exec, weight, initial, resetFields, d, input);
            r == Finished(WaitForInput) ==> after.next < |after.steps|
  {
    LoopWaitsWithPending(exec, weight, d.steps, d.next, d.fields, input);
  }

  /** The cursor stays within the step list, whatever proceed does. */
  lemma CursorInBounds<S(!new), St(!new), In(!new)>(exec: (S, St, In) -> StepOutcome<S, St>, weight: S -> nat,
                                            initial: seq<S>, resetFields: St -> St, d: DialogState<S, St>, input: In)
    requires Terminating(exec, weight) && d.next <= |d.steps|
    ensures var after := ProceedSpec(exec, weight, initial, resetFields, d, input).1;
            after.next <= |after.steps|
  {
    LoopExtends(exec, weight, d.steps, d.next, d.fields, input);
  }

  /** proceed returns WAIT_FOR_INPUT exactly when the last step it ran returned it, with the
      cursor just past that step; it returns NEXT exactly when it ran every step to the end of
      the list, and then the dialog is back at its initial steps with the cursor at 0. */
  lemma ProceedWaitsIffStepWaited<S(!new), St(!new), In(!new)>(exec: (S, St, In) -> StepOutcome<S, St>, weight: S -> nat,
                                                       initial: seq<S>, resetFields: St -> St, d: DialogState<S, St>, input: In)
    requires Terminating(exec, weight) && d.next <= |d.steps|
    ensures var (r, after) := ProceedSpec(exec, weight, initial, resetFields, d, input);
            var e := Loop(exec, weight, d.steps, d.next, d.fields, input);
            var t := Trace(exec, weight, d.steps, d.next, d.fields, input);
            && (r == Finished(WaitForInput) <==> t != [] && Waits(t[|t| - 1]))
            && (r == Finished(WaitForInput) ==> 1 <= after.next <= |after.steps| && t != [] && t[|t| - 1].step == after.steps[after.next - 1])
            && (r == Finished(Next) <==> e.stop == RanOff)
            && (r == Finished(Next) ==> after.steps == initial && after.next == 0)
  {
    var e := Loop(exec, weight, d.steps, d.next, d.fields, input);
    var t := Trace(exec, weight, d.steps, d.next, d.fields, input);
    LoopRunsInOrder(exec, weight, d.steps, d.next, d.fields, input);
    LoopStopsAtFirstWait(exec, weight, d.steps, d.next, d.fields, input);
    LoopExtends(exec, weight, d.steps, d.next, d.fields, input);
    EventsLength(t);
    if e.stop == Waited {
      assert Events(t) == e.steps[d.next..e.next];
      EventsAt(t, |t| - 1);
    }
  }

  /** A step that raises leaves the cursor on itself: the increment comes after the call. */
  lemma RaisingStepKeepsCursor<S(!new), St(!new), In(!new)>(exec: (S, St, In) -> StepOutcome<S, St>, weight: S -> nat,
                                                    initial: seq<S>, resetFields: St -> St, d: DialogState<S, St>, input: In)
    requires Terminating(exec, weight) && d.next <= |d.steps|
    ensures var (r, after) := ProceedSpec(exec, weight, initial, resetFields, d, input);
            var t := Trace(exec, weight, d.steps, d.next, d.fields, input);
            r == Failed ==> after.next < |after.steps| && t != [] && t[|t| - 1] == Threw(after.steps[after.next])
  {
    var e := Loop(exec, weight, d.steps, d.next, d.fields, input);
    var t := Trace(exec, weight, d.steps, d.next, d.fields, input);
    LoopRunsInOrder(exec, weight, d.steps, d.next, d.fields, input);
    LoopStopsAtFirstWait(exec, weight, d.steps, d.next, d.fields, input);
    EventsLength(t);
    if e.stop == Aborted {
      assert Events(t) == e.steps[d.next..e.next + 1];
      EventsAt(t, |t| - 1);
    }
  }

  /** After a reset, the next proceed runs the initial steps from index 0, in order. */
  lemma ResetRunsInitialSteps<S(!new), St(!new), In(!new)>(exec: (S, St, In) -> StepOutcome<S, St>, weight: S -> nat,
                                                   initial: seq<S>, fields: St, input: In, k: nat)
    requires Terminating(exec, weight)
    requires k < |Trace(exec, weight, initial, 0, fields, input)| && k < |initial|
    ensures Trace(exec, weight, initial, 0, fields, input)[k].step == initial[k]
  {
    var t := Trace(exec, weight, initial, 0, fields, input);
    var e := Loop(exec, weight, initial, 0, fields, input);
    LoopRunsInOrder(exec, weight, initial, 0, fields, input);
    LoopExtends(exec, weight, initial, 0, fields, input);
    EventsLength(t);
    EventsAt(t, k);
    assert initial <= e.steps;
  }

  lemma {:induction false} EventsLength<S>(t: seq<Event<S>>)
    ensures |Events(t)| == |t|
  {
    if t != [] { EventsLength(t[1..]); }
  }

  lemma {:induction false} EventsAt<S>(t: seq<Event<S>>, k: nat)
    requires k < |t|
    ensures |Events(t)| == |t| && Events(t)[k] == t[k].step
  {
    EventsLength(t);
    if k > 0 { EventsAt(t[1..], k - 1); }
  }

  /** A dialog object: its step list, its cursor and its own fields. */
  class Dialog<S(!new), St(!new), In(!new)> {
    const id: string
    const exec: (S, St, In) -> StepOutcome<S, St>
    const weight: S -> nat
    const initial: seq<S>
    const resetFields: St -> St
    var steps: seq<S>
    var next: nat
    var fields: St

    ghost predicate Valid()
      reads this
    {
      next <= |steps| && Terminating(exec, weight)
    }

    function State(): DialogState<S, St>
      reads this
    {
      DialogState(steps, next, fields)
    }

    /** Construction loads the initial steps with the cursor at 0 (dialog_management.py:27-41). */
    constructor (id: string, exec: (S, St, In) -> StepOutcome<S, St>, weight: S -> nat,
                 initial: seq<S>, resetFields: St -> St, fields: St)
      requires Terminating(exec, weight)
      ensures Valid()
      ensures this.id == id && this.exec == exec && this.weight == weight
      ensures this.initial == initial && this.resetFields == resetFields
      ensures steps == initial && next == 0 && this.fields == fields
    {
      this.id := id;
      this.exec := exec;
      this.weight := weight;
      this.initial := initial;
      this.resetFields := resetFields;
      steps := initial;
      next := 0;
      this.fields := fields;
    }

    /** add_step appends one step and leaves the cursor alone. */
    method AddStep(s: S)
      requires Valid()
      modifies this
      ensures Valid()
      ensures steps == old(steps) + [s] && next == old(next) && fields == old(fields)
    {
      steps := steps + [s];
    }

    /** reset clears the steps, puts the cursor at 0, reloads the initial steps and resets the
        dialog's own fields as the dialog defines (nothing, for most dialogs). */
    method Reset()
      requires Valid()
      modifies this
      ensures Valid()
      ensures steps == initial && next == 0 && fields == resetFields(old(fields))
    {
      steps := initial;
      next := 0;
      fields := resetFields(fields);
    }

    /** proceed: every step of the call receives the same input; the loop re-reads the length of
        the list, so steps added during the call also run. */
    method Proceed(input: In) returns (r: ProceedResult)
      requires Valid()
      modifies this
      ensures Valid()
      ensures (r, State()) == ProceedSpec(exec, weight, initial, resetFields, old(State()), input)
    {
      ghost var start := State();
      while next < |steps|
        invariant Valid()
        invariant Loop(exec, weight, steps, next, fields, input) == Loop(exec, weight, start.steps, start.next, start.fields, input)
        decreases Weight(weight, steps[next..])
      {
        var o := exec(steps[next], fields, input);
        if o.Raised? {
          steps := steps + o.added;
          fields := o.fields;
          return Failed;
        }
        PendingShrinksOrWaits(o);
        if Continues(o) {
          PendingShrinks(exec, weight, steps, next, fields, input);
        }
        steps := steps + o.added;
        fields := o.fields;
        next := next + 1;
        if o.result == Some(WaitForInput) {
          return Finished(WaitForInput);
        }
      }
      Reset();
      return Finished(Next);
    }

    static lemma PendingShrinksOrWaits(o: StepOutcome<S, St>)
      requires o.Returned?
      ensures Continues(o) || o.result == Some(WaitForInput)
    {
    }
  }

  /** Dialog.enhance (dialog_management.py:87-102): "#USER" becomes the author's name, then
      "#CHANNEL" becomes "@" followed by the author's name in a direct message and by the
      channel's name otherwise. */
  function Enhance(response: string, authorName: string, isDirect: bool, channelName: string): string {
    var withUser := Replace(response, "#USER", authorName);
    Replace(withUser, "#CHANNEL", "@" + (if isDirect then authorName else channelName))
  }

  /** Every "#USER" becomes the author's name, and then every "#CHANNEL" becomes "@" followed by
      the author's name in a direct message and by the channel's name otherwise. The response
      is given as its pieces between the "#USER" occurrences, and the text after the first pass
      as its pieces between the "#CHANNEL" occurrences (an author's name may itself hold
      "#CHANNEL"). */
  lemma EnhanceReplacesPlaceholders(users: seq<string>, channels: seq<string>, authorName: string,
                                    isDirect: bool, channelName: string)
    requires forall i :: 0 <= i < |users| ==> Find(users[i], "#USER").None?
    requires forall i :: 0 <= i < |channels| ==> Find(channels[i], "#CHANNEL").None?
    requires Join(authorName, users) == Join("#CHANNEL", channels)
    ensures Enhance(Join("#USER", users), authorName, isDirect, channelName)
            == Join("@" + (if isDirect then authorName else channelName), channels)
  {
    assert HeadUnique("#USER") by { assert "#USER"[1..] == "USER"; }
    assert HeadUnique("#CHANNEL") by { assert "#CHANNEL"[1..] == "CHANNEL"; }
    ReplaceJoin(users, "#USER", authorName);
    ReplaceJoin(channels, "#CHANNEL", "@" + (if isDirect then authorName else channelName));
  }

  /** A response without placeholders comes back unchanged, and the first "#USER" of a response
      is replaced by the author's name with the text before it kept. */
  lemma EnhanceByFirstOccurrence(response: string, authorName: string, isDirect: bool, channelName: string)
    ensures Find(response, "#USER").None? && Find(response, "#CHANNEL").None? ==>
      Enhance(response, authorName, isDirect, channelName) == response
    ensures Find(response, "#USER").Some? ==>
      var k := Find(response, "#USER").value;
      Replace(response, "#USER", authorName) == response[..k] + authorName + Replace(response[k + 5..], "#USER", authorName)
  {
    ReplaceByFirstOccurrence(response, "#USER", authorName);
    ReplaceByFirstOccurrence(response, "#CHANNEL", "@" + (if isDirect then authorName else channelName));
  }
}
