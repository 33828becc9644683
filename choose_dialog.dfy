// The Choose dialog (dialogs/choose_dialog.py): it asks for a list of values and a number of
// groups, shuffles the values and deals them round-robin into the groups. The values and the
// group count are fields of the dialog and survive reset, so the next run can reuse them.

module ChooseDialog {
  import opened Text
  import opened Nlu
  import opened DialogEngine
  import opened RoundRobin

  datatype ChooseStep =
    | CheckState
    | AskForUseOldElements
    | CheckAskForUseOldElements
    | AskForNewElements
    | UpdateElements
    | AskForGroups
    | CheckAskForGroups
    | Generate

  /** `_elements`, `_num` and the last assignment sent to the user. */
  datatype ChooseFields = ChooseFields(elements: seq<string>, num: int, assignment: Option<seq<seq<string>>>)

  /** The message text, the intents (None when the NLU was given no text, cognitive.py:107-108),
      and the order `shuffle` put the values in (any rearrangement of them). */
  datatype ChooseTurn = ChooseTurn(content: string, intents: Option<seq<Intent>>, shuffled: seq<string>)

  /** The NLU reported a list of intents. */
  predicate Recognised(t: ChooseTurn) {
    t.intents.Some?
  }

  const InitialFields := ChooseFields([], -1, None)

  /** Choose does not override reset: its fields stay as they are. */
  function KeepFields(f: ChooseFields): ChooseFields { f }

  /** The value `int(text)` gives after strip, or the -1 it keeps when that raises. Since int()
      strips the text itself, the strip before it is left to ParseInt (ParseIntStripped). */
  function GroupCount(content: string): int {
    match ParseInt(content)
    case Some(v) => v
    case None => -1
  }

  /** What `shuffle(self._elements)` leaves: the given rearrangement of the values. */
  function Shuffled(elements: seq<string>, t: ChooseTurn): (r: seq<string>)
    ensures multiset(r) == multiset(elements)
  {
    if multiset(t.shuffled) == multiset(elements) then t.shuffled else elements
  }

  /** The steps (dialogs/choose_dialog.py:24-107). */
  function Exec(s: ChooseStep, f: ChooseFields, t: ChooseTurn): StepOutcome<ChooseStep, ChooseFields> {
    match s
    case CheckState =>
      Returned(Some(Next), if f.elements != [] then [AskForUseOldElements] else [AskForNewElements], f)
    case AskForUseOldElements =>
      Returned(Some(WaitForInput), [CheckAskForUseOldElements], f)
    case CheckAskForUseOldElements =>
      // len(None) raises TypeError
      if t.intents.None? then Raised([], f)
      else Returned(Some(Next), if TopIntentIs(t.intents.value, "yes") then [Generate] else [AskForNewElements], f)
    case AskForNewElements =>
      Returned(Some(WaitForInput), [UpdateElements], f)
    case UpdateElements =>
      Returned(Some(Next), [AskForGroups], f.(elements := Words(t.content)))
    case AskForGroups =>
      Returned(Some(WaitForInput), [CheckAskForGroups], f)
    case CheckAskForGroups => CheckGroups(f, t)
    case Generate => GenerateGroups(f, t)
  }

  /** `_check_ask_for_groups` (dialogs/choose_dialog.py:74-91). */
  function CheckGroups(f: ChooseFields, t: ChooseTurn): StepOutcome<ChooseStep, ChooseFields> {
    var value := GroupCount(t.content);
    if value < 1 then Returned(Some(Next), [AskForGroups], f)
    else Returned(Some(Next), [Generate], f.(num := value))
  }

  /** `_generate` (dialogs/choose_dialog.py:93-107). */
  function GenerateGroups(f: ChooseFields, t: ChooseTurn): StepOutcome<ChooseStep, ChooseFields> {
    var shuffled := Shuffled(f.elements, t);
    if f.num >= 1 then
      Returned(Some(Next), [], f.(elements := shuffled, assignment := Some(Partition(shuffled, f.num as nat))))
    else if shuffled == [] then
      // range(0, num) is empty, and so is the loop over the values
      Returned(Some(Next), [], f.(elements := shuffled, assignment := Some([])))
    else
      // groups[0] does not exist: KeyError
      Raised([], f.(elements := shuffled))
  }

  function StepWeight(s: ChooseStep): nat {
    match s
    case CheckState => 2
    case CheckAskForUseOldElements => 2
    case UpdateElements => 2
    case CheckAskForGroups => 2
    case _ => 1
  }

  lemma ChooseTerminates()
    ensures Terminating(Exec, StepWeight)
  {
    forall s: ChooseStep, f: ChooseFields, t: ChooseTurn | Continues(Exec(s, f, t))
      ensures Weight(StepWeight, Exec(s, f, t).added) < StepWeight(s)
    {
      StepShrinks(s, f, t);
    }
  }

  /** A step that lets the loop go on adds nothing, or one step of weight 1 in place of its 2. */
  lemma StepShrinks(s: ChooseStep, f: ChooseFields, t: ChooseTurn)
    requires Continues(Exec(s, f, t))
    ensures Weight(StepWeight, Exec(s, f, t).added) < StepWeight(s)
  {
    var o := Exec(s, f, t);
    AddedLight(s, f, t);
    if o.added != [] {
      assert o.added[1..] == [];
    }
  }

  /** A step that does not wait for the user adds nothing, or one step of weight 1 in place of
      its own 2. */
  lemma AddedLight(s: ChooseStep, f: ChooseFields, t: ChooseTurn)
    ensures var o := Exec(s, f, t);
            Continues(o) ==>
              o.added == [] || (|o.added| == 1 && StepWeight(o.added[0]) == 1 && StepWeight(s) == 2)
  {
    match s
    case CheckAskForGroups =>
      assert Exec(s, f, t) == CheckGroups(f, t);
    case Generate =>
      assert Exec(s, f, t) == GenerateGroups(f, t);
    case _ =>
  }

  lemma ChooseWaitsAddFollowUp()
    ensures WaitingStepsAddFollowUp(Exec)
  {
  }

  predicate BeforeGroupCount(s: ChooseStep) {
    s == CheckState || s == AskForNewElements || s == UpdateElements || s == AskForGroups || s == CheckAskForGroups
  }

  /** `_num` is -1 until a valid count was read, and then at least 1. While it is -1 exactly one
      step is pending, it is one of those before the count is read, and it is CheckState only
      while there are no values. */
  predicate Inv(steps: seq<ChooseStep>, next: nat, f: ChooseFields) {
    (f.num >= 1 || f.num == -1)
    && (f.num == -1 ==>
          next + 1 == |steps| && BeforeGroupCount(steps[next])
          && (steps[next] == CheckState ==> f.elements == []))
  }

  lemma InvInitially()
    ensures Inv([CheckState], 0, InitialFields)
  {
  }

  /** Every step keeps the invariant, and under it the only step that raises is the answer to
      "reuse the old values?" when the NLU reported no intents. */
  lemma InvStep(steps: seq<ChooseStep>, next: nat, f: ChooseFields, t: ChooseTurn)
    requires Inv(steps, next, f) && next < |steps|
    ensures var o := Exec(steps[next], f, t);
            Inv(steps + o.added, if o.Raised? then next else next + 1, o.fields)
            && (o.Raised? <==> steps[next] == CheckAskForUseOldElements && !Recognised(t))
  {
    var s := steps[next];
    var o := Exec(s, f, t);
    assert StepKeepsCount(s, f, o) by {
      match s
      case CheckAskForGroups =>
        assert o == CheckGroups(f, t);
      case Generate =>
        assert o == GenerateGroups(f, t);
      case _ =>
    }
    InvAfter(steps, next, f, o);
  }

  /** What one step does to `_num`: a step that raises changes nothing, and one that succeeds
      either leaves a count of at least 1, or keeps -1 and adds one step from before the count
      other than CheckState. */
  predicate StepKeepsCount(s: ChooseStep, f: ChooseFields, o: StepOutcome<ChooseStep, ChooseFields>) {
    (f.num == -1 ==> BeforeGroupCount(s)) ==>
      if o.Raised? then o.added == [] && o.fields == f
      else
        o.fields.num >= 1
        || (o.fields.num == -1 && f.num == -1 && |o.added| == 1
            && BeforeGroupCount(o.added[0]) && o.added[0] != CheckState)
  }

  lemma InvAfter(steps: seq<ChooseStep>, next: nat, f: ChooseFields, o: StepOutcome<ChooseStep, ChooseFields>)
    requires Inv(steps, next, f) && next < |steps| && StepKeepsCount(steps[next], f, o)
    ensures Inv(steps + o.added, if o.Raised? then next else next + 1, o.fields)
  {
    if o.Raised? {
      assert steps + o.added == steps;
    } else if o.fields.num == -1 {
      assert (steps + o.added)[next + 1] == o.added[0];
    }
  }

  /** The steps and reset keep the invariant, and no step raises when the NLU reported intents. */
  lemma InvKept()
    ensures StepsKeep(Exec, Inv) && NoStepRaises(Exec, Inv, Recognised) && ResetKeeps(Inv, [CheckState], KeepFields)
  {
    forall steps: seq<ChooseStep>, next: nat, f: ChooseFields, t: ChooseTurn | Inv(steps, next, f) && next < |steps|
      ensures var o := Exec(steps[next], f, t);
              Inv(steps + o.added, if o.Raised? then next else next + 1, o.fields)
              && (Recognised(t) ==> o.Returned?)
    {
      InvStep(steps, next, f, t);
    }
  }

  /** Exactly when old values are stored, CheckState offers them again. */
  lemma CheckStateOffersOldValues(f: ChooseFields, t: ChooseTurn)
    ensures Exec(CheckState, f, t).result == Some(Next)
    ensures Exec(CheckState, f, t).added == [AskForUseOldElements] <==> f.elements != []
    ensures Exec(CheckState, f, t).added == [AskForNewElements] <==> f.elements == []
  {
  }

  /** The old values are dealt again only when the top intent is "yes"; without intents the
      answer raises. */
  lemma OldValuesReusedOnlyOnYes(f: ChooseFields, t: ChooseTurn)
    ensures Exec(CheckAskForUseOldElements, f, t).added == [Generate] <==>
            t.intents.Some? && TopIntentIs(t.intents.value, "yes")
    ensures Exec(CheckAskForUseOldElements, f, t).Raised? <==> t.intents.None?
  {
  }

  /** The new values are the whitespace-separated tokens of the message, in order: non-empty,
      without whitespace, and together exactly its non-whitespace characters. */
  lemma UpdateElementsReadsTokens(f: ChooseFields, t: ChooseTurn)
    ensures var e := Exec(UpdateElements, f, t).fields.elements;
            && (forall i :: 0 <= i < |e| ==> e[i] != [] && !HasSpace(e[i]))
            && Concat(e) == NonSpace(t.content)
            && Exec(UpdateElements, f, t).fields.num == f.num
  {
    WordsCoverText(t.content);
  }

  /** An answer that is not an integer of at least 1 asks again and keeps `_num`; otherwise
      `_num` becomes that integer and the values are dealt next. */
  lemma GroupCountChecked(f: ChooseFields, t: ChooseTurn)
    ensures var o := Exec(CheckAskForGroups, f, t);
            && o.Returned? && o.result == Some(Next)
            && (ParseInt(t.content).None? || ParseInt(t.content).value < 1 <==> o.added == [AskForGroups])
            && (o.added == [AskForGroups] ==> o.fields == f)
            && (o.added == [Generate] ==> ParseInt(t.content) == Some(o.fields.num) && o.fields.num >= 1)
  {
    var o := Exec(CheckAskForGroups, f, t);
    assert o == CheckGroups(f, t);
  }

  /** With a valid count the dealt groups are `_num` groups holding every value exactly once. */
  lemma GenerateDealsEveryValueOnce(f: ChooseFields, t: ChooseTurn)
    requires f.num >= 1
    ensures var o := Exec(Generate, f, t);
            && o.Returned? && o.result == Some(Next) && o.added == []
            && multiset(o.fields.elements) == multiset(f.elements) && o.fields.num == f.num
            && o.fields.assignment.Some? && |o.fields.assignment.value| == f.num
            && multiset(Flatten(o.fields.assignment.value)) == multiset(f.elements)
  {
    var shuffled := Shuffled(f.elements, t);
    var groups := Partition(shuffled, f.num);
    assert Exec(Generate, f, t) == Returned(Some(Next), [], f.(elements := shuffled, assignment := Some(groups)));
    PartitionIsPermutation(shuffled, f.num);
  }

  /** The value at shuffled position p is dealt to group p mod `_num`, as its (p div `_num`)-th
      member. */
  lemma GeneratePlacesByPosition(f: ChooseFields, t: ChooseTurn, p: nat)
    requires f.num >= 1
    ensures var shuffled := Shuffled(f.elements, t);
            var groups := Partition(shuffled, f.num);
            && Exec(Generate, f, t).fields.elements == shuffled
            && Exec(Generate, f, t).fields.assignment == Some(groups)
            && (p < |shuffled| ==> p / f.num < |groups[p % f.num]| && groups[p % f.num][p / f.num] == shuffled[p])
  {
    var n: nat := f.num;
    var shuffled := Shuffled(f.elements, t);
    var groups := Partition(shuffled, n);
    assert Exec(Generate, f, t) == Returned(Some(Next), [], f.(elements := shuffled, assignment := Some(groups)));
    if p < |shuffled| {
      GroupAt(shuffled, p, n);
      assert groups[p % n] == Group(shuffled, p % n, n);
    }
  }

  /** Any two dealt groups differ in size by at most one. */
  lemma GenerateBalanced(f: ChooseFields, t: ChooseTurn, g1: nat, g2: nat)
    requires f.num >= 1 && g1 < f.num && g2 < f.num
    ensures var o := Exec(Generate, f, t);
            && o.fields.assignment.Some? && |o.fields.assignment.value| == f.num
            && |o.fields.assignment.value[g1]| <= |o.fields.assignment.value[g2]| + 1
  {
    var shuffled := Shuffled(f.elements, t);
    var groups := Partition(shuffled, f.num);
    assert Exec(Generate, f, t) == Returned(Some(Next), [], f.(elements := shuffled, assignment := Some(groups)));
    Balanced(shuffled, f.num, g1, g2);
  }

  /** A Choose dialog: the values and count survive reset, as the dialog does not override it. */
  method NewChoose() returns (d: Dialog<ChooseStep, ChooseFields, ChooseTurn>)
    ensures fresh(d) && d.Valid() && Inv(d.steps, d.next, d.fields)
    ensures d.exec == Exec && d.initial == [CheckState] && d.steps == [CheckState] && d.next == 0
    ensures d.fields == InitialFields && d.resetFields == KeepFields
  {
    ChooseTerminates();
    d := new Dialog("Choose", Exec, StepWeight, [CheckState], KeepFields, InitialFields);
  }

  /** One proceed of a Choose dialog: when the NLU reported intents it never raises (so
      `_generate` always has `_num` >= 1 or no values); it keeps the invariant, and is suspended
      only with a step pending. */
  method ProceedChoose(d: Dialog<ChooseStep, ChooseFields, ChooseTurn>, t: ChooseTurn) returns (r: ProceedResult)
    requires d.Valid() && d.exec == Exec && d.weight == StepWeight && d.initial == [CheckState]
    requires d.resetFields == KeepFields && Inv(d.steps, d.next, d.fields)
    modifies d
    ensures d.Valid() && Inv(d.steps, d.next, d.fields)
    ensures (r, d.State()) == ProceedSpec(Exec, StepWeight, [CheckState], KeepFields, old(d.State()), t)
    ensures Recognised(t) ==> r != Failed
    ensures r == Finished(WaitForInput) ==> d.next < |d.steps|
    ensures r == Finished(Next) ==> d.steps == [CheckState] && d.next == 0
  {
    ghost var before := d.State();
    InvKept();
    ChooseWaitsAddFollowUp();
    ProceedKeeps(Exec, StepWeight, Inv, [CheckState], KeepFields, before, t);
    if Recognised(t) {
      ProceedNeverFails(Exec, StepWeight, Inv, Recognised, [CheckState], KeepFields, before, t);
    }
    SuspendedHasPendingStep(Exec, StepWeight, [CheckState], KeepFields, before, t);
    ProceedWaitsIffStepWaited(Exec, StepWeight, [CheckState], KeepFields, before, t);
    r := d.Proceed(t);
  }
}
