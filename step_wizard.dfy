/** The progress bar of components/StepWizard.tsx: the table of steps, how
    each step is shown relative to the current one, and the rule that a
    click may only go back. */
module StepWizard {
  import opened Types

  datatype Step = Step(id: AppStep, name: string)

  const Steps: seq<Step> := [
    Step(Details, "Detalles"),
    Step(Upload, "Fotos"),
    Step(Standardize, "Ajustar"),
    Step(Edit, "Editar"),
    Step(Cover, "Portada AI"),
    Step(Preview, "Imprimir")
  ]

  /** The table lists every step once, in the order of their numbers. */
  lemma StepsTable()
    ensures |Steps| == 6
    ensures forall i :: 0 <= i < |Steps| ==> Steps[i].id.Index() == i
    ensures forall s: AppStep :: Steps[s.Index()].id == s
  {
  }

  /** A step is clickable when it is the current step or an earlier one. */
  predicate CanVisit(current: AppStep, target: AppStep)
  {
    current.Index() >= target.Index()
  }

  /** The step after clicking `target`: `setStep` is called only for a
      clickable step. */
  function ClickStep(current: AppStep, target: AppStep): AppStep
  {
    if CanVisit(current, target) then target else current
  }

  datatype StepStatus = Completed | Active | Pending

  function Status(current: AppStep, id: AppStep): StepStatus
  {
    if current.Index() > id.Index() then Completed
    else if current.Index() == id.Index() then Active
    else Pending
  }

  datatype Badge = CheckMark | Number(n: nat)

  /** The badge of the step at position `index`: a check mark once
      completed, its position counted from one otherwise. */
  function BadgeAt(current: AppStep, index: nat): Badge
    requires index < |Steps|
  {
    if current.Index() > Steps[index].id.Index() then CheckMark else Number(index + 1)
  }

  /** A chevron follows every step but the last. */
  predicate HasSeparator(index: nat)
    requires index < |Steps|
  {
    index < |Steps| - 1
  }

  /** A click lands on its target exactly when the target is not pending,
      and it never moves the wizard forward. */
  lemma ClickRule(current: AppStep, target: AppStep)
    ensures ClickStep(current, target) == target <==> Status(current, target) != Pending
    ensures ClickStep(current, target).Index() <= current.Index()
    ensures ClickStep(current, target) != target ==> ClickStep(current, target) == current
  {
    if current.Index() < target.Index() {
      assert current != target;
    }
  }

  /** The step reached after a sequence of clicks on the progress bar. */
  function ClickAll(current: AppStep, targets: seq<AppStep>): AppStep
    decreases |targets|
  {
    if |targets| == 0 then current else ClickAll(ClickStep(current, targets[0]), targets[1..])
  }

  /** However many clicks, the progress bar alone never advances the wizard. */
  lemma {:induction false} ClicksNeverAdvance(current: AppStep, targets: seq<AppStep>)
    ensures ClickAll(current, targets).Index() <= current.Index()
    decreases |targets|
  {
    if |targets| > 0 {
      ClickRule(current, targets[0]);
      ClicksNeverAdvance(ClickStep(current, targets[0]), targets[1..]);
    }
  }

  /** Read along the table, the steps before the current one are completed
      and show a check mark, the current one is active, the later ones are
      pending; badges otherwise count from one, and every step but the last
      is followed by a separator. */
  lemma StatusRow(current: AppStep)
    ensures forall i :: 0 <= i < |Steps| ==>
      Status(current, Steps[i].id) ==
        (if i < current.Index() then Completed else if i == current.Index() then Active else Pending)
    ensures forall i :: 0 <= i < |Steps| ==>
      BadgeAt(current, i) == (if i < current.Index() then CheckMark else Number(i + 1))
    ensures forall i :: 0 <= i < |Steps| ==> (HasSeparator(i) <==> i != 5)
  {
    StepsTable();
  }
}
