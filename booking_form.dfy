/**
 * The five-step booking wizard: the step counter moved by Next and Back, the per-step
 * gate on Next, and the submitting/complete flags set around the submission.
 */
module BookingWizard {
  import Validations

  const StepNames: seq<string> := ["Service", "Barber", "Date & Time", "Details", "Confirm"]
  const StepCount := 5

  /** `canProceed`: what each step needs before Next is enabled; any other step never proceeds. */
  function CanProceed(step: int, v: Validations.BookingFormValues): bool {
    match step
    case 1 => v.serviceId != ""
    case 2 => true
    case 3 => v.date.Some? && v.timeSlot != ""
    case 4 => v.customerName != "" && v.customerEmail != "" && v.customerPhone != ""
    case 5 => true
    case _ => false
  }

  /** `handleNext`: one step forward, except on the last step. */
  function NextStep(step: int): int {
    if step < StepCount then step + 1 else step
  }

  /** `handleBack`: one step back, except on the first step. */
  function BackStep(step: int): int {
    if step > 1 then step - 1 else step
  }

  /** Both moves keep the step within 1 to 5, and each undoes the other away from the ends. */
  lemma StepMoves(step: int)
    requires 1 <= step <= StepCount
    ensures 1 <= NextStep(step) <= StepCount && 1 <= BackStep(step) <= StepCount
    ensures step < StepCount ==> BackStep(NextStep(step)) == step
    ensures step > 1 ==> NextStep(BackStep(step)) == step
    ensures NextStep(step) == step <==> step == StepCount
    ensures BackStep(step) == step <==> step == 1
  {
  }

  /** The step reached from `step` after `n` presses of Next. */
  function ForwardBy(step: int, n: nat): int
    decreases n
  {
    if n == 0 then step else ForwardBy(NextStep(step), n - 1)
  }

  /** Pressing Next `n` times from a step moves `n` steps, stopping at the last one. */
  lemma {:induction false} ForwardByStops(step: int, n: nat)
    requires 1 <= step <= StepCount
    ensures ForwardBy(step, n) == if step + n <= StepCount then step + n else StepCount
    decreases n
  {
    if n > 0 {
      ForwardByStops(NextStep(step), n - 1);
    }
  }

  /** A form the schema accepts never holds Next back on any step (the empty string being no address). */
  lemma ValidFormProceeds(step: int, v: Validations.BookingFormValues, isEmail: string -> bool)
    requires 1 <= step <= StepCount
    requires !isEmail("") && Validations.BookingValid(v, isEmail)
    ensures CanProceed(step, v)
  {
    Validations.BookingValidIff(v, isEmail);
  }

  /**
   * The gate of the details step is weaker than the schema: a one-letter name gets
   * past Next, and the schema refuses the form only on submission.
   */
  lemma GateWeakerThanSchema(v: Validations.BookingFormValues, isEmail: string -> bool)
    requires |v.customerName| == 1 && v.customerEmail != "" && v.customerPhone != ""
    ensures CanProceed(4, v)
    ensures !Validations.BookingValid(v, isEmail)
  {
    Validations.BookingValidIff(v, isEmail);
  }

  class Wizard {
    var currentStep: int
    var isSubmitting: bool
    var isComplete: bool
    var values: Validations.BookingFormValues

    /** The step counter stays within the five steps. */
    ghost predicate Valid()
      reads this
    {
      1 <= currentStep <= StepCount
    }

    /** The wizard opens on step 1 with the default values and no submission. */
    constructor()
      ensures Valid()
      ensures currentStep == 1 && !isSubmitting && !isComplete
      ensures values == Validations.BookingDefaults
    {
      currentStep := 1;
      isSubmitting := false;
      isComplete := false;
      values := Validations.BookingDefaults;
    }

    /** The name under the progress bar, `steps[currentStep - 1]`, in bounds on every valid state. */
    function StepName(): (name: string)
      requires Valid()
      reads this
      ensures name in StepNames && name == StepNames[currentStep - 1]
    {
      StepNames[currentStep - 1]
    }

    /** The Back button is disabled on the first step. */
    predicate BackDisabled()
      reads this
    {
      currentStep == 1
    }

    /** Next is shown below the last step; Submit replaces it on the last. */
    predicate NextShown()
      reads this
    {
      currentStep < StepCount
    }

    /** Once complete the wizard shows only the confirmation card: no button is on screen. */
    predicate ButtonsShown()
      reads this
    {
      !isComplete
    }

    predicate NextEnabled()
      reads this
    {
      ButtonsShown() && NextShown() && CanProceed(currentStep, values)
    }

    /** The submit button, disabled while a submission runs. */
    predicate SubmitEnabled()
      reads this
    {
      ButtonsShown() && !NextShown() && !isSubmitting
    }

    /** `form.setValue`: what the step views write into the form. */
    method SetValues(v: Validations.BookingFormValues)
      modifies this
      ensures values == v
      ensures currentStep == old(currentStep) && isSubmitting == old(isSubmitting) && isComplete == old(isComplete)
    {
      values := v;
    }

    method HandleNext()
      requires Valid()
      modifies this
      ensures Valid()
      ensures currentStep == NextStep(old(currentStep))
      ensures values == old(values) && isSubmitting == old(isSubmitting) && isComplete == old(isComplete)
    {
      if currentStep < StepCount {
        currentStep := currentStep + 1;
      }
    }

    method HandleBack()
      requires Valid()
      modifies this
      ensures Valid()
      ensures currentStep == BackStep(old(currentStep))
      ensures values == old(values) && isSubmitting == old(isSubmitting) && isComplete == old(isComplete)
    {
      if currentStep > 1 {
        currentStep := currentStep - 1;
      }
    }

    /** A click on Next, which only an enabled button on the shown form passes on. */
    method ClickNext()
      requires Valid()
      modifies this
      ensures Valid()
      ensures currentStep == if old(NextEnabled()) then old(currentStep) + 1 else old(currentStep)
      ensures old(isComplete) ==> currentStep == old(currentStep)
      ensures values == old(values) && isSubmitting == old(isSubmitting) && isComplete == old(isComplete)
    {
      if NextEnabled() {
        HandleNext();
      }
    }

    /**
     * A click on Back, which the disabled button ignores on the first step and which
     * cannot happen once the confirmation card has replaced the form.
     */
    method ClickBack()
      requires Valid()
      modifies this
      ensures Valid()
      ensures currentStep == if !old(ButtonsShown()) || old(BackDisabled()) then old(currentStep) else old(currentStep) - 1
      ensures values == old(values) && isSubmitting == old(isSubmitting) && isComplete == old(isComplete)
    {
      if ButtonsShown() && !BackDisabled() {
        HandleBack();
      }
    }

    /**
     * A click on the submit button: the schema checks the values first, and only a
     * valid form starts `onSubmit`, which raises `isSubmitting`.
     */
    method ClickSubmit(isEmail: string -> bool) returns (started: bool)
      requires Valid()
      modifies this
      ensures started <==> old(SubmitEnabled()) && Validations.BookingValid(values, isEmail)
      ensures old(isComplete) ==> !started && isSubmitting == old(isSubmitting)
      ensures isSubmitting == (old(isSubmitting) || started)
      ensures Valid() && currentStep == old(currentStep)
      ensures values == old(values) && isComplete == old(isComplete)
    {
      started := SubmitEnabled() && Validations.BookingIssues(values, isEmail) == [];
      if started {
        isSubmitting := true;
      }
    }

    /** The end of `onSubmit`: complete only on success, no longer submitting either way. */
    method FinishSubmit(succeeded: bool)
      modifies this
      ensures !isSubmitting
      ensures isComplete == (old(isComplete) || succeeded)
      ensures currentStep == old(currentStep) && values == old(values)
    {
      if succeeded {
        isComplete := true;
      }
      isSubmitting := false;
    }
  }

  /** A whole pass through the wizard: four enabled Nexts reach the last step, where submission opens. */
  method WalkThrough(w: Wizard, v: Validations.BookingFormValues, isEmail: string -> bool)
    requires w.Valid() && w.currentStep == 1 && !w.isSubmitting && !w.isComplete
    requires !isEmail("") && Validations.BookingValid(v, isEmail)
    modifies w
    ensures w.Valid() && w.currentStep == StepCount && w.isSubmitting && w.values == v
  {
    w.SetValues(v);
    var k := 1;
    while k < StepCount
      invariant 1 <= k <= StepCount
      invariant w.Valid() && w.currentStep == k && !w.isSubmitting && !w.isComplete && w.values == v
    {
      ValidFormProceeds(k, v, isEmail);
      w.ClickNext();
      k := k + 1;
    }
    var started := w.ClickSubmit(isEmail);
  }
}
