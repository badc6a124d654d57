/**
 The step-size decision of local time stepping (`change_step_size`) and the
 `ChangeStepSize` action around it.

 After a step, an element either accepts it and records the size of the
 next step, or rejects it, changes the current step and rewinds to the
 `UpdateU` action to take it again. The DataBox is modelled as the record
 `Box` of the tags the decision reads or writes. The time stepper, the step
 choosers, the `TimeStepRequestProcessor` and `choose_lts_step_size` are defined
 in other SpECTRE files; they are the function-valued fields of `Helpers` and the
 sequence of choosers, so every property below holds whatever they compute.
 */
module TimeActions {
  import opened Wrappers

  /** The parts of a `TimeStepId` the decision reads. */
  datatype TimeStepId = TimeStepId(timeRunsForward: bool, stepTime: real, substep: nat)

  /** A step size, with the duration of the slab it is a fraction of. */
  datatype TimeDelta = TimeDelta(value: real, slabDuration: real)

  /** The counters of `AdaptiveSteppingDiagnostics` that this action concerns. */
  datatype AdaptiveSteppingDiagnostics =
    AdaptiveSteppingDiagnostics(numberOfStepFractionChanges: nat, numberOfStepRejections: nat)

  /**
   The DataBox tags used by the decision. `histories` holds one entry per
   history tag, in tag order; `fixedLtsRatio` is `None` both when the tag is
   absent and when it holds an empty optional.
   */
  datatype Box<H> = Box(
    timeStepId: TimeStepId,
    timeStep: TimeDelta,
    nextTimeStep: TimeDelta,
    nextTimeStepId: TimeStepId,
    histories: seq<H>,
    fixedLtsRatio: Option<nat>,
    minimumTimeStep: real,
    diagnostics: AdaptiveSteppingDiagnostics)

  /** What a step chooser returns: a step request and whether it accepts the step just taken. */
  datatype StepChoice<Q> = StepChoice(request: Q, accepted: bool)

  /** A step chooser's `desired_step`, given the last step size and the box. */
  type StepChooser<!H, Q> = (real, Box<H>) -> StepChoice<Q>

  /**
   The collaborators whose code is not part of this model. `P` is the state
   of a `TimeStepRequestProcessor`, `Q` a `TimeStepRequest`.
   */
  datatype Helpers<!H, !P, !Q> = Helpers(
    canChangeStepSize: (TimeStepId, H) -> bool,        // LtsTimeStepper::can_change_step_size
    nextTimeId: (TimeStepId, TimeDelta) -> TimeStepId,  // LtsTimeStepper::next_time_id
    chooseLtsStepSize: (real, real) -> TimeDelta,       // choose_lts_step_size(time, desired)
    newProcessor: bool -> P,                            // TimeStepRequestProcessor(time_runs_forward)
    process: (P, Q) -> P,                               // TimeStepRequestProcessor::process
    stepSize: (P, real, real) -> real,                  // TimeStepRequestProcessor::step_size
    exceedsHardLimit: (P, real, real) -> bool,          // error_on_hard_limit reports an error
    sizeGoalRequest: real -> Q)                         // TimeStepRequest{.size_goal = ...}

  datatype StepError =
    | ChangeOnSubstep
    | RatioNotPowerOfTwo(ratio: nat)
    | HardLimitViolated
    | DesiredStepBelowMinimum(desired: real)
    | StepNotRepresentable(desired: real)
    | ChosenStepBelowMinimum(chosen: real)
    | RejectedButUnchanged

  /** Whether the step just taken stands, and the box afterwards. */
  datatype Decision<H> = Decision(accepted: bool, box: Box<H>)

  function Abs(x: real): real
  {
    if x < 0.0 then -x else x
  }

  // ---------------------------------------------------------------------
  // Powers of two and the fixed LTS ratio
  // ---------------------------------------------------------------------

  /** `std::popcount`: the number of one bits. */
  function Popcount(n: nat): (ones: nat)
    ensures ones == 0 <==> n == 0
    ensures ones <= n
  {
    if n == 0 then 0 else n % 2 + Popcount(n / 2)
  }

  function Pow2(k: nat): (p: nat)
    ensures p >= 1
  {
    if k == 0 then 1 else 2 * Pow2(k - 1)
  }

  lemma {:induction false} PopcountOfPow2(k: nat)
    ensures Popcount(Pow2(k)) == 1
  {
    if k > 0 {
      PopcountOfPow2(k - 1);
      assert Pow2(k) / 2 == Pow2(k - 1) && Pow2(k) % 2 == 0;
    }
  }

  /** The assertion on a fixed ratio admits exactly the powers of two. */
  lemma {:induction false} PopcountOneIffPowerOfTwo(n: nat)
    ensures Popcount(n) == 1 <==> exists k: nat :: n == Pow2(k)
  {
    if exists k: nat :: n == Pow2(k) {
      var k: nat :| n == Pow2(k);
      PopcountOfPow2(k);
    }
    if Popcount(n) == 1 {
      if n % 2 == 1 {
        assert n == Pow2(0);
      } else {
        PopcountOneIffPowerOfTwo(n / 2);
        var k: nat :| n / 2 == Pow2(k);
        assert n == Pow2(k + 1);
      }
    }
  }

  // ---------------------------------------------------------------------
  // The pieces of the decision
  // ---------------------------------------------------------------------

  /**
   Whether every history allows a step change; the histories are consulted
   in order and the first refusal ends the scan.
   */
  function CanChangeStepSize<H>(canChange: (TimeStepId, H) -> bool, id: TimeStepId,
                                histories: seq<H>): (r: bool)
    ensures r <==> forall i :: 0 <= i < |histories| ==> canChange(id, histories[i])
    decreases |histories|
  {
    if |histories| == 0 then true
    else if !canChange(id, histories[0]) then false
    else CanChangeStepSize(canChange, id, histories[1..])
  }

  /**
   Asks every chooser in turn, feeding each request to the processor; the
   step is accepted only if every chooser accepts it. Every chooser is
   asked, even after one has rejected the step.
   */
  function RunChoosers<H, P, Q>(choosers: seq<StepChooser<H, Q>>, lastStepSize: real, box: Box<H>,
                                process: (P, Q) -> P, processor: P): (r: (P, bool))
    ensures r.1 <==> forall i :: 0 <= i < |choosers| ==> choosers[i](lastStepSize, box).accepted
    decreases |choosers|
  {
    if |choosers| == 0 then (processor, true)
    else
      var choice := choosers[0](lastStepSize, box);
      var rest := RunChoosers(choosers[1..], lastStepSize, box, process, process(processor, choice.request));
      (rest.0, choice.accepted && rest.1)
  }

  /** The fixed ratio, if any, passes the power-of-two assertion. */
  predicate RatioIsValid<H>(box: Box<H>)
  {
    box.fixedLtsRatio.Some? ==> Popcount(box.fixedLtsRatio.value) == 1
  }

  /**
   The processor after all step requests, and whether the step is accepted.
   With a fixed ratio the only request is a size goal of one slab over the
   ratio and the step is always accepted.
   */
  function Requests<H, P, Q>(box: Box<H>, choosers: seq<StepChooser<H, Q>>, h: Helpers<H, P, Q>): (P, bool)
    requires RatioIsValid(box)
  {
    var processor := h.newProcessor(box.timeStepId.timeRunsForward);
    match box.fixedLtsRatio
    case Some(ratio) =>
      (h.process(processor, h.sizeGoalRequest(box.timeStep.slabDuration / (ratio as real))), true)
    case None =>
      RunChoosers(choosers, box.timeStep.value, box, h.process, processor)
  }

  /** The desired step size the processor derives from the requests. */
  function DesiredStep<H, P, Q>(box: Box<H>, choosers: seq<StepChooser<H, Q>>, h: Helpers<H, P, Q>): real
    requires RatioIsValid(box)
  {
    h.stepSize(Requests(box, choosers, h).0, box.timeStepId.stepTime, box.timeStep.value)
  }

  /** Only the step tags may change: everything else in the box is left as it was. */
  ghost predicate KeepsOtherTags<H>(before: Box<H>, after: Box<H>)
  {
    && after.timeStepId == before.timeStepId
    && after.histories == before.histories
    && after.fixedLtsRatio == before.fixedLtsRatio
    && after.minimumTimeStep == before.minimumTimeStep
    && after.diagnostics == before.diagnostics
  }

  // ---------------------------------------------------------------------
  // change_step_size
  // ---------------------------------------------------------------------

  /**
   `change_step_size` with the bound below which a step, relative to its
   slab, counts as not representable. Success(Decision(true, _)) is a
   return of true, Success(Decision(false, _)) a return of false, and a
   Failure an `ERROR`/`ASSERT` abort.
   */
  function ChangeStepSizeWith<H, P, Q>(smallestRelativeStepSize: real, box: Box<H>,
                                       choosers: seq<StepChooser<H, Q>>, h: Helpers<H, P, Q>)
    : (r: Result<Decision<H>, StepError>)
    requires box.timeStep.slabDuration != 0.0
    ensures r.Success? ==> RatioIsValid(box)
    ensures r.Success? ==> box.timeStepId.substep == 0 && KeepsOtherTags(box, r.value.box)
    // a history that forbids a change: the step stands and nothing is written
    ensures r.Success? && !CanChangeStepSize(h.canChangeStepSize, box.timeStepId, box.histories) ==>
      r.value == Decision(true, box)
    // a fixed ratio must be a power of two, and then the step is never rejected
    ensures box.timeStepId.substep == 0 && box.fixedLtsRatio.Some? && Popcount(box.fixedLtsRatio.value) != 1 ==>
      r == Failure(RatioNotPowerOfTwo(box.fixedLtsRatio.value))
    ensures r.Success? && box.fixedLtsRatio.Some? ==> r.value.accepted
    // without a fixed ratio the step stands exactly when every chooser accepts it
    ensures r.Success? && box.fixedLtsRatio.None? &&
            CanChangeStepSize(h.canChangeStepSize, box.timeStepId, box.histories) ==>
      (r.value.accepted <==> forall i :: 0 <= i < |choosers| ==> choosers[i](box.timeStep.value, box).accepted)
    // a change writes the next step, chosen at the end of the current step, and respects the minimum
    ensures r.Success? && CanChangeStepSize(h.canChangeStepSize, box.timeStepId, box.histories) ==>
      var desired := DesiredStep(box, choosers, h);
      && Abs(desired) >= box.minimumTimeStep
      && Abs(desired / box.timeStep.slabDuration) >= smallestRelativeStepSize
      && r.value.box.nextTimeStep ==
           h.chooseLtsStepSize(box.timeStepId.stepTime + box.timeStep.value, desired)
      && Abs(r.value.box.nextTimeStep.value) >= box.minimumTimeStep
    ensures r.Failure? && r.error.StepNotRepresentable? ==>
      RatioIsValid(box) && Abs(DesiredStep(box, choosers, h) / box.timeStep.slabDuration) < smallestRelativeStepSize
    // acceptance keeps the current step and the next step id
    ensures r.Success? && r.value.accepted ==>
      r.value.box.timeStep == box.timeStep && r.value.box.nextTimeStepId == box.nextTimeStepId
    // rejection retakes the step from its start with a different size
    ensures r.Success? && !r.value.accepted ==>
      && r.value.box.timeStep ==
           h.chooseLtsStepSize(box.timeStepId.stepTime, DesiredStep(box, choosers, h))
      && r.value.box.timeStep != box.timeStep
      && r.value.box.nextTimeStepId == h.nextTimeId(box.timeStepId, r.value.box.timeStep)
    // each failure names its cause
    ensures (r.Failure? && r.error.ChangeOnSubstep?) <==> box.timeStepId.substep != 0
    ensures r.Failure? && r.error.HardLimitViolated? ==>
      && RatioIsValid(box)
      && h.exceedsHardLimit(Requests(box, choosers, h).0, box.timeStep.value,
                            box.timeStepId.stepTime + box.timeStep.value)
    ensures r.Failure? && r.error.DesiredStepBelowMinimum? ==>
      && RatioIsValid(box) && CanChangeStepSize(h.canChangeStepSize, box.timeStepId, box.histories)
      && r.error.desired == DesiredStep(box, choosers, h)
      && Abs(r.error.desired) < box.minimumTimeStep
    ensures r.Failure? && r.error.ChosenStepBelowMinimum? ==>
      && RatioIsValid(box) && CanChangeStepSize(h.canChangeStepSize, box.timeStepId, box.histories)
      && r.error.chosen ==
           h.chooseLtsStepSize(box.timeStepId.stepTime + box.timeStep.value, DesiredStep(box, choosers, h)).value
      && Abs(r.error.chosen) < box.minimumTimeStep
    ensures r.Failure? && r.error.RejectedButUnchanged? ==>
      && RatioIsValid(box) && CanChangeStepSize(h.canChangeStepSize, box.timeStepId, box.histories)
      && !Requests(box, choosers, h).1
      && h.chooseLtsStepSize(box.timeStepId.stepTime, DesiredStep(box, choosers, h)) == box.timeStep
    // when no history allows a change, the step stands unless a hard limit is violated
    ensures box.timeStepId.substep == 0 && RatioIsValid(box) &&
            !CanChangeStepSize(h.canChangeStepSize, box.timeStepId, box.histories) ==>
      (r == Success(Decision(true, box)) <==>
         !h.exceedsHardLimit(Requests(box, choosers, h).0, box.timeStep.value,
                             box.timeStepId.stepTime + box.timeStep.value))
    // when a change is allowed, exactly when the decision succeeds
    ensures box.timeStepId.substep == 0 && RatioIsValid(box) &&
            CanChangeStepSize(h.canChangeStepSize, box.timeStepId, box.histories) ==>
      var (processor, accepted) := Requests(box, choosers, h);
      var desired := DesiredStep(box, choosers, h);
      var stepEnd := box.timeStepId.stepTime + box.timeStep.value;
      (r.Success? <==>
         && Abs(desired) >= box.minimumTimeStep
         && Abs(desired / box.timeStep.slabDuration) >= smallestRelativeStepSize
         && Abs(h.chooseLtsStepSize(stepEnd, desired).value) >= box.minimumTimeStep
         && (accepted ==> !h.exceedsHardLimit(processor, box.timeStep.value, stepEnd))
         && (!accepted ==> h.chooseLtsStepSize(box.timeStepId.stepTime, desired) != box.timeStep))
  {
    var id := box.timeStepId;
    var current := box.timeStep;
    if id.substep != 0 then Failure(ChangeOnSubstep)
    else if box.fixedLtsRatio.Some? && Popcount(box.fixedLtsRatio.value) != 1 then
      Failure(RatioNotPowerOfTwo(box.fixedLtsRatio.value))
    else
      var canChange := CanChangeStepSize(h.canChangeStepSize, id, box.histories);
      var (processor, accepted) := Requests(box, choosers, h);
      var stepEnd := id.stepTime + current.value;
      if !canChange then
        if h.exceedsHardLimit(processor, current.value, stepEnd) then Failure(HardLimitViolated)
        else Success(Decision(true, box))
      else
        var desired := h.stepSize(processor, id.stepTime, current.value);
        if Abs(desired) < box.minimumTimeStep then Failure(DesiredStepBelowMinimum(desired))
        else if Abs(desired / current.slabDuration) < smallestRelativeStepSize then
          Failure(StepNotRepresentable(desired))
        else
          var newStep := h.chooseLtsStepSize(stepEnd, desired);
          if Abs(newStep.value) < box.minimumTimeStep then Failure(ChosenStepBelowMinimum(newStep.value))
          else
            var written := box.(nextTimeStep := newStep);
            if accepted then
              if h.exceedsHardLimit(processor, current.value, stepEnd) then Failure(HardLimitViolated)
              else Success(Decision(true, written))
            else
              var retake := h.chooseLtsStepSize(id.stepTime, desired);
              if retake == current then Failure(RejectedButUnchanged)
              else Success(Decision(false, written.(timeStep := retake,
                                                    nextTimeStepId := h.nextTimeId(id, retake))))
  }

  /** The intended smallest step relative to its slab, 2^-31. */
  const SmallestRelativeStepSize: real := 1.0 / 2147483648.0

  /** `change_step_size` with the intended representability guard. */
  function ChangeStepSize<H, P, Q>(box: Box<H>, choosers: seq<StepChooser<H, Q>>, h: Helpers<H, P, Q>)
    : (r: Result<Decision<H>, StepError>)
    requires box.timeStep.slabDuration != 0.0
    ensures r.Success? && CanChangeStepSize(h.canChangeStepSize, box.timeStepId, box.histories) ==>
      RatioIsValid(box) &&
      Abs(DesiredStep(box, choosers, h)) >= Abs(box.timeStep.slabDuration) * SmallestRelativeStepSize
  {
    var r := ChangeStepSizeWith(SmallestRelativeStepSize, box, choosers, h);
    if RatioIsValid(box) then
      (RelativeSizeBound(DesiredStep(box, choosers, h), box.timeStep.slabDuration, SmallestRelativeStepSize); r)
    else r
  }

  /** A step at least `bound` slabs long, measured in time. */
  lemma RelativeSizeBound(desired: real, slab: real, bound: real)
    requires slab != 0.0
    ensures Abs(desired / slab) >= bound ==> Abs(desired) >= Abs(slab) * bound
  {
    var q := desired / slab;
    assert desired == q * slab;
    assert Abs(desired) == Abs(q) * Abs(slab);
  }

  // ---------------------------------------------------------------------
  // The representability guard as written: `1.0 / (1 << 31)`
  // ---------------------------------------------------------------------

  /** Two's-complement wrap-around of an integer to a 32-bit `int`. */
  function Int32Wrap(x: int): (r: int)
    ensures -0x8000_0000 <= r < 0x8000_0000
    ensures (x - r) % 0x1_0000_0000 == 0
  {
    (x + 0x8000_0000) % 0x1_0000_0000 - 0x8000_0000
  }

  /** `a << s` on a 32-bit `int`. */
  function ShiftLeftInt32(a: int, s: nat): int
    requires s < 32
  {
    Int32Wrap(a * Pow2(s))
  }

  lemma {:induction false} Pow2Add(a: nat, b: nat)
    ensures Pow2(a + b) == Pow2(a) * Pow2(b)
  {
    if a > 0 {
      Pow2Add(a - 1, b);
    }
  }

  /**
   `1.0 / (1 << 31)` as the source writes it: the shift is done on a 32-bit
   `int`, where 2^31 wraps to -2^31, so the bound is negative.
   */
  function SmallestRelativeStepSizeAsWritten(): (r: real)
    ensures r == -1.0 / 2147483648.0
    ensures r < 0.0
  {
    assert Pow2(8) == 0x100 && Pow2(7) == 0x80;
    Pow2Add(8, 8);
    Pow2Add(16, 8);
    Pow2Add(24, 7);
    assert Pow2(31) == 0x8000_0000;
    assert Int32Wrap(0x8000_0000) == -0x8000_0000;
    1.0 / (ShiftLeftInt32(1, 31) as real)
  }

  /** No step is ever below the as-written bound: the guard cannot fire. */
  lemma AsWrittenGuardIsDead(desired: real, slab: real)
    requires slab != 0.0
    ensures !(Abs(desired / slab) < SmallestRelativeStepSizeAsWritten())
  {
  }

  /** `change_step_size` with the bound as written. */
  function ChangeStepSizeAsWritten<H, P, Q>(box: Box<H>, choosers: seq<StepChooser<H, Q>>,
                                            h: Helpers<H, P, Q>): (r: Result<Decision<H>, StepError>)
    requires box.timeStep.slabDuration != 0.0
    ensures r.Failure? ==> !r.error.StepNotRepresentable?
  {
    var r := ChangeStepSizeWith(SmallestRelativeStepSizeAsWritten(), box, choosers, h);
    if RatioIsValid(box) then
      (AsWrittenGuardIsDead(DesiredStep(box, choosers, h), box.timeStep.slabDuration); r)
    else r
  }

  /** The collaborators of the example below: a processor that always asks for `desired`. */
  function ExampleHelpers(desired: real): Helpers<int, int, int>
  {
    Helpers(
      (id: TimeStepId, history: int) => true,
      (id: TimeStepId, step: TimeDelta) => id,
      (time: real, d: real) => TimeDelta(d, 1.0),
      (forward: bool) => 0,
      (processor: int, request: int) => processor,
      (processor: int, time: real, current: real) => desired,
      (processor: int, current: real, end: real) => false,
      (goal: real) => 0)
  }

  function ExampleBox(): Box<int>
  {
    var id := TimeStepId(true, 0.0, 0);
    var step := TimeDelta(0.5, 1.0);
    Box(id, step, step, id, [], None, 0.0, AdaptiveSteppingDiagnostics(0, 0))
  }

  /**
   A desired step of 2^-32 of a unit slab cannot be represented as a slab
   fraction: the intended guard stops it, the guard as written lets it through.
   */
  lemma AsWrittenGuardMissesTinyStep()
    ensures ChangeStepSizeAsWritten(ExampleBox(), [], ExampleHelpers(1.0 / 4294967296.0)).Success?
    ensures ChangeStepSize(ExampleBox(), [], ExampleHelpers(1.0 / 4294967296.0))
            == Failure(StepNotRepresentable(1.0 / 4294967296.0))
  {
    var h := ExampleHelpers(1.0 / 4294967296.0);
    var box := ExampleBox();
    assert CanChangeStepSize(h.canChangeStepSize, box.timeStepId, box.histories);
    assert DesiredStep(box, [], h) == 1.0 / 4294967296.0;
  }

  // ---------------------------------------------------------------------
  // Actions::ChangeStepSize
  // ---------------------------------------------------------------------

  datatype Action = UpdateU | ChangeStepSizeAction | OtherAction(id: nat)

  datatype AlgorithmExecution = Continue

  /** What an action returns: how to go on, and the index of the action to jump to, if any. */
  datatype ActionReturn = ActionReturn(execution: AlgorithmExecution, jumpTo: Option<nat>)

  /** `tmpl::index_if<ActionList, is_a<UpdateU>>`: the first `UpdateU` in the action list. */
  function IndexOfUpdateU(actions: seq<Action>): (i: nat)
    requires UpdateU in actions
    ensures i < |actions| && actions[i] == UpdateU
    ensures forall j :: 0 <= j < i ==> actions[j] != UpdateU
  {
    if actions[0] == UpdateU then 0
    else
      assert UpdateU in actions[1..];
      1 + IndexOfUpdateU(actions[1..])
  }

  /**
   `Actions::ChangeStepSize::apply`, for the decision with the given
   representability bound: on a substep, nothing happens; otherwise the
   step-size decision is taken, and a rejection counts one more step
   rejection and jumps back to the first `UpdateU`. The action list must
   contain `UpdateU` (a compile-time check in the source). The source's
   action is the one with `SmallestRelativeStepSizeAsWritten()`.
   */
  function ApplyChangeStepSize<H, P, Q>(smallestRelativeStepSize: real, actions: seq<Action>, box: Box<H>,
                                        choosers: seq<StepChooser<H, Q>>, h: Helpers<H, P, Q>)
    : (r: Result<(ActionReturn, Box<H>), StepError>)
    requires UpdateU in actions
    requires box.timeStep.slabDuration != 0.0
    ensures box.timeStepId.substep != 0 ==> r == Success((ActionReturn(Continue, None), box))
    ensures r.Success? ==> r.value.0.execution == Continue
    ensures r.Success? && r.value.0.jumpTo.Some? ==>
      var i := r.value.0.jumpTo.value;
      i < |actions| && actions[i] == UpdateU && forall j :: 0 <= j < i ==> actions[j] != UpdateU
    ensures r.Success? ==>
      r.value.1.diagnostics.numberOfStepRejections ==
        box.diagnostics.numberOfStepRejections + (if r.value.0.jumpTo.Some? then 1 else 0)
    ensures r.Success? ==>
      r.value.1.diagnostics.numberOfStepFractionChanges == box.diagnostics.numberOfStepFractionChanges
    ensures box.timeStepId.substep == 0 ==>
      match ChangeStepSizeWith(smallestRelativeStepSize, box, choosers, h)
      case Failure(e) => r == Failure(e)
      case Success(d) => r.Success? && (r.value.0.jumpTo.None? <==> d.accepted) &&
                         r.value.1.(diagnostics := d.box.diagnostics) == d.box
  {
    if box.timeStepId.substep != 0 then Success((ActionReturn(Continue, None), box))
    else
      match ChangeStepSizeWith(smallestRelativeStepSize, box, choosers, h)
      case Failure(e) => Failure(e)
      case Success(d) =>
        if d.accepted then Success((ActionReturn(Continue, None), d.box))
        else
          var diagnostics := d.box.diagnostics.(
            numberOfStepRejections := d.box.diagnostics.numberOfStepRejections + 1);
          Success((ActionReturn(Continue, Some(IndexOfUpdateU(actions))), d.box.(diagnostics := diagnostics)))
  }

  /**
   The action as written goes on with a step of 2^-32 of a unit slab,
   accepting it and recording it as the next step; with the intended bound
   the same step is an error.
   */
  lemma ApplyAsWrittenContinuesOnTinyStep()
    ensures ApplyChangeStepSize(SmallestRelativeStepSizeAsWritten(), [UpdateU], ExampleBox(), [],
                                ExampleHelpers(1.0 / 4294967296.0))
            == Success((ActionReturn(Continue, None),
                        ExampleBox().(nextTimeStep := TimeDelta(1.0 / 4294967296.0, 1.0))))
    ensures ApplyChangeStepSize(SmallestRelativeStepSize, [UpdateU], ExampleBox(), [],
                                ExampleHelpers(1.0 / 4294967296.0))
            == Failure(StepNotRepresentable(1.0 / 4294967296.0))
  {
    var tiny := 1.0 / 4294967296.0;
    var h := ExampleHelpers(tiny);
    var box := ExampleBox();
    assert CanChangeStepSize(h.canChangeStepSize, box.timeStepId, box.histories);
    assert Requests(box, [], h) == (0, true);
    assert DesiredStep(box, [], h) == tiny;
    assert SmallestRelativeStepSizeAsWritten() < 0.0;
    assert ChangeStepSizeWith(SmallestRelativeStepSizeAsWritten(), box, [], h)
           == Success(Decision(true, box.(nextTimeStep := TimeDelta(tiny, 1.0))));
    assert ChangeStepSizeWith(SmallestRelativeStepSize, box, [], h) == Failure(StepNotRepresentable(tiny));
  }
}
