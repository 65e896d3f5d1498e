/**
 * The `Onboarding` component as an object whose fields are its state hooks.
 * Each handler and effect updates the fields in place and is specified by the
 * matching transition of module Sequencer; `Valid` is what every update keeps.
 */
module Tour {
  import opened Wrappers
  import opened OverlayGeometry
  import opened Sequencer

  class Onboarding {
    const props: Props
    var currentStep: int
    var stepRefs: seq<StepRef>
    var targetElement: Option<Element>
    var enabled: bool
    var completions: nat

    /** The fields as a value of the transition system. */
    function Snapshot(): State
      reads this
    {
      State(currentStep, stepRefs, targetElement, enabled, completions)
    }

    /**
     * With a valid default step the index names a step, and the highlighted
     * element is one that was registered.
     */
    ghost predicate Valid()
      reads this
    {
      (ValidDefault(props) ==> InBounds(props, Snapshot())) && TargetRegistered(Snapshot())
    }

    /**
     * Mounts the component. `defaultStep` defaults to 0 as in the source; an
     * omitted `enabled` prop is `undefined`, which acts as false, so the
     * overlay is never rendered until the host passes `enabled`.
     */
    constructor (steps: seq<Step>, hasOnComplete: bool, defaultStep: int := 0, initiallyEnabled: bool := false)
      ensures props == Props(steps, hasOnComplete, defaultStep)
      ensures Snapshot() == Init(props, initiallyEnabled)
      ensures Valid()
    {
      props := Props(steps, hasOnComplete, defaultStep);
      currentStep := defaultStep;
      stepRefs := [];
      targetElement := None;
      enabled := initiallyEnabled;
      completions := 0;
    }

    method RegisterStep(r: StepRef)
      requires Valid()
      modifies this
      ensures Valid()
      ensures Snapshot() == Register(old(Snapshot()), r)
    {
      ghost var before := Snapshot();
      stepRefs := stepRefs + [r];
      ApplyKeepsTargetRegistered(props, before, Registered(r));
    }

    method NextStep()
      requires Valid()
      modifies this
      ensures Valid()
      ensures Snapshot() == Next(props, old(Snapshot()))
    {
      if currentStep < |props.steps| - 1 {
        currentStep := currentStep + 1;
      } else if props.hasOnComplete {
        completions := completions + 1;
      }
    }

    method PrevStep()
      requires Valid()
      modifies this
      ensures Valid()
      ensures Snapshot() == Prev(old(Snapshot()))
    {
      if currentStep > 0 {
        currentStep := currentStep - 1;
      }
    }

    /** The host passes a new `enabled` prop; the disable effect runs when it changed. */
    method SetEnabled(b: bool)
      requires Valid()
      modifies this
      ensures Valid()
      ensures Snapshot() == Sequencer.SetEnabled(props, old(Snapshot()), b)
    {
      if enabled != b {
        enabled := b;
        if !b {
          currentStep := props.defaultStep;
        }
      }
    }

    /** The target-resolution effect, run after the index or the refs change. */
    method ResolveTarget()
      requires Valid()
      modifies this
      ensures Valid()
      ensures Snapshot() == Resolve(old(Snapshot()))
    {
      ghost var before := Snapshot();
      if 0 <= currentStep < |stepRefs| && stepRefs[currentStep].current.Some? {
        targetElement := stepRefs[currentStep].current;
      }
      ApplyKeepsTargetRegistered(props, before, Resolved);
    }

    /** What the component renders over the page, given how elements measure right now. */
    method Overlay(measure: Element -> Rect) returns (o: Option<Sequencer.Overlay>)
      requires Valid()
      ensures o == RenderOverlay(props, Snapshot(), measure)
      ensures ValidDefault(props) ==> (o.Some? <==> targetElement.Some? && enabled)
    {
      if targetElement.Some? && enabled && 0 <= currentStep < |props.steps| {
        var r := measure(targetElement.value);
        o := Some(Sequencer.Overlay(props.steps[currentStep], Highlight(r), ClipPolygon(r), CardPosition(r),
                                    currentStep == 0, currentStep == |props.steps| - 1));
      } else {
        o := None;
      }
    }
  }

  /**
   * The demo page: four steps, starting at step 1, one wrapper per step; the
   * user clicks through to the end and finishes, and the page answers
   * onComplete by turning the tour off. Returns the index and onComplete
   * count it ends with, and whether an overlay is still shown.
   */
  method DemoPage(measure: Element -> Rect) returns (finalStep: int, completed: nat, shown: bool)
    ensures finalStep == 1 && completed == 1 && !shown
  {
    var tour := new Onboarding([Step("Welcome", ""), Step("Features", ""), Step("Settings", ""), Step("Done", "")],
                               true, 1, true);
    tour.RegisterStep(StepRef(Some(10)));
    tour.RegisterStep(StepRef(Some(11)));
    tour.RegisterStep(StepRef(Some(12)));
    tour.RegisterStep(StepRef(Some(13)));
    tour.ResolveTarget();
    tour.NextStep();
    tour.ResolveTarget();
    tour.NextStep();
    tour.ResolveTarget();
    tour.NextStep();
    if tour.completions > 0 {
      tour.SetEnabled(false);
      tour.ResolveTarget();
    }
    var o := tour.Overlay(measure);
    finalStep, completed, shown := tour.currentStep, tour.completions, o.Some?;
  }
}
