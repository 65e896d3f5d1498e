/**
 * The step sequencer of the onboarding tour as state-transition functions.
 * Each function gives the state after one handler or effect of the
 * `Onboarding` component; the class in module Tour runs them in place and is
 * specified by them. React's effects are explicit events here: whoever
 * changes the index or the registered refs then delivers `Resolved`.
 */
module Sequencer {
  import opened Wrappers
  import opened OverlayGeometry

  /** Identity of a DOM element. */
  type Element = nat

  /** A React ref object; `current` is absent while the element is not mounted. */
  datatype StepRef = StepRef(current: Option<Element>) {
    predicate Mounted() { current.Some? }
  }

  /** One stop of the tour: a title and a caption. */
  datatype Step = Step(title: string, content: string)

  /**
   * What the host passes to the component, taken as constant for the life of
   * the tour. An omitted `defaultStep` is 0 and an omitted `onComplete` is
   * `hasOnComplete == false`.
   */
  datatype Props = Props(steps: seq<Step>, hasOnComplete: bool, defaultStep: int)

  /**
   * The component's state: the index, the refs registered so far in mount
   * order, the element being highlighted, the `enabled` prop as last seen by
   * the disable effect, and how many times `onComplete` has been invoked.
   */
  datatype State = State(currentStep: int, stepRefs: seq<StepRef>, targetElement: Option<Element>,
                         enabled: bool, completions: nat)

  /** The state the component mounts with: nothing is highlighted yet. */
  function Init(p: Props, enabled: bool): (s: State)
    ensures s.currentStep == p.defaultStep && s.stepRefs == [] && s.completions == 0
    ensures ValidDefault(p) ==> InBounds(p, s)
    ensures !OverlayRendered(s) && TargetRegistered(s)
  {
    State(p.defaultStep, [], None, enabled, 0)
  }

  /** The advance handler: move to the next step, or complete the tour on the last one. */
  function Next(p: Props, s: State): (t: State)
    ensures t.stepRefs == s.stepRefs && t.targetElement == s.targetElement && t.enabled == s.enabled
    ensures s.currentStep < |p.steps| - 1 ==> t.currentStep == s.currentStep + 1 && t.completions == s.completions
    ensures s.currentStep >= |p.steps| - 1 ==>
      t.currentStep == s.currentStep && t.completions == s.completions + (if p.hasOnComplete then 1 else 0)
  {
    if s.currentStep < |p.steps| - 1 then s.(currentStep := s.currentStep + 1)
    else if p.hasOnComplete then s.(completions := s.completions + 1)
    else s
  }

  /** The retreat handler: move to the previous step; nothing happens at step 0. */
  function Prev(s: State): (t: State)
    ensures s.currentStep > 0 ==> t == s.(currentStep := s.currentStep - 1)
    ensures s.currentStep <= 0 ==> t == s
  {
    if s.currentStep > 0 then s.(currentStep := s.currentStep - 1) else s
  }

  /** A step wrapper that has mounted registers its ref at the end of the list. */
  function Register(s: State, r: StepRef): (t: State)
    ensures |t.stepRefs| == |s.stepRefs| + 1 && t.stepRefs[|s.stepRefs|] == r
    ensures s.stepRefs <= t.stepRefs
    ensures t.(stepRefs := s.stepRefs) == s
  {
    s.(stepRefs := s.stepRefs + [r])
  }

  /** The slot for the current step exists and its element is mounted. */
  predicate SlotMounted(s: State)
  {
    0 <= s.currentStep < |s.stepRefs| && s.stepRefs[s.currentStep].Mounted()
  }

  /** The target-resolution effect: highlight the current step's element if it is there. */
  function Resolve(s: State): (t: State)
    ensures SlotMounted(s) ==> t.targetElement == s.stepRefs[s.currentStep].current
    ensures !SlotMounted(s) ==> t == s
    ensures t.(targetElement := s.targetElement) == s
    ensures s.targetElement.Some? ==> t.targetElement.Some?
  {
    if SlotMounted(s) then s.(targetElement := s.stepRefs[s.currentStep].current) else s
  }

  /**
   * The host sets the `enabled` prop. The disable effect depends on `enabled`
   * alone, so it runs only when the value changes, and then resets the index
   * if the tour was turned off.
   */
  function SetEnabled(p: Props, s: State, b: bool): (t: State)
    ensures t.enabled == b
    ensures s.enabled && !b ==> t == s.(enabled := false, currentStep := p.defaultStep)
    ensures s.enabled == b || b ==> t == s.(enabled := b)
  {
    if s.enabled == b then s
    else if !b then s.(enabled := false, currentStep := p.defaultStep)
    else s.(enabled := true)
  }

  /** `isFirstStep` as passed to the overlay: it disables the retreat button. */
  predicate IsFirstStep(s: State): (b: bool)
    ensures b ==> Prev(s) == s
  {
    s.currentStep == 0
  }

  /** `isLastStep` as passed to the overlay: it relabels the advance button "finish". */
  predicate IsLastStep(p: Props, s: State): (b: bool)
    ensures b ==> Next(p, s).currentStep == s.currentStep
    ensures b ==> Next(p, s).completions == s.completions + (if p.hasOnComplete then 1 else 0)
    ensures b && |p.steps| > 0 ==> InBounds(p, s)
  {
    s.currentStep == |p.steps| - 1
  }

  /** The source's condition for rendering the overlay: a target exists and the tour is enabled. */
  predicate OverlayRendered(s: State): (b: bool)
    ensures b ==> Resolve(s).targetElement.Some? && Resolve(s).enabled
    ensures b ==> Prev(s).targetElement == s.targetElement && Prev(s).enabled
  {
    s.targetElement.Some? && s.enabled
  }

  /** The index is a step of the tour. */
  predicate InBounds(p: Props, s: State)
  {
    0 <= s.currentStep < |p.steps|
  }

  /** Every step the host configured is a valid starting point. */
  predicate ValidDefault(p: Props)
  {
    0 <= p.defaultStep < |p.steps|
  }

  /** The highlighted element, if any, is the element of some registered ref. */
  predicate TargetRegistered(s: State)
  {
    s.targetElement.Some? ==> exists i :: 0 <= i < |s.stepRefs| && s.stepRefs[i].current == s.targetElement
  }

  // ---------------------------------------------------------------------------
  // Runs of the component

  /** What can happen to a mounted tour. */
  datatype Event =
    | NextClicked
    | PrevClicked
    | Registered(r: StepRef)
    | Resolved
    | EnabledSet(b: bool)

  function Apply(p: Props, s: State, e: Event): State
  {
    match e
    case NextClicked => Next(p, s)
    case PrevClicked => Prev(s)
    case Registered(r) => Register(s, r)
    case Resolved => Resolve(s)
    case EnabledSet(b) => SetEnabled(p, s, b)
  }

  function Run(p: Props, s: State, es: seq<Event>): State
    decreases |es|
  {
    if es == [] then s else Run(p, Apply(p, s, es[0]), es[1..])
  }

  /**
   * The advance and retreat handlers are reachable only from the overlay's
   * buttons, which exist only while the overlay is rendered; a disabled
   * retreat button (on the first step) delivers nothing.
   */
  predicate Deliverable(p: Props, s: State, e: Event): (b: bool)
    ensures b && (e.NextClicked? || e.PrevClicked?) ==> s.enabled && s.targetElement.Some?
    ensures b && e.PrevClicked? ==> s.currentStep != 0
  {
    (e.NextClicked? ==> OverlayRendered(s)) &&
    (e.PrevClicked? ==> OverlayRendered(s) && !IsFirstStep(s))
  }

  /** Every event of `es` is deliverable in the state it meets. */
  predicate Driven(p: Props, s: State, es: seq<Event>)
    decreases |es|
  {
    es == [] || (Deliverable(p, s, es[0]) && Driven(p, Apply(p, s, es[0]), es[1..]))
  }

  // ---------------------------------------------------------------------------
  // Properties of single transitions

  /** The advance handler changes the index when and only when the current step is not the last. */
  lemma NextMovesUnlessLast(p: Props, s: State)
    requires InBounds(p, s)
    ensures Next(p, s).currentStep != s.currentStep <==> !IsLastStep(p, s)
    ensures IsLastStep(p, s) ==> Next(p, s).completions == s.completions + (if p.hasOnComplete then 1 else 0)
    ensures !IsLastStep(p, s) ==> InBounds(p, Next(p, s)) && Next(p, s).completions == s.completions
  {
  }

  /** Advancing then retreating returns to the same step when the first move was not a completion. */
  lemma PrevUndoesNext(p: Props, s: State)
    requires 0 <= s.currentStep < |p.steps| - 1
    ensures Prev(Next(p, s)) == s
  {
  }

  /** Retreating then advancing returns to the same step from anywhere but step 0. */
  lemma NextUndoesPrev(p: Props, s: State)
    requires 0 < s.currentStep < |p.steps|
    ensures Next(p, Prev(s)) == s
  {
  }

  /** Turning the tour off lands on the default step whatever step was showing. */
  lemma DisableResets(p: Props, s: State)
    requires s.enabled
    ensures SetEnabled(p, s, false).currentStep == p.defaultStep
    ensures SetEnabled(p, SetEnabled(p, s, false), true).currentStep == p.defaultStep
    ensures !OverlayRendered(SetEnabled(p, s, false))
  {
  }

  /** Resolving a second time changes nothing. */
  lemma ResolveIdempotent(s: State)
    ensures Resolve(Resolve(s)) == Resolve(s)
  {
  }

  lemma ApplyKeepsInBounds(p: Props, s: State, e: Event)
    requires ValidDefault(p) && InBounds(p, s)
    ensures InBounds(p, Apply(p, s, e))
  {
  }

  lemma ApplyKeepsTargetRegistered(p: Props, s: State, e: Event)
    requires TargetRegistered(s)
    ensures TargetRegistered(Apply(p, s, e))
  {
    var t := Apply(p, s, e);
    if t.targetElement.Some? {
      if e.Resolved? && SlotMounted(s) {
        assert t.stepRefs[s.currentStep].current == t.targetElement;
      } else if s.targetElement.Some? {
        var i :| 0 <= i < |s.stepRefs| && s.stepRefs[i].current == s.targetElement;
        assert s.stepRefs <= t.stepRefs;
        assert t.stepRefs[i].current == t.targetElement;
      }
    }
  }

  // ---------------------------------------------------------------------------
  // Properties of whole runs

  /** With a valid default step, the index stays a step of the tour after any run. */
  lemma {:induction false} RunKeepsInBounds(p: Props, s: State, es: seq<Event>)
    requires ValidDefault(p) && InBounds(p, s)
    ensures InBounds(p, Run(p, s, es))
    decreases |es|
  {
    if es != [] {
      ApplyKeepsInBounds(p, s, es[0]);
      RunKeepsInBounds(p, Apply(p, s, es[0]), es[1..]);
    }
  }

  /** With a valid default step, every reachable index is a step of the tour. */
  lemma ReachableInBounds(p: Props, enabled: bool, es: seq<Event>)
    requires ValidDefault(p)
    ensures InBounds(p, Run(p, Init(p, enabled), es))
  {
    RunKeepsInBounds(p, Init(p, enabled), es);
  }

  /** The highlighted element is always one that was registered. */
  lemma {:induction false} RunKeepsTargetRegistered(p: Props, s: State, es: seq<Event>)
    requires TargetRegistered(s)
    ensures TargetRegistered(Run(p, s, es))
    decreases |es|
  {
    if es != [] {
      ApplyKeepsTargetRegistered(p, s, es[0]);
      RunKeepsTargetRegistered(p, Apply(p, s, es[0]), es[1..]);
    }
  }

  /**
   * Registration is append-only, the onComplete count never decreases, and a
   * target once found is never cleared.
   */
  lemma {:induction false} RunMonotone(p: Props, s: State, es: seq<Event>)
    ensures s.stepRefs <= Run(p, s, es).stepRefs
    ensures s.completions <= Run(p, s, es).completions
    ensures s.targetElement.Some? ==> Run(p, s, es).targetElement.Some?
    decreases |es|
  {
    if es != [] {
      RunMonotone(p, Apply(p, s, es[0]), es[1..]);
    }
  }

  /**
   * In runs the user can produce, a disabled tour sits on its default step:
   * the index can only move through the overlay, which a disabled tour hides.
   */
  lemma {:induction false} DrivenDisabledAtDefault(p: Props, s: State, es: seq<Event>)
    requires !s.enabled ==> s.currentStep == p.defaultStep
    requires Driven(p, s, es)
    ensures var t := Run(p, s, es); !t.enabled ==> t.currentStep == p.defaultStep
    decreases |es|
  {
    if es != [] {
      DrivenDisabledAtDefault(p, Apply(p, s, es[0]), es[1..]);
    }
  }

  // ---------------------------------------------------------------------------
  // What the overlay is given

  /** The props of `OnboardingOverlay`, with the geometry it derives from the target's rectangle. */
  datatype Overlay = Overlay(step: Step, highlight: Rect, clip: seq<Vertex>, card: Position,
                             isFirstStep: bool, isLastStep: bool)

  /**
   * The step the overlay shows: rendered as the source renders it, but only
   * when the index names a step (see OverlayRenderedWithoutStep).
   */
  function OverlayStep(p: Props, s: State): (o: Option<Step>)
    ensures o.Some? <==> OverlayRendered(s) && InBounds(p, s)
    ensures o.Some? ==> o.value == p.steps[s.currentStep]
  {
    if OverlayRendered(s) && InBounds(p, s) then Some(p.steps[s.currentStep]) else None
  }

  /**
   * The overlay for state `s`; `measure` stands for `getBoundingClientRect`,
   * read afresh on every render.
   */
  function RenderOverlay(p: Props, s: State, measure: Element -> Rect): (o: Option<Overlay>)
    ensures o.Some? <==> OverlayStep(p, s).Some?
    ensures o.Some? ==>
      var r := measure(s.targetElement.value);
      Surrounds(o.value.highlight, r, Padding) && o.value.card == CardPosition(r) &&
      o.value.clip == ClipPolygon(r) && o.value.step == p.steps[s.currentStep] &&
      (o.value.isFirstStep <==> s.currentStep == 0) &&
      (o.value.isLastStep <==> s.currentStep == |p.steps| - 1)
  {
    match OverlayStep(p, s)
    case None => None
    case Some(step) =>
      var r := measure(s.targetElement.value);
      Some(Overlay(step, Highlight(r), ClipPolygon(r), CardPosition(r), IsFirstStep(s), IsLastStep(p, s)))
  }

  /** Whenever the index is a step of the tour, the corrected condition is the source's. */
  lemma OverlayStepAgrees(p: Props, s: State)
    requires InBounds(p, s)
    ensures OverlayStep(p, s).Some? <==> OverlayRendered(s)
  {
  }

  /** A tour without steps never shows an overlay. */
  lemma EmptyTourShowsNothing(p: Props, s: State, measure: Element -> Rect)
    requires |p.steps| == 0
    ensures RenderOverlay(p, s, measure) == None
  {
  }

  /**
   * As written, the source renders the overlay with `steps[currentStep]` even
   * when there is no such step: a tour with no steps whose page has one
   * mounted step wrapper resolves a target and renders, and the overlay then
   * reads the title of an undefined step.
   */
  lemma OverlayRenderedWithoutStep()
    ensures var p := Props([], false, 0);
      var s := Resolve(Register(Init(p, true), StepRef(Some(7))));
      OverlayRendered(s) && !InBounds(p, s)
  {
  }

  /**
   * The user's view of the demo page: four steps starting at step 1, one
   * wrapper per step, advanced to the end and finished; the host reacts to
   * onComplete by turning the tour off, which sends it back to step 1.
   */
  lemma DemoTour(measure: Element -> Rect)
    ensures var p := Props([Step("a", ""), Step("b", ""), Step("c", ""), Step("d", "")], true, 1);
      var mounted := Register(Register(Register(Register(Init(p, true),
                       StepRef(Some(10))), StepRef(Some(11))), StepRef(Some(12))), StepRef(Some(13)));
      var s := Resolve(Next(p, Resolve(Next(p, Resolve(mounted)))));
      s.currentStep == 3 && s.targetElement == Some(13) && s.completions == 0 &&
      var u := Resolve(SetEnabled(p, Next(p, s), false));
      u.currentStep == 1 && u.completions == 1 && u.targetElement == Some(11) &&
      RenderOverlay(p, u, measure) == None
  {
  }
}
