# Onboarding tour: sequencer and overlay geometry

This project models the `Onboarding` component of a React product-tour widget.
The widget highlights one page element at a time and shows a caption card
below it, and the user moves forwards and backwards through a fixed list of
steps. The model covers two parts:

- **The step sequencer.** Its state is the current step index, the list of
  registered step refs, the highlighted target element, the `enabled` prop and
  a count of `onComplete` invocations. The handlers (`nextStep`, `prevStep`,
  `registerStep`) and the two React effects (target resolution and the
  disable reset) are transitions of this state.
- **The overlay geometry.** From the target's bounding rectangle it computes
  the padded highlight box, the hole in the dimming mask's clip polygon, and
  the card's position.

Files:

- `wrappers.dfy`: `Option`, standing for a value that may be `null`.
- `geometry.dfy` (module `OverlayGeometry`): the geometry as pure functions.
  Coordinates are integers, and padding 10 and card gap 20 are constants.
- `sequencer.dfy` (module `Sequencer`):
  - the sequencer as transition functions on a `State` value;
  - event sequences (`Run`) and the invariants every run keeps;
  - the props handed to the overlay (`RenderOverlay`).
- `tour.dfy` (module `Tour`):
  - class `Onboarding`, whose fields are the component's state hooks. Each
    method updates its fields in place. Its `ensures` equate the new state
    with the matching `Sequencer` transition of the old state, and the
    method keeps `Valid()`.
  - `DemoPage`, a client that replays the demo page in `src/App.tsx`.

React schedules its effects itself. Here they are explicit calls: the caller
invokes `ResolveTarget` after changing the index or the refs, and `SetEnabled`
whenever the `enabled` prop is passed anew. The disable effect's only
dependency is `enabled`, so `SetEnabled(b)` does nothing when `b` equals the
current value. When `b` is false and the value changes, it resets the index to
`defaultStep`. The optional `onComplete` callback is the pair `hasOnComplete`
and `completions`, the number of times it was invoked. An element is an opaque
number. `getBoundingClientRect` is the parameter `measure`, read again on every
render.

Facts about the code that the model makes explicit:

- For the rectangle top 100, left 50, width 200, height 80, the cut-out spans
  x 40..260 (`left + width + padding`) and y 90..190, as
  `OverlayGeometry.WorkedExample` proves.
- A missing or unmounted ref keeps the previous target. The overlay then
  stays up, with the new step's text beside the old element
  (`Sequencer.Resolve`, `Sequencer.RunMonotone`).
- A step is only a title and a caption (src/components/onboarding.tsx:6-9).

## Model

| member | source | states |
|---|---|---|
| `OverlayGeometry.Highlight` | src/components/onboarding.tsx:140-143 | the highlight box surrounds the target with exactly 10 px on each of its four edges |
| `OverlayGeometry.ClipPolygon` | src/components/onboarding.tsx:129-134 | the mask polygon has ten vertices: first the four viewport corners, then a detour that leaves and rejoins the left viewport edge at the same vertex |
| `OverlayGeometry.CardPosition` | src/components/onboarding.tsx:146 | the card aligns with the target's left edge, and its top is 10 px below the highlight box's bottom edge (20 px below the target) |
| `OverlayGeometry.HoleIsHighlight` | src/components/onboarding.tsx:129-143 | the polygon's hole is the highlight box: its vertices 5 to 8 are the box's four corners |
| `OverlayGeometry.FollowsTarget` | src/components/onboarding.tsx:140-146 | nothing is clamped: moving the target by any offset moves the box, every pixel vertex of the clip polygon and the card by the same offset, while the viewport corners stay |
| `OverlayGeometry.CardBelowHighlight` | src/components/onboarding.tsx:140-146 | for every rectangle the card's top edge is below the highlight box's bottom edge, so they never overlap |
| `OverlayGeometry.WorkedExample` | src/components/onboarding.tsx:121-146 | the rect (100, 50, 200, 80) gives a box spanning x 40..260 and y 90..190, and a card at top 200, left 50 |
| `Sequencer.Init` | src/components/onboarding.tsx:52-54 | the component mounts at defaultStep, with no refs, no completions and no overlay; with a valid defaultStep the index is within the steps |
| `Sequencer.IsFirstStep` | src/components/onboarding.tsx:102 | on the first step, retreat changes nothing (the button is disabled there, line 154) |
| `Sequencer.IsLastStep` | src/components/onboarding.tsx:103 | on the last step, advance leaves the index and fires onComplete once if given (the button reads "finish", line 157); on a non-empty tour the last step is a step |
| `Sequencer.OverlayRendered` | src/components/onboarding.tsx:94-95 | the condition as written (target present and enabled); re-resolving or retreating keeps a rendered overlay up |
| `Sequencer.Deliverable` | src/components/onboarding.tsx:154-157 | a click is delivered only while the overlay is up on an enabled tour with a target, and retreat only off step 0 |
| `Sequencer.Next` | src/components/onboarding.tsx:72-78 | below the last step, advance adds one to the index and fires nothing; at or past the last step (including an empty tour), the index stays and onComplete fires once if given; refs, target and enabled stay the same |
| `Sequencer.Prev` | src/components/onboarding.tsx:80-84 | retreat subtracts one from an index above 0; at 0 or below it is a no-op |
| `Sequencer.Register` | src/components/onboarding.tsx:56-58 | the ref is appended: the list grows by one, the old list is a prefix, the new ref is last, and nothing else changes |
| `Sequencer.Resolve` | src/components/onboarding.tsx:60-64 | if the current slot exists and is mounted, the target becomes that element; otherwise the state is unchanged; a present target is never cleared |
| `Sequencer.SetEnabled` | src/components/onboarding.tsx:66-70 | the new `enabled` is recorded; turning the tour off resets the index to defaultStep; turning it on, or passing the same value, changes nothing else |
| `Sequencer.NextMovesUnlessLast` | src/components/onboarding.tsx:72-78 | for an index within the steps, advance moves the index if and only if `isLastStep` is false; on the last step it fires onComplete instead, and otherwise the new index is still within the steps |
| `Sequencer.PrevUndoesNext` | src/components/onboarding.tsx:72-84 | below the last step, advance then retreat restores the state |
| `Sequencer.NextUndoesPrev` | src/components/onboarding.tsx:72-84 | above step 0, retreat then advance restores the state |
| `Sequencer.DisableResets` | src/components/onboarding.tsx:66-70 | disabling an enabled tour lands on defaultStep from any index and hides the overlay; after re-enabling, the index is still defaultStep |
| `Sequencer.ResolveIdempotent` | src/components/onboarding.tsx:60-64 | resolving twice is the same as resolving once |
| `Sequencer.ApplyKeepsInBounds` | src/components/onboarding.tsx:66-84 | with a valid defaultStep, any single event keeps the index within the steps |
| `Sequencer.RunKeepsInBounds` | src/components/onboarding.tsx:66-84 | with a valid defaultStep, an index within the steps stays within them after any sequence of events |
| `Sequencer.ReachableInBounds` | src/components/onboarding.tsx:52-84 | with a valid defaultStep, every index reachable from mount is within the steps |
| `Sequencer.ApplyKeepsTargetRegistered` | src/components/onboarding.tsx:56-64 | after any event, a highlighted element is still the element of some registered ref |
| `Sequencer.RunKeepsTargetRegistered` | src/components/onboarding.tsx:56-64 | after any sequence of events, a highlighted element is always the element of some registered ref |
| `Sequencer.RunMonotone` | src/components/onboarding.tsx:56-78 | over any run, the ref list only grows at its end, the onComplete count never decreases, and a found target is never cleared |
| `Sequencer.DrivenDisabledAtDefault` | src/components/onboarding.tsx:66-106 | advance and retreat are only reachable through the overlay's buttons, so in any such run a disabled tour sits at defaultStep |
| `Sequencer.OverlayStep` | src/components/onboarding.tsx:94-99 | a step is shown exactly when a target exists, the tour is enabled and the index names a step, and that step is `steps[currentStep]` |
| `Sequencer.RenderOverlay` | src/components/onboarding.tsx:94-146 | an overlay exists exactly when a step is shown; it carries that step, the box around the measured target, the clip polygon and card of that rectangle, and `isFirstStep`/`isLastStep` as index == 0 and index == N-1 |
| `Sequencer.OverlayStepAgrees` | src/components/onboarding.tsx:94-95 | for an index within the steps, the corrected condition equals the code's condition (target present and enabled) |
| `Sequencer.EmptyTourShowsNothing` | src/components/onboarding.tsx:94-99 | with no steps, no overlay is ever produced |
| `Sequencer.OverlayRenderedWithoutStep` | src/components/onboarding.tsx:94-99 | the condition as written renders the overlay when the tour has no steps but one mounted wrapper was registered and resolved |
| `Sequencer.DemoTour` | src/App.tsx:34-38 | on the demo's four-step tour (defaultStep 1): clicking through ends at step 3 on the fourth element; finishing fires onComplete once; the host's disable returns to step 1 and hides the overlay |
| `Tour.Onboarding.constructor` | src/components/onboarding.tsx:51-54 | the component mounts at defaultStep (0 when omitted), with no refs, no target and no completions; an omitted `enabled` acts as false |
| `Tour.Onboarding.RegisterStep` | src/components/onboarding.tsx:56-58 | the fields become `Register` of the old state, and `Valid` is kept |
| `Tour.Onboarding.NextStep` | src/components/onboarding.tsx:72-78 | the fields become `Next` of the old state, and `Valid` is kept |
| `Tour.Onboarding.PrevStep` | src/components/onboarding.tsx:80-84 | the fields become `Prev` of the old state, and `Valid` is kept |
| `Tour.Onboarding.SetEnabled` | src/components/onboarding.tsx:66-70 | the fields become `SetEnabled` of the old state, and `Valid` is kept |
| `Tour.Onboarding.ResolveTarget` | src/components/onboarding.tsx:60-64 | the fields become `Resolve` of the old state, and `Valid` is kept |
| `Tour.Onboarding.Overlay` | src/components/onboarding.tsx:94-146 | returns `RenderOverlay` of the current state; with a valid defaultStep, an overlay exists exactly when a target exists and the tour is enabled |
| `Tour.DemoPage` | src/App.tsx:8-38 | on the demo page's object, clicking to the end and finishing ends at step 1, with onComplete fired once and no overlay shown |

## Left out

- React machinery is not modelled: context creation and lookup, rendering,
  and re-render scheduling. Effects are explicit method calls.
- The mount-time effect of `OnboardingStep` (src/components/onboarding.tsx:26-41)
  is left out; its only effect is the `RegisterStep` call.
- Stale handler closures are not modelled. The handlers read the index of
  the render that created them; the model applies every event to the latest
  state.
- Refs are values, fixed when registered. In the source, React sets a ref's
  `current` back to null when its `OnboardingStep` unmounts, while
  `targetElement` (src/components/onboarding.tsx:54, 62) keeps the detached
  node. A remount also appends a second ref (lines 30-34), so `stepRefs[i]`
  stops being step i's wrapper. Unmounting and remounting are not modelled.
- Sequencer.ApplyKeepsTargetRegistered, Sequencer.RunKeepsTargetRegistered
  and Tour.Onboarding.Valid hold only because refs are fixed values. With
  unmounting, "the highlighted element is the element of some registered
  ref" is false in the source.
- Props are taken as constant for the life of a tour. In the source,
  `useState(defaultStep)` (line 52) keeps only the first `defaultStep`, while
  the reset at line 68 and the bound at line 73 read the latest props. So a
  host that changed `steps` or `defaultStep` mid-tour would move the
  last-step bound and the reset target without moving the current index.
- Omitted props: `defaultStep` defaults to 0 (line 51). An omitted `enabled`
  (line 47) is `undefined`, so `targetElement && enabled` (lines 94-95) never
  renders. The constructor's defaults are `defaultStep := 0` and
  `initiallyEnabled := false`.
- The throw of `useOnboardingStep` outside a provider is left out. It is a
  wiring check on ambient context, not tour logic.
- The portal into `document.body` is left out.
- The CSS text of the clip path, the class names, the transitions and the
  `Card`/`Button` components are left out. The polygon is modelled as its
  list of vertices.
- Coordinates are integers rather than floating point, since only
  additions and subtractions are applied.
- Titles and captions are carried along in `Step` and passed to the overlay,
  but not interpreted. Button labels are not modelled; the label choice is
  `isLastStep` (`Sequencer.IsLastStep`).

## Findings

| source | as written | input that shows it | evidently intended | confidence | as-written member | corrected member |
|---|---|---|---|---|---|---|
| src/components/onboarding.tsx:94-99 | the overlay is rendered whenever a target exists and the tour is enabled, and it is passed `steps[currentStep]` without checking that such a step exists | `steps = []` (or a defaultStep outside the steps), one mounted `OnboardingStep`, enabled: the target resolves, the overlay renders, and `step.title` is read from `undefined` | no overlay when the index names no step (a tour without steps never renders) | medium, not executed | `Sequencer.OverlayRenderedWithoutStep` | `Sequencer.OverlayStep` |
