# Drag-gesture tracker of `useDrag`, modelled in Dafny

`useDrag` is a React hook that turns pointer events on an element into a drag
gesture. It reports how far the pointer is from where the gesture started, and
it compensates for page scroll. Without React, the hook is a two-state machine
(idle / moving) driven by four events: press, move, release and cancel. Each
event carries the pointer's viewport coordinates, the page scroll offsets at
that moment and a pointer id.

The project models that machine as pure functions:

- `drag_types.dfy` (module `DragTypes`) holds the data model.
  - `State` has the `moving` flag, the `Anchor` recorded at press and the current `offset`.
  - `Event` is the event type and `Sample` is what each event carries.
  - `Effect` is the trace of side effects: `Start`, `End(at)` and `RelativePositionChange(at)` for the three callbacks, and `AcquireCapture(id)` / `ReleaseCapture(id)` for pointer capture.
  - `Filter` and `LastReported` select effects out of a trace.
- `drag_tracker.dfy` (module `DragTracker`) holds the handlers `OnPointerDown`, `HandleEnd(byCancellation)` and `OnPointerMove`.
  - `Notify` is the position-change effect. With a callback of stable identity it fires only when the offset's value changes.
  - `Step` dispatches one event.
  - `Mount` is the initial state plus the effect's first run.
  - The module also holds the single-event properties.
- `drag_traces.dfy` (module `DragTraces`) runs whole traces.
  - `Run` feeds a sequence of events to a state. `Session` does the same starting from `Mount`.
  - The module proves invariants, a characterisation of `moving`, capture balance, "the last reported position is the current offset", and the shape of a complete gesture.
- `drag_scenarios.dfy` (module `DragScenarios`) works two concrete sessions through event by event.

Coordinates are `real`. The tracker only adds and subtracts, so exact
arithmetic keeps fractional pixels without rounding. React state updates are
applied synchronously before the next event arrives. Within one event the
effects appear in the order the handler performs them. The position-change
notification comes last, after the re-render.

Each source handler is specified by lemmas about `Step`:

- `OnPointerDown` (src/useDrag.ts:42-56): `PressStartsGesture`.
- `HandleEnd` with release and cancel (src/useDrag.ts:58-78): `ReleaseReportsStoredOffset`, `CancelReportsZero`, `StepCapture`.
- `OnPointerMove` (src/useDrag.ts:80-98): `MoveTracksDocumentDisplacement`, `ScrollCompensation`, `MovesWhileMoving`.
- `Notify` (src/useDrag.ts:100-102): `NotifiesExactlyOnChange`, `SessionReportsOffset`.

## Behaviour worth knowing

- The position-change callback fires once when the hook mounts. After that, for
  a callback of stable identity, it fires whenever the offset's value changes.
  A press from idle leaves the offset at zero, so with such a callback the
  notification does not fire after a press (src/useDrag.ts:100-102). The
  effect also depends on the callback itself. A callback that gets a new
  identity on every render fires the effect on every re-render, as noted under
  "Left out".
- Press is not guarded by `isMoving` (src/useDrag.ts:42-56). A second press
  during a gesture does four things:
  - moves the anchor to the new press;
  - acquires capture again;
  - calls `onStart` again;
  - keeps the offset computed against the old anchor until the next move.
  
  `PressStartsGesture` states this for every state, and `CaptureBalance` counts
  the extra acquisition.
- Cancel uses the same handler as release (src/useDrag.ts:77-78). It releases
  capture for the pointer id of the cancel event itself (src/useDrag.ts:66).
- Scrolling alone does nothing. The offset is recomputed only at the next
  pointer move, using the scroll offsets that move carries
  (src/useDrag.ts:86-95).

## Model

| member | source | states |
|---|---|---|
| DragTracker.Step | src/useDrag.ts:42-98 | Every event keeps the invariant "not moving implies offset is zero". A move, release or cancel that arrives while not moving leaves the state unchanged and emits no effect. |
| DragTracker.Mount | src/useDrag.ts:38-40 | A mounted tracker is idle with a zero offset. Its only effect is one position-change notification, which carries that offset. |
| DragTracker.PressStartsGesture | src/useDrag.ts:42-56 | From any state, a press anchors at the event's client and scroll coordinates, sets `moving` and keeps the offset. Its effects are exactly capture of the event's pointer followed by one `onStart`. |
| DragTracker.MoveTracksDocumentDisplacement | src/useDrag.ts:80-98 | A move while moving sets the offset to the document-space displacement from the anchor to the pointer, `(cx + sx) - (ax + asx)` and likewise for y. It leaves `moving` and the anchor unchanged. |
| DragTracker.ScrollCompensation | src/useDrag.ts:86-95 | Consider two moves at the same viewport point whose scroll differs by (dx, dy). Their offsets differ by exactly (dx, dy). |
| DragTracker.ReleaseReportsStoredOffset | src/useDrag.ts:58-77 | A release while moving releases capture for the event's pointer and calls `onEnd` with the stored offset, not one recomputed from the release event. It then leaves `moving` false and the offset at zero. |
| DragTracker.CancelReportsZero | src/useDrag.ts:58-78 | A cancel while moving releases capture and calls `onEnd(0, 0)` whatever offset was accumulated. It then leaves `moving` false and the offset at zero. |
| DragTracker.NotifiesExactlyOnChange | src/useDrag.ts:100-102 | For a callback of stable identity, the position-change callback fires in a step if and only if the step changed the offset's value. It then fires once, with the new offset. A move that yields the same offset does not fire it. |
| DragTraces.RunKeepsValid | src/useDrag.ts:38-71 | Over any trace, whenever `moving` is false the offset is zero. |
| DragTraces.IdleIgnoresAllButPress | src/useDrag.ts:58-83 | From idle, a trace without presses changes nothing, calls nothing and leaves capture alone. |
| DragTraces.MovingIffOpenPress | src/useDrag.ts:42-75 | After a trace, `moving` holds in exactly two cases: some press in the trace is followed by no release or cancel, or the tracker was already moving and the trace holds no release or cancel. |
| DragTraces.StepCapture | src/useDrag.ts:51-66 | A press acquires capture exactly once. A release or cancel while moving releases it exactly once. Every other step leaves capture alone. |
| DragTraces.CaptureBalance | src/useDrag.ts:51-66 | Over any trace, releases plus the gesture still open never exceed acquisitions plus the gesture open at the start. When presses only arrive while idle, the two sides are equal. |
| DragTraces.SessionReportsOffset | src/useDrag.ts:100-102 | In every session, the last value the position-change callback received is the tracker's current offset. |
| DragTraces.ReleaseEndsWithLastReported | src/useDrag.ts:63-70 | A release ends the gesture with exactly the offset the position-change callback received last. |
| DragTraces.MovesWhileMoving | src/useDrag.ts:80-98 | A run of moves inside a gesture keeps `moving` and the anchor. It leaves the offset at the last move's document-space displacement from the anchor, and emits only position changes. |
| DragTraces.GestureOffset | src/useDrag.ts:42-98 | After a press and then moves, the offset is the displacement from the press's document position to the last move's. With no move yet, the offset is the one the press found. |
| DragTraces.WholeGesture | src/useDrag.ts:42-78 | One gesture from idle for one pointer id: press, then moves, then a release or cancel. Capture is acquired and then released once each. `onStart` and `onEnd` fire once each. `onEnd` gets the last move's offset on release and zero on cancel. The tracker ends idle with a zero offset. |
| DragScenarios.ScrollDuringDrag | src/useDrag.ts:42-102 | Press at (100,100), move to (150,120), scroll by 30 and move again, release. The full effect trace reports (50,20), then (50,50), then `onEnd(50,50)`, then a reset to zero. |
| DragScenarios.CancelDiscardsOffset | src/useDrag.ts:42-102 | Press, move to an offset of (40,-10), cancel. `onEnd` gets (0,0) and the tracker stops moving. |

## Left out

- React machinery is not modelled: `useState`, `useRef`, `useMemo`, `useCallback`, re-render scheduling and closure staleness. Every state update is treated as applied before the next event.
- The effect's dependency on the identity of `onRelativePositionChange` is not modelled. Callbacks are fixed for the tracker's lifetime, so a new callback identity never triggers an extra notification.
- DragTracker.NotifiesExactlyOnChange: holds only for a callback with a stable identity, for example one wrapped in `useCallback`. The hook's own usage example (src/useDrag.ts:31-33) passes an inline arrow function, which does not meet that condition. With such a callback the effect also runs after every re-render (src/useDrag.ts:102). That includes reporting (0,0) after a press from idle (:52), repeating the offset after a move that leaves it unchanged (:96), and reporting zero after an end that leaves the offset at zero.
- `event.preventDefault()` has no observable effect on the tracker and is modelled as nothing.
- `setPointerCapture` and `releasePointerCapture` appear only as abstract effects. Errors the browser may raise from them belong to the host.
- `window.scrollX` and `window.scrollY` are read from each event's `Sample` rather than from a global.
- Compensation for scroll of parent containers is not modelled. The source marks it as unimplemented.
- JavaScript floating-point numbers are not modelled. Arithmetic is exact over `real`, so `Object.is` corner cases (-0, NaN) in the effect's dependency comparison are out of scope.
- The optional `onStart` and `onEnd` callbacks are always emitted as effects. A host that omits a callback simply ignores that effect.
- The hook's return value (`isMoving` and `elementProps`) is binding plumbing. `isMoving` is `State.moving`.
- eslint.config.js is lint configuration with no behaviour and is not part of this model.
