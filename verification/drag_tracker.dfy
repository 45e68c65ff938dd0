/** The drag-gesture tracker of `useDrag` as a pure state machine. Each React
    state update is applied before the next event arrives; the position-change
    effect runs after every event whose handling changed the offset, which is
    when it runs for a position-change callback of stable identity. */
module DragTracker {
  import opened DragTypes

  /** The state a freshly mounted tracker starts in: not moving, the anchor
      and the offset at zero. */
  const Idle: State := State(false, Anchor(0.0, 0.0, 0.0, 0.0), Origin)

  /** Outside a gesture the offset is always the origin. */
  predicate Valid(s: State) {
    !s.moving ==> s.offset == Origin
  }

  /** Mounting the hook: the tracker is idle and the position-change effect
      runs once with the initial offset; nothing else happens. */
  function Mount(): (r: Outcome)
    ensures !r.state.moving && Valid(r.state)
    ensures r.effects == [RelativePositionChange(r.state.offset)]
    ensures LastReported(r.effects) == Some(r.state.offset)
  {
    Outcome(Idle, [RelativePositionChange(Origin)])
  }

  /** The position-change effect. Its dependencies are the offset's two
      coordinates and the callback itself; with a callback of stable identity
      it reports the new offset when the event changed it and stays silent
      otherwise. */
  function Notify(before: State, after: State): seq<Effect> {
    if before.offset == after.offset then [] else [RelativePositionChange(after.offset)]
  }

  /** Press: records the anchor, captures the pointer, enters the moving
      state and calls `onStart`. It does not look at `moving` and leaves the
      offset as it is. */
  function OnPointerDown(s: State, p: Sample): Outcome {
    var next := s.(moving := true, anchor := AnchorOf(p));
    Outcome(next, [AcquireCapture(p.pointerId), Start] + Notify(s, next))
  }

  /** Release (`byCancellation` false) and cancel (true): ignored while not
      moving; otherwise leaves the moving state, releases the capture of the
      event's pointer, calls `onEnd` with the stored offset or with zero on
      cancellation, and resets the offset. */
  function HandleEnd(s: State, p: Sample, byCancellation: bool): Outcome {
    if !s.moving then Outcome(s, [])
    else
      var final := if byCancellation then Origin else s.offset;
      var next := s.(moving := false, offset := Origin);
      Outcome(next, [ReleaseCapture(p.pointerId), End(final)] + Notify(s, next))
  }

  /** Move: ignored while not moving; otherwise the offset becomes the
      pointer's scroll-compensated position minus the anchor's. */
  function OnPointerMove(s: State, p: Sample): Outcome {
    if !s.moving then Outcome(s, [])
    else
      var a := s.anchor;
      var next := s.(offset := Point(p.clientX + p.scrollX - (a.x + a.scrollX),
                                     p.clientY + p.scrollY - (a.y + a.scrollY)));
      Outcome(next, Notify(s, next))
  }

  /** One event. The tracker keeps `Valid`, and an event other than a press
      that arrives while not moving changes nothing and produces nothing. */
  function Step(s: State, e: Event): (r: Outcome)
    ensures Valid(s) ==> Valid(r.state)
    ensures !s.moving && !e.Press? ==> r == Outcome(s, [])
  {
    match e
    case Press(p) => OnPointerDown(s, p)
    case Move(p) => OnPointerMove(s, p)
    case Release(p) => HandleEnd(s, p, false)
    case Cancel(p) => HandleEnd(s, p, true)
  }

  /** A press, from any state, anchors at the event, starts moving, keeps the
      offset, acquires capture for the event's pointer and calls `onStart`
      exactly once; since the offset is unchanged no position change fires. */
  lemma PressStartsGesture(s: State, p: Sample)
    ensures Step(s, Press(p)).state == State(true, AnchorOf(p), s.offset)
    ensures Step(s, Press(p)).effects == [AcquireCapture(p.pointerId), Start]
    ensures |Filter(Step(s, Press(p)).effects, StartKind)| == 1
  {
    assert Filter([AcquireCapture(p.pointerId)], StartKind) == [];
    assert [AcquireCapture(p.pointerId), Start][..1] == [AcquireCapture(p.pointerId)];
  }

  /** A move while moving sets the offset to the displacement, in document
      space, from the anchor to the pointer, and changes nothing else. */
  lemma MoveTracksDocumentDisplacement(s: State, p: Sample)
    requires s.moving
    ensures Step(s, Move(p)).state.moving
    ensures Step(s, Move(p)).state.anchor == s.anchor
    ensures Step(s, Move(p)).state.offset == Displacement(AnchorPosition(s.anchor), DocumentPosition(p))
  {
  }

  /** Scroll compensation: two moves at the same viewport point whose page
      scroll differs by (dx, dy) give offsets that differ by exactly (dx, dy). */
  lemma ScrollCompensation(s: State, p: Sample, dx: real, dy: real)
    requires s.moving
    ensures var q := p.(scrollX := p.scrollX + dx, scrollY := p.scrollY + dy);
            Step(s, Move(q)).state.offset
            == Point(Step(s, Move(p)).state.offset.x + dx, Step(s, Move(p)).state.offset.y + dy)
  {
  }

  /** Release while moving reports the stored offset (not one recomputed
      from the release event), releases the event's pointer and resets. */
  lemma ReleaseReportsStoredOffset(s: State, p: Sample)
    requires s.moving
    ensures Step(s, Release(p)).state == s.(moving := false, offset := Origin)
    ensures Step(s, Release(p)).effects[..2] == [ReleaseCapture(p.pointerId), End(s.offset)]
  {
  }

  /** Cancel while moving reports a zero offset whatever was accumulated,
      releases the event's pointer and resets. */
  lemma CancelReportsZero(s: State, p: Sample)
    requires s.moving
    ensures Step(s, Cancel(p)).state == s.(moving := false, offset := Origin)
    ensures Step(s, Cancel(p)).effects[..2] == [ReleaseCapture(p.pointerId), End(Origin)]
  {
  }

  /** The position-change notification of one step: it fires, with the new
      offset, exactly when the step changed the offset's value, and it is the
      only notification the step produces. */
  lemma NotifiesExactlyOnChange(s: State, e: Event)
    ensures var r := Step(s, e);
            Filter(r.effects, PositionKind)
            == if r.state.offset == s.offset then [] else [RelativePositionChange(r.state.offset)]
  {
    var r := Step(s, e);
    var n := Notify(s, r.state);
    match e
    case Press(p) =>
      FilterAppend([AcquireCapture(p.pointerId), Start], n, PositionKind);
      assert [AcquireCapture(p.pointerId), Start][..1] == [AcquireCapture(p.pointerId)];
    case Move(p) =>
    case Release(p) =>
      if s.moving {
        FilterAppend([ReleaseCapture(p.pointerId), End(s.offset)], n, PositionKind);
        assert [ReleaseCapture(p.pointerId), End(s.offset)][..1] == [ReleaseCapture(p.pointerId)];
      }
    case Cancel(p) =>
      if s.moving {
        FilterAppend([ReleaseCapture(p.pointerId), End(Origin)], n, PositionKind);
        assert [ReleaseCapture(p.pointerId), End(Origin)][..1] == [ReleaseCapture(p.pointerId)];
      }
  }
}
