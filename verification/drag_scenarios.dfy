/** Two concrete sessions of the tracker, worked through event by event. */
module DragScenarios {
  import opened DragTypes
  import opened DragTracker
  import opened DragTraces

  /** Press at (100, 100) without scroll, move to (150, 120), then the page
      scrolls down by 30 and the pointer moves again at the same viewport
      point, then release: the reported offsets are (50, 20) and (50, 50),
      `onEnd` receives (50, 50) and the offset returns to zero. */
  lemma ScrollDuringDrag()
    ensures var evs := [Press(Sample(100.0, 100.0, 0.0, 0.0, 1)),
                        Move(Sample(150.0, 120.0, 0.0, 0.0, 1)),
                        Move(Sample(150.0, 120.0, 0.0, 30.0, 1)),
                        Release(Sample(150.0, 120.0, 0.0, 30.0, 1))];
            var r := Session(evs);
            && r.state.offset == Origin
            && !r.state.moving
            && r.effects == [RelativePositionChange(Origin),
                             AcquireCapture(1), Start,
                             RelativePositionChange(Point(50.0, 20.0)),
                             RelativePositionChange(Point(50.0, 50.0)),
                             ReleaseCapture(1), End(Point(50.0, 50.0)),
                             RelativePositionChange(Origin)]
  {
    var evs := [Press(Sample(100.0, 100.0, 0.0, 0.0, 1)),
                Move(Sample(150.0, 120.0, 0.0, 0.0, 1)),
                Move(Sample(150.0, 120.0, 0.0, 30.0, 1)),
                Release(Sample(150.0, 120.0, 0.0, 30.0, 1))];
    var s0 := Mount().state;
    var o1 := Step(s0, evs[0]);
    var o2 := Step(o1.state, evs[1]);
    var o3 := Step(o2.state, evs[2]);
    var o4 := Step(o3.state, evs[3]);
    assert evs[..1][..0] == [] && evs[..2][..1] == evs[..1] && evs[..3][..2] == evs[..2] && evs[..3] == evs[..|evs| - 1];
    assert Run(s0, evs[..1]) == o1;
    assert Run(s0, evs[..2]) == Outcome(o2.state, o1.effects + o2.effects);
    assert Run(s0, evs[..3]) == Outcome(o3.state, o1.effects + o2.effects + o3.effects);
    assert Run(s0, evs) == Outcome(o4.state, o1.effects + o2.effects + o3.effects + o4.effects);
  }

  /** Press, move to an offset of (40, -10), cancel: `onEnd` receives
      (0, 0) and the tracker is no longer moving. */
  lemma CancelDiscardsOffset()
    ensures var evs := [Press(Sample(10.0, 20.0, 0.0, 0.0, 7)),
                        Move(Sample(50.0, 10.0, 0.0, 0.0, 7)),
                        Cancel(Sample(50.0, 10.0, 0.0, 0.0, 7))];
            var r := Session(evs);
            && !r.state.moving
            && r.effects == [RelativePositionChange(Origin),
                             AcquireCapture(7), Start,
                             RelativePositionChange(Point(40.0, -10.0)),
                             ReleaseCapture(7), End(Origin),
                             RelativePositionChange(Origin)]
  {
    var evs := [Press(Sample(10.0, 20.0, 0.0, 0.0, 7)),
                Move(Sample(50.0, 10.0, 0.0, 0.0, 7)),
                Cancel(Sample(50.0, 10.0, 0.0, 0.0, 7))];
    var s0 := Mount().state;
    var o1 := Step(s0, evs[0]);
    var o2 := Step(o1.state, evs[1]);
    var o3 := Step(o2.state, evs[2]);
    assert evs[..1][..0] == [] && evs[..2][..1] == evs[..1] && evs[..2] == evs[..|evs| - 1];
    assert Run(s0, evs[..1]) == o1;
    assert Run(s0, evs[..2]) == Outcome(o2.state, o1.effects + o2.effects);
    assert Run(s0, evs) == Outcome(o3.state, o1.effects + o2.effects + o3.effects);
  }
}
