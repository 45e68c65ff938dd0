/** Properties of the tracker over whole event traces. */
module DragTraces {
  import opened DragTypes
  import opened DragTracker

  /** The outcome of feeding `evs` to the tracker in state `s`, one event after
      the other; the effects of all events are collected in order. */
  function Run(s: State, evs: seq<Event>): Outcome
    decreases |evs|
  {
    if evs == [] then Outcome(s, [])
    else
      var before := Run(s, evs[..|evs| - 1]);
      var last := Step(before.state, evs[|evs| - 1]);
      Outcome(last.state, before.effects + last.effects)
  }

  /** A mounted tracker fed `evs`, with the effect that fires on mount. */
  function Session(evs: seq<Event>): Outcome {
    var m := Mount();
    var r := Run(m.state, evs);
    Outcome(r.state, m.effects + r.effects)
  }

  /** True of traces in which every press arrives while the tracker is idle,
      which exclusive pointer capture of a single pointer guarantees. */
  predicate PressesOnlyWhenIdle(s: State, evs: seq<Event>)
    decreases |evs|
  {
    evs == []
    || (PressesOnlyWhenIdle(s, evs[..|evs| - 1])
        && (evs[|evs| - 1].Press? ==> !Run(s, evs[..|evs| - 1]).state.moving))
  }

  /** True when the press at index `i` is not followed by a release or cancel. */
  predicate OpenPressAt(evs: seq<Event>, i: int)
    requires 0 <= i < |evs|
  {
    evs[i].Press? && forall j | i < j < |evs| :: !evs[j].IsEnd()
  }

  predicate AllMoves(evs: seq<Event>) {
    forall k | 0 <= k < |evs| :: evs[k].Move?
  }

  lemma {:induction false} RunAppend(s: State, a: seq<Event>, b: seq<Event>)
    ensures var ra := Run(s, a);
            var rb := Run(ra.state, b);
            Run(s, a + b) == Outcome(rb.state, ra.effects + rb.effects)
    decreases |b|
  {
    if b == [] {
      assert a + b == a;
    } else {
      var b' := b[..|b| - 1];
      assert (a + b)[..|a + b| - 1] == a + b';
      assert (a + b)[|a + b| - 1] == b[|b| - 1];
      RunAppend(s, a, b');
    }
  }

  /** Whatever the events, a valid tracker stays valid: the offset is the
      origin whenever no gesture is in progress. */
  lemma {:induction false} RunKeepsValid(s: State, evs: seq<Event>)
    requires Valid(s)
    ensures Valid(Run(s, evs).state)
    decreases |evs|
  {
    if evs != [] {
      RunKeepsValid(s, evs[..|evs| - 1]);
    }
  }

  /** A gesture is in progress after `evs` exactly when some press in `evs` is
      followed by no release or cancel, or when one was already in progress
      and `evs` holds no release or cancel at all. */
  lemma {:induction false} MovingIffOpenPress(s: State, evs: seq<Event>)
    ensures Run(s, evs).state.moving
            <==> (exists i | 0 <= i < |evs| :: OpenPressAt(evs, i))
                 || (s.moving && forall j | 0 <= j < |evs| :: !evs[j].IsEnd())
    decreases |evs|
  {
    if evs != [] {
      var n := |evs| - 1;
      var pre := evs[..n];
      MovingIffOpenPress(s, pre);
      var e := evs[n];
      var moving := Run(s, evs).state.moving;
      if e.Press? {
        assert OpenPressAt(evs, n);
      } else if e.IsEnd() {
        assert !moving;
        forall i | 0 <= i < |evs|
          ensures !OpenPressAt(evs, i)
        {
          if i < n {
            assert evs[n].IsEnd();
          }
        }
      } else {
        assert moving == Run(s, pre).state.moving;
        if moving {
          if exists i | 0 <= i < |pre| :: OpenPressAt(pre, i) {
            var i :| 0 <= i < |pre| && OpenPressAt(pre, i);
            assert OpenPressAt(evs, i);
          } else {
            forall j | 0 <= j < |evs|
              ensures !evs[j].IsEnd()
            {
              if j < n {
                assert evs[j] == pre[j];
              }
            }
          }
        } else {
          forall i | 0 <= i < |evs|
            ensures !OpenPressAt(evs, i)
          {
            if i < n && OpenPressAt(evs, i) {
              assert OpenPressAt(pre, i);
            }
          }
          if s.moving {
            var j :| 0 <= j < |pre| && pre[j].IsEnd();
            assert evs[j].IsEnd();
          }
        }
      }
    }
  }

  /** With no gesture in progress, a trace without presses changes nothing,
      calls nothing and leaves capture alone. */
  lemma {:induction false} IdleIgnoresAllButPress(s: State, evs: seq<Event>)
    requires !s.moving
    requires forall k | 0 <= k < |evs| :: !evs[k].Press?
    ensures Run(s, evs) == Outcome(s, [])
    decreases |evs|
  {
    if evs != [] {
      IdleIgnoresAllButPress(s, evs[..|evs| - 1]);
    }
  }

  /** Pointer capture over any trace: every release of capture is preceded by
      an acquisition, the gesture in progress holds one acquisition not yet
      released, and when presses only arrive while idle the two balance
      exactly. */
  lemma {:induction false} CaptureBalance(s: State, evs: seq<Event>)
    ensures var r := Run(s, evs);
            |Filter(r.effects, ReleaseKind)| + (if r.state.moving then 1 else 0)
            <= |Filter(r.effects, AcquireKind)| + (if s.moving then 1 else 0)
    ensures var r := Run(s, evs);
            PressesOnlyWhenIdle(s, evs) ==>
              |Filter(r.effects, ReleaseKind)| + (if r.state.moving then 1 else 0)
              == |Filter(r.effects, AcquireKind)| + (if s.moving then 1 else 0)
    decreases |evs|
  {
    if evs != [] {
      var n := |evs| - 1;
      var pre := evs[..n];
      CaptureBalance(s, pre);
      var before := Run(s, pre);
      var last := Step(before.state, evs[n]);
      FilterAppend(before.effects, last.effects, ReleaseKind);
      FilterAppend(before.effects, last.effects, AcquireKind);
      StepCapture(before.state, evs[n]);
    }
  }

  /** The capture effects of a single step: a press acquires once, an end
      that arrives while moving releases once, and nothing else touches
      capture. */
  lemma StepCapture(s: State, e: Event)
    ensures var r := Step(s, e);
            && |Filter(r.effects, AcquireKind)| == (if e.Press? then 1 else 0)
            && |Filter(r.effects, ReleaseKind)| == (if e.IsEnd() && s.moving then 1 else 0)
            && r.state.moving == (e.Press? || (s.moving && !e.IsEnd()))
  {
    StepSplit(s, e);
    HeadFilters(s, e);
    var r := Step(s, e);
    var n := Notify(s, r.state);
    FilterAppend(Head(s, e), n, AcquireKind);
    FilterAppend(Head(s, e), n, ReleaseKind);
    NotifyFilter(s, r.state);
  }

  /** The effects an event produces before the position-change notification. */
  function Head(s: State, e: Event): seq<Effect> {
    match e
    case Press(p) => [AcquireCapture(p.pointerId), Start]
    case Move(p) => []
    case Release(p) => if s.moving then [ReleaseCapture(p.pointerId), End(s.offset)] else []
    case Cancel(p) => if s.moving then [ReleaseCapture(p.pointerId), End(Origin)] else []
  }

  lemma StepSplit(s: State, e: Event)
    ensures Step(s, e).effects == Head(s, e) + Notify(s, Step(s, e).state)
  {
  }

  lemma HeadFilters(s: State, e: Event)
    ensures Filter(Head(s, e), AcquireKind) == (if e.Press? then [AcquireCapture(e.sample.pointerId)] else [])
    ensures Filter(Head(s, e), ReleaseKind) == (if e.IsEnd() && s.moving then [ReleaseCapture(e.sample.pointerId)] else [])
    ensures Filter(Head(s, e), CaptureKind) == Filter(Head(s, e), AcquireKind) + Filter(Head(s, e), ReleaseKind)
    ensures Filter(Head(s, e), StartKind) == (if e.Press? then [Start] else [])
    ensures Filter(Head(s, e), EndKind) == (if e.IsEnd() && s.moving then [End(if e.Cancel? then Origin else s.offset)] else [])
  {
    var h := Head(s, e);
    if h != [] {
      assert |h| == 2;
      FilterPair(h[0], h[1], AcquireKind);
      FilterPair(h[0], h[1], ReleaseKind);
      FilterPair(h[0], h[1], CaptureKind);
      FilterPair(h[0], h[1], StartKind);
      FilterPair(h[0], h[1], EndKind);
    }
  }

  /** The notification holds only position changes. */
  lemma NotifyFilter(before: State, after: State)
    ensures Filter(Notify(before, after), AcquireKind) == []
    ensures Filter(Notify(before, after), ReleaseKind) == []
    ensures Filter(Notify(before, after), CaptureKind) == []
    ensures Filter(Notify(before, after), StartKind) == []
    ensures Filter(Notify(before, after), EndKind) == []
    ensures Filter(Notify(before, after), PositionKind) == Notify(before, after)
  {
    var n := Notify(before, after);
    if n != [] {
      assert n[..0] == [];
    }
  }

  /** The position-change callback always holds the present offset: in every
      session the last value it received is the tracker's current offset. */
  lemma {:induction false} SessionReportsOffset(evs: seq<Event>)
    ensures LastReported(Session(evs).effects) == Some(Session(evs).state.offset)
    decreases |evs|
  {
    var m := Mount();
    if evs == [] {
      assert Session(evs).effects == m.effects;
    } else {
      var n := |evs| - 1;
      var pre := evs[..n];
      SessionReportsOffset(pre);
      var before := Run(m.state, pre);
      var last := Step(before.state, evs[n]);
      assert Session(evs).effects == (m.effects + before.effects) + last.effects;
      LastReportedAppend(m.effects + before.effects, last.effects);
      NotifiesExactlyOnChange(before.state, evs[n]);
      LastReportedOfFilter(last.effects);
    }
  }

  /** The last position change of `effs` is the last element of its position
      changes. */
  lemma {:induction false} LastReportedOfFilter(effs: seq<Effect>)
    ensures var f := Filter(effs, PositionKind);
            LastReported(effs) == if f == [] then None else Some(f[|f| - 1].at)
    decreases |effs|
  {
    if effs != [] {
      LastReportedOfFilter(effs[..|effs| - 1]);
    }
  }

  /** A release ends the gesture with exactly the offset that the
      position-change callback received last. */
  lemma ReleaseEndsWithLastReported(evs: seq<Event>, p: Sample)
    requires Session(evs).state.moving
    ensures var s := Session(evs);
            && LastReported(s.effects).Some?
            && Step(s.state, Release(p)).effects[1] == End(LastReported(s.effects).value)
  {
    SessionReportsOffset(evs);
  }

  /** A run of moves inside a gesture keeps the anchor and leaves the offset at
      the displacement of the last move's document position from the
      anchor's; its only effects are position changes. */
  lemma {:induction false} MovesWhileMoving(s: State, ms: seq<Event>)
    requires s.moving
    requires AllMoves(ms)
    ensures var r := Run(s, ms);
            && r.state.moving
            && r.state.anchor == s.anchor
            && r.state.offset == (if ms == [] then s.offset
                                  else Displacement(AnchorPosition(s.anchor), DocumentPosition(ms[|ms| - 1].sample)))
            && forall k | 0 <= k < |r.effects| :: r.effects[k].RelativePositionChange?
    decreases |ms|
  {
    if ms != [] {
      var n := |ms| - 1;
      var pre := ms[..n];
      MovesWhileMoving(s, pre);
      var before := Run(s, pre);
      var last := Step(before.state, ms[n]);
      assert forall k | 0 <= k < |last.effects| :: last.effects[k].RelativePositionChange?;
    }
  }

  /** After a press and a run of moves, the offset is the displacement in
      document space from the press to the last move; with no move yet it is
      still the offset the press found. */
  lemma GestureOffset(s: State, p: Sample, ms: seq<Event>)
    requires AllMoves(ms)
    ensures var r := Run(s, [Press(p)] + ms);
            && r.state.moving
            && r.state.anchor == AnchorOf(p)
            && r.state.offset == (if ms == [] then s.offset
                                  else Displacement(DocumentPosition(p), DocumentPosition(ms[|ms| - 1].sample)))
  {
    RunAppend(s, [Press(p)], ms);
    assert Run(s, [Press(p)]).state == Step(s, Press(p)).state by {
      assert [Press(p)][..0] == [];
    }
    MovesWhileMoving(Run(s, [Press(p)]).state, ms);
  }

  /** One well-formed gesture for one pointer, from idle: press, any moves,
      then a release or a cancel. Capture is acquired once and released once,
      `onStart` and `onEnd` fire once each, `onEnd` receives the last move's
      offset on release and zero on cancel, and the tracker ends idle. */
  lemma WholeGesture(s: State, p: Sample, ms: seq<Event>, e: Event)
    requires !s.moving && Valid(s)
    requires AllMoves(ms)
    requires e.IsEnd() && e.sample.pointerId == p.pointerId
    ensures var r := Run(s, [Press(p)] + ms + [e]);
            var final := if e.Cancel? || ms == [] then Origin
                         else Displacement(DocumentPosition(p), DocumentPosition(ms[|ms| - 1].sample));
            && !r.state.moving
            && r.state.offset == Origin
            && Filter(r.effects, CaptureKind) == [AcquireCapture(p.pointerId), ReleaseCapture(p.pointerId)]
            && Filter(r.effects, StartKind) == [Start]
            && Filter(r.effects, EndKind) == [End(final)]
  {
    var r1 := Step(s, Press(p));
    var rm := Run(r1.state, ms);
    var last := Step(rm.state, e);
    GestureParts(s, p, ms, e);
    GestureOffset(s, p, ms);
    MovesWhileMoving(r1.state, ms);
    OnlyPositionChanges(rm.effects);
    StepFilters(s, Press(p));
    StepFilters(rm.state, e);
    var final := if e.Cancel? then Origin else rm.state.offset;
    ThreeParts(r1.effects, rm.effects, last.effects, p.pointerId, final);
  }

  /** Collects the capture, start and end effects of a press, a run of
      position changes and an end. */
  lemma ThreeParts(h: seq<Effect>, m: seq<Effect>, t: seq<Effect>, id: int, final: Point)
    requires Filter(h, CaptureKind) == [AcquireCapture(id)] && Filter(h, StartKind) == [Start] && Filter(h, EndKind) == []
    requires Filter(m, CaptureKind) == [] && Filter(m, StartKind) == [] && Filter(m, EndKind) == []
    requires Filter(t, CaptureKind) == [ReleaseCapture(id)] && Filter(t, StartKind) == [] && Filter(t, EndKind) == [End(final)]
    ensures Filter(h + m + t, CaptureKind) == [AcquireCapture(id), ReleaseCapture(id)]
    ensures Filter(h + m + t, StartKind) == [Start]
    ensures Filter(h + m + t, EndKind) == [End(final)]
  {
    FilterThree(h, m, t, CaptureKind);
    FilterThree(h, m, t, StartKind);
    FilterThree(h, m, t, EndKind);
  }

  /** A gesture's effects are the press's, the moves' and the end's. */
  lemma GestureParts(s: State, p: Sample, ms: seq<Event>, e: Event)
    ensures var r1 := Step(s, Press(p));
            var rm := Run(r1.state, ms);
            var last := Step(rm.state, e);
            && Run(s, [Press(p)] + ms).state == rm.state
            && Run(s, [Press(p)] + ms + [e]) == Outcome(last.state, r1.effects + rm.effects + last.effects)
  {
    var g := [Press(p)] + ms;
    RunAppend(s, g, [e]);
    RunAppend(s, [Press(p)], ms);
    assert [Press(p)][..0] == [];
    assert [e][..0] == [];
  }

  /** The capture, start and end effects of one step. */
  lemma StepFilters(s: State, e: Event)
    ensures Filter(Step(s, e).effects, CaptureKind)
            == (if e.Press? then [AcquireCapture(e.sample.pointerId)] else [])
               + (if e.IsEnd() && s.moving then [ReleaseCapture(e.sample.pointerId)] else [])
    ensures Filter(Step(s, e).effects, StartKind) == (if e.Press? then [Start] else [])
    ensures Filter(Step(s, e).effects, EndKind)
            == (if e.IsEnd() && s.moving then [End(if e.Cancel? then Origin else s.offset)] else [])
  {
    StepSplit(s, e);
    HeadFilters(s, e);
    var n := Notify(s, Step(s, e).state);
    NotifyFilter(s, Step(s, e).state);
    FilterAppend(Head(s, e), n, CaptureKind);
    FilterAppend(Head(s, e), n, StartKind);
    FilterAppend(Head(s, e), n, EndKind);
  }

  lemma FilterThree(a: seq<Effect>, b: seq<Effect>, c: seq<Effect>, keep: Kind)
    ensures Filter(a + b + c, keep) == Filter(a, keep) + Filter(b, keep) + Filter(c, keep)
  {
    FilterAppend(a + b, c, keep);
    FilterAppend(a, b, keep);
  }

  /** A sequence of position changes holds no capture, start or end effect. */
  lemma {:induction false} OnlyPositionChanges(effs: seq<Effect>)
    requires forall k | 0 <= k < |effs| :: effs[k].RelativePositionChange?
    ensures Filter(effs, CaptureKind) == [] && Filter(effs, StartKind) == [] && Filter(effs, EndKind) == []
    decreases |effs|
  {
    if effs != [] {
      OnlyPositionChanges(effs[..|effs| - 1]);
    }
  }
}
