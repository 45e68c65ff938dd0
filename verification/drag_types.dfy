/** Data model of the drag-gesture tracker of the `useDrag` hook: the tracker's
    state, the pointer events that drive it, and the side effects it produces.
    Coordinates are exact reals: the tracker only adds and subtracts them. */
module DragTypes {

  datatype Option<+T> = None | Some(value: T)

  /** A pair of coordinates; used for offsets and document-space positions. */
  datatype Point = Point(x: real, y: real)

  const Origin: Point := Point(0.0, 0.0)

  /** What one pointer event carries: the pointer's viewport (client)
      coordinates, the page scroll offsets at the time of the event, and the
      pointer id used for pointer capture. */
  datatype Sample = Sample(clientX: real, clientY: real, scrollX: real, scrollY: real, pointerId: int)

  /** Pointer and scroll coordinates captured when a gesture is pressed. */
  datatype Anchor = Anchor(x: real, y: real, scrollX: real, scrollY: real)

  /** The four pointer events the tracker handles. */
  datatype Event =
    | Press(sample: Sample)
    | Move(sample: Sample)
    | Release(sample: Sample)
    | Cancel(sample: Sample)
  {
    /** True of the events that end a gesture. */
    predicate IsEnd() {
      Release? || Cancel?
    }
  }

  /** Observable side effects: the three callbacks of the hook's options and
      the two pointer-capture primitives of the host. */
  datatype Effect =
    | Start
    | End(at: Point)
    | RelativePositionChange(at: Point)
    | AcquireCapture(pointerId: int)
    | ReleaseCapture(pointerId: int)

  /** The tracker's state: whether a gesture is in progress, the anchor of
      the last press, and the current offset relative to that anchor. */
  datatype State = State(moving: bool, anchor: Anchor, offset: Point)

  /** The state after an event together with the effects the event produced,
      in the order they happen. */
  datatype Outcome = Outcome(state: State, effects: seq<Effect>)

  /** The anchor a press at `p` records. */
  function AnchorOf(p: Sample): Anchor {
    Anchor(p.clientX, p.clientY, p.scrollX, p.scrollY)
  }

  /** Where a sample lies in document space: viewport position plus scroll. */
  function DocumentPosition(p: Sample): Point {
    Point(p.clientX + p.scrollX, p.clientY + p.scrollY)
  }

  /** Where an anchor lies in document space. */
  function AnchorPosition(a: Anchor): Point {
    Point(a.x + a.scrollX, a.y + a.scrollY)
  }

  /** The displacement that leads from `source` to `target`. */
  function Displacement(source: Point, target: Point): Point {
    Point(target.x - source.x, target.y - source.y)
  }

  /** Kinds of effects, to pick effects out of a trace. */
  datatype Kind = AcquireKind | ReleaseKind | CaptureKind | StartKind | EndKind | PositionKind

  predicate OfKind(e: Effect, k: Kind) {
    match k
    case AcquireKind => e.AcquireCapture?
    case ReleaseKind => e.ReleaseCapture?
    case CaptureKind => e.AcquireCapture? || e.ReleaseCapture?
    case StartKind => e.Start?
    case EndKind => e.End?
    case PositionKind => e.RelativePositionChange?
  }

  /** The effects of `effs` of kind `keep`, in order. */
  function Filter(effs: seq<Effect>, keep: Kind): (r: seq<Effect>)
    ensures |r| <= |effs|
    ensures forall k | 0 <= k < |r| :: OfKind(r[k], keep)
    decreases |effs|
  {
    if effs == [] then []
    else Filter(effs[..|effs| - 1], keep) + (if OfKind(effs[|effs| - 1], keep) then [effs[|effs| - 1]] else [])
  }

  lemma {:induction false} FilterAppend(a: seq<Effect>, b: seq<Effect>, keep: Kind)
    ensures Filter(a + b, keep) == Filter(a, keep) + Filter(b, keep)
    decreases |b|
  {
    if b == [] {
      assert a + b == a;
    } else {
      var b' := b[..|b| - 1];
      assert (a + b)[..|a + b| - 1] == a + b';
      assert (a + b)[|a + b| - 1] == b[|b| - 1];
      FilterAppend(a, b', keep);
    }
  }

  lemma FilterPair(a: Effect, b: Effect, keep: Kind)
    ensures Filter([a, b], keep) == (if OfKind(a, keep) then [a] else []) + (if OfKind(b, keep) then [b] else [])
  {
    assert [a, b][..1] == [a];
    assert [a][..0] == [];
  }

  /** The value the last `RelativePositionChange` of `effs` carries, if any. */
  function LastReported(effs: seq<Effect>): (r: Option<Point>)
    ensures r.Some? <==> exists k :: 0 <= k < |effs| && effs[k].RelativePositionChange?
    ensures r.Some? ==> RelativePositionChange(r.value) in effs
    decreases |effs|
  {
    if effs == [] then None
    else if effs[|effs| - 1].RelativePositionChange? then Some(effs[|effs| - 1].at)
    else LastReported(effs[..|effs| - 1])
  }

  lemma {:induction false} LastReportedAppend(a: seq<Effect>, b: seq<Effect>)
    ensures LastReported(a + b) == if LastReported(b).Some? then LastReported(b) else LastReported(a)
    decreases |b|
  {
    if b == [] {
      assert a + b == a;
    } else {
      var b' := b[..|b| - 1];
      assert (a + b)[..|a + b| - 1] == a + b';
      assert (a + b)[|a + b| - 1] == b[|b| - 1];
      LastReportedAppend(a, b');
    }
  }
}
