/** app/components/ui/ImageModal.tsx: the full-screen image viewer's zoom and pan
    state, driven by its event handlers, together with the open/close state of
    `useImageModal`. The zoom scale is counted in tenths (10 is 1.0). */
module ImageModal {

  const MinScale: int := 5
  const MaxScale: int := 50
  const UnitScale: int := 10
  const WheelStep: int := 2

  datatype Point = Point(x: int, y: int)

  /** Everything the handlers read and write: `isOpen` and `imageProps` of the
      hook, and `scale`, `position`, `isDragging` and `dragStart` of the viewer. */
  datatype Viewer = Viewer(
    isOpen: bool,
    src: string,
    alt: string,
    scale: int,
    position: Point,
    dragging: bool,
    dragStart: Point)

  /** The state before any event: closed, no image, unzoomed, at the origin. */
  const Initial: Viewer := Viewer(false, "", "", UnitScale, Point(0, 0), false, Point(0, 0))

  /** Mouse and touch events carry the pointer position (`clientX`/`clientY`, or
      those of the first touch). Mouse leave behaves as mouse up. */
  datatype Event =
    | Wheel(deltaY: int)
    | DoubleClick
    | MouseDown(p: Point)
    | MouseMove(p: Point)
    | MouseUp
    | MouseLeave
    | TouchStart(p: Point)
    | TouchMove(p: Point)
    | TouchEnd
    | KeyDown(key: string)
    | Open(newSrc: string, newAlt: string)
    | Close

  predicate ScaleInRange(v: Viewer) {
    MinScale <= v.scale <= MaxScale
  }

  function Min(a: int, b: int): int { if a < b then a else b }
  function Max(a: int, b: int): int { if a > b then a else b }

  /** handleWheel: a step in on an upward wheel, capped at 5.0; a step out
      otherwise, floored at 0.5. */
  function ZoomWheel(v: Viewer, deltaY: int): (r: Viewer)
    ensures r == v.(scale := r.scale)
    ensures deltaY < 0 ==> r.scale == Min(v.scale + WheelStep, MaxScale)
    ensures deltaY >= 0 ==> r.scale == Max(v.scale - WheelStep, MinScale)
  {
    if deltaY < 0 then v.(scale := Min(v.scale + WheelStep, MaxScale))
    else v.(scale := Max(v.scale - WheelStep, MinScale))
  }

  /** handleDoubleClick: back to 1.0 at the origin when zoomed, else to 2.0 in place. */
  function ToggleZoom(v: Viewer): (r: Viewer)
    ensures v.scale != UnitScale ==> r == v.(scale := UnitScale, position := Point(0, 0))
    ensures v.scale == UnitScale ==> r == v.(scale := 2 * UnitScale)
  {
    if v.scale != UnitScale then v.(scale := UnitScale, position := Point(0, 0))
    else v.(scale := 2 * UnitScale)
  }

  /** handleMouseDown and handleTouchStart: a drag starts only on a zoomed image,
      remembering the pointer's offset from the current position. */
  function DragStart(v: Viewer, p: Point): (r: Viewer)
    ensures v.scale <= UnitScale ==> r == v
    ensures v.scale > UnitScale ==>
              r == v.(dragging := true, dragStart := Point(p.x - v.position.x, p.y - v.position.y))
  {
    if v.scale > UnitScale then v.(dragging := true, dragStart := Point(p.x - v.position.x, p.y - v.position.y))
    else v
  }

  /** handleMouseMove and handleTouchMove: while dragging a zoomed image the
      position follows the pointer. */
  function DragMove(v: Viewer, p: Point): (r: Viewer)
    ensures !(v.dragging && v.scale > UnitScale) ==> r == v
    ensures v.dragging && v.scale > UnitScale ==>
              r == v.(position := Point(p.x - v.dragStart.x, p.y - v.dragStart.y))
  {
    if v.dragging && v.scale > UnitScale then v.(position := Point(p.x - v.dragStart.x, p.y - v.dragStart.y))
    else v
  }

  /** The open/reset effect together with openModal: the props are set and the
      viewer opened; scale and position are reset when the viewer was closed or
      shows a different image (the effect's dependencies changed). */
  function OpenWith(v: Viewer, src: string, alt: string): (r: Viewer)
    ensures r.isOpen && r.src == src && r.alt == alt && r.dragging == v.dragging && r.dragStart == v.dragStart
    ensures !v.isOpen || v.src != src ==> r.scale == UnitScale && r.position == Point(0, 0)
    ensures v.isOpen && v.src == src ==> r.scale == v.scale && r.position == v.position
  {
    var w := v.(isOpen := true, src := src, alt := alt);
    if !v.isOpen || v.src != src then w.(scale := UnitScale, position := Point(0, 0)) else w
  }

  /** One event. */
  function Apply(v: Viewer, e: Event): Viewer {
    match e
    case Wheel(dy) => ZoomWheel(v, dy)
    case DoubleClick => ToggleZoom(v)
    case MouseDown(p) => DragStart(v, p)
    case TouchStart(p) => DragStart(v, p)
    case MouseMove(p) => DragMove(v, p)
    case TouchMove(p) => DragMove(v, p)
    case MouseUp => v.(dragging := false)
    case MouseLeave => v.(dragging := false)
    case TouchEnd => v.(dragging := false)
    case KeyDown(key) => if key == "Escape" && v.isOpen then v.(isOpen := false) else v
    case Open(src, alt) => OpenWith(v, src, alt)
    case Close => v.(isOpen := false)
  }

  /** A sequence of events, in order. */
  function Run(v: Viewer, es: seq<Event>): Viewer
    decreases |es|
  {
    if es == [] then v else Run(Apply(v, es[0]), es[1..])
  }

  /** No event takes the scale out of [0.5, 5.0]. */
  lemma ApplyKeepsScale(v: Viewer, e: Event)
    requires ScaleInRange(v)
    ensures ScaleInRange(Apply(v, e))
  {
  }

  /** Whatever the events, the scale stays within [0.5, 5.0]. */
  lemma {:induction false} RunKeepsScale(v: Viewer, es: seq<Event>)
    requires ScaleInRange(v)
    ensures ScaleInRange(Run(v, es))
    decreases |es|
  {
    if es != [] {
      ApplyKeepsScale(v, es[0]);
      RunKeepsScale(Apply(v, es[0]), es[1..]);
    }
  }

  /** The position moves only by a drag of a zoomed image, by the double-click
      reset, or by the reset on opening. */
  lemma PositionMovesOnlyByDrag(v: Viewer, e: Event)
    requires Apply(v, e).position != v.position
    ensures ((e.MouseMove? || e.TouchMove?) && v.dragging && v.scale > UnitScale) ||
            (e.DoubleClick? && Apply(v, e).position == Point(0, 0)) ||
            (e.Open? && Apply(v, e).position == Point(0, 0))
  {
  }

  /** During a drag the image moves by exactly the pointer's displacement: pressing
      at `p0` and moving to `p1` shifts the position by `p1 - p0`. */
  lemma DragDisplacement(v: Viewer, p0: Point, p1: Point)
    requires v.scale > UnitScale
    ensures var w := Apply(Apply(v, MouseDown(p0)), MouseMove(p1));
            w.position == Point(v.position.x + (p1.x - p0.x), v.position.y + (p1.y - p0.y))
    ensures var w := Apply(Apply(v, TouchStart(p0)), TouchMove(p1));
            w.position == Point(v.position.x + (p1.x - p0.x), v.position.y + (p1.y - p0.y))
  {
  }

  /** Releasing the pointer ends the drag: after mouse up, mouse leave or touch
      end, moves no longer change anything. */
  lemma ReleaseStopsDrag(v: Viewer, release: Event, p: Point)
    requires release.MouseUp? || release.MouseLeave? || release.TouchEnd?
    ensures var w := Apply(v, release);
            !w.dragging && Apply(w, MouseMove(p)) == w && Apply(w, TouchMove(p)) == w
  {
  }

  /** Two double-clicks on an unzoomed image zoom to 2.0 and back to 1.0 at the origin. */
  lemma DoubleClickTwice(v: Viewer)
    requires v.scale == UnitScale
    ensures Run(v, [DoubleClick, DoubleClick]) == v.(position := Point(0, 0))
  {
    assert [DoubleClick, DoubleClick][1..] == [DoubleClick];
  }

  /** Escape closes an open viewer and does nothing else; on a closed viewer, and
      for any other key, nothing changes. */
  lemma EscapeOnlyWhenOpen(v: Viewer, key: string)
    ensures key == "Escape" && v.isOpen ==> Apply(v, KeyDown(key)) == v.(isOpen := false)
    ensures key != "Escape" || !v.isOpen ==> Apply(v, KeyDown(key)) == v
  {
  }

  /** Closing keeps the image props, so reopening the same image keeps its zoom
      only if the viewer was not closed in between: after a close the reopened
      viewer is reset. */
  lemma CloseThenOpenResets(v: Viewer)
    ensures var w := Run(v, [Close, Open(v.src, v.alt)]);
            w.isOpen && w.src == v.src && w.alt == v.alt && w.scale == UnitScale && w.position == Point(0, 0)
    ensures Apply(v, Close).src == v.src && Apply(v, Close).alt == v.alt
  {
    var es := [Close, Open(v.src, v.alt)];
    assert es[1..] == [Open(v.src, v.alt)] && es[1..][1..] == [];
    var w := Apply(v, Close);
    assert Run(v, es) == Run(w, es[1..]);
    assert Run(w, es[1..]) == Run(Apply(w, Open(v.src, v.alt)), []);
  }

  /** The viewer as the page holds it: the hook's `isOpen` and `imageProps`, and
      the viewer component's state, updated by the handlers. */
  class ImageViewer {
    var isOpen: bool
    var src: string
    var alt: string
    var scale: int
    var position: Point
    var isDragging: bool
    var dragStart: Point

    function State(): Viewer
      reads this
    {
      Viewer(isOpen, src, alt, scale, position, isDragging, dragStart)
    }

    predicate Valid()
      reads this
    {
      ScaleInRange(State())
    }

    constructor ()
      ensures State() == Initial && Valid()
    {
      isOpen, src, alt := false, "", "";
      scale, position := UnitScale, Point(0, 0);
      isDragging, dragStart := false, Point(0, 0);
    }

    method HandleWheel(deltaY: int)
      requires Valid()
      modifies this
      ensures State() == Apply(old(State()), Wheel(deltaY)) && Valid()
    {
      if deltaY < 0 {
        scale := Min(scale + WheelStep, MaxScale);
      } else {
        scale := Max(scale - WheelStep, MinScale);
      }
    }

    method HandleDoubleClick()
      requires Valid()
      modifies this
      ensures State() == Apply(old(State()), DoubleClick) && Valid()
    {
      if scale != UnitScale {
        scale := UnitScale;
        position := Point(0, 0);
      } else {
        scale := 2 * UnitScale;
      }
    }

    /** handleMouseDown and handleTouchStart. */
    method HandlePointerDown(p: Point)
      modifies this
      ensures State() == Apply(old(State()), MouseDown(p))
      ensures State() == Apply(old(State()), TouchStart(p))
    {
      if scale > UnitScale {
        isDragging := true;
        dragStart := Point(p.x - position.x, p.y - position.y);
      }
    }

    /** handleMouseMove and handleTouchMove. */
    method HandlePointerMove(p: Point)
      modifies this
      ensures State() == Apply(old(State()), MouseMove(p))
      ensures State() == Apply(old(State()), TouchMove(p))
    {
      if isDragging && scale > UnitScale {
        position := Point(p.x - dragStart.x, p.y - dragStart.y);
      }
    }

    /** handleMouseUp (also bound to mouse leave) and handleTouchEnd. */
    method HandlePointerUp()
      modifies this
      ensures State() == Apply(old(State()), MouseUp)
      ensures State() == Apply(old(State()), MouseLeave)
      ensures State() == Apply(old(State()), TouchEnd)
    {
      isDragging := false;
    }

    /** The window keydown listener, calling onClose (closeModal) on Escape. */
    method HandleKeyDown(key: string)
      modifies this
      ensures State() == Apply(old(State()), KeyDown(key))
    {
      if key == "Escape" && isOpen {
        CloseModal();
      }
    }

    /** openModal, followed by the reset effect when its dependencies changed. */
    method OpenModal(newSrc: string, newAlt: string)
      requires Valid()
      modifies this
      ensures State() == Apply(old(State()), Open(newSrc, newAlt)) && Valid()
    {
      var changed := !isOpen || src != newSrc;
      src, alt := newSrc, newAlt;
      isOpen := true;
      if changed {
        scale := UnitScale;
        position := Point(0, 0);
      }
    }

    method CloseModal()
      modifies this
      ensures State() == Apply(old(State()), Close)
    {
      isOpen := false;
    }
  }
}
