/**
 * Curve geometry of one displayed frame: the move-to point and the cubic
 * segments that `draw` hands to `bezierCurveTo`, one per bin below
 * `length / zoom`, with Catmull-Rom style handles computed by `drawBezier`.
 */
module Geometry {
  import opened Wrappers
  import opened Arith

  datatype Point = Point(x: real, y: real)

  /** One `bezierCurveTo` call: two control points and the end point. */
  datatype Segment = Segment(c1: Point, c2: Point, end: Point)

  /** The pen's starting point and the cubic segments that follow it. */
  datatype Path = Path(moveTo: Point, segments: seq<Segment>)

  /** JavaScript indexing: a slot outside the array reads as `undefined`. */
  function Lookup(a: seq<real>, k: int): (r: Option<real>)
    ensures r.Some? <==> 0 <= k < |a|
    ensures r.Some? ==> r.value == a[k]
  {
    if 0 <= k < |a| then Some(a[k]) else None
  }

  /** The `??` operator: only an `undefined` left operand is replaced, a present 0 is kept. */
  function OrElse(o: Option<real>, fallback: real): (r: real)
    ensures o.Some? ==> r == o.value
    ensures o.None? ==> r == fallback
  {
    match o
    case Some(v) => v
    case None => fallback
  }

  /** The canvas y coordinate of a bin value: larger values are drawn higher. */
  function Level(height: real, v: real, scale: real): real
  {
    height - v * scale
  }

  /**
   * `drawBezier`: the cubic from (x + dx, yA) to (x + 2dx, yB) whose handles
   * follow the half-differences (yB - y0) / 2 and (y1 - yA) / 2, a third of
   * dx away from their anchors. Each handle is its anchor plus one sixth of
   * the chord between the bins on either side of that anchor (a Catmull-Rom
   * tangent): (x, y0) to (x + 2dx, yB) at the start, (x + dx, yA) to
   * (x + 3dx, y1) at the end.
   */
  function Bezier(x: real, dx: real, y0: real, yA: real, yB: real, y1: real): (s: Segment)
    ensures s.end == Point(x + 2.0 * dx, yB)
    ensures s.c1.x - (x + dx) == ((x + 2.0 * dx) - x) / 6.0 && s.c1.y - yA == (yB - y0) / 6.0
    ensures s.end.x - s.c2.x == ((x + 3.0 * dx) - (x + dx)) / 6.0 && s.end.y - s.c2.y == (y1 - yA) / 6.0
  {
    var dy0 := (yB - y0) / 2.0;
    var dy1 := (y1 - yA) / 2.0;
    var ax := x + dx;
    var bx := ax + dx;
    var frac := 1.0 / 3.0;
    Segment(Point(ax + frac * dx, yA + frac * dy0), Point(bx - frac * dx, yB - frac * dy1), Point(bx, yB))
  }

  /** The number of naturals below `len / zoom`: the loop's iteration count. */
  function SegmentCount(len: nat, zoom: nat): nat
    requires zoom >= 1
  {
    (len + zoom - 1) / zoom
  }

  /**
   * Frames whose every coordinate is a finite number: fewer than two bins
   * read an `undefined` slot, and `length == zoom` divides by `max - 1 == 0`.
   */
  predicate Drawable(a: seq<real>, zoom: nat)
  {
    2 <= |a| && |a| != zoom
  }

  /** `max` of the loop: the number of bins divided by the zoom, as a real. */
  function Ratio(len: nat, zoom: nat): (max: real)
    requires zoom >= 1
    ensures max == 1.0 <==> len == zoom
  {
    assert len as real / zoom as real == 1.0 ==> len as real == zoom as real;
    len as real / zoom as real
  }

  /**
   * Segment i of the loop for a given `max`: x = i * width / (max - 1), step
   * dx = width / (max - 1), neighbours chosen by `??` as the loop does.
   */
  function SegmentAt(a: seq<real>, i: nat, width: real, height: real, max: real, scale: real): (s: Segment)
    requires max != 1.0 && i + 1 < |a|
    ensures s == Bezier(i as real * width / (max - 1.0), width / (max - 1.0),
                        Level(height, a[if i == 0 then 0 else i - 1], scale),
                        Level(height, a[i], scale),
                        Level(height, a[i + 1], scale),
                        Level(height, a[if i + 2 < |a| then i + 2 else |a| - 1], scale))
  {
    FallbackIsClamp(a, i);
    Bezier(i as real * width / (max - 1.0), width / (max - 1.0),
           Level(height, OrElse(Lookup(a, i - 1), a[i]), scale),
           Level(height, a[i], scale),
           Level(height, a[i + 1], scale),
           Level(height, OrElse(Lookup(a, i + 2), a[i + 1]), scale))
  }

  /** With at least two bins and a zoom of at least two, bin i + 1 exists for every segment i. */
  lemma SegmentsFit(len: nat, zoom: nat)
    requires len >= 2 && zoom >= 2
    ensures SegmentCount(len, zoom) <= len - 1
  {
    MulMonotone(2, len, zoom - 1);
    assert len * zoom == len * (zoom - 1) + len;
    DivBelow(len + zoom - 1, zoom, len);
  }

  /** The path drawn for a frame; None when some coordinate would not be a finite number. */
  function Curve(a: seq<real>, width: real, height: real, zoom: nat, scale: real): (r: Option<Path>)
    requires zoom >= 2
    ensures r.Some? <==> Drawable(a, zoom)
  {
    if !Drawable(a, zoom) then None
    else
      SegmentsFit(|a|, zoom);
      var n, max := SegmentCount(|a|, zoom), Ratio(|a|, zoom);
      Some(Path(Point(0.0, Level(height, a[0], scale)),
                seq(n, i requires 0 <= i < n => SegmentAt(a, i, width, height, max, scale))))
  }

  /** i < len / zoom over the reals exactly when i is below the integer segment count. */
  lemma LoopBound(len: nat, zoom: nat, i: nat)
    requires zoom >= 1
    ensures i < SegmentCount(len, zoom) <==> (i as real) < len as real / zoom as real
  {
    BelowRatio(i as real, len as real, zoom as real);
    assert (i as real) * (zoom as real) == (i * zoom) as real;
    assert (i + 1) * zoom == i * zoom + zoom;
    if (i + 1) * zoom <= len + zoom - 1 {
      DivAtLeast(len + zoom - 1, zoom, i + 1);
    } else {
      DivBelow(len + zoom - 1, zoom, i + 1);
    }
  }

  /** The segment loop of `draw`, collecting the `drawBezier` segments instead of drawing them. */
  method TracePath(a: seq<real>, width: real, height: real, zoom: nat, scale: real) returns (r: Option<Path>)
    requires zoom >= 2
    ensures r == Curve(a, width, height, zoom, scale)
  {
    if !Drawable(a, zoom) {
      return None;
    }
    SegmentsFit(|a|, zoom);
    var max := Ratio(|a|, zoom);
    var segments: seq<Segment> := [];
    var i: nat := 0;
    while (i as real) < max
      invariant i <= SegmentCount(|a|, zoom)
      invariant |segments| == i
      invariant forall k :: 0 <= k < i ==> segments[k] == SegmentAt(a, k, width, height, max, scale)
      decreases SegmentCount(|a|, zoom) - i
    {
      LoopBound(|a|, zoom, i);
      segments := segments + [SegmentAt(a, i, width, height, max, scale)];
      i := i + 1;
    }
    LoopBound(|a|, zoom, i);
    assert segments == Curve(a, width, height, zoom, scale).value.segments;
    r := Some(Path(Point(0.0, Level(height, a[0], scale)), segments));
  }

  // ---------------------------------------------------------------- properties

  /** The `??` fallbacks are a clamp of the neighbour index to the frame. */
  lemma FallbackIsClamp(a: seq<real>, i: nat)
    requires i + 1 < |a|
    ensures OrElse(Lookup(a, i - 1), a[i]) == a[if i == 0 then 0 else i - 1]
    ensures OrElse(Lookup(a, i + 2), a[i + 1]) == a[if i + 2 < |a| then i + 2 else |a| - 1]
  {
  }

  /** i * w / s advances by w / s from one i to the next. */
  lemma StepAdvance(i: nat, w: real, s: real)
    requires s != 0.0
    ensures (i + 1) as real * w / s == i as real * w / s + w / s
  {
    assert (i + 1) as real * w == i as real * w + w;
  }

  /** The same step, counted back from i. */
  lemma StepBack(i: nat, w: real, s: real)
    requires s != 0.0 && i >= 1
    ensures i as real * w / s == (i - 1) as real * w / s + w / s
  {
    assert i as real * w == (i - 1) as real * w + w;
  }

  /** Segment i ends at x = (i + 2) * width / (max - 1) on the level of bin i + 1. */
  lemma SegmentEnd(a: seq<real>, width: real, height: real, max: real, scale: real, i: nat)
    requires max != 1.0 && i + 1 < |a|
    ensures SegmentAt(a, i, width, height, max, scale).end
            == Point((i + 2) as real * width / (max - 1.0), height - a[i + 1] * scale)
  {
    StepAdvance(i, width, max - 1.0);
    StepAdvance(i + 1, width, max - 1.0);
  }

  /**
   * The curve starts at the left edge on the level of bin 0, has one segment
   * per natural below `length / zoom` (LoopBound), and segment i is the
   * `drawBezier` call of iteration i, ending at x = (i + 2) * dx on the level
   * of bin i + 1.
   */
  lemma CurveShape(a: seq<real>, width: real, height: real, zoom: nat, scale: real, i: nat)
    requires zoom >= 2 && Drawable(a, zoom)
    requires i < SegmentCount(|a|, zoom)
    ensures var p := Curve(a, width, height, zoom, scale).value;
            && p.moveTo == Point(0.0, height - a[0] * scale)
            && |p.segments| == SegmentCount(|a|, zoom)
            && i + 1 < |a|
            && p.segments[i] == SegmentAt(a, i, width, height, Ratio(|a|, zoom), scale)
            && p.segments[i].end == Point((i + 2) as real * width / (Ratio(|a|, zoom) - 1.0), height - a[i + 1] * scale)
  {
    SegmentsFit(|a|, zoom);
    SegmentEnd(a, width, height, Ratio(|a|, zoom), scale, i);
  }

  /** Two consecutive `drawBezier` calls, the second one bin and one step dx further, have mirrored handles at the joint. */
  lemma HandlesMirror(x1: real, x2: real, dx: real, p: real, q: real, r: real, s: real, t: real)
    requires x2 == x1 + dx
    ensures var first, second := Bezier(x1, dx, p, q, r, s), Bezier(x2, dx, q, r, s, t);
            && first.end == Point(x2 + dx, r)
            && first.c2.x + second.c1.x == 2.0 * first.end.x
            && first.c2.y + second.c1.y == 2.0 * first.end.y
  {
  }

  /**
   * Consecutive segments join smoothly: segment i - 1 ends on the anchor of
   * segment i, and the incoming and outgoing handles there are mirror images.
   */
  lemma SmoothJoints(a: seq<real>, width: real, height: real, max: real, scale: real, i: nat)
    requires max != 1.0 && 1 <= i && i + 1 < |a|
    ensures var first, second := SegmentAt(a, i - 1, width, height, max, scale), SegmentAt(a, i, width, height, max, scale);
            && first.end == Point(i as real * width / (max - 1.0) + width / (max - 1.0), height - a[i] * scale)
            && first.c2.x + second.c1.x == 2.0 * first.end.x
            && first.c2.y + second.c1.y == 2.0 * first.end.y
  {
    var span := max - 1.0;
    var dx := width / span;
    var x1, x2 := (i - 1) as real * width / span, i as real * width / span;
    StepBack(i, width, span);
    var p := Level(height, OrElse(Lookup(a, i - 2), a[i - 1]), scale);
    var q, r, s := Level(height, a[i - 1], scale), Level(height, a[i], scale), Level(height, a[i + 1], scale);
    var t := Level(height, OrElse(Lookup(a, i + 2), a[i + 1]), scale);
    assert Lookup(a, i - 1) == Some(a[i - 1]) && Lookup(a, i + 1) == Some(a[i + 1]);
    assert SegmentAt(a, i - 1, width, height, max, scale) == Bezier(x1, dx, p, q, r, s);
    assert SegmentAt(a, i, width, height, max, scale) == Bezier(x2, dx, q, r, s, t);
    HandlesMirror(x1, x2, dx, p, q, r, s, t);
  }

  /** A segment depends only on the bins from i - 1 to i + 2. */
  lemma SegmentIsLocal(a: seq<real>, b: seq<real>, width: real, height: real, max: real, scale: real, i: nat)
    requires max != 1.0 && |b| == |a| && i + 1 < |a|
    requires forall k :: i - 1 <= k <= i + 2 && 0 <= k < |a| ==> a[k] == b[k]
    ensures SegmentAt(a, i, width, height, max, scale) == SegmentAt(b, i, width, height, max, scale)
  {
    assert Lookup(a, i - 1) == Lookup(b, i - 1);
    assert Lookup(a, i + 2) == Lookup(b, i + 2);
  }

  /** An all-zero frame is drawn as a flat line on the bottom edge. */
  lemma FlatBaseline(a: seq<real>, width: real, height: real, zoom: nat, scale: real)
    requires zoom >= 2 && Drawable(a, zoom)
    requires forall k :: 0 <= k < |a| ==> a[k] == 0.0
    ensures var p := Curve(a, width, height, zoom, scale).value;
            && p.moveTo.y == height
            && forall i :: 0 <= i < |p.segments| ==>
                 p.segments[i].c1.y == height && p.segments[i].c2.y == height && p.segments[i].end.y == height
  {
    SegmentsFit(|a|, zoom);
  }

  /**
   * The two-zero idle frame at zoom 4 and scale 2: one flat segment whose
   * step is -2 * width, so it runs leftwards from the origin off the canvas.
   */
  lemma IdleFrameCurve(width: real, height: real)
    ensures Curve([0.0, 0.0], width, height, 4, 2.0)
            == Some(Path(Point(0.0, height),
                         [Segment(Point(-8.0 * width / 3.0, height), Point(-10.0 * width / 3.0, height),
                                  Point(-4.0 * width, height))]))
  {
    assert SegmentCount(2, 4) == 1;
    assert Ratio(2, 4) == 0.5;
    var dx := width / -0.5;
    assert dx == -2.0 * width;
    assert 0 as real * width / -0.5 == 0.0;
    assert Level(height, 0.0, 2.0) == height;
    assert SegmentAt([0.0, 0.0], 0, width, height, 0.5, 2.0)
           == Bezier(0.0, dx, height, height, height, height);
    var b := Bezier(0.0, dx, height, height, height, height);
    assert b.c1 == Point(-8.0 * width / 3.0, height);
    assert b.c2 == Point(-10.0 * width / 3.0, height);
    assert b.end == Point(-4.0 * width, height);
    assert Curve([0.0, 0.0], width, height, 4, 2.0).value.segments == [b];
  }
}
