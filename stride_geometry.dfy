/** The stride annotation's geometry: from the two clicked points, the two line
    segments drawn over the frame. Points are raw click coordinates; no
    transform is applied to them. */
module StrideGeometry {

  datatype Point = Point(x: int, y: int)

  datatype Segment = Segment(start: Point, end: Point)

  /** The vertical foot-plant line and the horizontal stride line. */
  datatype StrideLines = StrideLines(vertical: Segment, horizontal: Segment)

  function Abs(n: int): (r: nat)
    ensures r == n || r == -n
  {
    if n < 0 then -n else n
  }

  predicate IsVertical(s: Segment) {
    s.start.x == s.end.x
  }

  predicate IsHorizontal(s: Segment) {
    s.start.y == s.end.y
  }

  /** Vertical extent of a segment. */
  function Span(s: Segment): nat {
    Abs(s.end.y - s.start.y)
  }

  /** The lines drawn for the clicks `foot` (first) and `other` (second): a
      vertical segment from the foot down (or up) to the second click's height,
      and a horizontal segment from the foot to the right whose length is that
      vertical span. */
  function Lines(foot: Point, other: Point): (r: StrideLines)
    ensures r.vertical.start == foot && r.horizontal.start == foot
    ensures IsVertical(r.vertical) && r.vertical.end.y == other.y
    ensures IsHorizontal(r.horizontal) && r.horizontal.end.x >= foot.x
    ensures r.horizontal.end.x - foot.x == Span(r.vertical)
  {
    var length := Abs(other.y - foot.y);
    StrideLines(Segment(foot, Point(foot.x, other.y)), Segment(foot, Point(foot.x + length, foot.y)))
  }

  /** The second click contributes only its height: its x coordinate is never drawn. */
  lemma LinesIgnoreSecondX(foot: Point, other: Point, x: int)
    ensures Lines(foot, other) == Lines(foot, Point(x, other.y))
  {
  }

  /** Clicks mirrored about the foot's height give the same horizontal stride
      line: its length depends only on the distance between the two heights. */
  lemma HorizontalIsMirrorInvariant(foot: Point, other: Point)
    ensures Lines(foot, other).horizontal == Lines(foot, Point(other.x, 2 * foot.y - other.y)).horizontal
  {
  }

  /** Clicks at (50, 20) then (80, 100) draw (50,20)-(50,100) and (50,20)-(130,20). */
  lemma WorkedExample()
    ensures Lines(Point(50, 20), Point(80, 100))
         == StrideLines(Segment(Point(50, 20), Point(50, 100)), Segment(Point(50, 20), Point(130, 20)))
  {
  }
}
