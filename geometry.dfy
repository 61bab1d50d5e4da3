/**
 * Screen geometry (src/types.rs): a `Position` is a pair of device-pixel
 * coordinates and an `Area` is two corners kept in drag order. Coordinates
 * are modelled as finite reals: the code only subtracts, takes `abs` and
 * takes minima, so no IEEE behaviour is involved.
 */
module Geometry {

  function Abs(v: real): real {
    if v < 0.0 then -v else v
  }

  function Min(a: real, b: real): real {
    if b < a then b else a
  }

  function Max(a: real, b: real): real {
    if a < b then b else a
  }

  /** `#[derive(Default)]` gives both coordinates the value 0. */
  datatype Position = Position(x: real, y: real)

  const Origin: Position := Position(0.0, 0.0)

  /** An axis-aligned rectangle given by its top-left corner and its size. */
  datatype Rect = Rect(x: real, y: real, width: real, height: real)

  datatype Area = Area(start: Position, end: Position) {

    /** `get_width`: the horizontal distance between the two corners. */
    function Width(): (w: real)
      ensures w >= 0.0
      ensures w == 0.0 <==> start.x == end.x
      ensures Min(start.x, end.x) + w == Max(start.x, end.x)
    {
      Abs(start.x - end.x)
    }

    /** `get_height`: the vertical distance between the two corners. */
    function Height(): (h: real)
      ensures h >= 0.0
      ensures h == 0.0 <==> start.y == end.y
      ensures Min(start.y, end.y) + h == Max(start.y, end.y)
    {
      Abs(start.y - end.y)
    }

    /** The top-left corner: the smaller of each coordinate pair. */
    function TopLeft(): (p: Position)
      ensures p.x <= start.x && p.x <= end.x && (p.x == start.x || p.x == end.x)
      ensures p.y <= start.y && p.y <= end.y && (p.y == start.y || p.y == end.y)
    {
      Position(Min(start.x, end.x), Min(start.y, end.y))
    }

    /**
     * The rectangle drawn and cropped for this area: top-left corner plus
     * size. Its two vertical edges lie at the two corners' x coordinates and
     * its two horizontal edges at their y coordinates, whatever the drag
     * direction.
     */
    function Bounds(): (r: Rect)
      ensures r.width >= 0.0 && r.height >= 0.0
      ensures {r.x, r.x + r.width} == {start.x, end.x}
      ensures {r.y, r.y + r.height} == {start.y, end.y}
    {
      Rect(TopLeft().x, TopLeft().y, Width(), Height())
    }
  }

  /** `#[derive(Default)]` on `Area`: both corners at the origin. */
  const DefaultArea: Area := Area(Origin, Origin)

  lemma DefaultAreaIsEmpty()
    ensures DefaultArea.Width() == 0.0 && DefaultArea.Height() == 0.0
    ensures DefaultArea.Bounds() == Rect(0.0, 0.0, 0.0, 0.0)
  {
  }

  /** Dragging in the opposite direction describes the same rectangle. */
  lemma SwapInvariant(a: Area)
    ensures Area(a.end, a.start).Width() == a.Width()
    ensures Area(a.end, a.start).Height() == a.Height()
    ensures Area(a.end, a.start).TopLeft() == a.TopLeft()
    ensures Area(a.end, a.start).Bounds() == a.Bounds()
  {
  }

  /** The width reads only the x coordinates and the height only the y coordinates. */
  lemma SizeFollowsAxes(a: Area, b: Area)
    ensures a.start.x == b.start.x && a.end.x == b.end.x ==> a.Width() == b.Width()
    ensures a.start.y == b.start.y && a.end.y == b.end.y ==> a.Height() == b.Height()
  {
  }
}
