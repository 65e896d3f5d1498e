/**
 * The arithmetic of the onboarding overlay: the padded highlight box drawn
 * around the target element, the hole cut into the dimming mask, and the
 * position of the caption card. Coordinates are viewport pixels; the
 * browser gives them as floating-point numbers, here they are integers,
 * since only additions and subtractions are applied to them.
 */
module OverlayGeometry {

  /** Margin between the target element and the highlight box. */
  const Padding: int := 10

  /** Vertical distance from the target's bottom edge to the card's top edge. */
  const CardGap: int := 20

  /** A bounding rectangle as `getBoundingClientRect` reports it. */
  datatype Rect = Rect(top: int, left: int, width: int, height: int) {
    function Right(): int { left + width }
    function Bottom(): int { top + height }
  }

  /** A CSS `top`/`left` placement. */
  datatype Position = Position(top: int, left: int)

  /** One coordinate of a CSS `polygon(...)` vertex: a percentage of the viewport or pixels. */
  datatype Length = Percent(pct: int) | Px(px: int)

  datatype Vertex = Vertex(x: Length, y: Length)

  /** `outer` surrounds `inner` with exactly `margin` pixels on every side. */
  predicate Surrounds(outer: Rect, inner: Rect, margin: int)
  {
    outer.left == inner.left - margin && outer.top == inner.top - margin &&
    outer.Right() == inner.Right() + margin && outer.Bottom() == inner.Bottom() + margin
  }

  /** The highlight box drawn over the target. */
  function Highlight(r: Rect): (h: Rect)
    ensures Surrounds(h, r, Padding)
    ensures r.width >= 0 && r.height >= 0 ==> h.width >= 2 * Padding && h.height >= 2 * Padding
  {
    Rect(r.top - Padding, r.left - Padding, r.width + Padding * 2, r.height + Padding * 2)
  }

  /**
   * The clip polygon of the dimming mask: the four viewport corners, then a
   * detour from the left viewport edge around the padded target and back.
   */
  function ClipPolygon(r: Rect): (poly: seq<Vertex>)
    ensures |poly| == 10
    ensures poly[..4] == [Vertex(Percent(0), Percent(0)), Vertex(Percent(100), Percent(0)),
                          Vertex(Percent(100), Percent(100)), Vertex(Percent(0), Percent(100))]
    ensures poly[4] == poly[9] && poly[4].x == Percent(0)
  {
    [ Vertex(Percent(0), Percent(0)), Vertex(Percent(100), Percent(0)),
      Vertex(Percent(100), Percent(100)), Vertex(Percent(0), Percent(100)),
      Vertex(Percent(0), Px(r.top - Padding)), Vertex(Px(r.left - Padding), Px(r.top - Padding)),
      Vertex(Px(r.left - Padding), Px(r.top + r.height + Padding)),
      Vertex(Px(r.left + r.width + Padding), Px(r.top + r.height + Padding)),
      Vertex(Px(r.left + r.width + Padding), Px(r.top - Padding)),
      Vertex(Percent(0), Px(r.top - Padding)) ]
  }

  /** The placement of the caption card: below the target, aligned with its left edge. */
  function CardPosition(r: Rect): (c: Position)
    ensures c.left == r.left
    ensures c.top - Highlight(r).Bottom() == CardGap - Padding
  {
    Position(r.top + r.height + CardGap, r.left)
  }

  /** The rectangle moved `dy` pixels down and `dx` pixels right. */
  function Translate(r: Rect, dy: int, dx: int): Rect
  {
    Rect(r.top + dy, r.left + dx, r.width, r.height)
  }

  /** The vertex moved `dy` pixels down and `dx` pixels right; percentages of the viewport stay. */
  function ShiftVertex(v: Vertex, dy: int, dx: int): Vertex
  {
    Vertex(match v.x case Px(x) => Px(x + dx) case Percent(q) => Percent(q),
           match v.y case Px(y) => Px(y + dy) case Percent(q) => Percent(q))
  }

  /**
   * The hole of the clip polygon is the highlight box: its vertices 5 to 8 are
   * the box's top-left, bottom-left, bottom-right and top-right corners, and the
   * detour enters and leaves at the height of the box's top edge.
   */
  lemma HoleIsHighlight(r: Rect)
    ensures var poly, h := ClipPolygon(r), Highlight(r);
      poly[4] == Vertex(Percent(0), Px(h.top)) &&
      poly[5] == Vertex(Px(h.left), Px(h.top)) &&
      poly[6] == Vertex(Px(h.left), Px(h.Bottom())) &&
      poly[7] == Vertex(Px(h.Right()), Px(h.Bottom())) &&
      poly[8] == Vertex(Px(h.Right()), Px(h.top))
  {
  }

  /**
   * Nothing is clamped to the viewport: moving the target moves the highlight
   * box, every pixel vertex of the clip polygon and the card by exactly the
   * same amount, however far; the viewport corners stay where they are.
   */
  lemma FollowsTarget(r: Rect, dy: int, dx: int)
    ensures Highlight(Translate(r, dy, dx)) == Translate(Highlight(r), dy, dx)
    ensures forall k :: 0 <= k < 10 ==> ClipPolygon(Translate(r, dy, dx))[k] == ShiftVertex(ClipPolygon(r)[k], dy, dx)
    ensures CardPosition(Translate(r, dy, dx)) == Position(CardPosition(r).top + dy, CardPosition(r).left + dx)
  {
  }

  /**
   * The card's top edge is below the highlight box's bottom edge for every
   * rectangle, so the two never overlap; for a target of non-negative height
   * it is also below the box's top edge.
   */
  lemma CardBelowHighlight(r: Rect)
    ensures CardPosition(r).top > Highlight(r).Bottom()
    ensures r.height >= 0 ==> CardPosition(r).top > Highlight(r).top
  {
  }

  /** The target at top 100, left 50, 200 wide and 80 high. */
  lemma WorkedExample()
    ensures var r := Rect(100, 50, 200, 80);
      Highlight(r).left == 40 && Highlight(r).Right() == 260 &&
      Highlight(r).top == 90 && Highlight(r).Bottom() == 190 &&
      CardPosition(r) == Position(200, 50)
  {
  }
}
