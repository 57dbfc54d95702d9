/**
 * Where the candidate window goes (crates/ui/src/utils.rs): below the
 * composition's rectangle, moved above it or back inside the monitor's work
 * area when it would stick out. The monitor lookup is a parameter: `work` is
 * the work area of the monitor nearest to the rectangle.
 */
module WindowPosition {
  datatype Rect = Rect(left: int, top: int, right: int, bottom: int)

  datatype Point = Point(x: int, y: int)

  /** The horizontal offset of the window from the composition's left edge. */
  const LeftMargin := 15

  /** The specification of the three clamps, one coordinate at a time. */
  function Placement(composition: Rect, width: nat, height: nat, work: Rect): (p: Point)
  {
    var y := if composition.bottom + height > work.bottom then composition.top - height else composition.bottom;
    var x0 := composition.left - LeftMargin;
    var x1 := if x0 + width > work.right then work.right - width else x0;
    var x := if x1 < work.left then work.left else x1;
    Point(x, y)
  }

  /** `get_candidate_window_position`: the successive reassignments of `x` and `y`. */
  method CandidateWindowPosition(top: int, left: int, bottom: int, right: int,
                                 width: nat, height: nat, work: Rect) returns (x: int, y: int)
    ensures Point(x, y) == Placement(Rect(left, top, right, bottom), width, height, work)
  {
    x := left - LeftMargin;
    y := bottom;
    y := if y + height > work.bottom then top - height else y;
    x := if x + width > work.right then work.right - width else x;
    x := if x < work.left then work.left else x;
  }

  /** The window never starts left of the work area; the left clamp wins over the right one. */
  lemma NeverLeftOfWorkArea(composition: Rect, width: nat, height: nat, work: Rect)
    ensures Placement(composition, width, height, work).x >= work.left
    ensures composition.left - LeftMargin + width > work.right && work.right - width < work.left ==>
              Placement(composition, width, height, work).x == work.left
  {
  }

  /** A window no wider than the work area lies inside it horizontally. */
  lemma FitsHorizontally(composition: Rect, width: nat, height: nat, work: Rect)
    requires width <= work.right - work.left
    ensures var p := Placement(composition, width, height, work);
            work.left <= p.x && p.x + width <= work.right
  {
  }

  /** Vertically the window sits right below the composition, or else right above it. */
  lemma VerticalChoice(composition: Rect, width: nat, height: nat, work: Rect)
    ensures var p := Placement(composition, width, height, work);
            (p.y == composition.bottom && p.y + height <= work.bottom) ||
            (p.y == composition.top - height && composition.bottom + height > work.bottom)
  {
  }

  /** Each coordinate depends only on its own axis. */
  lemma AxesIndependent(composition: Rect, width: nat, height: nat, work: Rect,
                        width': nat, height': nat, composition': Rect, work': Rect)
    ensures composition'.top == composition.top && composition'.bottom == composition.bottom &&
            work'.bottom == work.bottom && height' == height ==>
              Placement(composition', width', height', work').y == Placement(composition, width, height, work).y
    ensures composition'.left == composition.left && work'.left == work.left && work'.right == work.right &&
            width' == width ==>
              Placement(composition', width', height', work').x == Placement(composition, width, height, work).x
  {
  }

  /** With room everywhere, the window goes 15 pixels left of the composition, at its bottom. */
  lemma DefaultPlacement(composition: Rect, width: nat, height: nat, work: Rect)
    requires composition.bottom + height <= work.bottom
    requires work.left <= composition.left - LeftMargin && composition.left - LeftMargin + width <= work.right
    ensures Placement(composition, width, height, work) == Point(composition.left - LeftMargin, composition.bottom)
  {
  }
}
