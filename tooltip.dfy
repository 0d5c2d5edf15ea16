/**
 * Tooltip placement. The tooltip box is drawn at the stored mouse point plus a
 * fixed offset; the stored point is the raw pointer position clamped so that
 * the box stays inside the canvas whenever the canvas is large enough to hold it.
 */
module Tooltip {

  const TOOLTIP_WIDTH: real := 200.0
  const TOOLTIP_HEIGHT: real := 60.0
  const TOOLTIP_OFFSET_X: real := 10.0
  const TOOLTIP_OFFSET_Y: real := 20.0

  /** `Math.max(lo, Math.min(v, hi))`: when the bounds cross, the lower bound wins. */
  function Clamp(v: real, lo: real, hi: real): (r: real)
    ensures lo <= hi ==> lo <= r <= hi
    ensures lo <= v <= hi ==> r == v
    ensures v < lo ==> r == lo
    ensures lo <= hi && hi < v ==> r == hi
    ensures hi < lo ==> r == lo
  {
    var m := if v <= hi then v else hi;
    if lo >= m then lo else m
  }

  /** The stored mouse x for a raw pointer x on a canvas of width `svgWidth`. */
  function AnchorX(rawX: real, svgWidth: real): real
  {
    Clamp(rawX, -TOOLTIP_OFFSET_X, svgWidth - TOOLTIP_WIDTH - TOOLTIP_OFFSET_X)
  }

  /** The stored mouse y for a raw pointer y on a canvas of height `svgHeight`. */
  function AnchorY(rawY: real, svgHeight: real): real
  {
    Clamp(rawY, -TOOLTIP_OFFSET_Y, svgHeight - TOOLTIP_HEIGHT - TOOLTIP_OFFSET_Y)
  }

  /** Clamping twice is clamping once. */
  lemma ClampIdempotent(v: real, lo: real, hi: real)
    ensures Clamp(Clamp(v, lo, hi), lo, hi) == Clamp(v, lo, hi)
  {
  }

  /** On a canvas at least as large as the tooltip, the box drawn at the anchor plus
      the offset lies entirely inside the canvas, and a pointer position that already
      keeps it inside is stored unchanged. */
  lemma TooltipInside(rawX: real, rawY: real, svgWidth: real, svgHeight: real)
    requires svgWidth >= TOOLTIP_WIDTH && svgHeight >= TOOLTIP_HEIGHT
    ensures var x := AnchorX(rawX, svgWidth) + TOOLTIP_OFFSET_X;
            0.0 <= x && x + TOOLTIP_WIDTH <= svgWidth
    ensures var y := AnchorY(rawY, svgHeight) + TOOLTIP_OFFSET_Y;
            0.0 <= y && y + TOOLTIP_HEIGHT <= svgHeight
    ensures 0.0 <= rawX + TOOLTIP_OFFSET_X && rawX + TOOLTIP_OFFSET_X + TOOLTIP_WIDTH <= svgWidth ==>
              AnchorX(rawX, svgWidth) == rawX
    ensures 0.0 <= rawY + TOOLTIP_OFFSET_Y && rawY + TOOLTIP_OFFSET_Y + TOOLTIP_HEIGHT <= svgHeight ==>
              AnchorY(rawY, svgHeight) == rawY
  {
  }

  /** On a canvas narrower than the tooltip the box is pinned to the left edge and
      overflows on the right; likewise vertically. */
  lemma TooltipOverflow(rawX: real, rawY: real, svgWidth: real, svgHeight: real)
    ensures svgWidth < TOOLTIP_WIDTH ==> AnchorX(rawX, svgWidth) + TOOLTIP_OFFSET_X == 0.0
    ensures svgHeight < TOOLTIP_HEIGHT ==> AnchorY(rawY, svgHeight) + TOOLTIP_OFFSET_Y == 0.0
  {
  }
}
