/**
 * The curve generator: turns the positions of two tokens into the geometry of
 * the connecting path. Tokens on one row are joined by a quadratic arc whose
 * height grows with their distance up to a cap; tokens on different rows by a
 * cubic S-curve whose control points are lifted further the more rows apart
 * the tokens are. An index with no position gives the empty path.
 */
module Curves {
  import opened Layout

  const TOKEN_HEIGHT_OFFSET: real := 25.0
  const CURVE_HEIGHT_BASE: real := 80.0
  const CURVE_DISTANCE_FACTOR: real := 0.15
  const MAX_CURVE_HEIGHT: real := 100.0
  const INTER_ROW_CONTROL_OFFSET: real := 60.0
  const INTER_ROW_HEIGHT_OFFSET: real := 50.0
  const DISTANT_ROW_HEIGHT_FACTOR: real := 50.0

  /** An SVG path: nothing, `M s Q c e`, or `M s C c1 c2 e`. */
  datatype Path =
    | Empty
    | Quad(sx: real, sy: real, cx: real, cy: real, ex: real, ey: real)
    | Cubic(sx: real, sy: real, c1x: real, c1y: real, c2x: real, c2y: real, ex: real, ey: real)

  function Abs(x: real): (r: real)
    ensures r >= 0.0 && (r == x || r == -x)
  {
    if x < 0.0 then -x else x
  }

  /** How far above the start the control point of a same-row arc sits. */
  function ArcHeight(distance: real): (h: real)
    requires distance >= 0.0
    ensures CURVE_HEIGHT_BASE <= h <= MAX_CURVE_HEIGHT
    ensures h == MAX_CURVE_HEIGHT || h == CURVE_HEIGHT_BASE + distance * CURVE_DISTANCE_FACTOR
    ensures h <= CURVE_HEIGHT_BASE + distance * CURVE_DISTANCE_FACTOR
  {
    var h := CURVE_HEIGHT_BASE + distance * CURVE_DISTANCE_FACTOR;
    if h <= MAX_CURVE_HEIGHT then h else MAX_CURVE_HEIGHT
  }

  /** The path drawn from token `fromIndex` to token `toIndex`. */
  function CurvedPath(positions: seq<TokenPosition>, fromIndex: nat, toIndex: nat): (p: Path)
    ensures p.Empty? <==> fromIndex >= |positions| || toIndex >= |positions|
    ensures p.Quad? <==> !p.Empty? && positions[fromIndex].row == positions[toIndex].row
  {
    if fromIndex >= |positions| || toIndex >= |positions| then Empty
    else
      var fromPos, toPos := positions[fromIndex], positions[toIndex];
      var startX, startY := fromPos.x, fromPos.y - TOKEN_HEIGHT_OFFSET;
      var endX, endY := toPos.x, toPos.y - TOKEN_HEIGHT_OFFSET;
      if fromPos.row == toPos.row then
        var curveHeight := ArcHeight(Abs(endX - startX));
        Quad(startX, startY, (startX + endX) / 2.0, startY - curveHeight, endX, endY)
      else
        var rowDiff := RowDistance(fromPos, toPos);
        var isFromAbove := fromPos.row < toPos.row;
        var cp1x := startX + (if isFromAbove then INTER_ROW_CONTROL_OFFSET else -INTER_ROW_CONTROL_OFFSET);
        var cp2x := endX + (if isFromAbove then -INTER_ROW_CONTROL_OFFSET else INTER_ROW_CONTROL_OFFSET);
        if rowDiff > 1 then
          var heightFactor := rowDiff as real * DISTANT_ROW_HEIGHT_FACTOR;
          Cubic(startX, startY, cp1x, startY - heightFactor, cp2x, endY - heightFactor, endX, endY)
        else
          Cubic(startX, startY, cp1x, startY - INTER_ROW_HEIGHT_OFFSET, cp2x, endY - INTER_ROW_HEIGHT_OFFSET, endX, endY)
  }

  /** The same path traversed from its end to its start. */
  function Reverse(p: Path): Path
  {
    match p
    case Empty => Empty
    case Quad(sx, sy, cx, cy, ex, ey) => Quad(ex, ey, cx, cy, sx, sy)
    case Cubic(sx, sy, c1x, c1y, c2x, c2y, ex, ey) => Cubic(ex, ey, c2x, c2y, c1x, c1y, sx, sy)
  }

  /** The number of rows between two tokens. */
  function RowDistance(a: TokenPosition, b: TokenPosition): nat
  {
    if a.row < b.row then b.row - a.row else a.row - b.row
  }

  /** The kind of path and its endpoints: empty exactly when a token has no
      position, a quadratic arc exactly when both tokens share a row, and otherwise
      from 25 above the source token's centre to 25 above the target's. */
  lemma CurvedPathEnds(positions: seq<TokenPosition>, fromIndex: nat, toIndex: nat)
    ensures var p := CurvedPath(positions, fromIndex, toIndex);
            && (p.Empty? <==> fromIndex >= |positions| || toIndex >= |positions|)
            && (p.Quad? <==> fromIndex < |positions| && toIndex < |positions| &&
                             positions[fromIndex].row == positions[toIndex].row)
            && (!p.Empty? ==>
                  p.sx == positions[fromIndex].x && p.sy == positions[fromIndex].y - TOKEN_HEIGHT_OFFSET &&
                  p.ex == positions[toIndex].x && p.ey == positions[toIndex].y - TOKEN_HEIGHT_OFFSET)
  {
  }

  /** A same-row arc: its control point is midway between the endpoints and lifted
      80 to 100 above the start, the lift growing with the horizontal distance. */
  lemma SameRowArc(positions: seq<TokenPosition>, fromIndex: nat, toIndex: nat)
    requires fromIndex < |positions| && toIndex < |positions|
    requires positions[fromIndex].row == positions[toIndex].row
    ensures var p := CurvedPath(positions, fromIndex, toIndex);
            var a, b := positions[fromIndex], positions[toIndex];
            && p.Quad?
            && p.cx == (a.x + b.x) / 2.0
            && CURVE_HEIGHT_BASE <= p.sy - p.cy <= MAX_CURVE_HEIGHT
            && p.sy - p.cy == ArcHeight(Abs(b.x - a.x))
  {
  }

  /** A cross-row curve: each control point sits 60 beside its endpoint, towards
      the other row's side, and both are lifted by 50 per row of distance; the
      adjacent-row case and the distant-row case of the generator agree on this. */
  lemma CrossRowCurve(positions: seq<TokenPosition>, fromIndex: nat, toIndex: nat)
    requires fromIndex < |positions| && toIndex < |positions|
    requires positions[fromIndex].row != positions[toIndex].row
    ensures var p := CurvedPath(positions, fromIndex, toIndex);
            var a, b := positions[fromIndex], positions[toIndex];
            var lift := RowDistance(a, b) as real * DISTANT_ROW_HEIGHT_FACTOR;
            && p.Cubic?
            && lift >= INTER_ROW_HEIGHT_OFFSET
            && p.c1y == p.sy - lift && p.c2y == p.ey - lift
            && (a.row < b.row ==> p.c1x == p.sx + INTER_ROW_CONTROL_OFFSET && p.c2x == p.ex - INTER_ROW_CONTROL_OFFSET)
            && (a.row > b.row ==> p.c1x == p.sx - INTER_ROW_CONTROL_OFFSET && p.c2x == p.ex + INTER_ROW_CONTROL_OFFSET)
  {
  }

  /** Drawing the edge the other way round gives the same curve, reversed, provided
      tokens of one row share a baseline (as every layout places them). */
  lemma {:induction false} CurveSymmetric(positions: seq<TokenPosition>, fromIndex: nat, toIndex: nat)
    requires fromIndex < |positions| && toIndex < |positions| ==>
               (positions[fromIndex].row == positions[toIndex].row ==> positions[fromIndex].y == positions[toIndex].y)
    ensures CurvedPath(positions, toIndex, fromIndex) == Reverse(CurvedPath(positions, fromIndex, toIndex))
  {
  }
}
