/**
 * The layout engine of the attention visualiser: token widths, row
 * assignment with wrapping every `perLine` tokens, the x-cursor that places
 * each token, and the canvas extent derived from the placed tokens.
 *
 * The row and row-start functions follow the cursor resets of the layout
 * loop (a new row opens at every positive multiple of `perLine`); the
 * closed forms `i / perLine` and `(i / perLine) * perLine` are proved
 * about them.
 */
module Layout {

  const MIN_TOKEN_WIDTH: real := 60.0
  const TOKEN_PADDING: real := 20.0
  const TOKEN_Y_BASE: real := 80.0
  const ROW_HEIGHT: real := 120.0
  const START_PADDING: real := 40.0
  const TOKEN_GAP: real := 10.0
  const SVG_PADDING: real := 40.0
  const MIN_SVG_WIDTH: real := 400.0
  const MIN_SVG_HEIGHT: real := 200.0
  const SVG_HEIGHT_PADDING: real := 50.0

  /** One placed token: centre x, baseline y, its text, rendered width and row. */
  datatype TokenPosition = TokenPosition(x: real, y: real, text: string, width: real, row: nat)

  /** `Math.max` on two numbers. */
  function Max(a: real, b: real): (m: real)
    ensures m >= a && m >= b
    ensures m == a || m == b
  {
    if a >= b then a else b
  }

  /** The rendered width of a token whose text measures `measured`. */
  function TokenWidth(measured: real): (w: real)
    ensures w >= MIN_TOKEN_WIDTH
    ensures w >= measured + TOKEN_PADDING
    ensures w == MIN_TOKEN_WIDTH || w == measured + TOKEN_PADDING
  {
    Max(measured + TOKEN_PADDING, MIN_TOKEN_WIDTH)
  }

  /** The widths of all tokens, given the text-measurement capability. */
  function Widths(tokens: seq<string>, measure: string -> real): (ws: seq<real>)
    ensures |ws| == |tokens|
    ensures forall i :: 0 <= i < |ws| ==> ws[i] >= MIN_TOKEN_WIDTH
  {
    seq(|tokens|, i requires 0 <= i < |tokens| => TokenWidth(measure(tokens[i])))
  }

  /** The wrap period: the per-line count without its sign. The layout tests
      `index % perLine == 0` with a remainder that takes the sign of the
      non-negative index, which holds exactly at multiples of `|perLine|`. */
  function Period(perLine: int): nat
  {
    if perLine < 0 then -perLine else perLine
  }

  /** Wrapping is in effect only when enabled and the per-line count is non-zero
      (a zero count makes the remainder undefined, so no row ever opens). */
  predicate Wrapping(wrapLines: bool, perLine: int)
  {
    wrapLines && perLine != 0
  }

  /** Token `i` opens a new row: wrapping is on and `i` is a positive multiple of the period. */
  predicate StartsRow(wrapLines: bool, perLine: int, i: nat)
  {
    Wrapping(wrapLines, perLine) && i > 0 && i % Period(perLine) == 0
  }

  /** The row of token `i`: the number of rows opened at indices 1..i. */
  function RowOf(wrapLines: bool, perLine: int, i: nat): nat
  {
    if i == 0 then 0
    else RowOf(wrapLines, perLine, i - 1) + (if StartsRow(wrapLines, perLine, i) then 1 else 0)
  }

  /** The index of the first token of token `i`'s row (where the cursor was last reset). */
  function RowStart(wrapLines: bool, perLine: int, i: nat): (s: nat)
    ensures s <= i
    ensures RowOf(wrapLines, perLine, s) == RowOf(wrapLines, perLine, i)
  {
    if i == 0 || StartsRow(wrapLines, perLine, i) then i else RowStart(wrapLines, perLine, i - 1)
  }

  /** The cursor advance of tokens lo..hi-1: each token's width plus the gap after it. */
  function Span(ws: seq<real>, lo: nat, hi: nat): real
    requires lo <= hi <= |ws|
    decreases hi
  {
    if lo == hi then 0.0 else Span(ws, lo, hi - 1) + ws[hi - 1] + TOKEN_GAP
  }

  /** Where token `i` is placed: its centre is half its width past the cursor, which
      started at the left padding when its row opened and moved past every earlier
      token of the row. */
  function PositionAt(tokens: seq<string>, ws: seq<real>, wrapLines: bool, perLine: int, i: nat): TokenPosition
    requires |ws| == |tokens| && i < |tokens|
  {
    var row := RowOf(wrapLines, perLine, i);
    TokenPosition(START_PADDING + Span(ws, RowStart(wrapLines, perLine, i), i) + ws[i] / 2.0,
                  TOKEN_Y_BASE + row as real * ROW_HEIGHT,
                  tokens[i], ws[i], row)
  }

  /** The positions of all tokens, in token order. */
  function Positions(tokens: seq<string>, measure: string -> real, wrapLines: bool, perLine: int): (ps: seq<TokenPosition>)
    ensures |ps| == |tokens|
  {
    Placed(tokens, Widths(tokens, measure), wrapLines, perLine, |tokens|)
  }

  /** The positions of the first `n` tokens, in token order. */
  function Placed(tokens: seq<string>, ws: seq<real>, wrapLines: bool, perLine: int, n: nat): (ps: seq<TokenPosition>)
    requires |ws| == |tokens| && n <= |tokens|
    ensures |ps| == n
  {
    if n == 0 then [] else Placed(tokens, ws, wrapLines, perLine, n - 1) + [PositionAt(tokens, ws, wrapLines, perLine, n - 1)]
  }

  lemma {:induction false} PlacedAt(tokens: seq<string>, ws: seq<real>, wrapLines: bool, perLine: int, n: nat, i: nat)
    requires |ws| == |tokens| && i < n <= |tokens|
    ensures Placed(tokens, ws, wrapLines, perLine, n)[i] == PositionAt(tokens, ws, wrapLines, perLine, i)
  {
    if i < n - 1 {
      PlacedAt(tokens, ws, wrapLines, perLine, n - 1, i);
    }
  }

  /** Token `i` is placed where `PositionAt` says. */
  lemma PositionsAt(tokens: seq<string>, measure: string -> real, wrapLines: bool, perLine: int, i: nat)
    requires i < |tokens|
    ensures Positions(tokens, measure, wrapLines, perLine)[i] == PositionAt(tokens, Widths(tokens, measure), wrapLines, perLine, i)
  {
    PlacedAt(tokens, Widths(tokens, measure), wrapLines, perLine, |tokens|, i);
  }

  /** The x-cursor right after a placed token: its right edge plus the gap. */
  function RightEdge(p: TokenPosition): real
  {
    p.x + p.width / 2.0 + TOKEN_GAP
  }

  /** The widest row extent reached by the cursor after the first `n` placed tokens
      (the left padding when nothing is placed). */
  function MaxRight(ps: seq<TokenPosition>, n: nat): real
    requires n <= |ps|
  {
    if n == 0 then START_PADDING
    else Max(MaxRight(ps, n - 1), RightEdge(ps[n - 1]))
  }

  /** The number of rows after laying out `n` tokens: the last token's row plus one. */
  function RowCount(n: nat, wrapLines: bool, perLine: int): (r: nat)
    ensures r >= 1
  {
    if n == 0 then 1 else RowOf(wrapLines, perLine, n - 1) + 1
  }

  function SvgWidthFor(ps: seq<TokenPosition>): real
  {
    Max(MaxRight(ps, |ps|) + SVG_PADDING, MIN_SVG_WIDTH)
  }

  function SvgHeightFor(numRows: int): real
  {
    Max(TOKEN_Y_BASE + numRows as real * ROW_HEIGHT + SVG_HEIGHT_PADDING, MIN_SVG_HEIGHT)
  }

  /** The row labels shown beside the canvas: 0 .. numRows-1. */
  function RowNumbers(numRows: nat): (r: seq<int>)
    ensures |r| == numRows
    ensures forall i :: 0 <= i < |r| ==> r[i] == i
  {
    seq(numRows, i => i)
  }

  /** The divider lines sit before every row except the first. */
  function RowDividers(numRows: nat): (r: seq<int>)
    requires numRows >= 1
    ensures r == RowNumbers(numRows)[1..]
  {
    seq(numRows - 1, i => i + 1)
  }

  // ---------------------------------------------------------------------------
  // Row arithmetic

  lemma DivUnique(x: int, p: int, q: int, r: int)
    requires p >= 1 && 0 <= r < p && x == q * p + r
    ensures x / p == q && x % p == r
  {
    var q', r' := x / p, x % p;
    assert x == q' * p + r';
    var d := q - q';
    assert d * p == r' - r;
    if d >= 1 {
      assert false;
    } else if d <= -1 {
      assert false;
    }
  }

  lemma DivStep(i: nat, p: int)
    requires p >= 1 && i > 0
    ensures i % p == 0 ==> i / p == (i - 1) / p + 1 && (i / p) * p == i
    ensures i % p != 0 ==> i / p == (i - 1) / p
  {
    var q, r := (i - 1) / p, (i - 1) % p;
    DivUnique(i - 1, p, q, r);
    if r + 1 == p {
      DivUnique(i, p, q + 1, 0);
    } else {
      DivUnique(i, p, q, r + 1);
    }
  }

  /** With wrapping, token `i` sits on row `i / p` for the period `p`, and that row's
      first token is `(i / p) * p`; without it every token is on row 0. */
  lemma {:induction false} RowFormula(wrapLines: bool, perLine: int, i: nat)
    ensures Wrapping(wrapLines, perLine) ==>
              RowOf(wrapLines, perLine, i) == i / Period(perLine) &&
              RowStart(wrapLines, perLine, i) == (i / Period(perLine)) * Period(perLine)
    ensures !Wrapping(wrapLines, perLine) ==>
              RowOf(wrapLines, perLine, i) == 0 && RowStart(wrapLines, perLine, i) == 0
  {
    if i > 0 {
      RowFormula(wrapLines, perLine, i - 1);
      if Wrapping(wrapLines, perLine) {
        DivStep(i, Period(perLine));
      }
    }
  }

  /** The example row assignment: seven tokens, three per line. */
  lemma SevenTokensThreePerLine()
    ensures seq(7, i requires 0 <= i < 7 => RowOf(true, 3, i)) == [0, 0, 0, 1, 1, 1, 2]
  {
    forall i | 0 <= i < 7 {
      RowFormula(true, 3, i);
    }
  }

  /** A negative per-line count wraps like its magnitude. */
  lemma {:induction false} NegativePerLine(wrapLines: bool, perLine: int, i: nat)
    ensures RowOf(wrapLines, -perLine, i) == RowOf(wrapLines, perLine, i)
    ensures RowStart(wrapLines, -perLine, i) == RowStart(wrapLines, perLine, i)
  {
    if i > 0 {
      NegativePerLine(wrapLines, perLine, i - 1);
    }
  }

  /** Rows never decrease along the token sequence, and grow by at most one per token. */
  lemma {:induction false} RowMonotone(wrapLines: bool, perLine: int, i: nat, j: nat)
    requires i <= j
    ensures RowOf(wrapLines, perLine, i) <= RowOf(wrapLines, perLine, j) <= RowOf(wrapLines, perLine, i) + (j - i)
  {
    if i < j {
      RowMonotone(wrapLines, perLine, i, j - 1);
    }
  }

  /** Two tokens on the same row share the row's first token. */
  lemma {:induction false} SameRowSameStart(wrapLines: bool, perLine: int, i: nat, j: nat)
    requires i <= j && RowOf(wrapLines, perLine, i) == RowOf(wrapLines, perLine, j)
    ensures RowStart(wrapLines, perLine, i) == RowStart(wrapLines, perLine, j)
  {
    if i < j {
      RowMonotone(wrapLines, perLine, i, j - 1);
      SameRowSameStart(wrapLines, perLine, i, j - 1);
    }
  }

  lemma {:induction false} SpanSplit(ws: seq<real>, lo: nat, mid: nat, hi: nat)
    requires lo <= mid <= hi <= |ws|
    ensures Span(ws, lo, hi) == Span(ws, lo, mid) + Span(ws, mid, hi)
    decreases hi
  {
    if mid < hi {
      SpanSplit(ws, lo, mid, hi - 1);
    }
  }

  lemma {:induction false} SpanNonNegative(ws: seq<real>, lo: nat, hi: nat)
    requires lo <= hi <= |ws|
    requires forall k :: lo <= k < hi ==> ws[k] >= 0.0
    ensures Span(ws, lo, hi) >= 0.0
    decreases hi
  {
    if lo < hi {
      SpanNonNegative(ws, lo, hi - 1);
    }
  }

  /** Token `i` is placed with its own text and width on its row's baseline, on a row
      no later than `i`, and with its left edge at or past the left padding. */
  lemma PositionAtShape(tokens: seq<string>, ws: seq<real>, wrapLines: bool, perLine: int, i: nat)
    requires |ws| == |tokens| && i < |tokens|
    requires forall k :: 0 <= k < |ws| ==> ws[k] >= 0.0
    ensures var p := PositionAt(tokens, ws, wrapLines, perLine, i);
            && p.text == tokens[i] && p.width == ws[i]
            && p.row == RowOf(wrapLines, perLine, i) <= i
            && p.y == TOKEN_Y_BASE + p.row as real * ROW_HEIGHT
            && p.x - p.width / 2.0 >= START_PADDING
  {
    RowMonotone(wrapLines, perLine, 0, i);
    SpanNonNegative(ws, RowStart(wrapLines, perLine, i), i);
  }

  /** One position per token, in token order: token `i` carries its own text, a
      width of its measured width plus padding but at least the minimum, the row
      `i / p` for the wrap period `p` (row 0 without wrapping), and that row's
      baseline. */
  lemma PositionShape(tokens: seq<string>, measure: string -> real, wrapLines: bool, perLine: int, i: nat)
    requires i < |tokens|
    ensures var ps := Positions(tokens, measure, wrapLines, perLine);
            var row := if Wrapping(wrapLines, perLine) then i / Period(perLine) else 0;
            && |ps| == |tokens|
            && ps[i].text == tokens[i]
            && ps[i].width == Max(measure(tokens[i]) + TOKEN_PADDING, MIN_TOKEN_WIDTH)
            && ps[i].width >= MIN_TOKEN_WIDTH
            && ps[i].row == row
            && ps[i].y == TOKEN_Y_BASE + row as real * ROW_HEIGHT
  {
    PositionsAt(tokens, measure, wrapLines, perLine, i);
    RowFormula(wrapLines, perLine, i);
  }

  /** Within a row, tokens do not overlap: each one starts at least a gap past the
      right edge of any earlier token of the row, so centres strictly increase. */
  lemma TokensOrderedWithinRow(tokens: seq<string>, measure: string -> real, wrapLines: bool, perLine: int, i: nat, j: nat)
    requires i < j < |tokens|
    requires RowOf(wrapLines, perLine, i) == RowOf(wrapLines, perLine, j)
    ensures var ps := Positions(tokens, measure, wrapLines, perLine);
            RightEdge(ps[i]) <= ps[j].x - ps[j].width / 2.0 && ps[i].x < ps[j].x
  {
    var ws := Widths(tokens, measure);
    var s := RowStart(wrapLines, perLine, i);
    PositionsAt(tokens, measure, wrapLines, perLine, i);
    PositionsAt(tokens, measure, wrapLines, perLine, j);
    SameRowSameStart(wrapLines, perLine, i, j);
    SpanSplit(ws, s, i, j);
    SpanSplit(ws, i, i + 1, j);
    SpanNonNegative(ws, i + 1, j);
  }

  /** Adjacent tokens of one row are separated by exactly the token gap. */
  lemma AdjacentTokensGap(tokens: seq<string>, measure: string -> real, wrapLines: bool, perLine: int, i: nat)
    requires i + 1 < |tokens|
    requires RowOf(wrapLines, perLine, i) == RowOf(wrapLines, perLine, i + 1)
    ensures var ps := Positions(tokens, measure, wrapLines, perLine);
            ps[i + 1].x - ps[i + 1].width / 2.0 == RightEdge(ps[i])
  {
    PositionsAt(tokens, measure, wrapLines, perLine, i);
    PositionsAt(tokens, measure, wrapLines, perLine, i + 1);
    SameRowSameStart(wrapLines, perLine, i, i + 1);
  }

  /** The first `i + 1` placed tokens are the first `i` and then token `i`. */
  lemma TakeSnoc(ps: seq<TokenPosition>, i: nat)
    requires i < |ps|
    ensures ps[..i + 1] == ps[..i] + [ps[i]]
  {
  }

  /** The widest extent is the left padding or some token's right edge, and no token
      reaches past it. */
  lemma {:induction false} MaxRightBounds(ps: seq<TokenPosition>, n: nat)
    requires n <= |ps|
    ensures MaxRight(ps, n) >= START_PADDING
    ensures forall i :: 0 <= i < n ==> RightEdge(ps[i]) <= MaxRight(ps, n)
    ensures MaxRight(ps, n) == START_PADDING || exists i :: 0 <= i < n && MaxRight(ps, n) == RightEdge(ps[i])
  {
    if n > 0 {
      MaxRightBounds(ps, n - 1);
    }
  }

  /** The cursor rule: token `i` is centred half its width past the cursor, which is
      the left padding at the start of a row and otherwise the right edge (plus gap)
      of the token before; its row is the previous token's row, plus one if it opens
      a new row. */
  lemma NextPosition(tokens: seq<string>, measure: string -> real, wrapLines: bool, perLine: int, i: nat)
    requires i < |tokens|
    ensures var ps := Positions(tokens, measure, wrapLines, perLine);
            var w := TokenWidth(measure(tokens[i]));
            var opens := i == 0 || StartsRow(wrapLines, perLine, i);
            var cursor := if opens then START_PADDING else RightEdge(ps[i - 1]);
            var row := if i == 0 then 0 else RowOf(wrapLines, perLine, i - 1) + (if StartsRow(wrapLines, perLine, i) then 1 else 0);
            ps[i] == TokenPosition(cursor + w / 2.0, TOKEN_Y_BASE + row as real * ROW_HEIGHT, tokens[i], w, row)
  {
    PositionsAt(tokens, measure, wrapLines, perLine, i);
    if i > 0 {
      PositionsAt(tokens, measure, wrapLines, perLine, i - 1);
    }
  }

  /** One step of the placement loop, from the cursor state before token `i` (its row,
      its x and the widest extent closed so far) to the state after it: a new row
      opens exactly where `StartsRow` says, token `i` lands where `Positions` puts it,
      and the cursor and the widest extent move on accordingly. */
  lemma CursorStep(tokens: seq<string>, measure: string -> real, wrapLines: bool, perLine: int,
                   i: nat, currentX: real, currentRow: nat, maxRowWidth: real)
    requires i < |tokens|
    requires currentRow == if i == 0 then 0 else RowOf(wrapLines, perLine, i - 1)
    requires currentX == if i == 0 then START_PADDING else RightEdge(Positions(tokens, measure, wrapLines, perLine)[i - 1])
    requires Max(maxRowWidth, currentX) == MaxRight(Positions(tokens, measure, wrapLines, perLine), i)
    ensures var ps := Positions(tokens, measure, wrapLines, perLine);
            var w := TokenWidth(measure(tokens[i]));
            var opens := StartsRow(wrapLines, perLine, i);
            var row := if opens then currentRow + 1 else currentRow;
            var x := if opens then START_PADDING else currentX;
            var widest := if opens then Max(maxRowWidth, currentX) else maxRowWidth;
            && row == RowOf(wrapLines, perLine, i)
            && ps[i] == TokenPosition(x + w / 2.0, TOKEN_Y_BASE + row as real * ROW_HEIGHT, tokens[i], w, row)
            && x + w + TOKEN_GAP == RightEdge(ps[i])
            && Max(widest, x + w + TOKEN_GAP) == MaxRight(ps, i + 1)
  {
    NextPosition(tokens, measure, wrapLines, perLine, i);
  }

  /** Every token's row is above the canvas bottom by at least a row height plus
      padding. */
  lemma TokensFitVertically(tokens: seq<string>, measure: string -> real, wrapLines: bool, perLine: int)
    ensures var ps := Positions(tokens, measure, wrapLines, perLine);
            forall i :: 0 <= i < |ps| ==>
              ps[i].y + ROW_HEIGHT + SVG_HEIGHT_PADDING <= SvgHeightFor(RowCount(|tokens|, wrapLines, perLine))
  {
    var ps := Positions(tokens, measure, wrapLines, perLine);
    forall i | 0 <= i < |tokens|
      ensures ps[i].y + ROW_HEIGHT + SVG_HEIGHT_PADDING <= SvgHeightFor(RowCount(|tokens|, wrapLines, perLine))
    {
      PositionsAt(tokens, measure, wrapLines, perLine, i);
      RowMonotone(wrapLines, perLine, i, |tokens| - 1);
    }
  }

  /** Every token ends, gap included, at least the side padding left of the canvas's
      right edge. */
  lemma TokensFitHorizontally(ps: seq<TokenPosition>)
    ensures forall i :: 0 <= i < |ps| ==> RightEdge(ps[i]) + SVG_PADDING <= SvgWidthFor(ps)
  {
    MaxRightBounds(ps, |ps|);
  }
}
