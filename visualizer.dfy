/**
 * The attention visualiser component: its inputs, the layout and edge lists it
 * derives from them, and the event handlers that move it between the overview,
 * hover-focused and click-locked modes and track which drawn edge is hovered.
 *
 * Text measurement is a parameter (`measure`); the lock-change output is the log
 * `lockChanges` of emitted values; the pending hover-end timer is the flag
 * `hoverEndPending`, and its expiry is the method `FireHoverEndTimer`.
 */
module Visualizer {
  import opened Options
  import opened Layout
  import opened Curves
  import opened Ranking
  import opened EdgeSelection
  import opened Tooltip

  const DEFAULT_TOKENS_PER_LINE: int := 10
  const DEFAULT_SVG_WIDTH: real := 800.0
  const DEFAULT_SVG_HEIGHT: real := 200.0

  /** The text shown for one end of a hovered edge: that token, or the empty string
      when there is no token at the index. */
  function TokenText(tokens: seq<string>, i: int): (t: string)
    ensures 0 <= i < |tokens| ==> t == tokens[i]
    ensures i < 0 || i >= |tokens| ==> t == ""
  {
    if 0 <= i < |tokens| then tokens[i] else ""
  }

  /** The hover and lock inputs that together decide which token is in focus. */
  datatype TokenFocus = TokenFocus(hovered: Option<int>, locked: Option<int>)

  /** Hovering a token (or leaving all tokens, `None`) while no token is locked. */
  function Hover(f: TokenFocus, index: Option<int>): (g: TokenFocus)
    ensures f.locked.Some? ==> g == f
    ensures f.locked.None? ==> g == TokenFocus(index, None)
  {
    if f.locked.Some? then f else f.(hovered := index)
  }

  /** Clicking a token: it unlocks the locked token, otherwise locks the clicked one. */
  function Click(f: TokenFocus, index: int): (g: TokenFocus)
    ensures f.locked == Some(index) ==> g == TokenFocus(None, None)
    ensures f.locked != Some(index) ==> g == TokenFocus(Some(index), Some(index))
  {
    if f.locked == Some(index) then TokenFocus(None, None) else TokenFocus(Some(index), Some(index))
  }

  /** Clicking the same unlocked token twice returns to the overview. */
  lemma ClickTwiceUnlocks(f: TokenFocus, index: int)
    requires f.locked != Some(index)
    ensures Click(f, index).locked == Some(index)
    ensures Click(Click(f, index), index) == TokenFocus(None, None)
    ensures Focus(Click(Click(f, index), index).hovered, Click(Click(f, index), index).locked).None?
  {
  }

  /** While a token is locked, hovering never moves the focus. */
  lemma LockedIgnoresHover(f: TokenFocus, index: Option<int>)
    requires f.locked.Some?
    ensures Focus(Hover(f, index).hovered, Hover(f, index).locked) == f.locked
  {
  }

  /** After a click the focus is the clicked token, unless the click unlocked it. */
  lemma ClickFocus(f: TokenFocus, index: int)
    ensures var g := Click(f, index);
            Focus(g.hovered, g.locked) == if f.locked == Some(index) then None else Some(index)
  {
  }

  /** The inputs bound anew in one change notification, with their new values. */
  datatype Changes = Changes(tokens: Option<seq<string>>, attentionMatrix: Option<seq<seq<real>>>,
                             hoveredTokenIndex: Option<Option<int>>, lockedTokenIndex: Option<Option<int>>,
                             maxTokensPerLine: Option<int>, wrapLines: Option<bool>)

  /** A change to any input the layout depends on. */
  predicate LayoutChanged(c: Changes)
  {
    c.tokens.Some? || c.attentionMatrix.Some? || c.maxTokensPerLine.Some? || c.wrapLines.Some?
  }

  /** A change to the hovered or locked token. */
  predicate FocusChanged(c: Changes)
  {
    c.hoveredTokenIndex.Some? || c.lockedTokenIndex.Some?
  }

  /** `paths` with the hover flag on the edge at `index` and on no other. */
  function HoverOnly(paths: seq<AttentionPath>, index: int): (r: seq<AttentionPath>)
    ensures |r| == |paths|
    ensures forall k :: 0 <= k < |r| ==> r[k] == paths[k].(isHovered := k == index)
  {
    seq(|paths|, k requires 0 <= k < |paths| =>
      if k == index then paths[k].(isHovered := true)
      else if paths[k].isHovered then paths[k].(isHovered := false)
      else paths[k])
  }

  /** Marking the edge that alone carries the hover flag changes nothing. */
  lemma HoverOnlyFixed(paths: seq<AttentionPath>, index: int)
    requires forall k :: 0 <= k < |paths| ==> (paths[k].isHovered <==> k == index)
    ensures HoverOnly(paths, index) == paths
  {
    var r := HoverOnly(paths, index);
    forall k | 0 <= k < |paths|
      ensures r[k] == paths[k]
    {
    }
  }

  /** `paths` with every hover flag cleared. */
  function Unhovered(paths: seq<AttentionPath>): (r: seq<AttentionPath>)
    ensures |r| == |paths|
    ensures forall k :: 0 <= k < |r| ==> r[k] == paths[k].(isHovered := false)
  {
    seq(|paths|, k requires 0 <= k < |paths| =>
      if paths[k].isHovered then paths[k].(isHovered := false) else paths[k])
  }

  /** Clearing the hover flags of edges none of which carries one changes nothing. */
  lemma UnhoveredFixed(paths: seq<AttentionPath>)
    requires forall k :: 0 <= k < |paths| ==> !paths[k].isHovered
    ensures Unhovered(paths) == paths
  {
    var r := Unhovered(paths);
    forall k | 0 <= k < |paths|
      ensures r[k] == paths[k]
    {
    }
  }

  /** The placement loop: each token is centred half its width past the cursor,
      which returns to the left padding when a new row opens at a multiple of the
      per-line count; returns the placements, the last row and the widest extent
      the cursor reached. */
  method PlaceTokens(tokens: seq<string>, measure: string -> real, wrapLines: bool, maxTokensPerLine: int)
    returns (positions: seq<TokenPosition>, currentRow: nat, maxRowWidth: real)
    ensures positions == Positions(tokens, measure, wrapLines, maxTokensPerLine)
    ensures currentRow + 1 == RowCount(|tokens|, wrapLines, maxTokensPerLine)
    ensures maxRowWidth == MaxRight(positions, |positions|)
  {
    ghost var ps := Positions(tokens, measure, wrapLines, maxTokensPerLine);
    var currentX := START_PADDING;
    currentRow := 0;
    maxRowWidth := 0.0;
    positions := [];
    var index := 0;
    while index < |tokens|
      invariant 0 <= index <= |tokens|
      invariant positions == ps[..index]
      invariant currentRow == if index == 0 then 0 else RowOf(wrapLines, maxTokensPerLine, index - 1)
      invariant currentX == if index == 0 then START_PADDING else RightEdge(ps[index - 1])
      invariant Max(maxRowWidth, currentX) == MaxRight(ps, index)
    {
      CursorStep(tokens, measure, wrapLines, maxTokensPerLine, index, currentX, currentRow, maxRowWidth);
      var token := tokens[index];
      var textWidth := measure(token);
      var tokenWidth := Max(textWidth + TOKEN_PADDING, MIN_TOKEN_WIDTH);
      if wrapLines && index > 0 && maxTokensPerLine != 0 && index % Period(maxTokensPerLine) == 0 {
        maxRowWidth := Max(maxRowWidth, currentX);
        currentX := START_PADDING;
        currentRow := currentRow + 1;
      }
      var yPosition := TOKEN_Y_BASE + currentRow as real * ROW_HEIGHT;
      var placed := TokenPosition(currentX + tokenWidth / 2.0, yPosition, token, tokenWidth, currentRow);
      TakeSnoc(ps, index);
      positions := positions + [placed];
      currentX := currentX + tokenWidth + TOKEN_GAP;
      index := index + 1;
    }
    assert positions == ps;
    maxRowWidth := Max(maxRowWidth, currentX);
  }

  class AttentionVisualizer {
    var tokens: seq<string>
    var attentionMatrix: seq<seq<real>>
    var hoveredTokenIndex: Option<int>
    var lockedTokenIndex: Option<int>
    var maxTokensPerLine: int
    var wrapLines: bool
    /** Every value emitted on the lock-change output, oldest first. */
    var lockChanges: seq<Option<int>>

    var tokenPositions: seq<TokenPosition>
    var attentionPaths: seq<AttentionPath>
    var hoveredPathIndex: Option<int>
    var hoveredPathScore: Option<real>
    var hoveredPathFromToken: Option<string>
    var hoveredPathToToken: Option<string>
    var mouseX: real
    var mouseY: real
    var svgWidth: real
    var svgHeight: real
    var numRows: nat
    /** A hover-end timer is scheduled and has not fired or been cancelled. */
    var hoverEndPending: bool

    /** The canvas has at least its minimum extent and at least one row. */
    predicate Canvas()
      reads this`numRows, this`svgWidth, this`svgHeight
    {
      numRows >= 1 && svgWidth >= MIN_SVG_WIDTH && svgHeight >= MIN_SVG_HEIGHT
    }

    /** A sized canvas, and edges drawn only over placed tokens. */
    predicate Frame()
      reads this`numRows, this`svgWidth, this`svgHeight, this`tokenPositions, this`attentionPaths
    {
      Canvas() && (tokenPositions == [] ==> attentionPaths == [])
    }

    /** Exactly the recorded edge carries the hover flag, and no tooltip field is set
        when no edge is recorded. A recorded index may outlive an edge list emptied
        together with the tokens. */
    predicate HoverMarked()
      reads this`attentionPaths, this`hoveredPathIndex, this`hoveredPathScore, this`hoveredPathFromToken, this`hoveredPathToToken
    {
      (forall k :: 0 <= k < |attentionPaths| ==> (attentionPaths[k].isHovered <==> hoveredPathIndex == Some(k))) &&
      (hoveredPathIndex.None? ==>
         hoveredPathScore.None? && hoveredPathFromToken.None? && hoveredPathToToken.None?) &&
      (hoveredPathIndex.Some? ==> attentionPaths == [] || 0 <= hoveredPathIndex.value < |attentionPaths|)
    }

    /** The tooltip fields describe the recorded edge: its score and its end tokens. */
    predicate HoverDescribed()
      reads this`attentionPaths, this`hoveredPathIndex, this`hoveredPathScore, this`hoveredPathFromToken, this`hoveredPathToToken, this`tokens
    {
      hoveredPathIndex.Some? && 0 <= hoveredPathIndex.value < |attentionPaths| ==>
        var p := attentionPaths[hoveredPathIndex.value];
        hoveredPathScore == Some(p.score) &&
        hoveredPathFromToken == Some(TokenText(tokens, p.fromIndex)) &&
        hoveredPathToToken == Some(TokenText(tokens, p.toIndex))
    }

    predicate Valid()
      reads this`numRows, this`svgWidth, this`svgHeight, this`tokenPositions, this`attentionPaths, this`hoveredPathIndex, this`hoveredPathScore, this`hoveredPathFromToken, this`hoveredPathToToken, this`tokens
    {
      Frame() && HoverMarked() && HoverDescribed()
    }

    /** No edge is hovered and the tooltip fields are empty. */
    predicate NoPathHovered()
      reads this`hoveredPathIndex, this`hoveredPathScore, this`hoveredPathFromToken, this`hoveredPathToToken
    {
      hoveredPathIndex.None? && hoveredPathScore.None? &&
      hoveredPathFromToken.None? && hoveredPathToToken.None?
    }

    /** The tokens are placed, and the canvas sized, as the layout prescribes. */
    predicate LaidOut(measure: string -> real)
      reads this`tokenPositions, this`tokens, this`wrapLines, this`maxTokensPerLine, this`numRows, this`svgWidth, this`svgHeight
    {
      tokenPositions == Positions(tokens, measure, wrapLines, maxTokensPerLine) &&
      numRows == RowCount(|tokens|, wrapLines, maxTokensPerLine) &&
      svgWidth == SvgWidthFor(tokenPositions) &&
      svgHeight == SvgHeightFor(numRows)
    }

    /** The drawn edges are the ones selected for the current inputs and focus. */
    predicate EdgesShown()
      reads this`attentionPaths, this`attentionMatrix, this`tokenPositions, this`hoveredTokenIndex, this`lockedTokenIndex
    {
      attentionPaths == SelectEdges(attentionMatrix, tokenPositions, hoveredTokenIndex, lockedTokenIndex)
    }

    constructor()
      ensures Valid() && NoPathHovered()
      ensures tokens == [] && attentionMatrix == []
      ensures hoveredTokenIndex.None? && lockedTokenIndex.None?
      ensures maxTokensPerLine == DEFAULT_TOKENS_PER_LINE && wrapLines
      ensures lockChanges == [] && tokenPositions == [] && attentionPaths == []
      ensures mouseX == 0.0 && mouseY == 0.0
      ensures svgWidth == DEFAULT_SVG_WIDTH && svgHeight == DEFAULT_SVG_HEIGHT && numRows == 1
      ensures !hoverEndPending
    {
      tokens := [];
      attentionMatrix := [];
      hoveredTokenIndex := None;
      lockedTokenIndex := None;
      maxTokensPerLine := DEFAULT_TOKENS_PER_LINE;
      wrapLines := true;
      lockChanges := [];
      tokenPositions := [];
      attentionPaths := [];
      hoveredPathIndex := None;
      hoveredPathScore := None;
      hoveredPathFromToken := None;
      hoveredPathToToken := None;
      mouseX := 0.0;
      mouseY := 0.0;
      svgWidth := DEFAULT_SVG_WIDTH;
      svgHeight := DEFAULT_SVG_HEIGHT;
      numRows := 1;
      hoverEndPending := false;
    }

    /** The reaction to a change notification whose new input values are already
        bound: a layout input change recomputes layout and edges, a focus change
        recomputes edges, and nothing else happens. The tooltip texts may be stale
        on entry when the tokens were rebound, since any such change redraws. */
    method NgOnChanges(c: Changes, measure: string -> real)
      modifies this`tokenPositions, this`attentionPaths,
               this`hoveredPathIndex, this`hoveredPathScore, this`hoveredPathFromToken, this`hoveredPathToToken,
               this`numRows, this`svgWidth, this`svgHeight
      requires Frame() && HoverMarked()
      requires !LayoutChanged(c) && !FocusChanged(c) ==> HoverDescribed()
      ensures Valid()
      ensures LayoutChanged(c) && tokens != [] ==> LaidOut(measure)
      ensures LayoutChanged(c) && tokens == [] ==>
                tokenPositions == [] && attentionPaths == [] &&
                numRows == old(numRows) && svgWidth == old(svgWidth) && svgHeight == old(svgHeight)
      ensures !LayoutChanged(c) ==>
                tokenPositions == old(tokenPositions) && numRows == old(numRows) &&
                svgWidth == old(svgWidth) && svgHeight == old(svgHeight)
      ensures LayoutChanged(c) || FocusChanged(c) ==> EdgesShown()
      ensures (LayoutChanged(c) && tokens != []) || FocusChanged(c) ==> NoPathHovered()
      ensures LayoutChanged(c) && tokens == [] && !FocusChanged(c) ==>
                hoveredPathIndex == old(hoveredPathIndex) && hoveredPathScore == old(hoveredPathScore) &&
                hoveredPathFromToken == old(hoveredPathFromToken) && hoveredPathToToken == old(hoveredPathToToken)
      ensures !LayoutChanged(c) && !FocusChanged(c) ==>
                attentionPaths == old(attentionPaths) &&
                hoveredPathIndex == old(hoveredPathIndex) && hoveredPathScore == old(hoveredPathScore) &&
                hoveredPathFromToken == old(hoveredPathFromToken) && hoveredPathToToken == old(hoveredPathToToken)
    {
      if LayoutChanged(c) {
        PrepareVisualizationData(measure);
      }
      if FocusChanged(c) {
        UpdateAttentionLines();
      }
    }

    /** The inputs named in a change notification take their new values; the others
        keep theirs. */
    method BindInputs(c: Changes)
      modifies this`tokens, this`attentionMatrix, this`hoveredTokenIndex, this`lockedTokenIndex,
               this`maxTokensPerLine, this`wrapLines
      ensures tokens == (if c.tokens.Some? then c.tokens.value else old(tokens))
      ensures attentionMatrix == (if c.attentionMatrix.Some? then c.attentionMatrix.value else old(attentionMatrix))
      ensures hoveredTokenIndex == (if c.hoveredTokenIndex.Some? then c.hoveredTokenIndex.value else old(hoveredTokenIndex))
      ensures lockedTokenIndex == (if c.lockedTokenIndex.Some? then c.lockedTokenIndex.value else old(lockedTokenIndex))
      ensures maxTokensPerLine == (if c.maxTokensPerLine.Some? then c.maxTokensPerLine.value else old(maxTokensPerLine))
      ensures wrapLines == (if c.wrapLines.Some? then c.wrapLines.value else old(wrapLines))
    {
      tokens := if c.tokens.Some? then c.tokens.value else tokens;
      attentionMatrix := if c.attentionMatrix.Some? then c.attentionMatrix.value else attentionMatrix;
      hoveredTokenIndex := if c.hoveredTokenIndex.Some? then c.hoveredTokenIndex.value else hoveredTokenIndex;
      lockedTokenIndex := if c.lockedTokenIndex.Some? then c.lockedTokenIndex.value else lockedTokenIndex;
      maxTokensPerLine := if c.maxTokensPerLine.Some? then c.maxTokensPerLine.value else maxTokensPerLine;
      wrapLines := if c.wrapLines.Some? then c.wrapLines.value else wrapLines;
    }

    /** One change notification as Angular delivers it: the changed inputs are bound,
        then the component reacts. A valid component stays valid, a layout change lays
        the new tokens out, and any change shows the edges selected for the new inputs. */
    method ReceiveChanges(c: Changes, measure: string -> real)
      modifies this`tokens, this`attentionMatrix, this`hoveredTokenIndex, this`lockedTokenIndex,
               this`maxTokensPerLine, this`wrapLines,
               this`tokenPositions, this`attentionPaths,
               this`hoveredPathIndex, this`hoveredPathScore, this`hoveredPathFromToken, this`hoveredPathToToken,
               this`numRows, this`svgWidth, this`svgHeight
      requires Valid()
      ensures Valid()
      ensures tokens == (if c.tokens.Some? then c.tokens.value else old(tokens))
      ensures attentionMatrix == (if c.attentionMatrix.Some? then c.attentionMatrix.value else old(attentionMatrix))
      ensures hoveredTokenIndex == (if c.hoveredTokenIndex.Some? then c.hoveredTokenIndex.value else old(hoveredTokenIndex))
      ensures lockedTokenIndex == (if c.lockedTokenIndex.Some? then c.lockedTokenIndex.value else old(lockedTokenIndex))
      ensures maxTokensPerLine == (if c.maxTokensPerLine.Some? then c.maxTokensPerLine.value else old(maxTokensPerLine))
      ensures wrapLines == (if c.wrapLines.Some? then c.wrapLines.value else old(wrapLines))
      ensures LayoutChanged(c) && tokens != [] ==> LaidOut(measure)
      ensures LayoutChanged(c) && tokens == [] ==>
                tokenPositions == [] && attentionPaths == [] &&
                numRows == old(numRows) && svgWidth == old(svgWidth) && svgHeight == old(svgHeight)
      ensures !LayoutChanged(c) ==>
                tokenPositions == old(tokenPositions) && numRows == old(numRows) &&
                svgWidth == old(svgWidth) && svgHeight == old(svgHeight)
      ensures LayoutChanged(c) || FocusChanged(c) ==> EdgesShown()
      ensures (LayoutChanged(c) && tokens != []) || FocusChanged(c) ==> NoPathHovered()
      ensures LayoutChanged(c) && tokens == [] && !FocusChanged(c) ==>
                hoveredPathIndex == old(hoveredPathIndex) && hoveredPathScore == old(hoveredPathScore) &&
                hoveredPathFromToken == old(hoveredPathFromToken) && hoveredPathToToken == old(hoveredPathToToken)
      ensures !LayoutChanged(c) && !FocusChanged(c) ==>
                attentionPaths == old(attentionPaths) &&
                hoveredPathIndex == old(hoveredPathIndex) && hoveredPathScore == old(hoveredPathScore) &&
                hoveredPathFromToken == old(hoveredPathFromToken) && hoveredPathToToken == old(hoveredPathToToken)
    {
      BindInputs(c);
      NgOnChanges(c, measure);
    }

    /** Lays out the tokens and recomputes the edges; with no tokens, empties both
        and leaves the canvas size and the edge-hover record as they were. */
    method PrepareVisualizationData(measure: string -> real)
      modifies this`tokenPositions, this`attentionPaths, this`numRows, this`svgWidth, this`svgHeight,
               this`hoveredPathIndex, this`hoveredPathScore, this`hoveredPathFromToken, this`hoveredPathToToken
      requires Frame() && HoverMarked()
      ensures Valid()
      ensures tokens == [] ==>
                tokenPositions == [] && attentionPaths == [] &&
                numRows == old(numRows) && svgWidth == old(svgWidth) && svgHeight == old(svgHeight) &&
                hoveredPathIndex == old(hoveredPathIndex) && hoveredPathScore == old(hoveredPathScore) &&
                hoveredPathFromToken == old(hoveredPathFromToken) && hoveredPathToToken == old(hoveredPathToToken)
      ensures tokens != [] ==> LaidOut(measure) && EdgesShown() && NoPathHovered()
    {
      if |tokens| == 0 {
        tokenPositions := [];
        attentionPaths := [];
        return;
      }
      CalculateTokenPositions(measure);
      UpdateAttentionLines();
    }

    /** Places every token left to right, opening a new row at each multiple of the
        per-line count when wrapping, and sizes the canvas to the widest row and the
        number of rows. */
    method CalculateTokenPositions(measure: string -> real)
      modifies this`tokenPositions, this`numRows, this`svgWidth, this`svgHeight
      ensures LaidOut(measure)
      ensures Canvas() && svgWidth >= MaxRight(tokenPositions, |tokenPositions|) + SVG_PADDING
      ensures forall i :: 0 <= i < |tokenPositions| ==> RightEdge(tokenPositions[i]) + SVG_PADDING <= svgWidth
      ensures forall i :: 0 <= i < |tokenPositions| ==>
                tokenPositions[i].y + ROW_HEIGHT + SVG_HEIGHT_PADDING <= svgHeight
    {
      var positions, currentRow, maxRowWidth := PlaceTokens(tokens, measure, wrapLines, maxTokensPerLine);
      tokenPositions := positions;
      numRows := currentRow + 1;
      svgWidth := Max(maxRowWidth + SVG_PADDING, MIN_SVG_WIDTH);
      svgHeight := Max(TOKEN_Y_BASE + numRows as real * ROW_HEIGHT + SVG_HEIGHT_PADDING, MIN_SVG_HEIGHT);
      TokensFitVertically(tokens, measure, wrapLines, maxTokensPerLine);
      TokensFitHorizontally(tokenPositions);
    }

    /** Clears the drawn edges and the edge-hover record, then draws the overview
        when no token is in focus and the focused token's edges otherwise. */
    method UpdateAttentionLines()
      modifies this`attentionPaths, this`hoveredPathIndex, this`hoveredPathScore,
               this`hoveredPathFromToken, this`hoveredPathToToken
      requires Frame() && HoverMarked()
      ensures Valid()
      ensures EdgesShown() && NoPathHovered()
    {
      attentionPaths := [];
      ResetPathHoverState();
      DrawSelectedEdges();
    }

    /** Onto an empty edge list, draws nothing without placed tokens, the overview
        when no token is in focus, and the focused token's edges otherwise (the
        locked token taking precedence over the hovered one). */
    method DrawSelectedEdges()
      modifies this`attentionPaths
      requires attentionPaths == [] && Canvas() && NoPathHovered()
      ensures Valid() && EdgesShown()
    {
      if |tokenPositions| == 0 {
        return;
      }
      if hoveredTokenIndex.None? && lockedTokenIndex.None? {
        DrawAllAttentionLines();
      } else {
        var activeTokenIndex := if lockedTokenIndex.Some? then lockedTokenIndex.value else hoveredTokenIndex.value;
        DrawHoveredAttentionLines(activeTokenIndex);
      }
    }

    /** Scans the whole matrix row by row for off-diagonal entries above the overview
        threshold, then draws the strongest of them. */
    method DrawAllAttentionLines()
      modifies this`attentionPaths
      ensures attentionPaths == old(attentionPaths) + OverviewPaths(attentionMatrix, tokenPositions)
    {
      var allAttentionPairs: seq<Pair> := [];
      var fromIndex := 0;
      while fromIndex < |attentionMatrix|
        invariant 0 <= fromIndex <= |attentionMatrix|
        invariant allAttentionPairs == MatrixPairs(attentionMatrix, fromIndex, ALL_ATTENTION_THRESHOLD)
        invariant attentionPaths == old(attentionPaths)
      {
        var row := attentionMatrix[fromIndex];
        ghost var before := allAttentionPairs;
        ghost var rowPairs: seq<Pair> := [];
        var toIndex := 0;
        while toIndex < |row|
          invariant 0 <= toIndex <= |row|
          invariant rowPairs == RowPairs(fromIndex, row, toIndex, ALL_ATTENTION_THRESHOLD)
          invariant allAttentionPairs == before + rowPairs
          invariant attentionPaths == old(attentionPaths)
        {
          var score := row[toIndex];
          if score > ALL_ATTENTION_THRESHOLD && fromIndex != toIndex {
            AppendAssoc(before, rowPairs, [Pair(fromIndex, toIndex, score)]);
            allAttentionPairs := allAttentionPairs + [Pair(fromIndex, toIndex, score)];
            rowPairs := rowPairs + [Pair(fromIndex, toIndex, score)];
          } else {
            assert rowPairs + [] == rowPairs;
          }
          toIndex := toIndex + 1;
        }
        fromIndex := fromIndex + 1;
      }
      var topAttentionPairs := Top(SortDesc(allAttentionPairs));
      assert ToPaths(topAttentionPairs, tokenPositions, false, General) == OverviewPaths(attentionMatrix, tokenPositions);
      PushPaths(topAttentionPairs, false, General);
    }

    /** With a matrix row for the focused token: its strongest outgoing entries above
        the focused threshold, then its strongest incoming entries, dimmed. */
    method DrawHoveredAttentionLines(activeTokenIndex: int)
      modifies this`attentionPaths
      ensures attentionPaths == old(attentionPaths) + FocusedPaths(attentionMatrix, tokenPositions, activeTokenIndex)
    {
      if !(0 <= activeTokenIndex < |attentionMatrix|) {
        return;
      }
      var outgoingAttention := CollectOutgoing(activeTokenIndex);
      ghost var outgoing := OutgoingPaths(attentionMatrix, tokenPositions, activeTokenIndex);
      assert ToPaths(Top(SortDesc(outgoingAttention)), tokenPositions, true, Outgoing) == outgoing;
      PushPaths(Top(SortDesc(outgoingAttention)), true, Outgoing);
      var incomingAttention := CollectIncoming(activeTokenIndex);
      ghost var incoming := IncomingPaths(attentionMatrix, tokenPositions, activeTokenIndex);
      assert ToPaths(Top(SortDesc(incomingAttention)), tokenPositions, true, Incoming) == incoming;
      PushPaths(Top(SortDesc(incomingAttention)), true, Incoming);
      AppendAssoc(old(attentionPaths), outgoing, incoming);
    }

    /** The focus row's off-diagonal entries above the focused threshold, in column
        order: exactly the entries of that row that qualify, each once. */
    method CollectOutgoing(activeTokenIndex: nat) returns (outgoingAttention: seq<Pair>)
      requires activeTokenIndex < |attentionMatrix|
      ensures outgoingAttention == OutgoingCandidates(attentionMatrix, activeTokenIndex)
      ensures forall p :: p in outgoingAttention <==>
                p.fromIndex == activeTokenIndex && p.toIndex < |attentionMatrix[activeTokenIndex]| &&
                p.toIndex != activeTokenIndex &&
                attentionMatrix[activeTokenIndex][p.toIndex] > FOCUSED_ATTENTION_THRESHOLD &&
                p.score == attentionMatrix[activeTokenIndex][p.toIndex]
    {
      var focusRow := attentionMatrix[activeTokenIndex];
      outgoingAttention := [];
      var toIndex := 0;
      while toIndex < |focusRow|
        invariant 0 <= toIndex <= |focusRow|
        invariant outgoingAttention == RowPairs(activeTokenIndex, focusRow, toIndex, FOCUSED_ATTENTION_THRESHOLD)
      {
        var score := focusRow[toIndex];
        if score > FOCUSED_ATTENTION_THRESHOLD && activeTokenIndex != toIndex {
          outgoingAttention := outgoingAttention + [Pair(activeTokenIndex, toIndex, score)];
        }
        toIndex := toIndex + 1;
      }
      RowPairsMembers(activeTokenIndex, focusRow, |focusRow|, FOCUSED_ATTENTION_THRESHOLD);
    }

    /** The focus column's off-diagonal entries above the focused threshold, in row
        order: exactly the entries of that column that qualify, each once; a row too
        short to reach the column has no entry there. */
    method CollectIncoming(activeTokenIndex: nat) returns (incomingAttention: seq<Pair>)
      ensures incomingAttention == IncomingCandidates(attentionMatrix, activeTokenIndex)
      ensures forall p :: p in incomingAttention <==>
                p.toIndex == activeTokenIndex && p.fromIndex < |attentionMatrix| &&
                activeTokenIndex < |attentionMatrix[p.fromIndex]| && p.fromIndex != activeTokenIndex &&
                attentionMatrix[p.fromIndex][activeTokenIndex] > FOCUSED_ATTENTION_THRESHOLD &&
                p.score == attentionMatrix[p.fromIndex][activeTokenIndex]
    {
      incomingAttention := [];
      var fromIndex := 0;
      while fromIndex < |attentionMatrix|
        invariant 0 <= fromIndex <= |attentionMatrix|
        invariant incomingAttention == ColumnPairs(attentionMatrix, activeTokenIndex, fromIndex, FOCUSED_ATTENTION_THRESHOLD)
      {
        var row := attentionMatrix[fromIndex];
        // reading past the end of a row yields no score, which never passes the threshold
        if activeTokenIndex < |row| && row[activeTokenIndex] > FOCUSED_ATTENTION_THRESHOLD && fromIndex != activeTokenIndex {
          incomingAttention := incomingAttention + [Pair(fromIndex, activeTokenIndex, row[activeTokenIndex])];
        }
        fromIndex := fromIndex + 1;
      }
      ColumnPairsMembers(attentionMatrix, activeTokenIndex, |attentionMatrix|, FOCUSED_ATTENTION_THRESHOLD);
    }

    /** Appends the drawn edge of each selected pair, in order. */
    method PushPaths(selected: seq<Pair>, highlighted: bool, role: Role)
      modifies this`attentionPaths
      ensures attentionPaths == old(attentionPaths) + ToPaths(selected, tokenPositions, highlighted, role)
    {
      var k := 0;
      while k < |selected|
        invariant 0 <= k <= |selected|
        invariant attentionPaths == old(attentionPaths) + ToPaths(selected[..k], tokenPositions, highlighted, role)
      {
        var pair := selected[k];
        var path := CurvedPath(tokenPositions, pair.fromIndex, pair.toIndex);
        var drawn := AttentionPath(path, Weight(role, pair.score), highlighted, pair.fromIndex, pair.toIndex, false, role);
        ToPathsPrefix(selected, k, tokenPositions, highlighted, role);
        AppendAssoc(old(attentionPaths), ToPaths(selected[..k], tokenPositions, highlighted, role), [drawn]);
        attentionPaths := attentionPaths + [drawn];
        k := k + 1;
      }
      assert selected[..k] == selected;
    }

    /** Forgets the hovered edge: the record and tooltip fields are emptied and every
        hover flag is cleared. */
    method ResetPathHoverState()
      modifies this`hoveredPathIndex, this`hoveredPathScore, this`hoveredPathFromToken,
               this`hoveredPathToToken, this`attentionPaths
      requires HoverMarked()
      ensures HoverMarked() && HoverDescribed() && NoPathHovered()
      ensures attentionPaths == Unhovered(old(attentionPaths))
    {
      if hoveredPathIndex.None? {
        UnhoveredFixed(attentionPaths);
        return;
      }
      hoveredPathIndex := None;
      hoveredPathScore := None;
      hoveredPathFromToken := None;
      hoveredPathToToken := None;
      if exists k :: 0 <= k < |attentionPaths| && attentionPaths[k].isHovered {
        attentionPaths := Unhovered(attentionPaths);
      } else {
        UnhoveredFixed(attentionPaths);
      }
    }

    /** Pointer over a token (`Some`) or off all tokens (`None`); ignored while a
        token is locked. */
    method OnTokenHover(index: Option<int>)
      modifies this`hoveredTokenIndex, this`attentionPaths, this`hoveredPathIndex, this`hoveredPathScore,
               this`hoveredPathFromToken, this`hoveredPathToToken
      requires Valid()
      ensures Valid()
      ensures TokenFocus(hoveredTokenIndex, lockedTokenIndex) ==
              Hover(TokenFocus(old(hoveredTokenIndex), lockedTokenIndex), index)
      ensures lockedTokenIndex.Some? ==> unchanged(this)
      ensures lockedTokenIndex.None? ==> EdgesShown() && NoPathHovered()
    {
      if lockedTokenIndex.Some? {
        return;
      }
      hoveredTokenIndex := index;
      UpdateAttentionLines();
    }

    /** A click locks the clicked token, or unlocks it when it was the locked one,
        emits the new lock and redraws. */
    method OnTokenClick(index: int)
      modifies this`lockedTokenIndex, this`hoveredTokenIndex, this`lockChanges, this`attentionPaths,
               this`hoveredPathIndex, this`hoveredPathScore, this`hoveredPathFromToken, this`hoveredPathToToken
      requires Valid()
      ensures Valid()
      ensures TokenFocus(hoveredTokenIndex, lockedTokenIndex) ==
              Click(TokenFocus(old(hoveredTokenIndex), old(lockedTokenIndex)), index)
      ensures lockChanges == old(lockChanges) + [lockedTokenIndex]
      ensures EdgesShown() && NoPathHovered()
    {
      if lockedTokenIndex == Some(index) {
        lockedTokenIndex := None;
        hoveredTokenIndex := None;
        lockChanges := lockChanges + [None];
      } else {
        lockedTokenIndex := Some(index);
        hoveredTokenIndex := Some(index);
        lockChanges := lockChanges + [Some(index)];
      }
      UpdateAttentionLines();
    }

    /** Pointer over drawn edge `index`. Only while a token is locked: cancels a
        pending hover end and, when the edge exists, makes it the only hovered edge
        and fills the tooltip from it. */
    method OnPathHover(index: int)
      modifies this`hoverEndPending, this`attentionPaths, this`hoveredPathIndex, this`hoveredPathScore,
               this`hoveredPathFromToken, this`hoveredPathToToken
      requires Valid()
      ensures Valid()
      ensures lockedTokenIndex.None? ==> unchanged(this)
      ensures lockedTokenIndex.Some? ==> !hoverEndPending
      ensures lockedTokenIndex.Some? && 0 <= index < |old(attentionPaths)| ==>
                hoveredPathIndex == Some(index) &&
                attentionPaths == HoverOnly(old(attentionPaths), index) &&
                hoveredPathScore == Some(attentionPaths[index].score) &&
                hoveredPathFromToken == Some(TokenText(tokens, attentionPaths[index].fromIndex)) &&
                hoveredPathToToken == Some(TokenText(tokens, attentionPaths[index].toIndex))
      ensures lockedTokenIndex.Some? && !(0 <= index < |old(attentionPaths)|) ==>
                attentionPaths == old(attentionPaths) && hoveredPathIndex == old(hoveredPathIndex) &&
                hoveredPathScore == old(hoveredPathScore) &&
                hoveredPathFromToken == old(hoveredPathFromToken) && hoveredPathToToken == old(hoveredPathToToken)
    {
      if lockedTokenIndex.None? {
        return;
      }
      hoverEndPending := false;
      if 0 <= index < |attentionPaths| {
        var path := attentionPaths[index];
        if hoveredPathIndex == Some(index) {
          HoverOnlyFixed(attentionPaths, index);
          return;
        }
        hoveredPathIndex := Some(index);
        hoveredPathScore := Some(path.score);
        hoveredPathFromToken := Some(TokenText(tokens, path.fromIndex));
        hoveredPathToToken := Some(TokenText(tokens, path.toIndex));
        attentionPaths := HoverOnly(attentionPaths, index);
      }
    }

    /** Pointer leaves a drawn edge: (re)schedules the hover-end timer. */
    method OnPathHoverEnd()
      modifies this`hoverEndPending
      ensures hoverEndPending
    {
      hoverEndPending := true;
    }

    /** The hover-end timer expires: the hovered edge is forgotten. */
    method FireHoverEndTimer()
      modifies this`hoverEndPending, this`attentionPaths, this`hoveredPathIndex, this`hoveredPathScore,
               this`hoveredPathFromToken, this`hoveredPathToToken
      requires Valid() && hoverEndPending
      ensures Valid() && NoPathHovered() && !hoverEndPending
      ensures attentionPaths == Unhovered(old(attentionPaths))
    {
      ResetPathHoverState();
      hoverEndPending := false;
    }

    /** Stores the pointer position clamped so that the tooltip drawn at it stays
        inside the canvas. */
    method TrackMousePosition(rawMouseX: real, rawMouseY: real)
      modifies this`mouseX, this`mouseY
      requires Valid()
      ensures mouseX == AnchorX(rawMouseX, svgWidth) && mouseY == AnchorY(rawMouseY, svgHeight)
      ensures 0.0 <= mouseX + TOOLTIP_OFFSET_X && mouseX + TOOLTIP_OFFSET_X + TOOLTIP_WIDTH <= svgWidth
      ensures 0.0 <= mouseY + TOOLTIP_OFFSET_Y && mouseY + TOOLTIP_OFFSET_Y + TOOLTIP_HEIGHT <= svgHeight
    {
      var minClampedX := -TOOLTIP_OFFSET_X;
      var maxClampedX := svgWidth - TOOLTIP_WIDTH - TOOLTIP_OFFSET_X;
      mouseX := Clamp(rawMouseX, minClampedX, maxClampedX);
      var minClampedY := -TOOLTIP_OFFSET_Y;
      var maxClampedY := svgHeight - TOOLTIP_HEIGHT - TOOLTIP_OFFSET_Y;
      mouseY := Clamp(rawMouseY, minClampedY, maxClampedY);
      TooltipInside(rawMouseX, rawMouseY, svgWidth, svgHeight);
    }

    /** A new per-line count chosen in the dropdown: store it and lay out again. */
    method OnTokensPerLineChange(value: int, measure: string -> real)
      modifies this`maxTokensPerLine, this`tokenPositions, this`attentionPaths, this`numRows, this`svgWidth,
               this`svgHeight, this`hoveredPathIndex, this`hoveredPathScore, this`hoveredPathFromToken,
               this`hoveredPathToToken
      requires Valid()
      ensures Valid()
      ensures maxTokensPerLine == value
      ensures tokens != [] ==> LaidOut(measure) && EdgesShown() && NoPathHovered()
      ensures tokens == [] ==>
                tokenPositions == [] && attentionPaths == [] &&
                numRows == old(numRows) && svgWidth == old(svgWidth) && svgHeight == old(svgHeight) &&
                hoveredPathIndex == old(hoveredPathIndex) && hoveredPathScore == old(hoveredPathScore) &&
                hoveredPathFromToken == old(hoveredPathFromToken) && hoveredPathToToken == old(hoveredPathToToken)
    {
      maxTokensPerLine := value;
      PrepareVisualizationData(measure);
    }
  }
}
