# Attention visualiser — a verified model

This project models the attention visualiser component of the attention-explorer front end
(`frontend/src/app/components/attention-visualizer/attention-visualizer.component.ts`).
The component receives a token list and a square attention matrix. It:

- lays the tokens out left to right on rows of at most `maxTokensPerLine` tokens;
- sizes the SVG canvas to the widest row and to the number of rows;
- draws attention edges as curves between tokens;
- reacts to pointer events on tokens and edges.

The edges come in two modes:

- **Overview** (no token in focus): the five strongest off-diagonal weights above 0.02.
- **Focused** (a hovered token, or a click-locked token, which takes precedence): the five
  strongest outgoing weights of that token above 0.01, then its five strongest incoming
  weights above 0.01, dimmed to 60%.

When a token is locked, hovering an edge marks it and fills a tooltip. Leaving the edge
schedules a debounced reset. The tooltip anchor is clamped so the tooltip box stays on the
canvas.

Modules:

- `Layout` (`layout.dfy`):
  - token widths;
  - row assignment, following the cursor resets of the layout loop, with the closed form
    `i / perLine` proved;
  - the placed positions and the canvas extent;
  - row labels and dividers.
- `Curves` (`curves.dfy`): the curve generator. Its result is a `Path` datatype (empty,
  quadratic or cubic) instead of an SVG string.
- `Ranking` (`ranking.dfy`):
  - the stable descending sort by score (insertion sort, stable like
    `Array.prototype.sort`);
  - the cut to the first five.
- `EdgeSelection` (`edges.dfy`):
  - the candidate scans of the matrix, the focus row and the focus column;
  - the drawn edge lists of both modes, as specification functions;
  - the properties proved about them.
- `Tooltip` (`tooltip.dfy`): the clamp of the tooltip anchor.
- `Visualizer` (`visualizer.dfy`): the component as a class.
  - Its fields are the inputs, the derived layout and edges, the edge-hover record, the
    mouse anchor, the canvas size and the pending hover-end timer.
  - Its methods are the component's operations, written as loops where the source loops.
  - Each method is proved against the specification functions of the other modules.
- `Options` (`options.dfy`): the `Option` type, standing for TypeScript's `T | null`.

The outside world enters as follows:

- **Text measurement.** Canvas `measureText` becomes the parameter `measure: string -> real`.
- **The `tokenLockChange` output.** This becomes the field `lockChanges`, the log of every
  emitted value.
- **The hover-end timer.** This becomes the flag `hoverEndPending`. Its expiry is the method
  `FireHoverEndTimer`.
- **Angular's change notification.** This is two steps, and `ReceiveChanges` runs them in
  order:
  - `BindInputs`: Angular binds the changed inputs;
  - `NgOnChanges`: the component's own reaction, which is `ngOnChanges`.

Behaviour of the code that the model keeps as written:

- Token text is used as given.
- An empty token list empties the positions and the edges, and leaves `svgWidth`,
  `svgHeight`, `numRows` and the edge-hover record unchanged.
- `maxTokensPerLine == 0` never wraps, because JavaScript's `index % 0` is `NaN`.
- A negative count wraps at multiples of its magnitude, because the remainder takes the
  sign of the non-negative index (`Layout.NegativePerLine`).
- `updateAttentionLines` does not cancel a pending hover-end timer.
- `onPathHoverEnd` schedules the timer even when no token is locked.

## Model

| member | source | states |
|---|---|---|
| `Layout.TokenWidth` | frontend/src/app/components/attention-visualizer/attention-visualizer.component.ts:193 | a token is its measured width plus 20, but never narrower than 60 |
| `Layout.Widths` | frontend/src/app/components/attention-visualizer/attention-visualizer.component.ts:191-193 | one width per token, each at least the 60 minimum |
| `Layout.Positions` | frontend/src/app/components/attention-visualizer/attention-visualizer.component.ts:189-214 | the layout places exactly one position per token |
| `Layout.PositionsAt` | frontend/src/app/components/attention-visualizer/attention-visualizer.component.ts:203-211 | token `i` is placed at the cursor of its row plus half its width, on its row's baseline |
| `Layout.PositionAtShape` | frontend/src/app/components/attention-visualizer/attention-visualizer.component.ts:203-211 | a placed token keeps its text and width, lies on its row's baseline, on a row no later than its index, and its left edge is at or past the 40-unit padding |
| `Layout.PositionShape` | frontend/src/app/components/attention-visualizer/attention-visualizer.component.ts:191-211 | each token keeps its text, has width `max(measured + 20, 60)`, row `i / maxTokensPerLine` when wrapping (0 otherwise) and y `80 + row * 120` |
| `Layout.RowStart` | frontend/src/app/components/attention-visualizer/attention-visualizer.component.ts:196-200 | the cursor of a token's row was last reset at or before that token, on the same row |
| `Layout.RowFormula` | frontend/src/app/components/attention-visualizer/attention-visualizer.component.ts:196-200 | with wrapping the row is `i / p` for the period `p` and the row starts at `(i / p) * p`; without wrapping every token is on row 0 |
| `Layout.SevenTokensThreePerLine` | frontend/src/app/components/attention-visualizer/attention-visualizer.component.ts:196-200 | seven tokens at three per line fall on rows 0,0,0,1,1,1,2 |
| `Layout.NegativePerLine` | frontend/src/app/components/attention-visualizer/attention-visualizer.component.ts:196 | a negative per-line count wraps exactly like its magnitude |
| `Layout.RowMonotone` | frontend/src/app/components/attention-visualizer/attention-visualizer.component.ts:196-200 | rows never decrease along the tokens and rise by at most one per token |
| `Layout.SameRowSameStart` | frontend/src/app/components/attention-visualizer/attention-visualizer.component.ts:196-199 | two tokens on the same row share the point where the cursor was reset |
| `Layout.TokensOrderedWithinRow` | frontend/src/app/components/attention-visualizer/attention-visualizer.component.ts:205-213 | within a row an earlier token ends, gap included, before a later one begins, so x strictly increases |
| `Layout.AdjacentTokensGap` | frontend/src/app/components/attention-visualizer/attention-visualizer.component.ts:206-213 | neighbours on one row are exactly the 10-unit gap apart |
| `Layout.NextPosition` | frontend/src/app/components/attention-visualizer/attention-visualizer.component.ts:196-213 | the cursor rule: a row-opening token starts at the 40-unit padding, any other right after its predecessor's edge plus gap |
| `Layout.CursorStep` | frontend/src/app/components/attention-visualizer/attention-visualizer.component.ts:191-213 | one loop step moves the row counter, the cursor and the widest extent from their values before token `i` to their values after it |
| `Layout.MaxRightBounds` | frontend/src/app/components/attention-visualizer/attention-visualizer.component.ts:198-220 | the widest extent is the padding or some token's right edge, and no token reaches past it |
| `Layout.RowCount` | frontend/src/app/components/attention-visualizer/attention-visualizer.component.ts:217 | the row count is the last row plus one, so at least one |
| `Layout.TokensFitVertically` | frontend/src/app/components/attention-visualizer/attention-visualizer.component.ts:203-225 | every token's row lies a row height plus padding above the canvas bottom |
| `Layout.TokensFitHorizontally` | frontend/src/app/components/attention-visualizer/attention-visualizer.component.ts:213-221 | every token ends, gap included, at least 40 left of the canvas's right edge |
| `Layout.Max` | frontend/src/app/components/attention-visualizer/attention-visualizer.component.ts:221 | `Math.max` is an upper bound equal to one of its arguments |
| `Layout.RowNumbers` | frontend/src/app/components/attention-visualizer/attention-visualizer.component.ts:157-159 | the row labels are 0 to `numRows - 1` |
| `Layout.RowDividers` | frontend/src/app/components/attention-visualizer/attention-visualizer.component.ts:161-163 | the dividers are the row labels without the first |
| `Curves.Abs` | frontend/src/app/components/attention-visualizer/attention-visualizer.component.ts:363 | the distance is non-negative and equals the difference or its negation |
| `Curves.ArcHeight` | frontend/src/app/components/attention-visualizer/attention-visualizer.component.ts:365-368 | the same-row lift is `80 + 0.15 * distance` capped at 100, so always between 80 and 100 |
| `Curves.CurvedPath` | frontend/src/app/components/attention-visualizer/attention-visualizer.component.ts:346-358 | the path is empty exactly when an index has no position, and quadratic exactly when both tokens share a row (cubic otherwise) |
| `Curves.CurvedPathEnds` | frontend/src/app/components/attention-visualizer/attention-visualizer.component.ts:346-358 | the path is empty exactly when an index has no position, quadratic exactly on one row, and otherwise runs from 25 above the source to 25 above the target |
| `Curves.SameRowArc` | frontend/src/app/components/attention-visualizer/attention-visualizer.component.ts:360-375 | a same-row arc has its control point at the midpoint, lifted by the capped arc height |
| `Curves.CrossRowCurve` | frontend/src/app/components/attention-visualizer/attention-visualizer.component.ts:376-398 | a cross-row curve has control points 60 beside the endpoints towards the other row, both lifted 50 per row of distance (the adjacent and distant cases agree) |
| `Curves.CurveSymmetric` | frontend/src/app/components/attention-visualizer/attention-visualizer.component.ts:346-400 | swapping the endpoints yields the same curve traversed backwards |
| `Ranking.Insert` | frontend/src/app/components/attention-visualizer/attention-visualizer.component.ts:269-270 | one insertion step of the sort adds exactly the new pair |
| `Ranking.InsertSorted` | frontend/src/app/components/attention-visualizer/attention-visualizer.component.ts:270 | inserting into a list sorted by descending score keeps it sorted |
| `Ranking.SortDesc` | frontend/src/app/components/attention-visualizer/attention-visualizer.component.ts:269-270 | the sort is a permutation of its input, sorted by descending score |
| `Ranking.InsertStable` | frontend/src/app/components/attention-visualizer/attention-visualizer.component.ts:270 | an insertion places the new pair after all pairs of equal score |
| `Ranking.SortStable` | frontend/src/app/components/attention-visualizer/attention-visualizer.component.ts:269-270 | the sort is stable: pairs of equal score keep their arrival order |
| `Ranking.Top` | frontend/src/app/components/attention-visualizer/attention-visualizer.component.ts:271 | the cut keeps the first five pairs, or all when there are fewer |
| `Ranking.Select` | frontend/src/app/components/attention-visualizer/attention-visualizer.component.ts:269-271 | the sort-and-cut yields `min(n, 5)` pairs, sorted best first, each one of the candidates |
| `Ranking.SelectMaximal` | frontend/src/app/components/attention-visualizer/attention-visualizer.component.ts:269-271 | no pair left out of the selection outscores one kept |
| `Ranking.SelectKeepsBest` | frontend/src/app/components/attention-visualizer/attention-visualizer.component.ts:269-271 | the selection has `min(n, 5)` pairs taken from the candidates, sorted, and no candidate left out outscores one kept |
| `Ranking.InsertDistinct` | frontend/src/app/components/attention-visualizer/attention-visualizer.component.ts:270 | an insertion step keeps token pairs distinct when the new pair is not yet present |
| `Ranking.SortDistinct` | frontend/src/app/components/attention-visualizer/attention-visualizer.component.ts:269-270 | sorting candidates with distinct token pairs keeps them distinct |
| `Ranking.SelectDistinct` | frontend/src/app/components/attention-visualizer/attention-visualizer.component.ts:269-271 | the selection from candidates with distinct token pairs has no token pair twice |
| `EdgeSelection.RowPairs` | frontend/src/app/components/attention-visualizer/attention-visualizer.component.ts:293-298 | a row scan yields pairs that leave the scanned row, for columns already scanned |
| `EdgeSelection.MatrixPairs` | frontend/src/app/components/attention-visualizer/attention-visualizer.component.ts:255-266 | a matrix scan yields pairs from the rows already scanned |
| `EdgeSelection.ColumnPairs` | frontend/src/app/components/attention-visualizer/attention-visualizer.component.ts:319-325 | a column scan yields pairs into the scanned column, from rows already scanned |
| `EdgeSelection.RowPairsMembers` | frontend/src/app/components/attention-visualizer/attention-visualizer.component.ts:293-298 | the row scan yields exactly the row's off-diagonal entries above the threshold, in column order |
| `EdgeSelection.MatrixPairsMembers` | frontend/src/app/components/attention-visualizer/attention-visualizer.component.ts:255-266 | the matrix scan yields exactly the off-diagonal entries above the threshold, in row-major order |
| `EdgeSelection.ColumnPairsMembers` | frontend/src/app/components/attention-visualizer/attention-visualizer.component.ts:319-325 | the column scan yields exactly the column's off-diagonal entries above the threshold, in row order; rows too short contribute nothing |
| `EdgeSelection.ScansDistinct` | frontend/src/app/components/attention-visualizer/attention-visualizer.component.ts:255-325 | the matrix, row and column scans each meet every token pair at most once |
| `EdgeSelection.SelectedEdgesDistinct` | frontend/src/app/components/attention-visualizer/attention-visualizer.component.ts:268-285 | edges drawn from candidates with distinct token pairs join distinct token pairs |
| `EdgeSelection.Weight` | frontend/src/app/components/attention-visualizer/attention-visualizer.component.ts:335 | only incoming edges are dimmed: other edges keep their raw score (lines 278 and 308), and a positive incoming score drops strictly but stays positive |
| `EdgeSelection.ToPaths` | frontend/src/app/components/attention-visualizer/attention-visualizer.component.ts:274-285 | one unhovered edge per selected pair, with its endpoints, its score weighted by the role, and the given highlight |
| `EdgeSelection.ToPathsCurves` | frontend/src/app/components/attention-visualizer/attention-visualizer.component.ts:274-284 | each edge follows the curve between its pair's tokens |
| `EdgeSelection.Focus` | frontend/src/app/components/attention-visualizer/attention-visualizer.component.ts:237-243 | the focus is the locked token if any, otherwise the hovered one, and absent only when both are |
| `EdgeSelection.OverviewPaths` | frontend/src/app/components/attention-visualizer/attention-visualizer.component.ts:247-286 | the overview draws at most five edges, all plain, unhovered and of the general kind |
| `EdgeSelection.FocusedPaths` | frontend/src/app/components/attention-visualizer/attention-visualizer.component.ts:288-344 | nothing when the matrix has no row for the focus; otherwise at most ten highlighted, unhovered edges, every outgoing edge before every incoming one |
| `EdgeSelection.SelectEdges` | frontend/src/app/components/attention-visualizer/attention-visualizer.component.ts:232-244 | nothing is drawn without placed tokens, and no edge starts hovered |
| `EdgeSelection.SelectedEdgesFromCandidates` | frontend/src/app/components/attention-visualizer/attention-visualizer.component.ts:268-285 | one edge per selected candidate, up to five, each along its candidate's curve |
| `EdgeSelection.SelectedEdgesRanked` | frontend/src/app/components/attention-visualizer/attention-visualizer.component.ts:268-285 | drawn scores are non-increasing, and no candidate left out, once weighted, outscores a drawn edge |
| `EdgeSelection.LeftOutBelow` | frontend/src/app/components/attention-visualizer/attention-visualizer.component.ts:268-285 | a candidate without a drawn edge scores at most every drawn edge |
| `EdgeSelection.OverviewEdgeShape` | frontend/src/app/components/attention-visualizer/attention-visualizer.component.ts:247-286 | overview: up to five edges, no self-loops and no token pair twice, each carrying its raw entry above 0.02, plain, unhovered, along its curve |
| `EdgeSelection.OverviewEdgesStrongest` | frontend/src/app/components/attention-visualizer/attention-visualizer.component.ts:247-286 | overview: strongest first, and no qualifying entry left out is stronger than a drawn edge |
| `EdgeSelection.FocusedOutgoingShape` | frontend/src/app/components/attention-visualizer/attention-visualizer.component.ts:291-315 | focused, outgoing: up to five highlighted edges leaving the focus to distinct tokens, each with its raw entry above 0.01 |
| `EdgeSelection.FocusedOutgoingStrongest` | frontend/src/app/components/attention-visualizer/attention-visualizer.component.ts:291-315 | focused, outgoing: strongest first, and no qualifying entry of the focus row left out is stronger |
| `EdgeSelection.FocusedIncomingShape` | frontend/src/app/components/attention-visualizer/attention-visualizer.component.ts:317-343 | focused, incoming: up to five highlighted edges into the focus from distinct tokens, each scored 0.6 times its raw entry above 0.01 |
| `EdgeSelection.FocusedIncomingStrongest` | frontend/src/app/components/attention-visualizer/attention-visualizer.component.ts:317-343 | focused, incoming: strongest first, and no qualifying entry of the focus column left out is, dimmed, stronger |
| `EdgeSelection.SinglePairOverview` | frontend/src/app/components/attention-visualizer/attention-visualizer.component.ts:247-286 | with one entry above 0.02 the overview draws exactly that edge |
| `EdgeSelection.SinglePairFocusSource` | frontend/src/app/components/attention-visualizer/attention-visualizer.component.ts:288-344 | focusing the source of the one strong entry draws it as the only, outgoing, edge |
| `EdgeSelection.SinglePairFocusTarget` | frontend/src/app/components/attention-visualizer/attention-visualizer.component.ts:288-344 | focusing the target draws it as the only, incoming, edge at 60% |
| `EdgeSelection.WeakPairOnlyWhenFocused` | frontend/src/app/components/attention-visualizer/attention-visualizer.component.ts:257-294 | a weight between 0.01 and 0.02 is absent from the overview but drawn when its source is focused |
| `Tooltip.Clamp` | frontend/src/app/components/attention-visualizer/attention-visualizer.component.ts:562 | `Math.max(lo, Math.min(v, hi))` lies in `[lo, hi]`, keeps values inside, and lets the lower bound win when the bounds cross |
| `Tooltip.ClampIdempotent` | frontend/src/app/components/attention-visualizer/attention-visualizer.component.ts:562 | clamping twice is clamping once |
| `Tooltip.TooltipInside` | frontend/src/app/components/attention-visualizer/attention-visualizer.component.ts:541-575 | on a canvas at least as large as the tooltip, the tooltip box lies inside it, and a pointer that already keeps it inside is stored unchanged |
| `Tooltip.TooltipOverflow` | frontend/src/app/components/attention-visualizer/attention-visualizer.component.ts:556-574 | on a canvas smaller than the tooltip, the box is pinned to the left or top edge |
| `Visualizer.TokenText` | frontend/src/app/components/attention-visualizer/attention-visualizer.component.ts:443-444 | the tooltip shows the token at the index, or the empty string when there is none |
| `Visualizer.Hover` | frontend/src/app/components/attention-visualizer/attention-visualizer.component.ts:402-408 | hovering changes nothing while locked, and otherwise sets the hovered token |
| `Visualizer.Click` | frontend/src/app/components/attention-visualizer/attention-visualizer.component.ts:410-421 | clicking the locked token clears lock and hover; clicking any other token sets both to it |
| `Visualizer.ClickTwiceUnlocks` | frontend/src/app/components/attention-visualizer/attention-visualizer.component.ts:410-421 | two clicks on the same unlocked token return to the overview |
| `Visualizer.LockedIgnoresHover` | frontend/src/app/components/attention-visualizer/attention-visualizer.component.ts:402-404 | while locked, hovering never moves the focus |
| `Visualizer.ClickFocus` | frontend/src/app/components/attention-visualizer/attention-visualizer.component.ts:410-423 | after a click the focus is the clicked token, unless the click unlocked it |
| `Visualizer.HoverOnly` | frontend/src/app/components/attention-visualizer/attention-visualizer.component.ts:448-455 | the edge at the index, and only it, carries the hover flag; nothing else changes |
| `Visualizer.HoverOnlyFixed` | frontend/src/app/components/attention-visualizer/attention-visualizer.component.ts:439 | re-hovering the edge that alone is hovered changes nothing |
| `Visualizer.Unhovered` | frontend/src/app/components/attention-visualizer/attention-visualizer.component.ts:486-494 | every hover flag is cleared and nothing else changes |
| `Visualizer.UnhoveredFixed` | frontend/src/app/components/attention-visualizer/attention-visualizer.component.ts:486-487 | with no edge hovered, clearing the flags changes nothing |
| `Visualizer.PlaceTokens` | frontend/src/app/components/attention-visualizer/attention-visualizer.component.ts:186-220 | the placement loop produces exactly the layout's positions, the last row, and the widest extent the cursor reached |
| `Visualizer.AttentionVisualizer.constructor` | frontend/src/app/components/attention-visualizer/attention-visualizer.component.ts:21-61 | the inputs and fields start at their declared defaults (10 per line, wrapping on, an 800 by 200 canvas, one row) |
| `Visualizer.AttentionVisualizer.BindInputs` | frontend/src/app/components/attention-visualizer/attention-visualizer.component.ts:21-27 | inputs named in a change take their new values; the others keep theirs |
| `Visualizer.AttentionVisualizer.NgOnChanges` | frontend/src/app/components/attention-visualizer/attention-visualizer.component.ts:130-142 | a layout input change lays out again and redraws, a focus change redraws; with no tokens and no focus change the canvas size and the whole hover record stay; with no change nothing does; stale tooltip texts are allowed on entry when a redraw follows |
| `Visualizer.AttentionVisualizer.ReceiveChanges` | frontend/src/app/components/attention-visualizer/attention-visualizer.component.ts:130-142 | all six inputs are bound as named; the component stays valid; a layout change lays the new tokens out (or, with none, empties positions and edges and keeps the canvas size); a focus-only change keeps the layout; any change shows the edges selected for the new inputs; no change keeps the edges and hover record |
| `Visualizer.AttentionVisualizer.PrepareVisualizationData` | frontend/src/app/components/attention-visualizer/attention-visualizer.component.ts:144-154 | with tokens: layout as prescribed, the selected edges drawn, no edge hovered; without: positions and edges emptied, canvas size, row count and all four hover-record fields unchanged |
| `Visualizer.AttentionVisualizer.CalculateTokenPositions` | frontend/src/app/components/attention-visualizer/attention-visualizer.component.ts:181-226 | positions as the layout prescribes; `numRows` is the last row plus one; the canvas is at least 400 by 200 and contains every token |
| `Visualizer.AttentionVisualizer.UpdateAttentionLines` | frontend/src/app/components/attention-visualizer/attention-visualizer.component.ts:228-245 | the edge-hover record is reset, and the edges drawn are exactly those selected for the current focus |
| `Visualizer.AttentionVisualizer.DrawSelectedEdges` | frontend/src/app/components/attention-visualizer/attention-visualizer.component.ts:232-244 | nothing without tokens; the overview without focus; the locked token's edges, else the hovered token's |
| `Visualizer.AttentionVisualizer.DrawAllAttentionLines` | frontend/src/app/components/attention-visualizer/attention-visualizer.component.ts:247-286 | the scan, sort and cut append exactly the overview edges |
| `Visualizer.AttentionVisualizer.DrawHoveredAttentionLines` | frontend/src/app/components/attention-visualizer/attention-visualizer.component.ts:288-344 | nothing when the matrix has no row for the focus; otherwise the outgoing edges, then the dimmed incoming edges |
| `Visualizer.AttentionVisualizer.CollectOutgoing` | frontend/src/app/components/attention-visualizer/attention-visualizer.component.ts:292-298 | the loop collects exactly the focus row's off-diagonal entries above 0.01 |
| `Visualizer.AttentionVisualizer.CollectIncoming` | frontend/src/app/components/attention-visualizer/attention-visualizer.component.ts:318-325 | the loop collects exactly the focus column's off-diagonal entries above 0.01 |
| `Visualizer.AttentionVisualizer.PushPaths` | frontend/src/app/components/attention-visualizer/attention-visualizer.component.ts:274-285 | the loop appends one drawn edge per selected pair, in order |
| `Visualizer.AttentionVisualizer.ResetPathHoverState` | frontend/src/app/components/attention-visualizer/attention-visualizer.component.ts:476-495 | the hover record and tooltip fields are emptied and every hover flag is cleared |
| `Visualizer.AttentionVisualizer.OnTokenHover` | frontend/src/app/components/attention-visualizer/attention-visualizer.component.ts:402-408 | ignored while a token is locked; otherwise the hovered token is set and the edges redrawn |
| `Visualizer.AttentionVisualizer.OnTokenClick` | frontend/src/app/components/attention-visualizer/attention-visualizer.component.ts:410-423 | lock or unlock as `Click` says, emit the new lock, redraw |
| `Visualizer.AttentionVisualizer.OnPathHover` | frontend/src/app/components/attention-visualizer/attention-visualizer.component.ts:426-457 | nothing unless locked; otherwise the pending timer is cancelled and an existing edge becomes the only hovered one, with the tooltip filled from it |
| `Visualizer.AttentionVisualizer.OnPathHoverEnd` | frontend/src/app/components/attention-visualizer/attention-visualizer.component.ts:463-473 | one hover-end timer is pending, replacing any earlier one |
| `Visualizer.AttentionVisualizer.FireHoverEndTimer` | frontend/src/app/components/attention-visualizer/attention-visualizer.component.ts:469-472 | on expiry all hover flags and tooltip fields are cleared and no timer is pending |
| `Visualizer.AttentionVisualizer.TrackMousePosition` | frontend/src/app/components/attention-visualizer/attention-visualizer.component.ts:541-575 | the anchor is the pointer clamped to `[-10, svgWidth - 210]` by `[-20, svgHeight - 80]`, so the tooltip lies on the canvas |
| `Visualizer.AttentionVisualizer.OnTokensPerLineChange` | frontend/src/app/components/attention-visualizer/attention-visualizer.component.ts:175-179 | the new per-line count is stored and the layout and edges recomputed; with no tokens, positions and edges are emptied and the canvas size, row count and hover record stay as they were |

## Left out

- Text measurement on a canvas (`measureText`, font setting): it becomes the parameter `measure`. The model does not fix any particular font metric.
- `parseInt` of the dropdown value: `OnTokensPerLineChange` takes the parsed integer. A value that does not parse (`NaN`) is not modelled.
- JavaScript number semantics: scores and coordinates are exact reals. Floating-point rounding, non-integer or `NaN` per-line counts and non-numeric matrix entries are not modelled.
- `null` or `undefined` inputs (`!this.tokens`, `!this.attentionMatrix`): inputs are always present lists. The empty list stands for the missing one where the code treats both alike.
- `console.log` of incoming scores: no observable state.
- The `tokenLockChange` event emitter's subscribers: only the sequence of emitted values (`lockChanges`) is kept.
- `setTimeout`/`clearTimeout` and the 50-unit delay: the pending timer is a flag, and its expiry is an explicit call (`FireHoverEndTimer`). Elapsed time is not modelled.
- Angular's own change detection: the order "bind inputs, then call `ngOnChanges`" is `ReceiveChanges`, which calls `BindInputs` and then `NgOnChanges`. Which inputs appear in one notification is the caller's choice (`Changes`).
- `refreshVisualization`: it only calls `prepareVisualizationData` and is covered by `PrepareVisualizationData`.
- `formatScore`, `getStrokeColor`, `getPathClasses`, `getMaxValue`, the `tokenYBase`/`rowHeight` getters and the styling constants: presentation only.
- The template, the other components, the HTTP service and the back end: outside this component.
- The loops of `drawHoveredAttentionLines` are split into the methods `CollectOutgoing`, `CollectIncoming` and `PushPaths`. The loop that appends each selected edge is shared by both modes as `PushPaths`. This is a structural split; the behaviour is unchanged.
- The edge list is a sequence field that methods reassign. The in-place `push` onto the array is not modelled as aliasing of a shared array.
