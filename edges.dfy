/**
 * The edge selector: which attention edges are drawn. In overview mode every
 * off-diagonal matrix entry above 0.02 is a candidate and the five strongest
 * are drawn plainly; in focused mode the five strongest entries of the focus
 * token's row above 0.01 are drawn as outgoing edges, followed by the five
 * strongest entries of its column above 0.01, dimmed to 60%, as incoming edges.
 */
module EdgeSelection {
  import opened Options
  import opened Layout
  import opened Curves
  import opened Ranking

  const ALL_ATTENTION_THRESHOLD: real := 0.02
  const FOCUSED_ATTENTION_THRESHOLD: real := 0.01
  const INCOMING_ATTENTION_DIMMING: real := 0.6

  /** The `isOutgoing` flag of a path: absent (overview), true or false. */
  datatype Role = General | Outgoing | Incoming

  /** One drawn edge. */
  datatype AttentionPath = AttentionPath(path: Path, score: real, isHighlighted: bool,
                                         fromIndex: nat, toIndex: nat, isHovered: bool, role: Role)

  /** Row-major scan order of matrix entries. */
  predicate Before(p: Pair, q: Pair)
  {
    p.fromIndex < q.fromIndex || (p.fromIndex == q.fromIndex && p.toIndex < q.toIndex)
  }

  /** The candidates among the first `n` entries of row `from`: off-diagonal entries
      above `threshold`, in column order. */
  function RowPairs(from: nat, row: seq<real>, n: nat, threshold: real): (ps: seq<Pair>)
    requires n <= |row|
    ensures forall k :: 0 <= k < |ps| ==> ps[k].fromIndex == from && ps[k].toIndex < n
  {
    if n == 0 then []
    else
      RowPairs(from, row, n - 1, threshold) +
      (if row[n - 1] > threshold && from != n - 1 then [Pair(from, n - 1, row[n - 1])] else [])
  }

  /** The candidates among the first `n` rows of the matrix, in row-major order. */
  function MatrixPairs(m: seq<seq<real>>, n: nat, threshold: real): (ps: seq<Pair>)
    requires n <= |m|
    ensures forall k :: 0 <= k < |ps| ==> ps[k].fromIndex < n
  {
    if n == 0 then []
    else MatrixPairs(m, n - 1, threshold) + RowPairs(n - 1, m[n - 1], |m[n - 1]|, threshold)
  }

  /** The candidates in column `to` among the first `n` rows, in row order. A row too
      short to have that column contributes nothing. */
  function ColumnPairs(m: seq<seq<real>>, to: nat, n: nat, threshold: real): (ps: seq<Pair>)
    requires n <= |m|
    ensures forall k :: 0 <= k < |ps| ==> ps[k].toIndex == to && ps[k].fromIndex < n
  {
    if n == 0 then []
    else
      ColumnPairs(m, to, n - 1, threshold) +
      (if to < |m[n - 1]| && m[n - 1][to] > threshold && n - 1 != to then [Pair(n - 1, to, m[n - 1][to])] else [])
  }

  /** A row scan yields exactly the row's off-diagonal entries above the threshold,
      each once, in increasing column order. */
  lemma RowPairsMembers(from: nat, row: seq<real>, n: nat, threshold: real)
    requires n <= |row|
    ensures var ps := RowPairs(from, row, n, threshold);
            && (forall p :: p in ps <==>
                  p.fromIndex == from && p.toIndex < n && p.toIndex != from &&
                  row[p.toIndex] > threshold && p.score == row[p.toIndex])
            && (forall a, b :: 0 <= a < b < |ps| ==> ps[a].toIndex < ps[b].toIndex)
  {
    forall p: Pair
      ensures p in RowPairs(from, row, n, threshold) <==>
              p.fromIndex == from && p.toIndex < n && p.toIndex != from &&
              row[p.toIndex] > threshold && p.score == row[p.toIndex]
    {
      RowPairsInAt(from, row, n, threshold, p);
    }
    RowPairsOrdered(from, row, n, threshold);
  }

  lemma {:induction false} RowPairsInAt(from: nat, row: seq<real>, n: nat, threshold: real, p: Pair)
    requires n <= |row|
    ensures p in RowPairs(from, row, n, threshold) <==>
            p.fromIndex == from && p.toIndex < n && p.toIndex != from &&
            row[p.toIndex] > threshold && p.score == row[p.toIndex]
  {
    if n > 0 {
      RowPairsInAt(from, row, n - 1, threshold, p);
    }
  }

  lemma {:induction false} RowPairsOrdered(from: nat, row: seq<real>, n: nat, threshold: real)
    requires n <= |row|
    ensures forall a, b :: 0 <= a < b < |RowPairs(from, row, n, threshold)| ==>
              RowPairs(from, row, n, threshold)[a].toIndex < RowPairs(from, row, n, threshold)[b].toIndex
  {
    if n > 0 {
      RowPairsOrdered(from, row, n - 1, threshold);
      var prefix := RowPairs(from, row, n - 1, threshold);
      var ps := RowPairs(from, row, n, threshold);
      forall a, b | 0 <= a < b < |ps|
        ensures ps[a].toIndex < ps[b].toIndex
      {
        assert ps[a] == prefix[a];
        if b < |prefix| {
          assert ps[b] == prefix[b];
        }
      }
    }
  }

  /** The matrix scan yields exactly the off-diagonal entries above the threshold,
      each once, in row-major order. */
  lemma MatrixPairsMembers(m: seq<seq<real>>, n: nat, threshold: real)
    requires n <= |m|
    ensures var ps := MatrixPairs(m, n, threshold);
            && (forall p :: p in ps <==>
                  p.fromIndex < n && p.toIndex < |m[p.fromIndex]| && p.fromIndex != p.toIndex &&
                  m[p.fromIndex][p.toIndex] > threshold && p.score == m[p.fromIndex][p.toIndex])
            && (forall a, b :: 0 <= a < b < |ps| ==> Before(ps[a], ps[b]))
  {
    MatrixPairsIn(m, n, threshold);
    MatrixPairsOrdered(m, n, threshold);
  }

  lemma MatrixPairsIn(m: seq<seq<real>>, n: nat, threshold: real)
    requires n <= |m|
    ensures forall p :: p in MatrixPairs(m, n, threshold) <==>
              p.fromIndex < n && p.toIndex < |m[p.fromIndex]| && p.fromIndex != p.toIndex &&
              m[p.fromIndex][p.toIndex] > threshold && p.score == m[p.fromIndex][p.toIndex]
  {
    forall p: Pair
      ensures p in MatrixPairs(m, n, threshold) <==>
              p.fromIndex < n && p.toIndex < |m[p.fromIndex]| && p.fromIndex != p.toIndex &&
              m[p.fromIndex][p.toIndex] > threshold && p.score == m[p.fromIndex][p.toIndex]
    {
      MatrixPairsInAt(m, n, threshold, p);
    }
  }

  lemma {:induction false} MatrixPairsInAt(m: seq<seq<real>>, n: nat, threshold: real, p: Pair)
    requires n <= |m|
    ensures p in MatrixPairs(m, n, threshold) <==>
            p.fromIndex < n && p.toIndex < |m[p.fromIndex]| && p.fromIndex != p.toIndex &&
            m[p.fromIndex][p.toIndex] > threshold && p.score == m[p.fromIndex][p.toIndex]
  {
    if n > 0 {
      MatrixPairsInAt(m, n - 1, threshold, p);
      RowPairsInAt(n - 1, m[n - 1], |m[n - 1]|, threshold, p);
    }
  }

  lemma {:induction false} MatrixPairsOrdered(m: seq<seq<real>>, n: nat, threshold: real)
    requires n <= |m|
    ensures forall a, b :: 0 <= a < b < |MatrixPairs(m, n, threshold)| ==>
              Before(MatrixPairs(m, n, threshold)[a], MatrixPairs(m, n, threshold)[b])
  {
    if n > 0 {
      MatrixPairsOrdered(m, n - 1, threshold);
      RowPairsOrdered(n - 1, m[n - 1], |m[n - 1]|, threshold);
      OrderedConcat(MatrixPairs(m, n - 1, threshold), RowPairs(n - 1, m[n - 1], |m[n - 1]|, threshold), n - 1);
    }
  }

  /** Pairs from earlier rows in scan order, followed by one row's pairs in column
      order, are in scan order. */
  lemma OrderedConcat(prefix: seq<Pair>, last: seq<Pair>, row: nat)
    requires forall a, b :: 0 <= a < b < |prefix| ==> Before(prefix[a], prefix[b])
    requires forall a :: 0 <= a < |prefix| ==> prefix[a].fromIndex < row
    requires forall b :: 0 <= b < |last| ==> last[b].fromIndex == row
    requires forall a, b :: 0 <= a < b < |last| ==> last[a].toIndex < last[b].toIndex
    ensures forall a, b :: 0 <= a < b < |prefix + last| ==> Before((prefix + last)[a], (prefix + last)[b])
  {
    var ps := prefix + last;
    forall a, b | 0 <= a < b < |ps|
      ensures Before(ps[a], ps[b])
    {
      if b < |prefix| {
        assert ps[a] == prefix[a] && ps[b] == prefix[b];
      } else if a >= |prefix| {
        assert ps[a] == last[a - |prefix|] && ps[b] == last[b - |prefix|];
      } else {
        assert ps[a] == prefix[a] && ps[b] == last[b - |prefix|];
      }
    }
  }

  /** Every qualifying entry is a candidate of the full matrix scan. */
  lemma MatrixPairsHas(m: seq<seq<real>>, i: nat, j: nat, threshold: real)
    requires i < |m| && j < |m[i]| && i != j && m[i][j] > threshold
    ensures Pair(i, j, m[i][j]) in MatrixPairs(m, |m|, threshold)
  {
    MatrixPairsInAt(m, |m|, threshold, Pair(i, j, m[i][j]));
  }

  /** Every qualifying entry of a row is a candidate of the full row scan. */
  lemma RowPairsHas(from: nat, row: seq<real>, j: nat, threshold: real)
    requires j < |row| && j != from && row[j] > threshold
    ensures Pair(from, j, row[j]) in RowPairs(from, row, |row|, threshold)
  {
    RowPairsInAt(from, row, |row|, threshold, Pair(from, j, row[j]));
  }

  /** A column scan yields exactly the column's off-diagonal entries above the
      threshold, each once, in increasing row order. */
  lemma ColumnPairsMembers(m: seq<seq<real>>, to: nat, n: nat, threshold: real)
    requires n <= |m|
    ensures var ps := ColumnPairs(m, to, n, threshold);
            && (forall p :: p in ps <==>
                  p.toIndex == to && p.fromIndex < n && to < |m[p.fromIndex]| && p.fromIndex != to &&
                  m[p.fromIndex][to] > threshold && p.score == m[p.fromIndex][to])
            && (forall a, b :: 0 <= a < b < |ps| ==> ps[a].fromIndex < ps[b].fromIndex)
  {
    forall p: Pair
      ensures p in ColumnPairs(m, to, n, threshold) <==>
              p.toIndex == to && p.fromIndex < n && to < |m[p.fromIndex]| && p.fromIndex != to &&
              m[p.fromIndex][to] > threshold && p.score == m[p.fromIndex][to]
    {
      ColumnPairsInAt(m, to, n, threshold, p);
    }
    ColumnPairsOrdered(m, to, n, threshold);
  }

  lemma {:induction false} ColumnPairsInAt(m: seq<seq<real>>, to: nat, n: nat, threshold: real, p: Pair)
    requires n <= |m|
    ensures p in ColumnPairs(m, to, n, threshold) <==>
            p.toIndex == to && p.fromIndex < n && to < |m[p.fromIndex]| && p.fromIndex != to &&
            m[p.fromIndex][to] > threshold && p.score == m[p.fromIndex][to]
  {
    if n > 0 {
      ColumnPairsInAt(m, to, n - 1, threshold, p);
    }
  }

  lemma {:induction false} ColumnPairsOrdered(m: seq<seq<real>>, to: nat, n: nat, threshold: real)
    requires n <= |m|
    ensures forall a, b :: 0 <= a < b < |ColumnPairs(m, to, n, threshold)| ==>
              ColumnPairs(m, to, n, threshold)[a].fromIndex < ColumnPairs(m, to, n, threshold)[b].fromIndex
  {
    if n > 0 {
      ColumnPairsOrdered(m, to, n - 1, threshold);
      var prefix := ColumnPairs(m, to, n - 1, threshold);
      var ps := ColumnPairs(m, to, n, threshold);
      forall a, b | 0 <= a < b < |ps|
        ensures ps[a].fromIndex < ps[b].fromIndex
      {
        assert ps[a] == prefix[a];
        if b < |prefix| {
          assert ps[b] == prefix[b];
        }
      }
    }
  }

  /** Every qualifying entry of a column is a candidate of the full column scan. */
  lemma ColumnPairsHas(m: seq<seq<real>>, to: nat, i: nat, threshold: real)
    requires i < |m| && to < |m[i]| && i != to && m[i][to] > threshold
    ensures Pair(i, to, m[i][to]) in ColumnPairs(m, to, |m|, threshold)
  {
    ColumnPairsInAt(m, to, |m|, threshold, Pair(i, to, m[i][to]));
  }

  /** The score an edge of the given role carries for a raw weight: incoming edges are
      dimmed to 60%, all others keep the raw weight. */
  function Weight(role: Role, score: real): (w: real)
    ensures role != Incoming ==> w == score
    ensures role == Incoming && score > 0.0 ==> 0.0 < w < score
    ensures role == Incoming && score <= 0.0 ==> score <= w <= 0.0
  {
    if role == Incoming then score * INCOMING_ATTENTION_DIMMING else score
  }

  /** The drawn edge for one selected pair, its score weighted by its role. */
  function ToPath(pair: Pair, positions: seq<TokenPosition>, highlighted: bool, role: Role): AttentionPath
  {
    AttentionPath(CurvedPath(positions, pair.fromIndex, pair.toIndex), Weight(role, pair.score),
                  highlighted, pair.fromIndex, pair.toIndex, false, role)
  }

  /** The drawn edges of the selected pairs, appended one by one in selection order:
      each joins its pair's tokens, carries its score weighted by the role, the given
      highlight and role, and is not hovered. */
  function ToPaths(pairs: seq<Pair>, positions: seq<TokenPosition>, highlighted: bool, role: Role): (es: seq<AttentionPath>)
    ensures |es| == |pairs|
    ensures forall k :: 0 <= k < |es| ==>
              && es[k].fromIndex == pairs[k].fromIndex && es[k].toIndex == pairs[k].toIndex
              && es[k].score == Weight(role, pairs[k].score)
              && es[k].isHighlighted == highlighted && !es[k].isHovered && es[k].role == role
    decreases |pairs|
  {
    if pairs == [] then []
    else
      ToPaths(pairs[..|pairs| - 1], positions, highlighted, role) +
      [ToPath(pairs[|pairs| - 1], positions, highlighted, role)]
  }

  /** Each drawn edge follows the curve between its pair's tokens. */
  lemma {:induction false} ToPathsCurves(pairs: seq<Pair>, positions: seq<TokenPosition>, highlighted: bool, role: Role)
    ensures var es := ToPaths(pairs, positions, highlighted, role);
            forall k :: 0 <= k < |es| ==> es[k].path == CurvedPath(positions, pairs[k].fromIndex, pairs[k].toIndex)
    decreases |pairs|
  {
    if pairs != [] {
      ToPathsCurves(pairs[..|pairs| - 1], positions, highlighted, role);
    }
  }

  function OverviewPaths(m: seq<seq<real>>, positions: seq<TokenPosition>): (es: seq<AttentionPath>)
    ensures |es| <= TOP_ATTENTION_LIMIT
    ensures forall k :: 0 <= k < |es| ==> !es[k].isHighlighted && !es[k].isHovered && es[k].role == General
  {
    ToPaths(Select(MatrixPairs(m, |m|, ALL_ATTENTION_THRESHOLD)), positions, false, General)
  }

  function OutgoingCandidates(m: seq<seq<real>>, focus: nat): seq<Pair>
    requires focus < |m|
  {
    RowPairs(focus, m[focus], |m[focus]|, FOCUSED_ATTENTION_THRESHOLD)
  }

  function IncomingCandidates(m: seq<seq<real>>, focus: nat): seq<Pair>
  {
    ColumnPairs(m, focus, |m|, FOCUSED_ATTENTION_THRESHOLD)
  }

  function OutgoingPaths(m: seq<seq<real>>, positions: seq<TokenPosition>, focus: nat): seq<AttentionPath>
    requires focus < |m|
  {
    ToPaths(Select(OutgoingCandidates(m, focus)), positions, true, Outgoing)
  }

  function IncomingPaths(m: seq<seq<real>>, positions: seq<TokenPosition>, focus: nat): seq<AttentionPath>
  {
    ToPaths(Select(IncomingCandidates(m, focus)), positions, true, Incoming)
  }

  /** Focused mode: nothing when the matrix has no row for the focus; otherwise the
      outgoing edges followed by the dimmed incoming edges, never re-ranked together. */
  function FocusedPaths(m: seq<seq<real>>, positions: seq<TokenPosition>, focus: int): (es: seq<AttentionPath>)
    ensures !(0 <= focus < |m|) ==> es == []
    ensures |es| <= 2 * TOP_ATTENTION_LIMIT
    ensures forall k :: 0 <= k < |es| ==> es[k].isHighlighted && !es[k].isHovered && es[k].role != General
    ensures forall a, b :: 0 <= a < b < |es| && es[b].role == Outgoing ==> es[a].role == Outgoing
  {
    if 0 <= focus < |m| then OutgoingPaths(m, positions, focus) + IncomingPaths(m, positions, focus)
    else []
  }

  /** The token whose attention is shown: the locked one, else the hovered one. */
  function Focus(hovered: Option<int>, locked: Option<int>): (f: Option<int>)
    ensures f.None? <==> hovered.None? && locked.None?
    ensures locked.Some? ==> f == locked
    ensures locked.None? ==> f == hovered
  {
    if locked.Some? then locked else hovered
  }

  /** The edges drawn for the current data and focus. */
  function SelectEdges(m: seq<seq<real>>, positions: seq<TokenPosition>, hovered: Option<int>, locked: Option<int>): (es: seq<AttentionPath>)
    ensures positions == [] ==> es == []
    ensures forall k :: 0 <= k < |es| ==> !es[k].isHovered
  {
    if |positions| == 0 then []
    else match Focus(hovered, locked)
      case None => OverviewPaths(m, positions)
      case Some(f) => FocusedPaths(m, positions, f)
  }

  /** Whether some edge of `es` goes from `i` to `j`. */
  predicate Emitted(es: seq<AttentionPath>, i: nat, j: nat)
  {
    exists k :: 0 <= k < |es| && es[k].fromIndex == i && es[k].toIndex == j
  }

  predicate ScoresNonIncreasing(es: seq<AttentionPath>)
  {
    forall a, b :: 0 <= a < b < |es| ==> es[a].score >= es[b].score
  }

  lemma SelectedFromCandidates(cands: seq<Pair>, k: nat)
    requires k < |Select(cands)|
    ensures Select(cands)[k] in cands
  {
    SelectKeepsBest(cands);
    var x := Select(cands)[k];
    assert x in multiset(Select(cands));
  }

  /** Drawing one more pair appends its edge. */
  lemma ToPathsSnoc(pairs: seq<Pair>, x: Pair, positions: seq<TokenPosition>, highlighted: bool, role: Role)
    ensures ToPaths(pairs + [x], positions, highlighted, role) ==
            ToPaths(pairs, positions, highlighted, role) + [ToPath(x, positions, highlighted, role)]
  {
    assert (pairs + [x])[..|pairs|] == pairs;
  }

  /** Drawing one more pair of a selection appends its edge to those already drawn. */
  lemma ToPathsPrefix(pairs: seq<Pair>, k: nat, positions: seq<TokenPosition>, highlighted: bool, role: Role)
    requires k < |pairs|
    ensures ToPaths(pairs[..k + 1], positions, highlighted, role) ==
            ToPaths(pairs[..k], positions, highlighted, role) + [ToPath(pairs[k], positions, highlighted, role)]
  {
    assert pairs[..k + 1] == pairs[..k] + [pairs[k]];
    ToPathsSnoc(pairs[..k], pairs[k], positions, highlighted, role);
  }

  /** The edges made from a selection: one per selected candidate, in selection
      order, with the candidate's endpoints and its score weighted by the role. */
  lemma SelectedEdgesFromCandidates(cands: seq<Pair>, positions: seq<TokenPosition>, highlighted: bool, role: Role)
    ensures var sel := Select(cands);
            var es := ToPaths(sel, positions, highlighted, role);
            && |es| == (if |cands| < TOP_ATTENTION_LIMIT then |cands| else TOP_ATTENTION_LIMIT)
            && forall k :: 0 <= k < |es| ==> sel[k] in cands && es[k].path == CurvedPath(positions, sel[k].fromIndex, sel[k].toIndex)
  {
    ToPathsCurves(Select(cands), positions, highlighted, role);
    forall k | 0 <= k < |Select(cands)|
      ensures Select(cands)[k] in cands
    {
      SelectedFromCandidates(cands, k);
    }
  }

  lemma EdgesKeepOrder(sel: seq<Pair>, positions: seq<TokenPosition>, highlighted: bool, role: Role)
    requires SortedDesc(sel)
    ensures ScoresNonIncreasing(ToPaths(sel, positions, highlighted, role))
  {
  }

  lemma EdgesAtLeast(sel: seq<Pair>, positions: seq<TokenPosition>, highlighted: bool, role: Role, bound: real)
    requires forall k :: 0 <= k < |sel| ==> sel[k].score >= bound
    ensures forall k :: 0 <= k < |sel| ==> ToPaths(sel, positions, highlighted, role)[k].score >= Weight(role, bound)
  {
  }

  /** Weighting by the role keeps the selection's order: edge scores are
      non-increasing, and no candidate left out scores, once weighted, above any edge kept. */
  lemma SelectedEdgesRanked(cands: seq<Pair>, positions: seq<TokenPosition>, highlighted: bool, role: Role)
    ensures var sel := Select(cands);
            var es := ToPaths(sel, positions, highlighted, role);
            && ScoresNonIncreasing(es)
            && forall x :: x in cands && x !in sel ==> forall k :: 0 <= k < |es| ==> es[k].score >= Weight(role, x.score)
  {
    var sel := Select(cands);
    EdgesKeepOrder(sel, positions, highlighted, role);
    forall x | x in cands && x !in sel
      ensures forall k :: 0 <= k < |sel| ==> ToPaths(sel, positions, highlighted, role)[k].score >= Weight(role, x.score)
    {
      forall k | 0 <= k < |sel|
        ensures sel[k].score >= x.score
      {
        SelectMaximal(cands, x, sel[k]);
      }
      EdgesAtLeast(sel, positions, highlighted, role, x.score);
    }
  }

  /** Scans meet every token pair at most once. */
  lemma ScansDistinct(m: seq<seq<real>>, focus: nat)
    ensures DistinctKeys(MatrixPairs(m, |m|, ALL_ATTENTION_THRESHOLD))
    ensures DistinctKeys(IncomingCandidates(m, focus))
    ensures focus < |m| ==> DistinctKeys(OutgoingCandidates(m, focus))
  {
    var all := MatrixPairs(m, |m|, ALL_ATTENTION_THRESHOLD);
    MatrixPairsOrdered(m, |m|, ALL_ATTENTION_THRESHOLD);
    forall a, b | 0 <= a < b < |all|
      ensures !SameTokens(all[a], all[b])
    {
      assert Before(all[a], all[b]);
    }
    ColumnPairsOrdered(m, focus, |m|, FOCUSED_ATTENTION_THRESHOLD);
    if focus < |m| {
      RowPairsOrdered(focus, m[focus], |m[focus]|, FOCUSED_ATTENTION_THRESHOLD);
    }
  }

  /** Edges drawn from candidates for distinct token pairs join distinct token pairs. */
  lemma SelectedEdgesDistinct(cands: seq<Pair>, positions: seq<TokenPosition>, highlighted: bool, role: Role)
    requires DistinctKeys(cands)
    ensures var es := ToPaths(Select(cands), positions, highlighted, role);
            forall a, b :: 0 <= a < b < |es| ==> (es[a].fromIndex, es[a].toIndex) != (es[b].fromIndex, es[b].toIndex)
  {
    SelectDistinct(cands);
  }

  /** Overview mode, the edges themselves: as many as there are qualifying entries, up
      to five; no self-loops; each carries its raw matrix entry, which is above 0.02,
      is drawn plain along the curve between its tokens. */
  lemma OverviewEdgeShape(m: seq<seq<real>>, positions: seq<TokenPosition>)
    ensures var es := OverviewPaths(m, positions);
            var cands := MatrixPairs(m, |m|, ALL_ATTENTION_THRESHOLD);
            && |es| == (if |cands| < TOP_ATTENTION_LIMIT then |cands| else TOP_ATTENTION_LIMIT)
            && (forall k :: 0 <= k < |es| ==>
                 && es[k].fromIndex != es[k].toIndex
                 && es[k].fromIndex < |m| && es[k].toIndex < |m[es[k].fromIndex]|
                 && es[k].score == m[es[k].fromIndex][es[k].toIndex] > ALL_ATTENTION_THRESHOLD
                 && !es[k].isHighlighted && !es[k].isHovered && es[k].role == General
                 && es[k].path == CurvedPath(positions, es[k].fromIndex, es[k].toIndex))
            && forall a, b :: 0 <= a < b < |es| ==> (es[a].fromIndex, es[a].toIndex) != (es[b].fromIndex, es[b].toIndex)
  {
    var cands := MatrixPairs(m, |m|, ALL_ATTENTION_THRESHOLD);
    MatrixPairsMembers(m, |m|, ALL_ATTENTION_THRESHOLD);
    SelectedEdgesFromCandidates(cands, positions, false, General);
    ScansDistinct(m, 0);
    SelectedEdgesDistinct(cands, positions, false, General);
  }

  lemma SelectedIsEmitted(sel: seq<Pair>, positions: seq<TokenPosition>, highlighted: bool, role: Role, x: Pair)
    requires x in sel
    ensures Emitted(ToPaths(sel, positions, highlighted, role), x.fromIndex, x.toIndex)
  {
    var k :| 0 <= k < |sel| && sel[k] == x;
    assert ToPaths(sel, positions, highlighted, role)[k].fromIndex == x.fromIndex;
  }

  /** A candidate that has no drawn edge scores, once scaled, at most every drawn edge. */
  lemma LeftOutBelow(cands: seq<Pair>, positions: seq<TokenPosition>, highlighted: bool, role: Role, x: Pair)
    requires x in cands
    requires !Emitted(ToPaths(Select(cands), positions, highlighted, role), x.fromIndex, x.toIndex)
    ensures var es := ToPaths(Select(cands), positions, highlighted, role);
            forall k :: 0 <= k < |es| ==> es[k].score >= Weight(role, x.score)
  {
    var sel := Select(cands);
    if x in sel {
      SelectedIsEmitted(sel, positions, highlighted, role, x);
    } else {
      NotSelectedBelow(cands, x);
      EdgesAtLeast(sel, positions, highlighted, role, x.score);
    }
  }

  lemma NotSelectedBelow(cands: seq<Pair>, x: Pair)
    requires x in cands && x !in Select(cands)
    ensures forall k :: 0 <= k < |Select(cands)| ==> Select(cands)[k].score >= x.score
  {
    var sel := Select(cands);
    forall k | 0 <= k < |sel|
      ensures sel[k].score >= x.score
    {
      SelectMaximal(cands, x, sel[k]);
    }
  }

  /** Overview mode, the ranking: strongest first, and no qualifying entry that was
      left out is stronger than any edge that was drawn. */
  lemma OverviewEdgesStrongest(m: seq<seq<real>>, positions: seq<TokenPosition>)
    ensures var es := OverviewPaths(m, positions);
            && ScoresNonIncreasing(es)
            && forall i: nat, j: nat ::
                 i < |m| && j < |m[i]| && i != j && m[i][j] > ALL_ATTENTION_THRESHOLD && !Emitted(es, i, j) ==>
                 forall k :: 0 <= k < |es| ==> es[k].score >= m[i][j]
  {
    var cands := MatrixPairs(m, |m|, ALL_ATTENTION_THRESHOLD);
    EdgesKeepOrder(Select(cands), positions, false, General);
    var es := OverviewPaths(m, positions);
    forall i: nat, j: nat | i < |m| && j < |m[i]| && i != j && m[i][j] > ALL_ATTENTION_THRESHOLD && !Emitted(es, i, j)
      ensures forall k :: 0 <= k < |es| ==> es[k].score >= m[i][j]
    {
      OverviewLeftOut(m, positions, i, j);
    }
  }

  /** One qualifying matrix entry that has no drawn edge in the overview. */
  lemma OverviewLeftOut(m: seq<seq<real>>, positions: seq<TokenPosition>, i: nat, j: nat)
    requires i < |m| && j < |m[i]| && i != j && m[i][j] > ALL_ATTENTION_THRESHOLD
    requires !Emitted(OverviewPaths(m, positions), i, j)
    ensures var es := OverviewPaths(m, positions);
            forall k :: 0 <= k < |es| ==> es[k].score >= m[i][j]
  {
    MatrixPairsHas(m, i, j, ALL_ATTENTION_THRESHOLD);
    LeftOutBelow(MatrixPairs(m, |m|, ALL_ATTENTION_THRESHOLD), positions, false, General, Pair(i, j, m[i][j]));
  }

  /** Focused mode, outgoing edges: as many as the focus row has qualifying entries, up
      to five; each leaves the focus for another token, carries its raw entry, which is
      above 0.01, and is highlighted. */
  lemma FocusedOutgoingShape(m: seq<seq<real>>, positions: seq<TokenPosition>, focus: nat)
    requires focus < |m|
    ensures var es := OutgoingPaths(m, positions, focus);
            var cands := OutgoingCandidates(m, focus);
            && |es| == (if |cands| < TOP_ATTENTION_LIMIT then |cands| else TOP_ATTENTION_LIMIT)
            && (forall k :: 0 <= k < |es| ==>
                 && es[k].fromIndex == focus && es[k].toIndex != focus && es[k].toIndex < |m[focus]|
                 && es[k].score == m[focus][es[k].toIndex] > FOCUSED_ATTENTION_THRESHOLD
                 && es[k].isHighlighted && !es[k].isHovered && es[k].role == Outgoing
                 && es[k].path == CurvedPath(positions, focus, es[k].toIndex))
            && forall a, b :: 0 <= a < b < |es| ==> (es[a].fromIndex, es[a].toIndex) != (es[b].fromIndex, es[b].toIndex)
  {
    RowPairsMembers(focus, m[focus], |m[focus]|, FOCUSED_ATTENTION_THRESHOLD);
    SelectedEdgesFromCandidates(OutgoingCandidates(m, focus), positions, true, Outgoing);
    ScansDistinct(m, focus);
    SelectedEdgesDistinct(OutgoingCandidates(m, focus), positions, true, Outgoing);
  }

  /** Focused mode, outgoing ranking: strongest first, and no qualifying entry of the
      focus row that was left out is stronger than any edge drawn. */
  lemma FocusedOutgoingStrongest(m: seq<seq<real>>, positions: seq<TokenPosition>, focus: nat)
    requires focus < |m|
    ensures var es := OutgoingPaths(m, positions, focus);
            && ScoresNonIncreasing(es)
            && forall j: nat ::
                 j < |m[focus]| && j != focus && m[focus][j] > FOCUSED_ATTENTION_THRESHOLD && !Emitted(es, focus, j) ==>
                 forall k :: 0 <= k < |es| ==> es[k].score >= m[focus][j]
  {
    var cands := OutgoingCandidates(m, focus);
    EdgesKeepOrder(Select(cands), positions, true, Outgoing);
    var es := OutgoingPaths(m, positions, focus);
    forall j: nat | j < |m[focus]| && j != focus && m[focus][j] > FOCUSED_ATTENTION_THRESHOLD && !Emitted(es, focus, j)
      ensures forall k :: 0 <= k < |es| ==> es[k].score >= m[focus][j]
    {
      OutgoingLeftOut(m, positions, focus, j);
    }
  }

  /** One qualifying entry of the focus row that has no drawn edge. */
  lemma OutgoingLeftOut(m: seq<seq<real>>, positions: seq<TokenPosition>, focus: nat, j: nat)
    requires focus < |m| && j < |m[focus]| && j != focus && m[focus][j] > FOCUSED_ATTENTION_THRESHOLD
    requires !Emitted(OutgoingPaths(m, positions, focus), focus, j)
    ensures var es := OutgoingPaths(m, positions, focus);
            forall k :: 0 <= k < |es| ==> es[k].score >= m[focus][j]
  {
    var x := Pair(focus, j, m[focus][j]);
    RowPairsHas(focus, m[focus], j, FOCUSED_ATTENTION_THRESHOLD);
    LeftOutBelow(OutgoingCandidates(m, focus), positions, true, Outgoing, x);
  }

  /** Focused mode, incoming edges: as many as the focus column has qualifying entries,
      up to five; each comes from another token into the focus, is highlighted, and
      carries 0.6 times its raw entry (which is above 0.01), so always less than the
      raw weight. */
  lemma FocusedIncomingShape(m: seq<seq<real>>, positions: seq<TokenPosition>, focus: nat)
    ensures var es := IncomingPaths(m, positions, focus);
            var cands := IncomingCandidates(m, focus);
            && |es| == (if |cands| < TOP_ATTENTION_LIMIT then |cands| else TOP_ATTENTION_LIMIT)
            && (forall k :: 0 <= k < |es| ==>
                 && es[k].toIndex == focus && es[k].fromIndex != focus && es[k].fromIndex < |m|
                 && focus < |m[es[k].fromIndex]| && m[es[k].fromIndex][focus] > FOCUSED_ATTENTION_THRESHOLD
                 && es[k].score == m[es[k].fromIndex][focus] * INCOMING_ATTENTION_DIMMING
                 && es[k].score < m[es[k].fromIndex][focus]
                 && es[k].isHighlighted && !es[k].isHovered && es[k].role == Incoming
                 && es[k].path == CurvedPath(positions, es[k].fromIndex, focus))
            && forall a, b :: 0 <= a < b < |es| ==> (es[a].fromIndex, es[a].toIndex) != (es[b].fromIndex, es[b].toIndex)
  {
    ColumnPairsMembers(m, focus, |m|, FOCUSED_ATTENTION_THRESHOLD);
    SelectedEdgesFromCandidates(IncomingCandidates(m, focus), positions, true, Incoming);
    ScansDistinct(m, focus);
    SelectedEdgesDistinct(IncomingCandidates(m, focus), positions, true, Incoming);
  }

  /** Focused mode, incoming ranking: strongest first, and no qualifying entry of the
      focus column that was left out is, once dimmed, stronger than any edge drawn. */
  lemma FocusedIncomingStrongest(m: seq<seq<real>>, positions: seq<TokenPosition>, focus: nat)
    ensures var es := IncomingPaths(m, positions, focus);
            && ScoresNonIncreasing(es)
            && forall i: nat ::
                 i < |m| && focus < |m[i]| && i != focus && m[i][focus] > FOCUSED_ATTENTION_THRESHOLD && !Emitted(es, i, focus) ==>
                 forall k :: 0 <= k < |es| ==> es[k].score >= m[i][focus] * INCOMING_ATTENTION_DIMMING
  {
    var cands := IncomingCandidates(m, focus);
    EdgesKeepOrder(Select(cands), positions, true, Incoming);
    var es := IncomingPaths(m, positions, focus);
    forall i: nat | i < |m| && focus < |m[i]| && i != focus && m[i][focus] > FOCUSED_ATTENTION_THRESHOLD && !Emitted(es, i, focus)
      ensures forall k :: 0 <= k < |es| ==> es[k].score >= m[i][focus] * INCOMING_ATTENTION_DIMMING
    {
      IncomingLeftOut(m, positions, focus, i);
    }
  }

  /** One qualifying entry of the focus column that has no drawn edge. */
  lemma IncomingLeftOut(m: seq<seq<real>>, positions: seq<TokenPosition>, focus: nat, i: nat)
    requires i < |m| && focus < |m[i]| && i != focus && m[i][focus] > FOCUSED_ATTENTION_THRESHOLD
    requires !Emitted(IncomingPaths(m, positions, focus), i, focus)
    ensures var es := IncomingPaths(m, positions, focus);
            forall k :: 0 <= k < |es| ==> es[k].score >= m[i][focus] * INCOMING_ATTENTION_DIMMING
  {
    var x := Pair(i, focus, m[i][focus]);
    ColumnPairsHas(m, focus, i, FOCUSED_ATTENTION_THRESHOLD);
    LeftOutBelow(IncomingCandidates(m, focus), positions, true, Incoming, x);
  }

  /** A scan whose only qualifying entry is `x`, without repeats, is exactly `[x]`. */
  lemma OnlyCandidate(ps: seq<Pair>, x: Pair)
    requires forall p :: p in ps <==> p == x
    requires forall a, b :: 0 <= a < b < |ps| ==> ps[a] != ps[b]
    ensures ps == [x]
  {
    forall k | 0 <= k < |ps|
      ensures ps[k] == x
    {
      assert ps[k] in ps;
    }
    assert x in ps;
    assert ps[0] == ps[|ps| - 1];
  }

  /** A five-by-five matrix whose only non-zero entry is `w` at row 0, column 1. */
  function SinglePairMatrix(w: real): seq<seq<real>>
  {
    seq(5, i => seq(5, j => if i == 0 && j == 1 then w else 0.0))
  }

  lemma SinglePairEntries(w: real, i: nat, j: nat)
    requires i < 5 && j < 5
    ensures |SinglePairMatrix(w)| == 5 && |SinglePairMatrix(w)[i]| == 5
    ensures SinglePairMatrix(w)[i][j] == if i == 0 && j == 1 then w else 0.0
  {
  }

  /** A non-empty scan has a first member. */
  lemma FirstIsMember(ps: seq<Pair>)
    ensures ps != [] ==> ps[0] in ps
  {
  }

  /** Selecting from one candidate draws that candidate; from none, nothing. */
  lemma SingleSelection(x: Pair, positions: seq<TokenPosition>, highlighted: bool, role: Role)
    ensures ToPaths(Select([x]), positions, highlighted, role) == [ToPath(x, positions, highlighted, role)]
    ensures ToPaths(Select([]), positions, highlighted, role) == []
  {
    assert [x][..0] == [];
    assert Select([x]) == [x];
  }

  lemma SinglePairOverviewCandidates(w: real)
    ensures w > ALL_ATTENTION_THRESHOLD ==>
              MatrixPairs(SinglePairMatrix(w), 5, ALL_ATTENTION_THRESHOLD) == [Pair(0, 1, w)]
    ensures w <= ALL_ATTENTION_THRESHOLD ==>
              MatrixPairs(SinglePairMatrix(w), 5, ALL_ATTENTION_THRESHOLD) == []
  {
    var m := SinglePairMatrix(w);
    forall i: nat, j: nat | i < 5 && j < 5 {
      SinglePairEntries(w, i, j);
    }
    var ps := MatrixPairs(m, 5, ALL_ATTENTION_THRESHOLD);
    MatrixPairsIn(m, 5, ALL_ATTENTION_THRESHOLD);
    MatrixPairsOrdered(m, 5, ALL_ATTENTION_THRESHOLD);
    forall a, b | 0 <= a < b < |ps|
      ensures ps[a] != ps[b]
    {
      assert Before(ps[a], ps[b]);
    }
    if w > ALL_ATTENTION_THRESHOLD {
      OnlyCandidate(ps, Pair(0, 1, w));
    } else {
      FirstIsMember(ps);
    }
  }

  lemma SinglePairRowCandidates(w: real, focus: nat)
    requires w > FOCUSED_ATTENTION_THRESHOLD && focus < 5
    ensures focus == 0 ==> OutgoingCandidates(SinglePairMatrix(w), focus) == [Pair(0, 1, w)]
    ensures focus != 0 ==> OutgoingCandidates(SinglePairMatrix(w), focus) == []
  {
    var m := SinglePairMatrix(w);
    forall j: nat | j < 5 {
      SinglePairEntries(w, focus, j);
    }
    var ps := OutgoingCandidates(m, focus);
    RowPairsMembers(focus, m[focus], |m[focus]|, FOCUSED_ATTENTION_THRESHOLD);
    if focus == 0 {
      OnlyCandidate(ps, Pair(0, 1, w));
    } else {
      FirstIsMember(ps);
    }
  }

  lemma SinglePairColumnCandidates(w: real, focus: nat)
    requires w > FOCUSED_ATTENTION_THRESHOLD && focus < 5
    ensures focus == 1 ==> IncomingCandidates(SinglePairMatrix(w), focus) == [Pair(0, 1, w)]
    ensures focus != 1 ==> IncomingCandidates(SinglePairMatrix(w), focus) == []
  {
    var m := SinglePairMatrix(w);
    forall i: nat | i < 5 {
      SinglePairEntries(w, i, focus);
    }
    var ps := IncomingCandidates(m, focus);
    ColumnPairsMembers(m, focus, |m|, FOCUSED_ATTENTION_THRESHOLD);
    if focus == 1 {
      OnlyCandidate(ps, Pair(0, 1, w));
    } else {
      FirstIsMember(ps);
    }
  }

  /** With one strong entry (0 to 1, weight above 0.02) the overview draws exactly
      that edge. */
  lemma SinglePairOverview(positions: seq<TokenPosition>, w: real)
    requires w > ALL_ATTENTION_THRESHOLD
    ensures OverviewPaths(SinglePairMatrix(w), positions) ==
              [AttentionPath(CurvedPath(positions, 0, 1), w, false, 0, 1, false, General)]
  {
    SinglePairEntries(w, 0, 0);
    SinglePairOverviewCandidates(w);
    SingleSelection(Pair(0, 1, w), positions, false, General);
  }

  /** Focusing the source token of the single strong entry draws it as its only,
      outgoing, edge. */
  lemma SinglePairFocusSource(positions: seq<TokenPosition>, w: real)
    requires w > FOCUSED_ATTENTION_THRESHOLD
    ensures FocusedPaths(SinglePairMatrix(w), positions, 0) ==
              [AttentionPath(CurvedPath(positions, 0, 1), w, true, 0, 1, false, Outgoing)]
  {
    var m := SinglePairMatrix(w);
    SinglePairEntries(w, 0, 0);
    SinglePairRowCandidates(w, 0);
    SinglePairColumnCandidates(w, 0);
    SingleSelection(Pair(0, 1, w), positions, true, Outgoing);
    SingleSelection(Pair(0, 1, w), positions, true, Incoming);
    assert FocusedPaths(m, positions, 0) == OutgoingPaths(m, positions, 0) + IncomingPaths(m, positions, 0);
  }

  /** Focusing the target token of the single strong entry draws it as its only,
      incoming, edge at 60% of its weight. */
  lemma SinglePairFocusTarget(positions: seq<TokenPosition>, w: real)
    requires w > FOCUSED_ATTENTION_THRESHOLD
    ensures FocusedPaths(SinglePairMatrix(w), positions, 1) ==
              [AttentionPath(CurvedPath(positions, 0, 1), w * INCOMING_ATTENTION_DIMMING, true, 0, 1, false, Incoming)]
  {
    var m := SinglePairMatrix(w);
    SinglePairEntries(w, 1, 0);
    SinglePairRowCandidates(w, 1);
    SinglePairColumnCandidates(w, 1);
    SingleSelection(Pair(0, 1, w), positions, true, Outgoing);
    SingleSelection(Pair(0, 1, w), positions, true, Incoming);
    assert FocusedPaths(m, positions, 1) == OutgoingPaths(m, positions, 1) + IncomingPaths(m, positions, 1);
  }

  /** A weight between the two thresholds is left out of the overview but drawn when
      its source token is focused. */
  lemma WeakPairOnlyWhenFocused(positions: seq<TokenPosition>, w: real)
    requires FOCUSED_ATTENTION_THRESHOLD < w <= ALL_ATTENTION_THRESHOLD
    ensures OverviewPaths(SinglePairMatrix(w), positions) == []
    ensures FocusedPaths(SinglePairMatrix(w), positions, 0) ==
              [AttentionPath(CurvedPath(positions, 0, 1), w, true, 0, 1, false, Outgoing)]
  {
    SinglePairEntries(w, 0, 0);
    SinglePairOverviewCandidates(w);
    SingleSelection(Pair(0, 1, w), positions, false, General);
    SinglePairFocusSource(positions, w);
  }
}
