/**
 * Ranking of candidate attention pairs: the stable sort by descending score
 * (the comparator `b.score - a.score` under a stable `Array.prototype.sort`)
 * and the cut to the first `TOP_ATTENTION_LIMIT` entries.
 */
module Ranking {

  const TOP_ATTENTION_LIMIT: nat := 5

  /** A candidate edge from one token to another with its attention score. */
  datatype Pair = Pair(fromIndex: nat, toIndex: nat, score: real)

  predicate SortedDesc(s: seq<Pair>)
  {
    forall i, j :: 0 <= i < j < |s| ==> s[i].score >= s[j].score
  }

  /** Inserts `x` into a list sorted by descending score, after every entry that
      scores at least as much as `x` (so equal scores keep their arrival order). */
  function Insert(x: Pair, s: seq<Pair>): (r: seq<Pair>)
    ensures |r| == |s| + 1
    ensures multiset(r) == multiset(s) + multiset{x}
  {
    if s == [] then [x]
    else if s[0].score >= x.score then
      assert s == [s[0]] + s[1..];
      [s[0]] + Insert(x, s[1..])
    else [x] + s
  }

  lemma {:induction false} InsertSorted(x: Pair, s: seq<Pair>)
    requires SortedDesc(s)
    ensures SortedDesc(Insert(x, s))
  {
    if s != [] && s[0].score >= x.score {
      InsertSorted(x, s[1..]);
      var rest := Insert(x, s[1..]);
      forall k | 0 <= k < |rest|
        ensures rest[k].score <= s[0].score
      {
        assert rest[k] in multiset(rest);
        if rest[k] != x {
          assert rest[k] in multiset(s[1..]);
          var j :| 0 <= j < |s[1..]| && s[1..][j] == rest[k];
          assert s[j + 1] == rest[k];
        }
      }
    }
  }

  /** The stable sort by descending score. */
  function SortDesc(s: seq<Pair>): (r: seq<Pair>)
    ensures |r| == |s|
    ensures multiset(r) == multiset(s)
    ensures SortedDesc(r)
  {
    if s == [] then []
    else
      assert s == s[..|s| - 1] + [s[|s| - 1]];
      InsertSorted(s[|s| - 1], SortDesc(s[..|s| - 1]));
      Insert(s[|s| - 1], SortDesc(s[..|s| - 1]))
  }

  /** Concatenation is associative (stated once, instantiated where a proof needs it). */
  lemma AppendAssoc<T>(a: seq<T>, b: seq<T>, c: seq<T>)
    ensures (a + b) + c == a + (b + c)
  {
  }

  /** The entries of `s` that score exactly `v`, in order. */
  function WithScore(s: seq<Pair>, v: real): seq<Pair>
  {
    if s == [] then [] else (if s[0].score == v then [s[0]] else []) + WithScore(s[1..], v)
  }

  /** The first `TOP_ATTENTION_LIMIT` entries (all of them when there are fewer). */
  function Top(s: seq<Pair>): (r: seq<Pair>)
    ensures |r| == if |s| < TOP_ATTENTION_LIMIT then |s| else TOP_ATTENTION_LIMIT
    ensures r == s[..|r|]
  {
    if |s| <= TOP_ATTENTION_LIMIT then s else s[..TOP_ATTENTION_LIMIT]
  }

  /** The highest-scoring candidates, best first, ties in arrival order. */
  function Select(s: seq<Pair>): (r: seq<Pair>)
    ensures |r| == if |s| < TOP_ATTENTION_LIMIT then |s| else TOP_ATTENTION_LIMIT
    ensures SortedDesc(r)
    ensures forall k :: 0 <= k < |r| ==> r[k] in s
  {
    var sorted := SortDesc(s);
    assert forall k :: 0 <= k < |sorted| ==> sorted[k] in multiset(sorted);
    Top(sorted)
  }

  lemma {:induction false} WithScoreAppend(a: seq<Pair>, b: seq<Pair>, v: real)
    ensures WithScore(a + b, v) == WithScore(a, v) + WithScore(b, v)
  {
    if a == [] {
      assert a + b == b;
    } else {
      var h := if a[0].score == v then [a[0]] else [];
      assert a + b == [a[0]] + (a[1..] + b);
      WithScoreCons(a[0], a[1..] + b, v);
      WithScoreAppend(a[1..], b, v);
      assert a == [a[0]] + a[1..];
      WithScoreCons(a[0], a[1..], v);
      AppendAssoc(h, WithScore(a[1..], v), WithScore(b, v));
    }
  }

  lemma WithScoreCons(y: Pair, t: seq<Pair>, v: real)
    ensures WithScore([y] + t, v) == (if y.score == v then [y] else []) + WithScore(t, v)
  {
    assert ([y] + t)[0] == y && ([y] + t)[1..] == t;
  }

  /** A list sorted by descending score whose head scores below `v` has no entry
      scoring `v`. */
  lemma {:induction false} WithScoreNone(s: seq<Pair>, v: real)
    requires SortedDesc(s)
    requires s == [] || s[0].score < v
    ensures WithScore(s, v) == []
  {
    if s != [] {
      if |s| > 1 {
        assert s[1].score <= s[0].score;
      }
      SortedTail(s);
      WithScoreNone(s[1..], v);
    }
  }

  lemma SortedTail(s: seq<Pair>)
    requires SortedDesc(s) && s != []
    ensures SortedDesc(s[1..])
  {
    forall i, j | 0 <= i < j < |s[1..]|
      ensures s[1..][i].score >= s[1..][j].score
    {
      assert s[1..][i] == s[i + 1] && s[1..][j] == s[j + 1];
    }
  }

  /** Inserting into a sorted list adds the new entry after every entry of its own
      score, so for every score the entries keep their order and the new one comes last. */
  lemma {:induction false} InsertStable(x: Pair, s: seq<Pair>, v: real)
    requires SortedDesc(s)
    ensures WithScore(Insert(x, s), v) == WithScore(s, v) + (if x.score == v then [x] else [])
    decreases |s|, 1
  {
    if s == [] {
    } else if s[0].score >= x.score {
      InsertBehind(x, s, v);
    } else {
      WithScoreCons(x, s, v);
      if x.score == v {
        WithScoreNone(s, v);
      }
    }
  }

  lemma {:induction false} InsertBehind(x: Pair, s: seq<Pair>, v: real)
    requires SortedDesc(s) && s != [] && s[0].score >= x.score
    ensures WithScore(Insert(x, s), v) == WithScore(s, v) + (if x.score == v then [x] else [])
    decreases |s|, 0
  {
    var h := if s[0].score == v then [s[0]] else [];
    var t := if x.score == v then [x] else [];
    var rest := Insert(x, s[1..]);
    assert Insert(x, s) == [s[0]] + rest;
    SortedTail(s);
    InsertStable(x, s[1..], v);
    WithScoreCons(s[0], rest, v);
    assert s == [s[0]] + s[1..];
    WithScoreCons(s[0], s[1..], v);
    AppendAssoc(h, WithScore(s[1..], v), t);
  }

  /** The sort is stable: for every score, the entries with that score appear in the
      output in the same order as in the input. */
  lemma {:induction false} SortStable(s: seq<Pair>, v: real)
    ensures WithScore(SortDesc(s), v) == WithScore(s, v)
  {
    if s != [] {
      var init, x := s[..|s| - 1], s[|s| - 1];
      assert s == init + [x];
      SortStable(init, v);
      InsertStable(x, SortDesc(init), v);
      WithScoreAppend(init, [x], v);
    }
  }

  /** No candidate left out of the selection scores strictly more than one kept. */
  lemma SelectMaximal(s: seq<Pair>, x: Pair, y: Pair)
    requires x in s && x !in Select(s) && y in Select(s)
    ensures y.score >= x.score
  {
    var sorted := SortDesc(s);
    var r := Select(s);
    assert x in multiset(sorted);
    var j :| 0 <= j < |sorted| && sorted[j] == x;
    var i :| 0 <= i < |r| && r[i] == y;
    assert j >= |r|;
  }

  /** Two candidates join the same pair of tokens. */
  predicate SameTokens(p: Pair, q: Pair)
  {
    p.fromIndex == q.fromIndex && p.toIndex == q.toIndex
  }

  /** No two entries join the same pair of tokens. */
  predicate DistinctKeys(s: seq<Pair>)
  {
    forall a, b :: 0 <= a < b < |s| ==> !SameTokens(s[a], s[b])
  }

  /** Inserting a candidate for a token pair not yet present keeps the pairs distinct. */
  lemma {:induction false} InsertDistinct(x: Pair, s: seq<Pair>)
    requires DistinctKeys(s)
    requires forall k :: 0 <= k < |s| ==> !SameTokens(s[k], x)
    ensures DistinctKeys(Insert(x, s))
  {
    var r := Insert(x, s);
    if s == [] {
    } else if s[0].score >= x.score {
      var t := s[1..];
      forall a, b | 0 <= a < b < |t|
        ensures !SameTokens(t[a], t[b])
      {
        assert t[a] == s[a + 1] && t[b] == s[b + 1];
      }
      forall k | 0 <= k < |t|
        ensures !SameTokens(t[k], x)
      {
        assert t[k] == s[k + 1];
      }
      InsertDistinct(x, t);
      var rest := Insert(x, t);
      forall k | 0 <= k < |rest|
        ensures !SameTokens(s[0], rest[k])
      {
        assert rest[k] in multiset(rest);
        if rest[k] != x {
          assert rest[k] in multiset(t);
          var j :| 0 <= j < |t| && t[j] == rest[k];
          assert s[j + 1] == rest[k];
        }
      }
      assert r == [s[0]] + rest;
      forall a, b | 0 <= a < b < |r|
        ensures !SameTokens(r[a], r[b])
      {
        if a == 0 {
          assert r[b] == rest[b - 1];
        } else {
          assert r[a] == rest[a - 1] && r[b] == rest[b - 1];
        }
      }
    } else {
      assert r == [x] + s;
      forall a, b | 0 <= a < b < |r|
        ensures !SameTokens(r[a], r[b])
      {
        if a == 0 {
          assert r[b] == s[b - 1];
        } else {
          assert r[a] == s[a - 1] && r[b] == s[b - 1];
        }
      }
    }
  }

  /** Sorting candidates that join distinct token pairs keeps them distinct. */
  lemma {:induction false} SortDistinct(s: seq<Pair>)
    requires DistinctKeys(s)
    ensures DistinctKeys(SortDesc(s))
  {
    if s != [] {
      var init, x := s[..|s| - 1], s[|s| - 1];
      forall a, b | 0 <= a < b < |init|
        ensures !SameTokens(init[a], init[b])
      {
        assert init[a] == s[a] && init[b] == s[b];
      }
      SortDistinct(init);
      var sorted := SortDesc(init);
      forall k | 0 <= k < |sorted|
        ensures !SameTokens(sorted[k], x)
      {
        assert sorted[k] in multiset(init);
        var j :| 0 <= j < |init| && init[j] == sorted[k];
        assert s[j] == sorted[k];
      }
      InsertDistinct(x, sorted);
    }
  }

  /** The selection never keeps two candidates for the same token pair when the
      candidates had none. */
  lemma SelectDistinct(s: seq<Pair>)
    requires DistinctKeys(s)
    ensures DistinctKeys(Select(s))
  {
    SortDistinct(s);
  }

  /** What the selection keeps: at most five candidates, sorted best first, each one a
      candidate, and as many as there are up to five; no candidate that was left out
      scores strictly more than any that was kept. */
  lemma SelectKeepsBest(s: seq<Pair>)
    ensures var r := Select(s);
            && |r| == (if |s| < TOP_ATTENTION_LIMIT then |s| else TOP_ATTENTION_LIMIT)
            && SortedDesc(r)
            && multiset(r) <= multiset(s)
            && forall x, y :: x in s && x !in r && y in r ==> y.score >= x.score
  {
    var sorted := SortDesc(s);
    var r := Select(s);
    assert sorted == r + sorted[|r|..];
    assert multiset(sorted) == multiset(r) + multiset(sorted[|r|..]);
    forall x, y | x in s && x !in r && y in r
      ensures y.score >= x.score
    {
      SelectMaximal(s, x, y);
    }
  }
}
