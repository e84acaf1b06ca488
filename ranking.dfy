/**
 * The ranking of `test_step`: `argsort` orders all entity ids by descending biased score,
 * `(argsort[i, :] == positive_arg[i]).nonzero()` lists the positions of the true entity,
 * the code asserts there is exactly one, and the rank is one plus that position.
 *
 * The sort itself is library code; it is described here by what it returns: a permutation
 * of 0 .. n-1 whose scores do not increase along it.
 */
module Ranking {
  import opened Wrappers
  import opened Errors

  /** 0, 1, ..., n - 1. */
  function Range(n: nat): seq<int> {
    seq(n, i requires 0 <= i < n => i)
  }

  /** `p` lists every id 0 .. n-1 exactly once. */
  ghost predicate IsPermutation(p: seq<int>, n: nat) {
    multiset(p) == multiset(Range(n))
  }

  /** What `torch.argsort(score, descending=True)` returns for one row. */
  ghost predicate IsDescendingArgsort(p: seq<int>, score: seq<real>) {
    && IsPermutation(p, |score|)
    && (forall k :: 0 <= k < |p| ==> 0 <= p[k] < |score|)
    && forall a, b :: 0 <= a < b < |p| ==> score[p[a]] >= score[p[b]]
  }

  /** `(p == x).nonzero()`: the positions of `p` holding `x`, in increasing order. */
  function Positions(p: seq<int>, x: int): seq<nat> {
    if |p| == 0 then []
    else Positions(p[..|p| - 1], x) + (if p[|p| - 1] == x then [|p| - 1] else [])
  }

  /** `1 + ranking.item()` after `assert ranking.size(0) == 1`. */
  function RankOf(p: seq<int>, x: int): (r: Result<nat, Error>)
    ensures r.Success? ==> r.value >= 1
  {
    var ks := Positions(p, x);
    if |ks| == 1 then Success(1 + ks[0]) else Failure(RankingNotUnique)
  }

  // ---------------------------------------------------------------------------
  // Positions and multiplicities
  // ---------------------------------------------------------------------------

  lemma {:induction false} PositionsMembers(p: seq<int>, x: int)
    ensures forall k :: k in Positions(p, x) <==> 0 <= k < |p| && p[k] == x
  {
    if |p| > 0 {
      PositionsMembers(p[..|p| - 1], x);
    }
  }

  lemma {:induction false} PositionsCount(p: seq<int>, x: int)
    ensures |Positions(p, x)| == multiset(p)[x]
  {
    if |p| > 0 {
      var n := |p| - 1;
      PositionsCount(p[..n], x);
      assert p == p[..n] + [p[n]];
      assert multiset(p) == multiset(p[..n]) + multiset{p[n]};
    }
  }

  lemma {:induction false} RangeMultiplicity(n: nat, x: int)
    ensures multiset(Range(n))[x] == if 0 <= x < n then 1 else 0
  {
    if n > 0 {
      RangeMultiplicity(n - 1, x);
      assert Range(n) == Range(n - 1) + [n - 1];
      assert multiset(Range(n)) == multiset(Range(n - 1)) + multiset{n - 1};
    }
  }

  /** The asserted invariant of `test_step`: in a permutation of all ids, every id in range
      occurs at exactly one position, and no other value occurs at all. */
  lemma PermutationPositions(p: seq<int>, n: nat, x: int)
    requires IsPermutation(p, n)
    ensures |Positions(p, x)| == if 0 <= x < n then 1 else 0
  {
    PositionsCount(p, x);
    RangeMultiplicity(n, x);
  }

  lemma PermutationDistinct(p: seq<int>, n: nat, a: int, b: int)
    requires IsPermutation(p, n)
    requires 0 <= a < |p| && 0 <= b < |p| && a != b
    ensures p[a] != p[b]
  {
    PositionsMembers(p, p[a]);
    PermutationPositions(p, n, p[a]);
    var ks := Positions(p, p[a]);
    assert a in ks;
    assert ks == [ks[0]];
    assert ks[0] == a;
  }

  lemma PermutationInRange(p: seq<int>, n: nat, k: int)
    requires IsPermutation(p, n) && 0 <= k < |p|
    ensures 0 <= p[k] < n
  {
    PositionsMembers(p, p[k]);
    PermutationPositions(p, n, p[k]);
    assert k in Positions(p, p[k]);
  }

  /** In a permutation of 0 .. n-1, every id has a rank in [1, n] and sits at position rank - 1;
      an id outside 0 .. n-1 fails the assertion. */
  lemma PermutationRank(p: seq<int>, n: nat, x: int)
    requires IsPermutation(p, n)
    ensures |p| == n
    ensures RankOf(p, x).Success? <==> 0 <= x < n
    ensures RankOf(p, x).Success? ==> 1 <= RankOf(p, x).value <= n && p[RankOf(p, x).value - 1] == x
  {
    PermutationPositions(p, n, x);
    PositionsMembers(p, x);
    assert |p| == n by {
      assert |multiset(p)| == |multiset(Range(n))|;
    }
    if 0 <= x < n {
      assert Positions(p, x)[0] in Positions(p, x);
    }
  }

  // ---------------------------------------------------------------------------
  // Counting
  // ---------------------------------------------------------------------------

  function Elems(q: seq<int>): set<int> {
    set k | 0 <= k < |q| :: q[k]
  }

  lemma {:induction false} DistinctElems(q: seq<int>)
    requires forall a, b :: 0 <= a < b < |q| ==> q[a] != q[b]
    ensures |Elems(q)| == |q|
  {
    if |q| > 0 {
      var n := |q| - 1;
      DistinctElems(q[..n]);
      assert Elems(q) == Elems(q[..n]) + {q[n]};
      assert q[n] !in Elems(q[..n]);
    }
  }

  lemma SubsetCard(a: set<int>, b: set<int>)
    requires a <= b
    ensures |a| <= |b|
  {
    assert b == a + (b - a);
  }

  lemma SortedPair(p: seq<int>, score: seq<real>, a: int, b: int)
    requires IsDescendingArgsort(p, score)
    ensures 0 <= a < b < |p| ==> score[p[a]] >= score[p[b]]
  {
  }

  /** The ids scoring strictly higher than `x`. */
  function Better(score: seq<real>, x: nat): set<int>
    requires x < |score|
  {
    set y | 0 <= y < |score| && score[y] > score[x]
  }

  /** The ids other than `x` scoring at least as high as `x`. */
  function AtLeastAsGood(score: seq<real>, x: nat): set<int>
    requires x < |score|
  {
    set y | 0 <= y < |score| && y != x && score[y] >= score[x]
  }

  /**
   * The rank of `x` is at least one more than the number of ids scoring strictly higher,
   * and at most one more than the number of other ids scoring at least as high: only ties
   * leave room, and the sort decides them.
   */
  lemma RankBounds(p: seq<int>, score: seq<real>, x: nat)
    requires IsDescendingArgsort(p, score) && x < |score|
    ensures RankOf(p, x).Success?
    ensures 1 + |Better(score, x)| <= RankOf(p, x).value <= 1 + |AtLeastAsGood(score, x)|
  {
    var n := |score|;
    PermutationRank(p, n, x);
    var k := RankOf(p, x).value - 1;
    var prefix := p[..k];
    assert forall a, b :: 0 <= a < b < |prefix| ==> prefix[a] != prefix[b] by {
      forall a, b | 0 <= a < b < |prefix| ensures prefix[a] != prefix[b] {
        PermutationDistinct(p, n, a, b);
      }
    }
    DistinctElems(prefix);
    assert Better(score, x) <= Elems(prefix) by {
      forall y | y in Better(score, x) ensures y in Elems(prefix) {
        PermutationRank(p, n, y);
        var j := RankOf(p, y).value - 1;
        assert p[j] == y;
        SortedPair(p, score, k, j);
        assert prefix[j] == y;
      }
    }
    assert Elems(prefix) <= AtLeastAsGood(score, x) by {
      forall y | y in Elems(prefix) ensures y in AtLeastAsGood(score, x) {
        var j :| 0 <= j < k && prefix[j] == y;
        PermutationDistinct(p, n, j, k);
      }
    }
    SubsetCard(Better(score, x), Elems(prefix));
    SubsetCard(Elems(prefix), AtLeastAsGood(score, x));
  }

  /** Without ties, the rank is exactly one more than the number of ids scoring higher. */
  lemma RankCountsBetter(p: seq<int>, score: seq<real>, x: nat)
    requires IsDescendingArgsort(p, score) && x < |score|
    requires forall y :: 0 <= y < |score| && y != x ==> score[y] != score[x]
    ensures RankOf(p, x) == Success(1 + |Better(score, x)|)
  {
    RankBounds(p, score, x);
    assert Better(score, x) == AtLeastAsGood(score, x);
  }

  /** A true entity whose biased score beats every other is ranked first. */
  lemma TopScoreRanksFirst(p: seq<int>, score: seq<real>, x: nat)
    requires IsDescendingArgsort(p, score) && x < |score|
    requires forall y :: 0 <= y < |score| && y != x ==> score[y] < score[x]
    ensures RankOf(p, x) == Success(1)
  {
    RankBounds(p, score, x);
    assert AtLeastAsGood(score, x) == {};
  }

  /** With scores strictly decreasing in the id, the id i is ranked i + 1. */
  lemma DecreasingScoresRankByIndex(p: seq<int>, score: seq<real>, i: nat)
    requires IsDescendingArgsort(p, score) && i < |score|
    requires forall a, b :: 0 <= a < b < |score| ==> score[a] > score[b]
    ensures RankOf(p, i) == Success(i + 1)
  {
    assert forall y :: 0 <= y < |score| && y != i ==> score[y] != score[i] by {
      forall y | 0 <= y < |score| && y != i ensures score[y] != score[i] {
        if y < i {
          assert score[y] > score[i];
        } else {
          assert score[i] > score[y];
        }
      }
    }
    RankCountsBetter(p, score, i);
    assert Better(score, i) == Elems(Range(i)) by {
      forall y ensures y in Better(score, i) <==> y in Elems(Range(i)) {
        if 0 <= y < i {
          assert Range(i)[y] == y;
        }
      }
    }
    DistinctElems(Range(i));
  }
}
