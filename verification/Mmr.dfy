/** Greedy diversity selection (mmr.py).  A candidate is its token set and its relevance; scores
    are reals.  Results are positions in the candidate list. */
module Mmr {
  import opened Prelude

  datatype Candidate = Candidate(tokens: set<string>, score: real)

  const SENTINEL: real := -1000000000.0

  function Similarity(a: set<string>, b: set<string>): (r: real)
    ensures 0.0 <= r <= 1.0
  {
    SubsetCardinality(a * b, a + b);
    Ratio(|a * b|, Max(1, |a + b|))
  }

  /** The Jaccard index: the similarity times the size of the union is the size of the intersection. */
  lemma SimilarityMeans(a: set<string>, b: set<string>)
    ensures Similarity(a, b) * |a + b| as real == |a * b| as real
    ensures a + b == {} ==> Similarity(a, b) == 0.0
    ensures a != {} ==> (Similarity(a, b) == 1.0 <==> a == b)
    ensures Similarity(a, b) == Similarity(b, a)
  {
    assert a + b == b + a && a * b == b * a;
    if a * b != a + b { ProperSubsetCardinality(a * b, a + b); }
    if a + b == {} {
      assert a * b == {};
    } else {
      assert |a + b| > 0;
    }
  }

  /** The largest similarity to what is already selected. */
  function Redundancy(cs: seq<Candidate>, selected: seq<nat>, j: nat): (r: real)
    requires selected != [] && j < |cs| && forall i :: 0 <= i < |selected| ==> selected[i] < |cs|
    ensures 0.0 <= r <= 1.0
  {
    var n := |selected| - 1;
    var last := Similarity(cs[j].tokens, cs[selected[n]].tokens);
    if n == 0 then last
    else
      var before := Redundancy(cs, selected[..n], j);
      if before < last then last else before
  }

  lemma {:induction false} RedundancyIsMax(cs: seq<Candidate>, selected: seq<nat>, j: nat)
    requires selected != [] && j < |cs| && forall i :: 0 <= i < |selected| ==> selected[i] < |cs|
    ensures var r := Redundancy(cs, selected, j);
            && (forall i :: 0 <= i < |selected| ==> Similarity(cs[j].tokens, cs[selected[i]].tokens) <= r)
            && (exists i :: 0 <= i < |selected| && Similarity(cs[j].tokens, cs[selected[i]].tokens) == r)
  {
    var n := |selected| - 1;
    if n > 0 {
      var before := selected[..n];
      RedundancyIsMax(cs, before, j);
      var b :| 0 <= b < n && Similarity(cs[j].tokens, cs[before[b]].tokens) == Redundancy(cs, before, j);
      assert selected[b] == before[b];
      assert forall i :: 0 <= i < n ==> selected[i] == before[i];
    }
  }

  function Marginal(cs: seq<Candidate>, selected: seq<nat>, j: nat, weight: real): real
    requires selected != [] && j < |cs| && forall i :: 0 <= i < |selected| ==> selected[i] < |cs|
  {
    weight * cs[j].score - (1.0 - weight) * Redundancy(cs, selected, j)
  }

  /** `j` is the first of the unselected candidates with the largest marginal score. */
  ghost predicate IsPick(cs: seq<Candidate>, selected: seq<nat>, j: nat, weight: real)
    requires selected != [] && forall i :: 0 <= i < |selected| ==> selected[i] < |cs|
  {
    && j < |cs| && j !in selected && Marginal(cs, selected, j, weight) > SENTINEL
    && forall i: nat :: i < |cs| && i !in selected ==>
         && Marginal(cs, selected, i, weight) <= Marginal(cs, selected, j, weight)
         && (i < j ==> Marginal(cs, selected, i, weight) < Marginal(cs, selected, j, weight))
  }

  ghost predicate Greedy(cs: seq<Candidate>, selected: seq<nat>, weight: real) {
    && selected != [] && selected[0] == 0 && cs != []
    && (forall i :: 0 <= i < |selected| ==> selected[i] < |cs|)
    && (forall k :: 1 <= k < |selected| ==> IsPick(cs, selected[..k], selected[k], weight))
  }

  /** No unselected candidate rises above the sentinel. */
  ghost predicate Exhausted(cs: seq<Candidate>, selected: seq<nat>, weight: real)
    requires selected != [] && forall i :: 0 <= i < |selected| ==> selected[i] < |cs|
  {
    forall j: nat :: j < |cs| && j !in selected ==> Marginal(cs, selected, j, weight) <= SENTINEL
  }

  /** With `topk <= 0` and a non-empty list one candidate is still returned; with an empty list a
      negative `topk` is an index error. */
  method Select(cs: seq<Candidate>, topk: int, weight: real) returns (result: Result<seq<nat>>)
    ensures result.Raise? <==> cs == [] && topk < 0
    ensures |cs| <= topk ==> result == Ok(Identity(|cs|))
    ensures |cs| > topk && cs != [] ==>
              && Greedy(cs, result.value, weight) && |result.value| <= Max(1, topk)
              && (|result.value| < topk ==> Exhausted(cs, result.value, weight))
  {
    if |cs| <= topk { return Ok(Identity(|cs|)); }
    if cs == [] { return Raise("IndexError"); }
    var selected: seq<nat> := [0];
    while |selected| < topk
      invariant Greedy(cs, selected, weight) && |selected| <= Max(1, topk)
      decreases topk - |selected|
    {
      var best := PickNext(cs, selected, weight);
      if best.None? { return Ok(selected); }
      GreedyExtends(cs, selected, best.value, weight);
      selected := selected + [best.value];
    }
    return Ok(selected);
  }

  function Identity(n: nat): (r: seq<nat>)
    ensures |r| == n && forall i :: 0 <= i < n ==> r[i] == i
  {
    seq(n, i => i)
  }

  lemma GreedyExtends(cs: seq<Candidate>, selected: seq<nat>, j: nat, weight: real)
    requires Greedy(cs, selected, weight) && IsPick(cs, selected, j, weight)
    ensures Greedy(cs, selected + [j], weight)
  {
    var next := selected + [j];
    assert next[..|selected|] == selected;
    forall k | 1 <= k < |next| ensures IsPick(cs, next[..k], next[k], weight) {
      if k < |selected| { assert next[..k] == selected[..k]; }
    }
  }

  /** The inner loop: `best_j` and `best_score` over all unselected candidates. */
  method PickNext(cs: seq<Candidate>, selected: seq<nat>, weight: real) returns (best: Option<nat>)
    requires selected != [] && forall i :: 0 <= i < |selected| ==> selected[i] < |cs|
    ensures best.None? ==> Exhausted(cs, selected, weight)
    ensures best.Some? ==> IsPick(cs, selected, best.value, weight)
  {
    best := None;
    var bestScore := SENTINEL;
    for j := 0 to |cs|
      invariant best.None? ==> bestScore == SENTINEL
      invariant best.Some? ==> best.value < j && best.value !in selected && bestScore > SENTINEL
                               && bestScore == Marginal(cs, selected, best.value, weight)
      invariant forall i: nat :: i < j && i !in selected ==> Marginal(cs, selected, i, weight) <= bestScore
      invariant best.Some? ==> forall i: nat :: i < best.value && i !in selected ==>
                  Marginal(cs, selected, i, weight) < bestScore
    {
      if j !in selected {
        var score := Marginal(cs, selected, j, weight);
        if score > bestScore { bestScore, best := score, Some(j); }
      }
    }
  }

  // ---- Properties of the selection -----------------------------------------------------------------

  lemma GreedyIsDistinct(cs: seq<Candidate>, selected: seq<nat>, weight: real)
    requires Greedy(cs, selected, weight)
    ensures forall i, j :: 0 <= i < j < |selected| ==> selected[i] != selected[j]
  {
    forall i, j | 0 <= i < j < |selected| ensures selected[i] != selected[j] {
      assert IsPick(cs, selected[..j], selected[j], weight);
      assert selected[..j][i] == selected[i];
    }
  }

  lemma PickAt(cs: seq<Candidate>, a: seq<nat>, k: nat, weight: real)
    requires Greedy(cs, a, weight) && 1 <= k < |a|
    ensures (forall i :: 0 <= i < k ==> a[..k][i] < |cs|) && IsPick(cs, a[..k], a[k], weight)
  {
  }

  /** The greedy selection is determined by its length, so a shorter one is a prefix of a longer
      one: asking for one more candidate never changes the others. */
  lemma GreedyIsPrefix(cs: seq<Candidate>, a: seq<nat>, b: seq<nat>, weight: real)
    requires Greedy(cs, a, weight) && Greedy(cs, b, weight) && |a| <= |b|
    ensures a == b[..|a|]
  {
    forall k | 1 <= k < |a| && a[..k] == b[..k] ensures a[k] == b[k] {
      SamePickAt(cs, a, b, k, weight);
    }
    Agree(a, b, |a|);
  }

  lemma {:induction false} Agree(a: seq<nat>, b: seq<nat>, n: nat)
    requires 1 <= n <= |a| <= |b| && a[0] == b[0]
    requires forall k :: 1 <= k < n && a[..k] == b[..k] ==> a[k] == b[k]
    ensures a[..n] == b[..n]
  {
    if n > 1 {
      Agree(a, b, n - 1);
      assert a[..n] == a[..n - 1] + [a[n - 1]] && b[..n] == b[..n - 1] + [b[n - 1]];
    }
  }

  lemma SamePickAt(cs: seq<Candidate>, a: seq<nat>, b: seq<nat>, k: nat, weight: real)
    requires Greedy(cs, a, weight) && Greedy(cs, b, weight) && 1 <= k < |a| && k < |b|
    requires a[..k] == b[..k]
    ensures a[k] == b[k]
  {
    PickAt(cs, a, k, weight);
    PickAt(cs, b, k, weight);
    OnePick(cs, a[..k], a[k], b[k], weight);
  }

  /** Ties go to the earlier position, so there is only one pick. */
  lemma OnePick(cs: seq<Candidate>, selected: seq<nat>, a: nat, b: nat, weight: real)
    requires selected != [] && forall i :: 0 <= i < |selected| ==> selected[i] < |cs|
    requires IsPick(cs, selected, a, weight) && IsPick(cs, selected, b, weight)
    ensures a == b
  {
  }

  lemma GreedyPrefixGreedy(cs: seq<Candidate>, a: seq<nat>, n: nat, weight: real)
    requires Greedy(cs, a, weight) && 1 <= n <= |a|
    ensures Greedy(cs, a[..n], weight)
  {
    assert forall k :: 1 <= k < n ==> a[..n][..k] == a[..k];
  }

  /** With a weight in 0..1 and scores well above the sentinel the selection is never cut short. */
  lemma SelectionIsFull(cs: seq<Candidate>, selected: seq<nat>, weight: real)
    requires Greedy(cs, selected, weight) && 0.0 <= weight <= 1.0
    requires forall i :: 0 <= i < |cs| ==> weight * cs[i].score > SENTINEL + 1.0
    ensures Exhausted(cs, selected, weight) ==> |selected| == |cs|
  {
    if |selected| != |cs| {
      GreedyIsDistinct(cs, selected, weight);
      DistinctSize(selected);
      var j := SomeoneLeft(set i | i in selected, |cs|);
      MarginalAbove(cs, selected, j, weight);
    }
  }

  lemma SomeoneLeft(chosen: set<nat>, n: nat) returns (j: nat)
    requires (forall i :: i in chosen ==> i < n) && |chosen| != n
    ensures j < n && j !in chosen
  {
    assert (forall i :: i in Below(n) ==> i in chosen) ==> chosen == Below(n);
    j :| j in Below(n) && j !in chosen;
  }

  lemma MarginalAbove(cs: seq<Candidate>, selected: seq<nat>, j: nat, weight: real)
    requires selected != [] && j < |cs| && forall i :: 0 <= i < |selected| ==> selected[i] < |cs|
    requires 0.0 <= weight <= 1.0 && weight * cs[j].score > SENTINEL + 1.0
    ensures Marginal(cs, selected, j, weight) > SENTINEL
  {
    AboveSentinel(weight * cs[j].score, 1.0 - weight, Redundancy(cs, selected, j));
  }

  lemma AboveSentinel(x: real, c: real, r: real)
    requires x > SENTINEL + 1.0 && 0.0 <= c <= 1.0 && 0.0 <= r <= 1.0
    ensures x - c * r > SENTINEL
  {
    Product(c, r);
  }

  lemma Product(a: real, b: real)
    requires 0.0 <= a <= 1.0 && 0.0 <= b <= 1.0
    ensures a * b <= 1.0
  {
    assert b - a * b == (1.0 - a) * b >= 0.0;
  }

  /** Pure relevance: with weight 1 and candidates in descending order the result is simply the
      first ones. */
  lemma {:induction false} PureRelevanceTakesTheTop(cs: seq<Candidate>, selected: seq<nat>)
    requires Greedy(cs, selected, 1.0)
    requires forall i, j :: 0 <= i < j < |cs| ==> cs[i].score >= cs[j].score
    ensures forall k :: 0 <= k < |selected| ==> selected[k] == k
    decreases |selected|
  {
    if |selected| > 1 {
      var n := |selected| - 1;
      var before := selected[..n];
      GreedyPrefixGreedy(cs, selected, n, 1.0);
      PureRelevanceTakesTheTop(cs, before);
      assert IsPick(cs, before, selected[n], 1.0);
      assert forall k :: 0 <= k < n ==> before[k] == k;
      var j := selected[n];
      forall k: nat | k < n ensures k in before { assert before[k] == k; }
      assert j >= n && n < |cs| && n !in before;
      assert Marginal(cs, before, n, 1.0) == cs[n].score && Marginal(cs, before, j, 1.0) == cs[j].score;
      assert forall k :: 0 <= k < n ==> selected[k] == before[k];
    }
  }

  /** The first `n` candidates are each the pick when their turn comes. */
  ghost predicate InPlace(cs: seq<Candidate>, n: nat, weight: real) {
    forall k :: 1 <= k < n && k < |cs| ==> IsPick(cs, Identity(k), k, weight)
  }

  /** The whole list, which comes back in its own order, extends a greedy selection exactly when the
      candidates stand in greedy order up to there. */
  lemma FullListExtendsIff(cs: seq<Candidate>, selected: seq<nat>, weight: real)
    requires Greedy(cs, selected, weight) && |selected| <= |cs|
    ensures selected == Identity(|cs|)[..|selected|] <==> InPlace(cs, |selected|, weight)
  {
    var n := |selected|;
    assert Identity(|cs|)[..n] == Identity(n);
    if selected == Identity(n) { OwnOrderIsGreedy(cs, n, weight); }
    if InPlace(cs, n, weight) {
      GreedyOrderIsOwn(cs, n, weight);
      GreedyIsPrefix(cs, selected, Identity(n), weight);
      assert Identity(n)[..n] == Identity(n);
    }
  }

  lemma OwnOrderIsGreedy(cs: seq<Candidate>, n: nat, weight: real)
    requires Greedy(cs, Identity(n), weight)
    ensures InPlace(cs, n, weight)
  {
    forall k | 1 <= k < n && k < |cs| ensures IsPick(cs, Identity(k), k, weight) {
      PickAt(cs, Identity(n), k, weight);
      assert Identity(n)[..k] == Identity(k);
    }
  }

  lemma GreedyOrderIsOwn(cs: seq<Candidate>, n: nat, weight: real)
    requires InPlace(cs, n, weight) && 1 <= n <= |cs|
    ensures Greedy(cs, Identity(n), weight)
  {
    forall k | 1 <= k < n ensures IsPick(cs, Identity(n)[..k], Identity(n)[k], weight) {
      assert Identity(n)[..k] == Identity(k);
    }
  }

  const THREE := [Candidate({"ab"}, 0.9), Candidate({"ab"}, 0.8), Candidate({"cd"}, 0.7)]

  lemma Similarities()
    ensures Similarity({"ab"}, {"ab"}) == 1.0 && Similarity({"cd"}, {"ab"}) == 0.0
  {
    assert {"ab"} * {"ab"} == {"ab"} && {"ab"} + {"ab"} == {"ab"};
    assert {"cd"} * {"ab"} == {} && |{"cd"} + {"ab"}| == 2;
  }

  lemma MarginalsOfThree()
    ensures Marginal(THREE, [0], 1, 0.5) < 0.0 < Marginal(THREE, [0], 2, 0.5)
  {
    Similarities();
    assert Redundancy(THREE, [0], 1) == 1.0 && Redundancy(THREE, [0], 2) == 0.0;
  }

  lemma PickOfThree()
    ensures IsPick(THREE, [0], 2, 0.5)
  {
    MarginalsOfThree();
  }

  /** Asking for the whole list is different: it comes back in its own order, so the answer for one
      candidate less need not be a prefix of it. */
  lemma FullListReorders()
    ensures Greedy(THREE, [0, 2], 0.5) && [0, 2] != Identity(|THREE|)[..2]
  {
    PickOfThree();
    assert Greedy(THREE, [0], 0.5);
    GreedyExtends(THREE, [0], 2, 0.5);
    assert [0] + [2] == [0, 2];
    assert Identity(3)[..2][1] == 1;
  }
}
