/**
 What the ranking metrics are worth between their ends: the score of an empty list, and what one more
 result adds.  Together these laws fix the value of every list.
 */
module MetricValues {
  import opened Sequences
  import opened RankingMetrics
  import opened RepeatedLabels

  /** What an id is worth: its last position in the labels, counted from their end. */
  function Worth(relevant: seq<Id>, x: Id): nat { WorthBefore(relevant, x, |relevant|) }

  function WorthBefore(relevant: seq<Id>, x: Id, n: nat): nat
    requires n <= |relevant|
  {
    if n == 0 then 0
    else if relevant[n - 1] == x then |relevant| - (n - 1)
    else WorthBefore(relevant, x, n - 1)
  }

  /** The discounted worth of the first `top` labels. */
  function IdealSum(relevant: seq<Id>, top: nat, w: nat -> real): real
    requires top <= |relevant|
  {
    if top == 0 then 0.0
    else IdealSum(relevant, top - 1, w) + Worth(relevant, relevant[top - 1]) as real * w(top - 1)
  }

  /** The same for labels without repeats: n, n - 1, and so on. */
  function CountdownSum(n: nat, top: nat, w: nat -> real): real
    requires top <= n
  {
    if top == 0 then 0.0 else CountdownSum(n, top - 1, w) + (n - (top - 1)) as real * w(top - 1)
  }

  function Least(a: nat, b: nat): nat { if a < b then a else b }

  // ---------------------------------------------------------------- gains and sums

  lemma {:induction false} WorthIsLastPosition(relevant: seq<Id>, x: Id, n: nat)
    requires n <= |relevant|
    ensures var worth := WorthBefore(relevant, x, n);
            && worth <= |relevant|
            && (worth == 0 ==> forall j :: 0 <= j < n ==> relevant[j] != x)
            && (worth > 0 ==> |relevant| - worth < n && relevant[|relevant| - worth] == x
                              && forall j :: |relevant| - worth < j < n ==> relevant[j] != x)
  {
    if n > 0 {
      WorthIsLastPosition(relevant, x, n - 1);
    }
  }

  lemma {:induction false} GainIsLastPosition(relevant: seq<Id>, i: nat)
    requires i < |relevant| && relevant[i] !in relevant[i + 1..]
    ensures Gain(relevant, relevant[i]) == |relevant| - i
  {
    if i > 0 {
      var rest := relevant[1..];
      assert relevant[i] == rest[i - 1] && relevant[i + 1..] == rest[i..];
      GainIsLastPosition(rest, i - 1);
    }
  }

  lemma GainIsWorth(relevant: seq<Id>, x: Id)
    ensures Gain(relevant, x) == Worth(relevant, x)
  {
    WorthIsLastPosition(relevant, x, |relevant|);
    if x in relevant {
      GainIsLastPosition(relevant, |relevant| - Worth(relevant, x));
    }
  }

  lemma DotGrows(g: seq<nat>, w: nat -> real, m: nat, x: nat)
    requires m < |g| && g[m] == x
    ensures DotTo(g, w, m + 1) == DotTo(g, w, m) + x as real * w(m)
  {}

  lemma GainAt(ranked: seq<Id>, relevant: seq<Id>, i: nat)
    requires i < |ranked|
    ensures Gains(ranked, relevant)[i] == Worth(relevant, ranked[i])
  {
    var g := Gains(ranked, relevant);
    GainIsWorth(relevant, ranked[i]);
    assert g[i] == Gain(relevant, ranked[i]);
  }

  lemma LabelGainAt(relevant: seq<Id>, k: nat, i: nat)
    requires i < |Take(relevant, k)|
    ensures i < |relevant| && LabelGains(relevant, k)[i] == Worth(relevant, relevant[i])
  {
    GainAt(Take(relevant, k), relevant, i);
  }

  lemma {:induction false} WorthsAddUp(g: seq<nat>, relevant: seq<Id>, w: nat -> real, top: nat)
    requires top <= |g| && top <= |relevant| && forall i :: 0 <= i < top ==> g[i] == Worth(relevant, relevant[i])
    ensures DotTo(g, w, top) == IdealSum(relevant, top, w)
  {
    if top > 0 {
      WorthsAddUp(g, relevant, w, top - 1);
      assert g[top - 1] == Worth(relevant, relevant[top - 1]);
    }
  }

  lemma LabelsEarnIdealSum(relevant: seq<Id>, k: nat, w: nat -> real)
    ensures |Take(relevant, k)| == Least(k, |relevant|)
    ensures Dot(LabelGains(relevant, k), w) == IdealSum(relevant, Least(k, |relevant|), w)
  {
    var top := |Take(relevant, k)|;
    forall i | 0 <= i < top ensures LabelGains(relevant, k)[i] == Worth(relevant, relevant[i]) {
      LabelGainAt(relevant, k, i);
    }
    WorthsAddUp(LabelGains(relevant, k), relevant, w, top);
  }

  lemma {:induction false} DistinctIdealSum(relevant: seq<Id>, top: nat, w: nat -> real)
    requires NoRepeats(relevant) && top <= |relevant|
    ensures IdealSum(relevant, top, w) == CountdownSum(|relevant|, top, w)
  {
    if top > 0 {
      DistinctIdealSum(relevant, top - 1, w);
      DistinctWorth(relevant, top - 1);
    }
  }

  lemma DistinctWorth(relevant: seq<Id>, i: nat)
    requires NoRepeats(relevant) && i < |relevant|
    ensures Worth(relevant, relevant[i]) == |relevant| - i
  {
    GainIsLastPosition(relevant, i);
    GainIsWorth(relevant, relevant[i]);
  }

  // ---------------------------------------------------------------- NDCG

  lemma DedupOfOneMore(retrieved: seq<Id>, x: Id)
    ensures Dedup(retrieved + [x]) == if x in retrieved then Dedup(retrieved) else Dedup(retrieved) + [x]
    ensures |Dedup(retrieved)| == |SetOf(retrieved)|
  {
    assert (retrieved + [x])[..|retrieved|] == retrieved;
    SetSizeMeansNoRepeats(Dedup(retrieved));
    assert SetOf(Dedup(retrieved)) == SetOf(retrieved);
  }

  lemma DotOfOneMore(g: seq<nat>, more: seq<nat>, w: nat -> real, r: nat, x: nat)
    requires |g| == r && |more| == r + 1 && more[r] == x && forall i :: 0 <= i < r ==> more[i] == g[i]
    ensures Dot(more, w) == Dot(g, w) + x as real * w(r)
  {
    DotAgrees(more, g, w, r);
    DotGrows(more, w, r, x);
  }

  lemma GainsOfOneMore(ranked: seq<Id>, x: Id, relevant: seq<Id>, w: nat -> real, r: nat, before: real)
    requires |ranked| == r && before == Dot(Gains(ranked, relevant), w)
    ensures Dot(Gains(ranked + [x], relevant), w) == before + Worth(relevant, x) as real * w(r)
  {
    GainAt(ranked + [x], relevant, r);
    DotOfOneMore(Gains(ranked, relevant), Gains(ranked + [x], relevant), w, r, Worth(relevant, x));
  }

  /** A part of a whole. */
  function Part(worth: nat, weight: real, whole: real): real
    requires whole != 0.0
  {
    worth as real * weight / whole
  }

  lemma NothingIsNoPart(weight: real, whole: real)
    requires whole != 0.0
    ensures Part(0, weight, whole) == 0.0
  {}

  lemma QuotientsDiffer(before: real, after: real, added: real, whole: real)
    requires whole != 0.0 && after == before + added
    ensures after / whole == before / whole + added / whole
  {}

  /** Two scores over one whole whose sums differ by a discounted worth. */
  predicate ScoresDiffer(low: real, high: real, before: real, worth: nat, weight: real, whole: real)
    requires whole != 0.0
  {
    low == before / whole && high == (before + worth as real * weight) / whole
  }

  lemma PartsAdd(low: real, high: real, before: real, worth: nat, weight: real, whole: real)
    requires whole != 0.0 && ScoresDiffer(low, high, before, worth, weight, whole)
    ensures high == low + Part(worth, weight, whole)
  {
    QuotientsDiffer(before, before + worth as real * weight, worth as real * weight, whole);
  }

  lemma NdcgIsQuotient(retrieved: seq<Id>, relevant: seq<Id>, k: nat, w: nat -> real, ranked: seq<Id>, sum: real)
    requires IsDiscount(w) && relevant != [] && k > 0
    requires ranked == Take(Dedup(retrieved), k) && sum == Dot(Gains(ranked, relevant), w)
    ensures IdealSum(relevant, Least(k, |relevant|), w) > 0.0
    ensures Ndcg(retrieved, relevant, k, w) == sum / IdealSum(relevant, Least(k, |relevant|), w)
  {
    LabelsEarnIdealSum(relevant, k, w);
    IdealIsPositive(relevant, k, w);
  }

  /** Without labels, or for no rank at all, both metrics are 0. */
  lemma NothingWantedScoresZero(retrieved: seq<Id>, relevant: seq<Id>, k: int, w: nat -> real)
    requires k <= 0 || relevant == []
    ensures Ndcg(retrieved, relevant, k, w) == 0.0 && RecallAtK(retrieved, relevant, k) == 0.0
  {}

  /** An empty list scores 0. */
  lemma NothingRetrievedScoresZero(relevant: seq<Id>, k: nat, w: nat -> real)
    requires IsDiscount(w) && relevant != [] && k > 0
    ensures Ndcg([], relevant, k, w) == 0.0
  {
    NdcgIsQuotient([], relevant, k, w, [], 0.0);
    NothingIsNoPart(0.0, IdealSum(relevant, Least(k, |relevant|), w));
  }

  /** A repeated result, or one beyond the first k distinct results, adds nothing. */
  lemma IdleResultAddsNothing(retrieved: seq<Id>, x: Id, relevant: seq<Id>, k: nat, w: nat -> real)
    requires x in retrieved || |SetOf(retrieved)| >= k
    ensures Ndcg(retrieved + [x], relevant, k, w) == Ndcg(retrieved, relevant, k, w)
  {
    DedupOfOneMore(retrieved, x);
    assert Take(Dedup(retrieved + [x]), k) == Take(Dedup(retrieved), k);
  }

  lemma RankingOfOneMore(retrieved: seq<Id>, x: Id, k: nat)
    requires x !in retrieved && |SetOf(retrieved)| < k
    ensures Take(Dedup(retrieved), k) == Dedup(retrieved) && |Dedup(retrieved)| == |SetOf(retrieved)|
    ensures Take(Dedup(retrieved + [x]), k) == Dedup(retrieved) + [x]
  {
    DedupOfOneMore(retrieved, x);
  }

  lemma SumOfOneMore(retrieved: seq<Id>, x: Id, relevant: seq<Id>, k: nat, w: nat -> real, r: nat) returns (before: real)
    requires IsDiscount(w) && relevant != [] && k > 0 && x !in retrieved && |SetOf(retrieved)| == r < k
    ensures var ideal := IdealSum(relevant, Least(k, |relevant|), w);
            && ideal > 0.0
            && ScoresDiffer(Ndcg(retrieved, relevant, k, w), Ndcg(retrieved + [x], relevant, k, w), before,
                            Worth(relevant, x), w(r), ideal)
  {
    var found := Dedup(retrieved);
    RankingOfOneMore(retrieved, x, k);
    before := Dot(Gains(found, relevant), w);
    GainsOfOneMore(found, x, relevant, w, r, before);
    NdcgIsQuotient(retrieved, relevant, k, w, found, before);
    NdcgIsQuotient(retrieved + [x], relevant, k, w, found + [x], before + Worth(relevant, x) as real * w(r));
  }

  /** A new result among the first k distinct ones, r of them before it, adds exactly its worth, discounted at
      its position, as a part of the ideal sum. */
  lemma NewResultAddsItsWorth(retrieved: seq<Id>, x: Id, relevant: seq<Id>, k: nat, w: nat -> real, r: nat)
    requires IsDiscount(w) && relevant != [] && k > 0 && x !in retrieved && |SetOf(retrieved)| == r < k
    ensures IdealSum(relevant, Least(k, |relevant|), w) > 0.0
    ensures Ndcg(retrieved + [x], relevant, k, w) == Ndcg(retrieved, relevant, k, w) +
            Part(Worth(relevant, x), w(r), IdealSum(relevant, Least(k, |relevant|), w))
  {
    var before := SumOfOneMore(retrieved, x, relevant, k, w, r);
    PartsAdd(Ndcg(retrieved, relevant, k, w), Ndcg(retrieved + [x], relevant, k, w), before,
             Worth(relevant, x), w(r), IdealSum(relevant, Least(k, |relevant|), w));
  }

  lemma {:induction false} MissesScoreZero(misses: seq<Id>, relevant: seq<Id>, k: nat, w: nat -> real)
    requires IsDiscount(w) && relevant != [] && k > 0
    requires forall x :: x in misses ==> x !in relevant
    ensures Ndcg(misses, relevant, k, w) == 0.0
  {
    if misses == [] {
      NothingRetrievedScoresZero(relevant, k, w);
    } else {
      var front, last := misses[..|misses| - 1], misses[|misses| - 1];
      assert misses == front + [last];
      MissesScoreZero(front, relevant, k, w);
      MissAddsNothing(front, last, relevant, k, w);
    }
  }

  lemma MissAddsNothing(retrieved: seq<Id>, x: Id, relevant: seq<Id>, k: nat, w: nat -> real)
    requires IsDiscount(w) && relevant != [] && k > 0 && x !in relevant
    ensures Ndcg(retrieved + [x], relevant, k, w) == Ndcg(retrieved, relevant, k, w)
  {
    if x in retrieved || |SetOf(retrieved)| >= k {
      IdleResultAddsNothing(retrieved, x, relevant, k, w);
    } else {
      WorthIsLastPosition(relevant, x, |relevant|);
      NewResultAddsItsWorth(retrieved, x, relevant, k, w, |SetOf(retrieved)|);
      NothingIsNoPart(w(|SetOf(retrieved)|), IdealSum(relevant, Least(k, |relevant|), w));
    }
  }

  lemma DistinctPart(relevant: seq<Id>, i: nat, k: nat, w: nat -> real, weight: real, worth: nat, ideal: real)
    requires NoRepeats(relevant) && i < |relevant| && worth == |relevant| - i
    requires ideal == CountdownSum(|relevant|, Least(k, |relevant|), w) && IdealSum(relevant, Least(k, |relevant|), w) > 0.0
    ensures ideal == IdealSum(relevant, Least(k, |relevant|), w)
    ensures Part(Worth(relevant, relevant[i]), weight, IdealSum(relevant, Least(k, |relevant|), w)) == Part(worth, weight, ideal)
  {
    DistinctIdealSum(relevant, Least(k, |relevant|), w);
    DistinctWorth(relevant, i);
  }

  /** The first hit after r distinct misses scores its worth at that position. */
  lemma HitAfterMisses(misses: seq<Id>, hit: Id, relevant: seq<Id>, k: nat, w: nat -> real, r: nat)
    requires IsDiscount(w) && hit in relevant && k > 0
    requires NoRepeats(misses) && |misses| == r < k && forall x :: x in misses ==> x !in relevant
    ensures IdealSum(relevant, Least(k, |relevant|), w) > 0.0
    ensures Ndcg(misses + [hit], relevant, k, w) == Part(Worth(relevant, hit), w(r), IdealSum(relevant, Least(k, |relevant|), w))
  {
    MissesScoreZero(misses, relevant, k, w);
    SetSizeMeansNoRepeats(misses);
    NewResultAddsItsWorth(misses, hit, relevant, k, w, r);
  }

  /** One hit alone, label i after r distinct misses, scores (n - i) w(r) over the sum of (n - p) w(p) for the
      positions p below min(k, n). */
  lemma OneHitAlone(misses: seq<Id>, relevant: seq<Id>, i: nat, k: nat, w: nat -> real, r: nat, worth: nat, ideal: real)
    requires IsDiscount(w) && NoRepeats(relevant) && i < |relevant| && worth == |relevant| - i
    requires NoRepeats(misses) && |misses| == r < k && forall x :: x in misses ==> x !in relevant
    requires ideal == CountdownSum(|relevant|, Least(k, |relevant|), w)
    ensures ideal > 0.0
    ensures Ndcg(misses + [relevant[i]], relevant, k, w) == Part(worth, w(r), ideal)
  {
    HitAfterMisses(misses, relevant[i], relevant, k, w, r);
    DistinctPart(relevant, i, k, w, w(r), worth, ideal);
  }

  // ---------------------------------------------------------------- recall

  /** An empty list recalls nothing. */
  lemma NothingRetrievedRecallsNothing(relevant: seq<Id>, k: int)
    ensures RecallAtK([], relevant, k) == 0.0
  {
    if k > 0 && relevant != [] {
      assert relevant[0] in SetOf(relevant);
      assert Dedup([]) == [] && Take(Dedup([]), k) == [];
      assert SetOf(Take(Dedup([]), k)) * SetOf(relevant) == {};
    }
  }

  lemma RecallIsQuotient(retrieved: seq<Id>, relevant: seq<Id>, k: nat, ranked: seq<Id>, hits: nat)
    requires relevant != [] && k > 0 && ranked == Take(Dedup(retrieved), k) && hits == |SetOf(ranked) * SetOf(relevant)|
    ensures |SetOf(relevant)| > 0 && RecallAtK(retrieved, relevant, k) == hits as real / |SetOf(relevant)| as real
  {
    assert relevant[0] in SetOf(relevant);
  }

  lemma HitsOfOneMore(ranked: seq<Id>, x: Id, relevant: seq<Id>)
    requires x !in ranked
    ensures |SetOf(ranked + [x]) * SetOf(relevant)| == |SetOf(ranked) * SetOf(relevant)| + if x in relevant then 1 else 0
  {
    var hits := SetOf(ranked) * SetOf(relevant);
    assert SetOf(ranked + [x]) == SetOf(ranked) + {x};
    if x in relevant {
      assert SetOf(ranked + [x]) * SetOf(relevant) == hits + {x};
    } else {
      assert SetOf(ranked + [x]) * SetOf(relevant) == hits;
    }
  }

  /** A repeated result, or one beyond the first k distinct results, recalls nothing more. */
  lemma IdleResultRecallsNothing(retrieved: seq<Id>, x: Id, relevant: seq<Id>, k: nat)
    requires x in retrieved || |SetOf(retrieved)| >= k
    ensures RecallAtK(retrieved + [x], relevant, k) == RecallAtK(retrieved, relevant, k)
  {
    DedupOfOneMore(retrieved, x);
    assert Take(Dedup(retrieved + [x]), k) == Take(Dedup(retrieved), k);
  }

  /** A new result among the first k distinct ones raises recall by exactly one label's share if it is a
      label, and by nothing otherwise. */
  lemma NewHitAddsItsShare(retrieved: seq<Id>, x: Id, relevant: seq<Id>, k: nat)
    requires relevant != [] && k > 0 && x !in retrieved && |SetOf(retrieved)| < k
    ensures |SetOf(relevant)| > 0
    ensures RecallAtK(retrieved + [x], relevant, k) == RecallAtK(retrieved, relevant, k) +
            (if x in relevant then 1.0 else 0.0) / |SetOf(relevant)| as real
  {
    var found := Dedup(retrieved);
    var before, added := |SetOf(found) * SetOf(relevant)|, if x in relevant then 1 else 0;
    RankingOfOneMore(retrieved, x, k);
    HitsOfOneMore(found, x, relevant);
    RecallIsQuotient(retrieved, relevant, k, found, before);
    RecallIsQuotient(retrieved + [x], relevant, k, found + [x], before + added);
    QuotientsDiffer(before as real, (before + added) as real, added as real, |SetOf(relevant)| as real);
  }
}
