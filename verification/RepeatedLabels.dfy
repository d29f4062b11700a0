/**
 NDCG when the labels may repeat.  The dictionary of gains keeps the last, smallest gain of a repeated
 label, and the ideal order counts it at every occurrence; this module says exactly when the score
 still cannot exceed 1.
 */
module RepeatedLabels {
  import opened Sequences
  import opened RankingMetrics

  /** The labels in order of their last occurrence, which is the order of falling gain. */
  function LastLabels(relevant: seq<Id>): (r: seq<Id>)
    ensures |r| <= |relevant| && forall x :: x in r <==> x in relevant
    ensures NoRepeats(r)
  {
    if relevant == [] then [] else
      var rest := LastLabels(relevant[1..]);
      assert relevant == [relevant[0]] + relevant[1..];
      if relevant[0] in relevant[1..] then rest else [relevant[0]] + rest
  }

  /** The distinct gains, largest first. */
  function Tops(relevant: seq<Id>): seq<nat> { Gains(LastLabels(relevant), relevant) }

  /** The gains that the ideal order adds up. */
  function LabelGains(relevant: seq<Id>, k: nat): seq<nat> { Gains(Take(relevant, k), relevant) }

  lemma {:induction false} TopsFall(relevant: seq<Id>)
    ensures Falling(Tops(relevant)) && |Tops(relevant)| <= |relevant|
  {
    if relevant != [] {
      TopsFall(relevant[1..]);
      TopsOfOneMore(relevant);
      FallingWithLarger(|relevant|, Tops(relevant[1..]));
      assert [] + Tops(relevant[1..]) == Tops(relevant[1..]);
    }
  }

  lemma FallingWithLarger(x: nat, t: seq<nat>)
    requires Falling(t) && x > 0 && forall i :: 0 <= i < |t| ==> t[i] < x
    ensures Falling([x] + t)
  {}

  lemma GainIsTop(relevant: seq<Id>, x: Id)
    ensures Gain(relevant, x) == 0 || Gain(relevant, x) in Tops(relevant)
  {
    if x in relevant {
      var i :| 0 <= i < |LastLabels(relevant)| && LastLabels(relevant)[i] == x;
      assert Tops(relevant)[i] == Gain(relevant, x);
    }
  }

  lemma GainsOfTail(items: seq<Id>, relevant: seq<Id>)
    requires relevant != [] && forall x :: x in items ==> x in relevant[1..]
    ensures Gains(items, relevant) == Gains(items, relevant[1..])
  {
    forall i | 0 <= i < |items| ensures Gain(relevant, items[i]) == Gain(relevant[1..], items[i]) {
      assert items[i] in relevant[1..];
    }
  }

  lemma TopsOfOneMore(relevant: seq<Id>)
    requires relevant != []
    ensures Tops(relevant) == (if relevant[0] in relevant[1..] then [] else [|relevant|]) + Tops(relevant[1..])
  {
    var rest := LastLabels(relevant[1..]);
    GainsOfTail(rest, relevant);
    if relevant[0] in relevant[1..] {
      assert Gains(rest, relevant) == Tops(relevant);
    } else {
      GainsOfHead(relevant[0], rest, relevant);
    }
  }

  lemma GainsOfHead(x: Id, rest: seq<Id>, relevant: seq<Id>)
    requires relevant != [] && x == relevant[0] && x !in relevant[1..]
    ensures Gains([x] + rest, relevant) == [|relevant|] + Gains(rest, relevant)
  {}

  /** In every prefix the labels in their own order earn at least the largest distinct gains. */
  predicate LabelsLead(relevant: seq<Id>, k: nat) {
    forall m: nat :: m <= |Take(relevant, k)| ==> Sum(Take(Tops(relevant), m)) <= Sum(LabelGains(relevant, k)[..m])
  }

  // ---------------------------------------------------------------- the best ranking

  lemma {:induction false} DotOfPad(g: seq<nat>, w: nat -> real, len: nat)
    requires |g| <= len
    ensures Dot(Pad(g, len), w) == Dot(g, w)
    decreases len
  {
    if |g| == len {
      assert Pad(g, len) == g;
    } else {
      DotOfPad(g, w, len - 1);
      DotAgrees(Pad(g, len), Pad(g, len - 1), w, len - 1);
    }
  }

  ghost predicate Dominated(a: seq<nat>, b: seq<nat>) {
    forall m: nat :: Sum(Take(a, m)) <= Sum(Take(b, m))
  }

  /** Prefix sums that never lead give the smaller discounted sum, whatever the lengths. */
  lemma DominatedEarnsLess(a: seq<nat>, b: seq<nat>, w: nat -> real)
    requires IsDiscount(w) && Dominated(a, b)
    ensures Dot(a, w) <= Dot(b, w)
  {
    var len := |a| + |b|;
    forall m | 0 <= m <= len ensures Sum(Pad(a, len)[..m]) <= Sum(Pad(b, len)[..m]) {
      assert Pad(a, len)[..m] == Pad(a, m) && Pad(b, len)[..m] == Pad(b, m);
      SumOfPad(a, m);
      SumOfPad(b, m);
      assert Sum(Take(a, m)) <= Sum(Take(b, m));
    }
    DotOfPad(a, w, len);
    DotOfPad(b, w, len);
    PrefixDominance(Pad(a, len), Pad(b, len), w, len);
  }

  lemma {:induction false} LongerSumsMore(g: seq<nat>, m: nat, n: nat)
    requires m <= n
    ensures Sum(Take(g, m)) <= Sum(Take(g, n))
  {
    SumMonotone(Pad(Take(g, m), n), Pad(g, n));
    SumOfPad(Take(g, m), n);
    SumOfPad(g, n);
  }

  lemma TakeOfTake<T>(s: seq<T>, k: nat, m: nat)
    ensures Take(Take(s, k), m) == Take(s, if k < m then k else m)
  {}

  lemma GainsAreTops(ranked: seq<Id>, relevant: seq<Id>, m: nat)
    requires NoRepeats(ranked)
    ensures DistinctPositive(Take(Gains(ranked, relevant), m)) && AmongOrZero(Take(Gains(ranked, relevant), m), Tops(relevant))
  {
    var taken := Take(Gains(ranked, relevant), m);
    forall i | 0 <= i < |taken| ensures taken[i] == 0 || taken[i] in Tops(relevant) {
      GainIsTop(relevant, ranked[i]);
    }
  }

  lemma PrefixIsDominated(ranked: seq<Id>, relevant: seq<Id>, k: nat, m: nat)
    requires NoRepeats(ranked) && |ranked| <= k
    ensures Sum(Take(Gains(ranked, relevant), m)) <= Sum(Take(Take(Tops(relevant), k), m))
  {
    var taken, tops := Take(Gains(ranked, relevant), m), Tops(relevant);
    TopsFall(relevant);
    GainsAreTops(ranked, relevant, m);
    SumAtMostTop(taken, tops);
    TakeOfTake(tops, k, m);
    LongerSumsMore(tops, |taken|, if k < m then k else m);
  }

  /** No list of at most k distinct results leads the largest distinct gains in any prefix. */
  lemma ResultsAreDominated(ranked: seq<Id>, relevant: seq<Id>, k: nat)
    requires NoRepeats(ranked) && |ranked| <= k
    ensures Dominated(Gains(ranked, relevant), Take(Tops(relevant), k))
  {
    forall m: nat ensures Sum(Take(Gains(ranked, relevant), m)) <= Sum(Take(Take(Tops(relevant), k), m)) {
      PrefixIsDominated(ranked, relevant, k, m);
    }
  }

  /** For every discount the distinct labels in order of falling gain are the best results. */
  lemma FallingGainsAreBest(retrieved: seq<Id>, relevant: seq<Id>, k: nat, w: nat -> real)
    requires IsDiscount(w)
    ensures Dot(Gains(Take(Dedup(retrieved), k), relevant), w) <= Dot(Take(Tops(relevant), k), w)
  {
    ResultsAreDominated(Take(Dedup(retrieved), k), relevant, k);
    DominatedEarnsLess(Gains(Take(Dedup(retrieved), k), relevant), Take(Tops(relevant), k), w);
  }

  lemma {:induction false} DedupOfDistinct(items: seq<Id>)
    requires NoRepeats(items)
    ensures Dedup(items) == items
  {
    if items != [] {
      DedupOfDistinct(items[..|items| - 1]);
    }
  }

  /** and they can be retrieved. */
  lemma BestIsReached(relevant: seq<Id>, k: nat)
    ensures Gains(Take(Dedup(LastLabels(relevant)), k), relevant) == Take(Tops(relevant), k)
  {
    DedupOfDistinct(LastLabels(relevant));
  }

  lemma IdealIsPositive(relevant: seq<Id>, k: nat, w: nat -> real)
    requires IsDiscount(w) && relevant != [] && k > 0
    ensures Dot(LabelGains(relevant, k), w) > 0.0
  {
    var g := LabelGains(relevant, k);
    DotNonNegative(g, w, |g| - 1);
    LastTermIsPositive(g, w);
  }

  lemma LastTermIsPositive(g: seq<nat>, w: nat -> real)
    requires g != [] && g[|g| - 1] > 0 && w(|g| - 1) > 0.0 && DotTo(g, w, |g| - 1) >= 0.0
    ensures Dot(g, w) > 0.0
  {
    assert g[|g| - 1] as real * w(|g| - 1) > 0.0;
  }

  lemma CompareWithOne(part: real, whole: real)
    requires whole > 0.0
    ensures part / whole <= 1.0 <==> part <= whole
  {
    if part > whole {
      GreaterQuotient(part, whole);
    } else {
      var ratio := part / whole;
      assert ratio * whole == part;
      assert (1.0 - ratio) * whole == whole - part;
    }
  }

  lemma NdcgComparesSums(retrieved: seq<Id>, relevant: seq<Id>, k: nat, w: nat -> real)
    requires IsDiscount(w) && relevant != [] && k > 0
    ensures Ndcg(retrieved, relevant, k, w) <= 1.0 <==>
            Dot(Gains(Take(Dedup(retrieved), k), relevant), w) <= Dot(LabelGains(relevant, k), w)
  {
    IdealIsPositive(relevant, k, w);
    CompareWithOne(Dot(Gains(Take(Dedup(retrieved), k), relevant), w), Dot(LabelGains(relevant, k), w));
  }

  lemma BestResultsWin(relevant: seq<Id>, k: nat, w: nat -> real)
    requires IsDiscount(w) && relevant != [] && k > 0
    requires Dot(Take(Tops(relevant), k), w) > Dot(LabelGains(relevant, k), w)
    ensures Ndcg(LastLabels(relevant), relevant, k, w) > 1.0
  {
    BestIsReached(relevant, k);
    NdcgComparesSums(LastLabels(relevant), relevant, k, w);
  }

  /** For one discount: NDCG never exceeds 1 exactly when the falling gains do not beat the ideal order. */
  lemma BoundHoldsForDiscount(relevant: seq<Id>, k: nat, w: nat -> real)
    requires IsDiscount(w) && relevant != [] && k > 0
    ensures (forall retrieved :: Ndcg(retrieved, relevant, k, w) <= 1.0) <==>
            Dot(Take(Tops(relevant), k), w) <= Dot(LabelGains(relevant, k), w)
  {
    if Dot(Take(Tops(relevant), k), w) <= Dot(LabelGains(relevant, k), w) {
      forall retrieved ensures Ndcg(retrieved, relevant, k, w) <= 1.0 {
        FallingGainsAreBest(retrieved, relevant, k, w);
        NdcgComparesSums(retrieved, relevant, k, w);
      }
    } else {
      BestResultsWin(relevant, k, w);
    }
  }

  // ---------------------------------------------------------------- all discounts

  /** Leading labels lead at every length: past the labels neither side earns more. */
  lemma LeadingLabelsDominate(relevant: seq<Id>, k: nat)
    requires LabelsLead(relevant, k)
    ensures Dominated(Take(Tops(relevant), k), LabelGains(relevant, k))
  {
    var tops, labels := Tops(relevant), LabelGains(relevant, k);
    TopsFall(relevant);
    forall m: nat ensures Sum(Take(Take(tops, k), m)) <= Sum(Take(labels, m)) {
      TakeOfTake(tops, k, m);
      var len := if m < |labels| then m else |labels|;
      assert Take(labels, m) == labels[..len];
      assert Sum(Take(tops, len)) <= Sum(labels[..len]);
      if |labels| < m && |labels| < k {
        assert Take(tops, len) == tops;
      }
    }
  }

  /** A discount that is about 1 up to position m, and about 0 from there. */
  ghost predicate IsStep(w: nat -> real, m: nat, small: real) {
    forall i: nat :: small >= w(i) - (if i < m then 1.0 else 0.0) > 0.0
  }

  function Small(small: real, i: nat): real { small / (i + 1) as real }

  function StepDiscount(m: nat, small: real): nat -> real {
    (i: nat) => (if i < m then 1.0 else 0.0) + Small(small, i)
  }

  lemma SmallFalls(small: real, i: nat, j: nat)
    requires small > 0.0 && i < j
    ensures small >= Small(small, i) > Small(small, j) > 0.0
  {
    SmallerDenominator(small, 1.0, (i + 1) as real);
    SmallerDenominator(small, (i + 1) as real, (j + 1) as real);
  }

  lemma SmallerDenominator(a: real, b: real, c: real)
    requires a > 0.0 && 0.0 < b <= c
    ensures a / b >= a / c > 0.0
    ensures b < c ==> a / b > a / c
  {
    var x, y := a / b, a / c;
    assert x * b == a && y * c == a;
    assert (x - y) * b == y * (c - b);
  }

  lemma StepIsDiscount(m: nat, small: real)
    requires small > 0.0
    ensures IsDiscount(StepDiscount(m, small)) && IsStep(StepDiscount(m, small), m, small)
  {
    var w := StepDiscount(m, small);
    forall i: nat ensures small >= w(i) - (if i < m then 1.0 else 0.0) > 0.0 {
      SmallFalls(small, i, i + 1);
    }
    forall i: nat, j: nat | i < j ensures w(i) > w(j) {
      SmallFalls(small, i, j);
    }
  }

  function Constant(c: real): nat -> real { (i: nat) => c }

  function UpTo(m: nat): nat -> real { (i: nat) => if i < m then 1.0 else 0.0 }

  ghost predicate SumsBetween(g: seq<nat>, w: nat -> real, m: nat, small: real, len: nat)
    requires len <= |g|
  {
    DotTo(g, UpTo(m), len) <= DotTo(g, w, len) <= DotTo(g, UpTo(m), len) + DotTo(g, Constant(small), len)
  }

  ghost predicate StepHolds(g: seq<nat>, w: nat -> real, m: nat, small: real, len: nat)
    requires len <= |g|
  {
    var between := SumsBetween(g, w, m, small, len);
    between
  }

  lemma NextStepHolds(g: seq<nat>, w: nat -> real, m: nat, small: real, n: nat)
    requires IsStep(w, m, small) && n < |g| && StepHolds(g, w, m, small, n)
    ensures StepHolds(g, w, m, small, n + 1)
  {
    OneStep(g[n] as real, w(n), UpTo(m)(n), small);
  }

  /** Such a discount adds up the first m gains, and little else. */
  lemma {:induction false} StepSums(g: seq<nat>, w: nat -> real, m: nat, small: real, len: nat)
    requires IsStep(w, m, small) && len <= |g|
    ensures StepHolds(g, w, m, small, len)
  {
    if len > 0 {
      StepSums(g, w, m, small, len - 1);
      NextStepHolds(g, w, m, small, len - 1);
    }
  }

  lemma OneStep(x: real, w: real, weight: real, small: real)
    requires x >= 0.0 && small >= w - weight > 0.0
    ensures x * weight <= x * w <= x * weight + x * small
  {
    assert x * (w - weight) >= 0.0 && x * (small - (w - weight)) >= 0.0;
  }

  lemma {:induction false} FirstSums(g: seq<nat>, m: nat, len: nat)
    requires len <= |g|
    ensures DotTo(g, UpTo(m), len) == Sum(Take(g[..len], m)) as real
  {
    if len > 0 {
      FirstSums(g, m, len - 1);
      TakeOneMore(g, m, len - 1);
    }
  }

  lemma {:induction false} ConstantSums(g: seq<nat>, c: real, len: nat)
    requires len <= |g|
    ensures DotTo(g, Constant(c), len) == c * Sum(g[..len]) as real
  {
    if len > 0 {
      ConstantSums(g, c, len - 1);
      SumStep(g, len - 1);
      var before, x := Sum(g[..len - 1]) as real, g[len - 1] as real;
      assert c * (before + x) == c * before + x * c;
    }
  }

  lemma TakeOneMore(g: seq<nat>, m: nat, len: nat)
    requires len < |g|
    ensures Sum(Take(g[..len + 1], m)) == Sum(Take(g[..len], m)) + (if len < m then g[len] else 0)
  {
    if len < m {
      assert Take(g[..len + 1], m) == g[..len + 1] && Take(g[..len], m) == g[..len];
      SumStep(g, len);
    } else {
      assert Take(g[..len + 1], m) == Take(g[..len], m);
    }
  }

  lemma StepOvertakes(a: seq<nat>, b: seq<nat>, w: nat -> real, m: nat, small: real)
    requires IsStep(w, m, small) && Dot(b, Constant(small)) < 1.0 && Sum(Take(a, m)) > Sum(Take(b, m))
    ensures Dot(a, w) > Dot(b, w)
  {
    assert a[..|a|] == a && b[..|b|] == b;
    FirstSums(a, m, |a|);
    FirstSums(b, m, |b|);
    StepSums(a, w, m, small, |a|);
    StepSums(b, w, m, small, |b|);
  }

  lemma SpareLessThanOne(g: seq<nat>) returns (small: real)
    ensures small > 0.0 && Dot(g, Constant(small)) < 1.0
  {
    small := 1.0 / (Sum(g) as real + 1.0);
    assert small * (Sum(g) as real + 1.0) == 1.0;
    ConstantSums(g, small, |g|);
    assert g[..|g|] == g;
  }

  lemma LaggingLabelsEarnLess(relevant: seq<Id>, k: nat, m: nat) returns (w: nat -> real)
    requires m <= |Take(relevant, k)| && m <= k
    requires Sum(Take(Tops(relevant), m)) > Sum(LabelGains(relevant, k)[..m])
    ensures IsDiscount(w) && Dot(Take(Tops(relevant), k), w) > Dot(LabelGains(relevant, k), w)
  {
    var small := SpareLessThanOne(LabelGains(relevant, k));
    w := StepDiscount(m, small);
    StepIsDiscount(m, small);
    TakeOfTake(Tops(relevant), k, m);
    assert Take(LabelGains(relevant, k), m) == LabelGains(relevant, k)[..m];
    StepOvertakes(Take(Tops(relevant), k), LabelGains(relevant, k), w, m, small);
  }

  /** Where some prefix does not lead, a discount that drops after it lets a result list win. */
  lemma LaggingLabelsLose(relevant: seq<Id>, k: nat, m: nat) returns (w: nat -> real)
    requires relevant != [] && k > 0 && m <= |Take(relevant, k)|
    requires Sum(Take(Tops(relevant), m)) > Sum(LabelGains(relevant, k)[..m])
    ensures IsDiscount(w) && Ndcg(LastLabels(relevant), relevant, k, w) > 1.0
  {
    w := LaggingLabelsEarnLess(relevant, k, m);
    BestResultsWin(relevant, k, w);
  }

  ghost predicate NeverAboveOne(relevant: seq<Id>, k: nat) {
    forall retrieved, w :: IsDiscount(w) ==> Ndcg(retrieved, relevant, k, w) <= 1.0
  }

  /** Over all result lists and discounts NDCG never exceeds 1 exactly when, in every prefix of the first k
      labels, the largest distinct gains sum to at most the gains of the labels. */
  lemma BoundHoldsExactly(relevant: seq<Id>, k: nat)
    requires relevant != [] && k > 0
    ensures NeverAboveOne(relevant, k) <==> LabelsLead(relevant, k)
  {
    if LabelsLead(relevant, k) {
      LeadingLabelsDominate(relevant, k);
      forall retrieved, w: nat -> real | IsDiscount(w) ensures Ndcg(retrieved, relevant, k, w) <= 1.0 {
        DominatedEarnsLess(Take(Tops(relevant), k), LabelGains(relevant, k), w);
        BoundHoldsForDiscount(relevant, k, w);
      }
    } else {
      var m: nat :| m <= |Take(relevant, k)| && Sum(Take(Tops(relevant), m)) > Sum(LabelGains(relevant, k)[..m]);
      var w := LaggingLabelsLose(relevant, k, m);
    }
  }

  /** Labels without repeats always lead. */
  lemma DistinctLabelsLead(relevant: seq<Id>, k: nat)
    requires NoRepeats(relevant)
    ensures LabelsLead(relevant, k)
  {
    LastLabelsOfDistinct(relevant);
    forall m: nat | m <= |Take(relevant, k)| ensures Take(Tops(relevant), m) == LabelGains(relevant, k)[..m] {}
  }

  lemma {:induction false} LastLabelsOfDistinct(relevant: seq<Id>)
    requires NoRepeats(relevant)
    ensures LastLabels(relevant) == relevant
  {
    if relevant != [] {
      LastLabelsOfDistinct(relevant[1..]);
    }
  }
}
