/**
 Recall, reciprocal rank and NDCG over id sequences.  The position discount
 1 / log2(i + 2) is any positive, strictly decreasing function of the position.
 */
module RankingMetrics {
  import opened Sequences

  type Id = string

  // ---------------------------------------------------------------- deduplication

  /** The ids in order of their first occurrence. */
  function Dedup(items: seq<Id>): (r: seq<Id>)
    ensures forall x :: x in r <==> x in items
    ensures NoRepeats(r)
  {
    if items == [] then [] else
      var last := items[|items| - 1];
      assert items == items[..|items| - 1] + [last];
      var rest := Dedup(items[..|items| - 1]);
      if last in rest then rest else rest + [last]
  }

  /** The result keeps first occurrences, and keeps their order. */
  lemma {:induction false} DedupKeepsFirstOccurrences(items: seq<Id>, i: nat, j: nat)
    requires i < j < |items| && items[i] !in items[..i] && items[j] !in items[..j]
    ensures exists p, q :: 0 <= p < q < |Dedup(items)| && Dedup(items)[p] == items[i] && Dedup(items)[q] == items[j]
  {
    var n := |items| - 1;
    var front := items[..n];
    if j < n {
      assert items[..i] == front[..i] && items[..j] == front[..j];
      DedupKeepsFirstOccurrences(front, i, j);
      var p, q :| 0 <= p < q < |Dedup(front)| && Dedup(front)[p] == items[i] && Dedup(front)[q] == items[j];
      assert Dedup(items)[p] == items[i] && Dedup(items)[q] == items[j];
    } else {
      assert items[i] == front[i] && items[i] in Dedup(front);
      var p :| 0 <= p < |Dedup(front)| && Dedup(front)[p] == items[i];
      assert Dedup(items)[p] == items[i] && Dedup(items)[|Dedup(front)|] == items[j];
    }
  }

  method DedupKeepOrder(items: seq<Id>) returns (result: seq<Id>)
    ensures result == Dedup(items)
  {
    var seen: set<Id> := {};
    result := [];
    for n := 0 to |items|
      invariant result == Dedup(items[..n])
      invariant forall x :: x in seen <==> x in result
    {
      assert items[..n + 1][..n] == items[..n];
      if items[n] !in seen {
        seen := seen + {items[n]};
        result := result + [items[n]];
      }
    }
    assert items[..|items|] == items;
  }

  function Take<T>(s: seq<T>, k: int): (r: seq<T>)
    ensures k >= |s| ==> r == s
  {
    if k <= 0 then [] else if k < |s| then s[..k] else s
  }

  // ---------------------------------------------------------------- recall and reciprocal rank

  function RecallAtK(retrieved: seq<Id>, relevant: seq<Id>, k: int): real
  {
    if k <= 0 || relevant == [] then 0.0 else
      assert relevant[0] in SetOf(relevant);
      |SetOf(Take(Dedup(retrieved), k)) * SetOf(relevant)| as real / |SetOf(relevant)| as real
  }

  /** Recall is a fraction and never falls when k grows. */
  lemma RecallIsMonotone(retrieved: seq<Id>, relevant: seq<Id>, k: int, k': int)
    requires k <= k'
    ensures 0.0 <= RecallAtK(retrieved, relevant, k) <= RecallAtK(retrieved, relevant, k') <= 1.0
  {
    if k' > 0 && relevant != [] {
      var rel := SetOf(relevant);
      assert relevant[0] in rel;
      var hits, hits' := SetOf(Take(Dedup(retrieved), k)) * rel, SetOf(Take(Dedup(retrieved), k')) * rel;
      SubsetIsSmaller(hits, hits');
      SubsetIsSmaller(hits', rel);
      DivMonotone(|hits|, |hits'|, |rel|);
      DivMonotone(|hits'|, |rel|, |rel|);
      DivIsOne(|rel|, |rel|);
    }
  }

  /** Recall is 1 exactly when every label is among the first k results. */
  lemma RecallIsCoverage(retrieved: seq<Id>, relevant: seq<Id>, k: int)
    requires k > 0 && relevant != []
    ensures RecallAtK(retrieved, relevant, k) == 1.0 <==> forall x :: x in relevant ==> x in Take(Dedup(retrieved), k)
  {
    var rel, top := SetOf(relevant), Take(Dedup(retrieved), k);
    assert relevant[0] in rel;
    var hits := SetOf(top) * rel;
    DivIsOne(|hits|, |rel|);
    if |hits| == |rel| {
      SubsetIsSmaller(hits, rel);
      forall x | x in relevant ensures x in top { assert x in hits; }
    }
    if forall x :: x in relevant ==> x in top {
      assert hits == rel;
    }
  }

  lemma DivMonotone(a: nat, b: nat, d: nat)
    requires a <= b && d > 0
    ensures 0.0 <= a as real / d as real <= b as real / d as real
  {}

  lemma DivIsOne(a: nat, d: nat)
    requires d > 0
    ensures a as real / d as real == 1.0 <==> a == d
  {}

  /** The reciprocal of the 1-based rank of the first relevant result, 0 when there is none. */
  method Mrr(retrieved: seq<Id>, relevant: seq<Id>) returns (r: real)
    ensures (forall x :: x in retrieved ==> x !in relevant) ==> r == 0.0
    ensures (exists x :: x in retrieved && x in relevant) ==>
              exists rank :: 1 <= rank <= |Dedup(retrieved)| && r == 1.0 / rank as real && FirstHit(Dedup(retrieved), relevant, rank)
  {
    var rel := SetOf(relevant);
    if rel == {} {
      assert forall x :: x in relevant ==> x in rel;
      return 0.0;
    }
    var ranked := DedupKeepOrder(retrieved);
    for i := 0 to |ranked|
      invariant forall j :: 0 <= j < i ==> ranked[j] !in relevant
    {
      if ranked[i] in rel {
        assert FirstHit(Dedup(retrieved), relevant, i + 1);
        return 1.0 / (i + 1) as real;
      }
    }
    r := 0.0;
  }

  ghost predicate FirstHit(ranked: seq<Id>, relevant: seq<Id>, rank: nat)
    requires 1 <= rank <= |ranked|
  {
    ranked[rank - 1] in relevant && forall j :: 0 <= j < rank - 1 ==> ranked[j] !in relevant
  }

  // ---------------------------------------------------------------- NDCG

  ghost predicate IsDiscount(w: nat -> real) {
    (forall i :: w(i) > 0.0) && forall i, j :: i < j ==> w(i) > w(j)
  }

  /** The dictionary of gains: position i of the labels earns |relevant| - i, and for an id that
      occurs twice the later entry wins. */
  function Gain(relevant: seq<Id>, item: Id): (g: nat)
    ensures g <= |relevant|
    ensures g > 0 <==> item in relevant
    ensures g > 0 ==> relevant[|relevant| - g] == item
  {
    if relevant == [] then 0
    else if item in relevant[1..] then Gain(relevant[1..], item)
    else if relevant[0] == item then |relevant| else 0
  }

  /** The gains of a result list, position by position. */
  function Gains(ranked: seq<Id>, relevant: seq<Id>): (g: seq<nat>)
    ensures |g| == |ranked| && forall i :: 0 <= i < |g| ==> g[i] == Gain(relevant, ranked[i])
  {
    seq(|ranked|, i requires 0 <= i < |ranked| => Gain(relevant, ranked[i]))
  }

  /** The discounted sum of the first `m` gains. */
  function DotTo(g: seq<nat>, w: nat -> real, m: nat): real
    requires m <= |g|
  {
    if m == 0 then 0.0 else DotTo(g, w, m - 1) + g[m - 1] as real * w(m - 1)
  }

  function Dot(g: seq<nat>, w: nat -> real): real { DotTo(g, w, |g|) }

  lemma {:induction false} DotAgrees(g: seq<nat>, h: seq<nat>, w: nat -> real, m: nat)
    requires m <= |g| && m <= |h| && forall i :: 0 <= i < m ==> g[i] == h[i]
    ensures DotTo(g, w, m) == DotTo(h, w, m)
  {
    if m > 0 {
      DotAgrees(g, h, w, m - 1);
    }
  }

  function Ndcg(retrieved: seq<Id>, relevant: seq<Id>, k: int, w: nat -> real): real {
    if k <= 0 || relevant == [] then 0.0 else
      var dcg := Dot(Gains(Take(Dedup(retrieved), k), relevant), w);
      var ideal := Dot(Gains(Take(relevant, k), relevant), w);
      if ideal != 0.0 then dcg / ideal else 0.0
  }

  function Sum(g: seq<nat>): nat { if g == [] then 0 else Sum(g[..|g| - 1]) + g[|g| - 1] }

  /** n, n - 1, ..., 1, 0, 0, ...: the best `len` gains n labels can give. */
  function Best(n: nat, len: nat): (g: seq<nat>)
    ensures |g| == len
    ensures forall i :: 0 <= i < len ==> g[i] == (if i < n then n - i else 0)
  {
    seq(len, i requires 0 <= i => if i < n then n - i else 0)
  }

  ghost predicate DistinctPositive(g: seq<nat>) {
    forall i, j :: 0 <= i < j < |g| && g[i] > 0 ==> g[i] != g[j]
  }

  lemma {:induction false} SumOfConcat(a: seq<nat>, b: seq<nat>)
    ensures Sum(a + b) == Sum(a) + Sum(b)
  {
    if b == [] {
      assert a + b == a;
    } else {
      assert (a + b)[..|a + b| - 1] == a + b[..|b| - 1];
      SumOfConcat(a, b[..|b| - 1]);
    }
  }

  /** The list without its entry at p. */
  function Remove(g: seq<nat>, p: nat): (rest: seq<nat>)
    requires p < |g|
    ensures |rest| == |g| - 1 && forall i :: 0 <= i < |rest| ==> rest[i] == g[if i < p then i else i + 1]
  {
    seq(|g| - 1, i requires 0 <= i < |g| - 1 => g[if i < p then i else i + 1])
  }

  lemma {:induction false} SumSplit(g: seq<nat>, p: nat)
    requires p < |g|
    ensures Sum(g) == Sum(Remove(g, p)) + g[p]
  {
    var n := |g| - 1;
    if p == n {
      assert Remove(g, p) == g[..n];
    } else {
      SumSplit(g[..n], p);
      assert Remove(g, p)[..n - 1] == Remove(g[..n], p);
    }
  }

  /** The list cut or filled up with zeros to a length. */
  function Pad(g: seq<nat>, len: nat): (r: seq<nat>)
    ensures |r| == len && forall i :: 0 <= i < len ==> r[i] == (if i < |g| then g[i] else 0)
  {
    seq(len, i requires 0 <= i => if i < |g| then g[i] else 0)
  }

  lemma {:induction false} SumOfPad(g: seq<nat>, len: nat)
    ensures Sum(Pad(g, len)) == Sum(Take(g, len))
  {
    if len > 0 {
      SumOfPad(g, len - 1);
      assert Pad(g, len)[..len - 1] == Pad(g, len - 1);
      if len <= |g| {
        assert Take(g, len)[..len - 1] == Take(g, len - 1);
      }
    }
  }

  /** Gains that fall strictly from position to position. */
  ghost predicate Falling(t: seq<nat>) {
    (forall i :: 0 <= i < |t| ==> t[i] > 0) && forall i, j :: 0 <= i < j < |t| ==> t[i] > t[j]
  }

  ghost predicate AmongOrZero(g: seq<nat>, t: seq<nat>) {
    forall i :: 0 <= i < |g| ==> g[i] == 0 || g[i] in t
  }

  lemma WithoutTop(g: seq<nat>, t: seq<nat>, p: nat)
    requires Falling(t) && t != [] && DistinctPositive(g) && AmongOrZero(g, t) && p < |g| && g[p] == t[0]
    ensures DistinctPositive(Remove(g, p)) && AmongOrZero(Remove(g, p), t[1..])
  {
    var rest := Remove(g, p);
    forall i | 0 <= i < |rest| ensures rest[i] == 0 || rest[i] in t[1..] {
      var at := if i < p then i else i + 1;
      assert at < p ==> g[at] != g[p];
      assert p < at ==> g[p] != g[at];
      if g[at] != 0 {
        var j :| 0 <= j < |t| && t[j] == g[at];
        assert t[1..][j - 1] == t[j];
      }
    }
  }

  lemma WithTop(t: seq<nat>, len: nat)
    requires t != [] && len > 0
    ensures Sum(Take(t, len)) == t[0] + Sum(Take(t[1..], len - 1))
  {
    assert Take(t, len) == [t[0]] + Take(t[1..], len - 1);
    SumOfConcat([t[0]], Take(t[1..], len - 1));
  }

  lemma TopTaken(g: seq<nat>, t: seq<nat>, p: nat)
    requires Falling(t) && t != [] && DistinctPositive(g) && AmongOrZero(g, t) && p < |g| && g[p] == t[0]
    ensures Sum(g) <= Sum(Take(t, |g|))
    decreases |t|, 0
  {
    WithoutTop(g, t, p);
    SumAtMostTop(Remove(g, p), t[1..]);
    SumSplit(g, p);
    WithTop(t, |g|);
  }

  /** Distinct gains taken from a falling list cannot add up to more than its first entries. */
  lemma {:induction false} SumAtMostTop(g: seq<nat>, t: seq<nat>)
    requires DistinctPositive(g) && Falling(t) && AmongOrZero(g, t)
    ensures Sum(g) <= Sum(Take(t, |g|))
    decreases |t|, 1
  {
    if t == [] {
      SumMonotone(g, Pad(t, |g|));
      SumOfPad(t, |g|);
    } else if p :| 0 <= p < |g| && g[p] == t[0] {
      TopTaken(g, t, p);
    } else {
      forall i | 0 <= i < |g| && g[i] != 0 ensures g[i] in t[1..] {
        assert t == [t[0]] + t[1..];
      }
      SumAtMostTop(g, t[1..]);
      DroppingTopLowers(t, |g|);
    }
  }

  lemma DroppingTopLowers(t: seq<nat>, len: nat)
    requires Falling(t) && t != []
    ensures Sum(Take(t[1..], len)) <= Sum(Take(t, len))
  {
    SumOfPad(t[1..], len);
    SumOfPad(t, len);
    SumMonotone(Pad(t[1..], len), Pad(t, len));
  }

  /** Distinct positive gains up to n cannot add up to more than the best ones. */
  lemma SumAtMostBest(g: seq<nat>, n: nat)
    requires DistinctPositive(g) && forall i :: 0 <= i < |g| ==> g[i] <= n
    ensures Sum(g) <= Sum(Best(n, |g|))
  {
    var t := Best(n, n);
    forall i | 0 <= i < |g| && g[i] > 0 ensures g[i] in t {
      assert t[n - g[i]] == g[i];
    }
    SumAtMostTop(g, t);
    SumOfPad(t, |g|);
    assert Pad(t, |g|) == Best(n, |g|);
  }

  lemma {:induction false} SumMonotone(a: seq<nat>, b: seq<nat>)
    requires |a| == |b| && forall i :: 0 <= i < |a| ==> a[i] <= b[i]
    ensures Sum(a) <= Sum(b)
  {
    if a != [] {
      SumMonotone(a[..|a| - 1], b[..|b| - 1]);
    }
  }

  ghost predicate PrefixDominated(a: seq<nat>, b: seq<nat>) {
    |a| == |b| && forall m :: 0 <= m <= |a| ==> Sum(a[..m]) <= Sum(b[..m])
  }

  lemma SumStep(a: seq<nat>, m: nat)
    requires m < |a|
    ensures Sum(a[..m + 1]) == Sum(a[..m]) + a[m]
  {
    assert a[..m + 1][..m] == a[..m];
  }

  /** How far the first `m` entries of `b` are ahead of those of `a`, plain and discounted. */
  function Lead(a: seq<nat>, b: seq<nat>, m: nat): real
    requires m <= |a| && m <= |b|
  {
    Sum(b[..m]) as real - Sum(a[..m]) as real
  }

  function Gap(a: seq<nat>, b: seq<nat>, w: nat -> real, m: nat): real
    requires m <= |a| && m <= |b|
  {
    DotTo(b, w, m) - DotTo(a, w, m)
  }

  /** The discount of the position before `m`; before the first one any larger number will do. */
  function Before(w: nat -> real, m: nat): real { if m == 0 then w(0) + 1.0 else w(m - 1) }

  ghost predicate LeadsAt(a: seq<nat>, b: seq<nat>, w: nat -> real, m: nat)
    requires m <= |a| && m <= |b|
  {
    Gap(a, b, w, m) >= Lead(a, b, m) * Before(w, m) >= 0.0
  }

  ghost predicate Leads(a: seq<nat>, b: seq<nat>, w: nat -> real, m: nat)
    requires m <= |a| && m <= |b|
  {
    var leads := LeadsAt(a, b, w, m);
    leads
  }

  lemma LeadsAtStart(a: seq<nat>, b: seq<nat>, w: nat -> real)
    ensures Leads(a, b, w, 0)
  {
    assert Lead(a, b, 0) == 0.0 && Lead(a, b, 0) * Before(w, 0) == 0.0;
  }

  lemma {:induction false} LeadsEverywhere(a: seq<nat>, b: seq<nat>, w: nat -> real, m: nat)
    requires IsDiscount(w) && PrefixDominated(a, b) && m <= |a|
    ensures Leads(a, b, w, m)
  {
    if m == 0 {
      LeadsAtStart(a, b, w);
    } else {
      LeadsEverywhere(a, b, w, m - 1);
      AbelStepAt(a, b, w, m - 1);
    }
  }

  /** Summation by parts: if every prefix of `a` sums to at most that of `b`, so does the discounted sum. */
  lemma PrefixDominance(a: seq<nat>, b: seq<nat>, w: nat -> real, m: nat)
    requires IsDiscount(w) && PrefixDominated(a, b) && m <= |a|
    ensures DotTo(a, w, m) <= DotTo(b, w, m)
  {
    LeadsEverywhere(a, b, w, m);
  }

  /** The discounted sums are equal only when the sequences are. */
  lemma {:induction false} PrefixDominanceIsStrict(a: seq<nat>, b: seq<nat>, w: nat -> real, m: nat)
    requires IsDiscount(w) && PrefixDominated(a, b) && m <= |a| && DotTo(a, w, m) == DotTo(b, w, m)
    ensures a[..m] == b[..m]
  {
    if m > 0 {
      LeadsEverywhere(a, b, w, m - 1);
      AbelStepAt(a, b, w, m - 1);
      PrefixDominanceIsStrict(a, b, w, m - 1);
      assert a[..m] == a[..m - 1] + [a[m - 1]] && b[..m] == b[..m - 1] + [b[m - 1]];
    }
  }

  lemma LeadStep(a: seq<nat>, b: seq<nat>, m: nat)
    requires m < |a| == |b|
    ensures Lead(a, b, m + 1) == Lead(a, b, m) + (b[m] as real - a[m] as real)
  {
    SumStep(a, m);
    SumStep(b, m);
  }

  lemma GapStep(a: seq<nat>, b: seq<nat>, w: nat -> real, m: nat)
    requires m < |a| == |b|
    ensures Gap(a, b, w, m + 1) == Gap(a, b, w, m) + (b[m] as real * w(m) - a[m] as real * w(m))
  {}

  lemma AbelStepAt(a: seq<nat>, b: seq<nat>, w: nat -> real, m: nat)
    requires IsDiscount(w) && PrefixDominated(a, b) && m < |a|
    requires Leads(a, b, w, m)
    ensures Leads(a, b, w, m + 1)
    ensures Gap(a, b, w, m + 1) == 0.0 ==> Gap(a, b, w, m) == 0.0 && a[m] == b[m]
  {
    LeadStep(a, b, m);
    GapStep(a, b, w, m);
    assert Lead(a, b, m) >= 0.0 && Lead(a, b, m + 1) >= 0.0 && 0.0 < w(m) < Before(w, m);
    AbelStep(Gap(a, b, w, m), Lead(a, b, m), Lead(a, b, m + 1), Before(w, m), w(m), a[m] as real, b[m] as real);
  }

  /** One more position: `gap` is how far ahead the discounted sum is, `lead` the plain sum. */
  lemma AbelStep(gap: real, lead: real, total: real, before: real, now: real, x: real, y: real)
    requires 0.0 < now < before && lead >= 0.0 && total == lead + (y - x) >= 0.0 && gap >= lead * before
    ensures gap + (y * now - x * now) >= total * now >= 0.0
    ensures gap + (y * now - x * now) == 0.0 ==> gap == 0.0 && x == y
  {
    assert lead * before - lead * now == lead * (before - now) >= 0.0;
    assert total * now == lead * now + (y * now - x * now);
    if gap + (y * now - x * now) == 0.0 {
      assert total * now == 0.0 && lead * (before - now) == 0.0;
      assert total == 0.0 && lead == 0.0;
    }
  }

  lemma BestStep(n: nat, len: nat, w: nat -> real)
    ensures Dot(Best(n, len + 1), w) == Dot(Best(n, len), w) + (if len < n then n - len else 0) as real * w(len)
  {
    var more := Best(n, len + 1);
    DotAgrees(more, Best(n, len), w, len);
    assert DotTo(more, w, len + 1) == DotTo(more, w, len) + more[len] as real * w(len);
  }

  lemma {:induction false} BestGrows(n: nat, len: nat, len': nat, w: nat -> real)
    requires IsDiscount(w) && len <= len'
    ensures Dot(Best(n, len), w) <= Dot(Best(n, len'), w)
    ensures len < len' && len < n ==> Dot(Best(n, len), w) < Dot(Best(n, len'), w)
    ensures len >= n ==> Dot(Best(n, len), w) == Dot(Best(n, len'), w)
    decreases len' - len
  {
    if len < len' {
      BestGrows(n, len + 1, len', w);
      BestStep(n, len, w);
      if len < n {
        assert (n - len) as real * w(len) > 0.0;
      }
    }
  }

  lemma GainOfLabel(relevant: seq<Id>, i: nat)
    requires NoRepeats(relevant) && i < |relevant|
    ensures Gain(relevant, relevant[i]) == |relevant| - i
  {}

  /** The ideal order of duplicate-free labels earns the best gains. */
  lemma IdealIsBest(relevant: seq<Id>, k: nat)
    requires NoRepeats(relevant)
    ensures Gains(Take(relevant, k), relevant) == Best(|relevant|, |Take(relevant, k)|)
  {
    forall i | 0 <= i < |Take(relevant, k)| ensures Gain(relevant, Take(relevant, k)[i]) == |relevant| - i {
      GainOfLabel(relevant, i);
    }
  }

  lemma GainsAreDominated(ranked: seq<Id>, relevant: seq<Id>, m: nat)
    requires NoRepeats(ranked) && m <= |ranked|
    ensures Sum(Gains(ranked, relevant)[..m]) <= Sum(Best(|relevant|, |ranked|)[..m])
  {
    SumAtMostBest(Gains(ranked, relevant)[..m], |relevant|);
    assert Best(|relevant|, |ranked|)[..m] == Best(|relevant|, m);
  }

  lemma DcgAtMostIdeal(ranked: seq<Id>, relevant: seq<Id>, k: nat, w: nat -> real)
    requires IsDiscount(w) && NoRepeats(ranked) && relevant != [] && 0 < k && |ranked| <= k
    ensures var dcg, ideal := Dot(Gains(ranked, relevant), w), Dot(Best(|relevant|, |Take(relevant, k)|), w);
            && 0.0 <= dcg <= ideal && 0.0 < ideal
            && (dcg == ideal <==> Gains(ranked, relevant) == Best(|relevant|, |ranked|) && |ranked| >= |Take(relevant, k)|)
  {
    var n, g, len, top := |relevant|, Gains(ranked, relevant), |ranked|, |Take(relevant, k)|;
    forall m | 0 <= m <= len ensures Sum(g[..m]) <= Sum(Best(n, len)[..m]) {
      GainsAreDominated(ranked, relevant, m);
    }
    PrefixDominance(g, Best(n, len), w, len);
    if Dot(g, w) == Dot(Best(n, len), w) {
      PrefixDominanceIsStrict(g, Best(n, len), w, len);
      assert g[..len] == g && Best(n, len)[..len] == Best(n, len);
    }
    DotNonNegative(g, w, len);
    BestGrows(n, 0, top, w);
    if len <= top {
      BestGrows(n, len, top, w);
    } else {
      BestGrows(n, top, len, w);
    }
  }

  /** NDCG lies between 0 and 1, and reaches 1 exactly when the first min(k, n) deduplicated
      results are the first min(k, n) labels in order. */
  lemma NdcgIsNormalised(retrieved: seq<Id>, relevant: seq<Id>, k: int, w: nat -> real)
    requires IsDiscount(w) && NoRepeats(relevant) && relevant != [] && k > 0
    ensures 0.0 <= Ndcg(retrieved, relevant, k, w) <= 1.0
    ensures Ndcg(retrieved, relevant, k, w) == 1.0 <==> Take(relevant, k) <= Dedup(retrieved)
  {
    var ranked, wanted := Take(Dedup(retrieved), k), Take(relevant, k);
    DcgAtMostIdeal(ranked, relevant, k, w);
    IdealIsBest(relevant, k);
    Quotient(Dot(Gains(ranked, relevant), w), Dot(Best(|relevant|, |wanted|), w));
    if Gains(ranked, relevant) == Best(|relevant|, |ranked|) && |ranked| >= |wanted| {
      BestGainsAreLabels(ranked, relevant, |wanted|);
      assert wanted == ranked[..|wanted|];
      assert ranked <= Dedup(retrieved);
    }
    if wanted <= Dedup(retrieved) {
      PrefixOfTake(wanted, Dedup(retrieved), k);
      PerfectPrefix(ranked, relevant, k);
    }
  }

  lemma PrefixOfTake(a: seq<Id>, s: seq<Id>, k: nat)
    requires a <= s && |a| <= k
    ensures a <= Take(s, k)
  {}

  lemma BestGainsAreLabels(ranked: seq<Id>, relevant: seq<Id>, top: nat)
    requires Gains(ranked, relevant) == Best(|relevant|, |ranked|) && top <= |ranked| && top <= |relevant|
    ensures ranked[..top] == relevant[..top]
  {}

  lemma {:induction false} DotNonNegative(g: seq<nat>, w: nat -> real, m: nat)
    requires IsDiscount(w) && m <= |g|
    ensures DotTo(g, w, m) >= 0.0
  {
    if m > 0 {
      DotNonNegative(g, w, m - 1);
      assert g[m - 1] as real * w(m - 1) >= 0.0;
    }
  }

  /** Results that start with the wanted labels have the best gains; past the labels nothing counts. */
  lemma PerfectPrefix(ranked: seq<Id>, relevant: seq<Id>, k: nat)
    requires NoRepeats(ranked) && NoRepeats(relevant) && k > 0
    requires Take(relevant, k) <= ranked && |ranked| <= k
    ensures Gains(ranked, relevant) == Best(|relevant|, |ranked|)
  {
    var wanted := Take(relevant, k);
    forall i | 0 <= i < |ranked| ensures Gain(relevant, ranked[i]) == Best(|relevant|, |ranked|)[i] {
      if i < |relevant| {
        assert ranked[i] == wanted[i];
        GainOfLabel(relevant, i);
      } else {
        assert relevant == ranked[..|relevant|];
      }
    }
  }

  /** Exchanging two results so that the better one comes first raises the discounted sum. */
  lemma PromotionPays(g: seq<nat>, i: nat, j: nat, w: nat -> real)
    requires IsDiscount(w) && i < j < |g| && g[i] < g[j]
    ensures Dot(g[i := g[j]][j := g[i]], w) > Dot(g, w)
  {
    var swapped := g[i := g[j]];
    var low, high := g[i] as real, g[j] as real;
    DotUpdate(g, i, g[j], w, |g|);
    DotUpdate(swapped, j, g[i], w, |g|);
    assert swapped[j] == g[j];
    assert Dot(swapped[j := g[i]], w) == Dot(g, w) + (high - low) * w(i) + (low - high) * w(j);
    Exchange(Dot(g, w), Dot(swapped[j := g[i]], w), low, high, w(i), w(j));
  }

  lemma Exchange(before: real, after: real, low: real, high: real, early: real, late: real)
    requires low < high && late < early
    requires after == before + (high - low) * early + (low - high) * late
    ensures after > before
  {}

  lemma {:induction false} DotUpdate(g: seq<nat>, i: nat, x: nat, w: nat -> real, m: nat)
    requires i < m <= |g|
    ensures DotTo(g[i := x], w, m) == DotTo(g, w, m) + (x as real - g[i] as real) * w(i)
  {
    if i < m - 1 {
      DotUpdate(g, i, x, w, m - 1);
    } else {
      DotAgrees(g[i := x], g, w, i);
    }
  }

  /** With a repeated label the bound can fail: the dictionary keeps the smaller gain for the ideal
      order, and a result list can beat it. */
  lemma RepeatedLabelsBreakTheBound(w: nat -> real)
    requires IsDiscount(w)
    ensures Ndcg(["b", "a"], ["a", "b", "a"], 2, w) > 1.0
  {
    GainsWithRepeat(["a", "b", "a"]);
    DistinctPair("b", "a");
    RepeatPays(w);
  }

  lemma RepeatPays(w: nat -> real)
    requires IsDiscount(w)
    ensures Dot([1, 2], w) != 0.0 && Dot([2, 1], w) / Dot([1, 2], w) > 1.0
  {
    DotOfTwo(2, 1, w);
    DotOfTwo(1, 2, w);
    GreaterQuotient(Dot([2, 1], w), Dot([1, 2], w));
  }

  lemma GainsWithRepeat(relevant: seq<Id>)
    requires relevant == ["a", "b", "a"]
    ensures Gains(["b", "a"], relevant) == [2, 1] && Gains(Take(relevant, 2), relevant) == [1, 2]
  {}

  lemma GreaterQuotient(a: real, b: real)
    requires a > b > 0.0
    ensures a / b > 1.0
  {}

  lemma DistinctPair(x: Id, y: Id)
    requires x != y
    ensures Dedup([x, y]) == [x, y] && Take([x, y], 2) == [x, y]
  {
    assert [x, y][..1] == [x] && [x][..0] == [];
    assert Dedup([x]) == [x];
  }

  lemma DotOfTwo(a: nat, b: nat, w: nat -> real)
    ensures Dot([a, b], w) == a as real * w(0) + b as real * w(1)
  {
    assert DotTo([a, b], w, 1) == a as real * w(0);
  }
}
