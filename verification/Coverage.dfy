/**
 The weighted scenario coverage of a suite: how much of the required journey points the authored
 cases and the executed cases reach.  Scores are exact, before the rounding of the report.
 */
module Coverage {
  import opened Sequences
  import opened CaseSuite
  import opened Quality

  /** The families in the order of the policy file. */
  datatype Policy = Policy(order: seq<string>, families: Families) {
    ghost predicate Valid() {
      && NoRepeats(order) && SetOf(order) == families.Keys
      && (forall id :: id in families ==> families[id].weight > 0.0 && families[id].required != {})
      && Sum(WeightsOf(this)) == 100.0
    }
  }

  function Sum(s: seq<real>): real {
    if s == [] then 0.0 else Sum(s[..|s| - 1]) + s[|s| - 1]
  }

  function WeightsOf(policy: Policy): seq<real> {
    seq(|policy.order|, i requires 0 <= i < |policy.order| => WeightOf(policy, policy.order[i]))
  }

  function WeightOf(policy: Policy, id: string): real {
    if id in policy.families then policy.families[id].weight else 0.0
  }

  function RequiredOf(policy: Policy, id: string): set<string> {
    if id in policy.families then policy.families[id].required else {}
  }

  /** The points the cases reach in a family. */
  function Covered(cases: seq<Case>, family: string): set<string> {
    set i, p | 0 <= i < |cases| && cases[i].family == family && p in cases[i].points :: p
  }

  function WeightedShare(weight: real, covered: nat, required: nat): real {
    if required == 0 then 0.0 else weight * covered as real / required as real
  }

  function ShareOf(policy: Policy, cases: seq<Case>, id: string): real {
    WeightedShare(WeightOf(policy, id), |Covered(cases, id)|, |RequiredOf(policy, id)|)
  }

  function SharesOf(policy: Policy, cases: seq<Case>): seq<real> {
    seq(|policy.order|, i requires 0 <= i < |policy.order| => ShareOf(policy, cases, policy.order[i]))
  }

  function Score(policy: Policy, cases: seq<Case>): real { Sum(SharesOf(policy, cases)) }

  function ExecutedIds(results: seq<CaseResult>): set<string> {
    set i | 0 <= i < |results| && !results[i].outcome.ERROR? :: results[i].id
  }

  /** The run cases whose evaluation did not end in an error. */
  function Executed(run: seq<Case>, results: seq<CaseResult>): seq<Case> { Chosen(run, ExecutedIds(results)) }

  datatype FamilyCoverage = FamilyCoverage(id: string, covered: set<string>, executed: set<string>, missing: set<string>)

  method CoveredPoints(cases: seq<Case>, family: string) returns (points: set<string>)
    ensures points == Covered(cases, family)
  {
    points := {};
    for i := 0 to |cases|
      invariant points == Covered(cases[..i], family)
    {
      assert cases[..i + 1] == cases[..i] + [cases[i]];
      CoveredGrows(cases[..i], cases[i], family);
      if cases[i].family == family {
        points := points + cases[i].points;
      }
    }
    assert cases[..|cases|] == cases;
  }

  function CoverageOf(policy: Policy, design: seq<Case>, executed: seq<Case>, id: string): FamilyCoverage {
    FamilyCoverage(id, Covered(design, id), Covered(executed, id), RequiredOf(policy, id) - Covered(design, id))
  }

  /** One family of the report, and what it adds to the two scores. */
  method CoverFamily(policy: Policy, design: seq<Case>, executed: seq<Case>, id: string)
    returns (family: FamilyCoverage, designedShare: real, executedShare: real)
    requires id in policy.families && policy.families[id].required != {}
    ensures family == CoverageOf(policy, design, executed, id)
    ensures designedShare == ShareOf(policy, design, id)
    ensures executedShare == ShareOf(policy, executed, id)
  {
    var covered := CoveredPoints(design, id);
    var reached := CoveredPoints(executed, id);
    var weight, required := policy.families[id].weight, policy.families[id].required;
    designedShare := weight * |covered| as real / |required| as real;
    executedShare := weight * |reached| as real / |required| as real;
    family := FamilyCoverage(id, covered, reached, required - covered);
  }

  /** The shares of the first families, and their sum. */
  ghost predicate AddsUp(total: real, shares: seq<real>, policy: Policy, cases: seq<Case>) {
    && |shares| <= |policy.order| && total == Sum(shares)
    && forall i :: 0 <= i < |shares| ==> shares[i] == ShareOf(policy, cases, policy.order[i])
  }

  lemma OneMoreShare(total: real, shares: seq<real>, policy: Policy, cases: seq<Case>)
    requires |shares| < |policy.order| && AddsUp(total, shares, policy, cases)
    ensures var share := ShareOf(policy, cases, policy.order[|shares|]);
            AddsUp(total + share, shares + [share], policy, cases)
  {}

  lemma AllSharesAddUp(total: real, shares: seq<real>, policy: Policy, cases: seq<Case>)
    requires |shares| == |policy.order| && AddsUp(total, shares, policy, cases)
    ensures total == Score(policy, cases)
  {
    assert shares == SharesOf(policy, cases);
  }

  ghost predicate AreCoverages(families: seq<FamilyCoverage>, policy: Policy, design: seq<Case>, executed: seq<Case>) {
    && |families| <= |policy.order|
    && forall i :: 0 <= i < |families| ==> families[i] == CoverageOf(policy, design, executed, policy.order[i])
  }

  lemma OneMoreCoverage(families: seq<FamilyCoverage>, policy: Policy, design: seq<Case>, executed: seq<Case>)
    requires |families| < |policy.order| && AreCoverages(families, policy, design, executed)
    ensures AreCoverages(families + [CoverageOf(policy, design, executed, policy.order[|families|])], policy, design, executed)
  {}

  method CoverFamilies(policy: Policy, design: seq<Case>, executed: seq<Case>)
    returns (designedScore: real, executedScore: real, families: seq<FamilyCoverage>)
    requires forall id :: id in policy.order ==> id in policy.families && policy.families[id].required != {}
    ensures designedScore == Score(policy, design)
    ensures executedScore == Score(policy, executed)
    ensures |families| == |policy.order| && AreCoverages(families, policy, design, executed)
  {
    designedScore, executedScore, families := 0.0, 0.0, [];
    ghost var shares, executedShares: seq<real> := [], [];
    for i := 0 to |policy.order|
      invariant |families| == |shares| == |executedShares| == i
      invariant AreCoverages(families, policy, design, executed)
      invariant AddsUp(designedScore, shares, policy, design)
      invariant AddsUp(executedScore, executedShares, policy, executed)
    {
      var family, designedShare, executedShare := CoverFamily(policy, design, executed, policy.order[i]);
      OneMoreCoverage(families, policy, design, executed);
      OneMoreShare(designedScore, shares, policy, design);
      OneMoreShare(executedScore, executedShares, policy, executed);
      shares, executedShares := shares + [designedShare], executedShares + [executedShare];
      designedScore, executedScore := designedScore + designedShare, executedScore + executedShare;
      families := families + [family];
    }
    AllSharesAddUp(designedScore, shares, policy, design);
    AllSharesAddUp(executedScore, executedShares, policy, executed);
  }

  method SummarizeCoverage(policy: Policy, design: seq<Case>, run: seq<Case>, results: seq<CaseResult>)
    returns (designed: real, executed: real, families: seq<FamilyCoverage>)
    requires policy.Valid()
    ensures designed == Score(policy, design)
    ensures executed == Score(policy, Executed(run, results))
    ensures |families| == |policy.order| && AreCoverages(families, policy, design, Executed(run, results))
  {
    forall id | id in policy.order ensures id in policy.families && policy.families[id].required != {} {
      assert id in SetOf(policy.order);
    }
    designed, executed, families := CoverFamilies(policy, design, Executed(run, results));
  }

  // ---------------------------------------------------------------- sums and shares

  lemma {:induction false} SumsCompare(a: seq<real>, b: seq<real>)
    requires |a| == |b| && forall i :: 0 <= i < |a| ==> a[i] <= b[i]
    ensures Sum(a) <= Sum(b)
    ensures Sum(a) == Sum(b) <==> a == b
  {
    if a != [] {
      var n := |a| - 1;
      SumsCompare(a[..n], b[..n]);
      assert a == a[..n] + [a[n]] && b == b[..n] + [b[n]];
    }
  }

  lemma {:induction false} SumOfNothing(a: seq<real>)
    requires forall i :: 0 <= i < |a| ==> a[i] >= 0.0
    ensures Sum(a) >= 0.0
  {
    if a != [] {
      SumOfNothing(a[..|a| - 1]);
    }
  }

  lemma SharesCompare(weight: real, few: nat, many: nat, required: nat)
    requires weight > 0.0 && required > 0 && few <= many
    ensures 0.0 <= WeightedShare(weight, few, required) <= WeightedShare(weight, many, required)
    ensures WeightedShare(weight, few, required) == WeightedShare(weight, many, required) <==> few == many
    ensures WeightedShare(weight, required, required) == weight
  {}

  lemma CoveredGrows(cases: seq<Case>, c: Case, family: string)
    ensures Covered(cases + [c], family) == Covered(cases, family) + (if c.family == family then c.points else {})
  {
    var more := cases + [c];
    forall p | p in Covered(cases, family) ensures p in Covered(more, family) {
      var i :| 0 <= i < |cases| && cases[i].family == family && p in cases[i].points;
      assert more[i] == cases[i];
    }
    assert more[|cases|] == c;
  }

  ghost predicate AllPointsKnown(policy: Policy, cases: seq<Case>) {
    forall i :: 0 <= i < |cases| ==> PointsKnown(policy.families, cases[i])
  }

  lemma CoveredIsRequired(policy: Policy, cases: seq<Case>, id: string)
    requires AllPointsKnown(policy, cases)
    ensures Covered(cases, id) <= RequiredOf(policy, id)
  {}

  /** Wider coverage in every family gives at least the score, and the same score only for the same
      coverage. */
  lemma WiderCoverageScoresMore(policy: Policy, a: seq<Case>, b: seq<Case>)
    requires policy.Valid()
    requires forall id :: id in policy.families ==> Covered(a, id) <= Covered(b, id)
    ensures Score(policy, a) <= Score(policy, b)
    ensures Score(policy, a) == Score(policy, b) <==> forall id :: id in policy.families ==> Covered(a, id) == Covered(b, id)
  {
    var s, t := SharesOf(policy, a), SharesOf(policy, b);
    forall i | 0 <= i < |s|
      ensures s[i] <= t[i]
      ensures s[i] == t[i] <==> Covered(a, policy.order[i]) == Covered(b, policy.order[i])
    {
      var id := policy.order[i];
      assert id in SetOf(policy.order);
      SubsetIsSmaller(Covered(a, id), Covered(b, id));
      SharesCompare(WeightOf(policy, id), |Covered(a, id)|, |Covered(b, id)|, |RequiredOf(policy, id)|);
    }
    SumsCompare(s, t);
    OrderListsFamilies(policy);
  }

  lemma OrderListsFamilies(policy: Policy)
    requires policy.Valid()
    ensures forall id :: id in policy.families ==> exists i :: 0 <= i < |policy.order| && policy.order[i] == id
  {}

  /** The score of a suite is at most 100, and 100 exactly when every required point of every family
      is covered. */
  lemma FullScoreMeansFullCoverage(policy: Policy, cases: seq<Case>)
    requires policy.Valid() && AllPointsKnown(policy, cases)
    ensures 0.0 <= Score(policy, cases) <= 100.0
    ensures Score(policy, cases) == 100.0 <==> forall id :: id in policy.families ==> Covered(cases, id) == policy.families[id].required
  {
    var s, t := SharesOf(policy, cases), WeightsOf(policy);
    forall i | 0 <= i < |s|
      ensures 0.0 <= s[i] <= t[i]
      ensures s[i] == t[i] <==> Covered(cases, policy.order[i]) == RequiredOf(policy, policy.order[i])
    {
      var id := policy.order[i];
      assert id in SetOf(policy.order);
      CoveredIsRequired(policy, cases, id);
      SubsetIsSmaller(Covered(cases, id), RequiredOf(policy, id));
      SharesCompare(WeightOf(policy, id), |Covered(cases, id)|, |RequiredOf(policy, id)|, |RequiredOf(policy, id)|);
    }
    SumOfNothing(s);
    SumsCompare(s, t);
    OrderListsFamilies(policy);
  }

  /** What is executed never scores above what is designed, nor that above 100. */
  lemma ExecutedIsAtMostDesigned(policy: Policy, design: seq<Case>, run: seq<Case>, results: seq<CaseResult>)
    requires policy.Valid() && AllPointsKnown(policy, design)
    requires forall c :: c in run ==> c in design
    ensures 0.0 <= Score(policy, Executed(run, results)) <= Score(policy, design) <= 100.0
  {
    var executed := Executed(run, results);
    ChosenIds(run, ExecutedIds(results));
    forall id, p | p in Covered(executed, id) ensures p in Covered(design, id) {
      var i :| 0 <= i < |executed| && executed[i].family == id && p in executed[i].points;
      assert executed[i] in run && executed[i] in design;
      var j :| 0 <= j < |design| && design[j] == executed[i];
      assert design[j].family == id && p in design[j].points;
    }
    WiderCoverageScoresMore(policy, executed, design);
    FullScoreMeansFullCoverage(policy, design);
    forall i | 0 <= i < |executed| ensures PointsKnown(policy.families, executed[i]) {
      assert executed[i] in run && executed[i] in design;
    }
    FullScoreMeansFullCoverage(policy, executed);
  }

  /** Adding a case never lowers the score, and leaves it unchanged exactly when the case brings no
      point its family did not have: duplicate easy cases earn nothing. */
  lemma OnlyNewPointsScore(policy: Policy, cases: seq<Case>, c: Case)
    requires policy.Valid() && PointsKnown(policy.families, c)
    ensures Score(policy, cases) <= Score(policy, cases + [c])
    ensures Score(policy, cases) == Score(policy, cases + [c]) <==> c.points <= Covered(cases, c.family)
  {
    forall id ensures Covered(cases + [c], id) == Covered(cases, id) + (if c.family == id then c.points else {}) {
      CoveredGrows(cases, c, id);
    }
    WiderCoverageScoresMore(policy, cases, cases + [c]);
    assert Covered(cases + [c], c.family) == Covered(cases, c.family) + c.points;
  }

  // ---------------------------------------------------------------- what a case adds

  lemma {:induction false} SumOfUpdate(s: seq<real>, k: nat, x: real)
    requires k < |s|
    ensures Sum(s[k := x]) == Sum(s) - s[k] + x
  {
    var n := |s| - 1;
    if k < n {
      SumOfUpdate(s[..n], k, x);
      assert s[k := x][..n] == s[..n][k := x];
    } else {
      assert s[k := x][..n] == s[..n];
    }
  }

  lemma SharesAdd(weight: real, old': nat, new': nat, required: nat)
    requires required > 0
    ensures WeightedShare(weight, old' + new', required) ==
            WeightedShare(weight, old', required) + weight * new' as real / required as real
  {
    assert weight * (old' + new') as real == weight * old' as real + weight * new' as real;
    QuotientsAdd(weight * old' as real, weight * new' as real, required as real);
  }

  lemma QuotientsAdd(a: real, b: real, c: real)
    requires c > 0.0
    ensures (a + b) / c == a / c + b / c
  {}

  lemma NewPointsCount(cases: seq<Case>, c: Case)
    ensures |Covered(cases + [c], c.family)| == |Covered(cases, c.family)| + |c.points - Covered(cases, c.family)|
  {
    var before := Covered(cases, c.family);
    CoveredGrows(cases, c, c.family);
    assert before + c.points == before + (c.points - before);
  }

  lemma OneShareChanges(policy: Policy, cases: seq<Case>, c: Case, k: nat)
    requires NoRepeats(policy.order) && k < |policy.order| && policy.order[k] == c.family
    ensures SharesOf(policy, cases + [c]) == SharesOf(policy, cases)[k := ShareOf(policy, cases + [c], c.family)]
  {
    forall i | 0 <= i < |policy.order| && i != k
      ensures ShareOf(policy, cases + [c], policy.order[i]) == ShareOf(policy, cases, policy.order[i])
    {
      assert policy.order[i] != c.family;
      CoveredGrows(cases, c, policy.order[i]);
    }
  }

  lemma OneShareGrows(policy: Policy, cases: seq<Case>, c: Case, added: nat, required: nat)
    requires c.family in policy.families && required == |policy.families[c.family].required| > 0
    requires added == |c.points - Covered(cases, c.family)|
    ensures ShareOf(policy, cases + [c], c.family) ==
            ShareOf(policy, cases, c.family) + policy.families[c.family].weight * added as real / required as real
  {
    NewPointsCount(cases, c);
    SharesAdd(policy.families[c.family].weight, |Covered(cases, c.family)|, added, required);
  }

  lemma ScoreMovesWithShare(policy: Policy, cases: seq<Case>, c: Case, rise: real)
    requires NoRepeats(policy.order) && SetOf(policy.order) == policy.families.Keys && c.family in policy.families
    requires ShareOf(policy, cases + [c], c.family) == ShareOf(policy, cases, c.family) + rise
    ensures Score(policy, cases + [c]) == Score(policy, cases) + rise
  {
    assert c.family in SetOf(policy.order);
    var k :| 0 <= k < |policy.order| && policy.order[k] == c.family;
    OneShareChanges(policy, cases, c, k);
    SumOfUpdate(SharesOf(policy, cases), k, ShareOf(policy, cases + [c], c.family));
  }

  /** Adding a case raises the score by exactly its family's weight for each point its family did not have, over
      the points the family requires. */
  lemma NewPointsRaise(policy: Policy, cases: seq<Case>, c: Case, added: nat, required: nat)
    requires policy.Valid() && PointsKnown(policy.families, c)
    requires added == |c.points - Covered(cases, c.family)| && required == |policy.families[c.family].required|
    ensures required > 0
    ensures Score(policy, cases + [c]) == Score(policy, cases) + policy.families[c.family].weight * added as real / required as real
  {
    OneShareGrows(policy, cases, c, added, required);
    ScoreMovesWithShare(policy, cases, c, policy.families[c.family].weight * added as real / required as real);
  }

  /** A suite without points scores 0: with the law above this gives the score of every suite. */
  lemma NoPointsScoreZero(policy: Policy, cases: seq<Case>)
    requires forall i :: 0 <= i < |cases| ==> cases[i].points == {}
    ensures Score(policy, cases) == 0.0
  {
    forall i | 0 <= i < |policy.order| ensures SharesOf(policy, cases)[i] == 0.0 {
      assert Covered(cases, policy.order[i]) == {};
      NoShare(WeightOf(policy, policy.order[i]), |RequiredOf(policy, policy.order[i])|);
    }
    SumOfZeros(SharesOf(policy, cases));
  }

  lemma NoShare(weight: real, required: nat)
    ensures WeightedShare(weight, 0, required) == 0.0
  {}

  lemma {:induction false} SumOfZeros(s: seq<real>)
    requires forall i :: 0 <= i < |s| ==> s[i] == 0.0
    ensures Sum(s) == 0.0
  {
    if s != [] {
      SumOfZeros(s[..|s| - 1]);
    }
  }

  /** A run case counts as executed exactly when some result for it is not an error. */
  lemma ExecutedExactly(run: seq<Case>, results: seq<CaseResult>, c: Case)
    ensures c in Executed(run, results) <==>
            c in run && exists i :: 0 <= i < |results| && results[i].id == c.id && !results[i].outcome.ERROR?
  {
    ChosenExactly(run, ExecutedIds(results), c);
  }

  lemma {:induction false} ChosenExactly(cases: seq<Case>, ids: set<string>, c: Case)
    ensures c in Chosen(cases, ids) <==> c in cases && c.id in ids
  {
    if cases != [] {
      ChosenExactly(cases[..|cases| - 1], ids, c);
      assert cases == cases[..|cases| - 1] + [cases[|cases| - 1]];
    }
  }

  ghost predicate CoversPoint(cases: seq<Case>, family: string, point: string) {
    exists c :: c in cases && c.family == family && point in c.points
  }

  lemma CoveredTells(cases: seq<Case>, family: string, point: string)
    ensures point in Covered(cases, family) <==> CoversPoint(cases, family, point)
  {
    if CoversPoint(cases, family, point) {
      var c :| c in cases && c.family == family && point in c.points;
      var i :| 0 <= i < |cases| && cases[i] == c;
    }
  }

  /** The report lists for each family the points its authored cases cover, those its executed cases cover, and
      the required points no authored case covers. */
  lemma ReportTells(policy: Policy, design: seq<Case>, run: seq<Case>, results: seq<CaseResult>, families: seq<FamilyCoverage>,
                    i: nat, point: string)
    requires policy.Valid() && AreCoverages(families, policy, design, Executed(run, results)) && i < |families|
    ensures families[i].id == policy.order[i] && families[i].id in policy.families
    ensures var f := families[i];
            && (point in f.covered <==> CoversPoint(design, f.id, point))
            && (point in f.executed <==> CoversPoint(Executed(run, results), f.id, point))
            && (point in f.missing <==> point in policy.families[f.id].required && !CoversPoint(design, f.id, point))
  {
    assert policy.order[i] in SetOf(policy.order);
    CoveredTells(design, policy.order[i], point);
    CoveredTells(Executed(run, results), policy.order[i], point);
  }
}
