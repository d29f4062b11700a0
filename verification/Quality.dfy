/**
 From the answers of the judge to the scorecard of a case, and from the scorecards of a batch to
 its release gate and weighted quality score.  Scores are exact, before the rounding of the report.
 */
module Quality {
  import opened Wrappers
  import opened Sequences

  datatype Binary = Binary(criterion: string, passed: bool)

  /** A graded quality criterion; its score lies between 1 and 5. */
  datatype Graded = Graded(criterion: string, score: int)

  datatype Rubric = Rubric(p0: seq<string>, p1: seq<string>, p2: seq<string>) {
    ghost predicate Valid() {
      && p0 != [] && p1 != [] && p2 != []
      && NoRepeats(p0) && NoRepeats(p1) && NoRepeats(p2)
    }
  }

  datatype Judgement = Judgement(p0: seq<Binary>, p1: seq<Binary>, p2: seq<Graded>) {
    ghost predicate Valid() { forall i :: 0 <= i < |p2| ==> 1 <= p2[i].score <= 5 }
  }

  datatype Verdict = RedlineFail | NoRedline

  /** `p2Scores` holds the scores by criterion in the order of the judge, each criterion once. */
  datatype Scorecard = Scorecard(verdict: Verdict, p0Passed: int, p0Total: int, p1Failed: int, p1Total: int,
                                 p2Scores: seq<Graded>)

  datatype Level = P0 | P1 | P2

  datatype Scoring = Scored(card: Scorecard) | Duplicates(level: Level) | Mismatch(level: Level)

  // ---------------------------------------------------------------- one case

  function BinaryNames(items: seq<Binary>): seq<string> { MapBy((b: Binary) => b.criterion, items) }

  function GradedNames(items: seq<Graded>): seq<string> { MapBy((g: Graded) => g.criterion, items) }

  function Passed(b: Binary): int { if b.passed then 1 else 0 }

  function Failed(b: Binary): int { if b.passed then 0 else 1 }

  /** What is wrong with the criteria the judge answered, if anything. */
  function CriteriaProblem(level: Level, expected: seq<string>, actual: seq<string>): Option<Scoring> {
    if |actual| != |SetOf(actual)| then Some(Duplicates(level))
    else if SetOf(expected) != SetOf(actual) then Some(Mismatch(level))
    else None
  }

  function ScoreRubric(rubric: Rubric, j: Judgement): Scoring {
    var bad0 := CriteriaProblem(P0, rubric.p0, BinaryNames(j.p0));
    var bad1 := CriteriaProblem(P1, rubric.p1, BinaryNames(j.p1));
    var bad2 := CriteriaProblem(P2, rubric.p2, GradedNames(j.p2));
    if bad0.Some? then bad0.value
    else if bad1.Some? then bad1.value
    else if bad2.Some? then bad2.value
    else
      var passed := SumBy(Passed, j.p0);
      Scored(Scorecard(if passed == |j.p0| then NoRedline else RedlineFail, passed, |j.p0|,
                       SumBy(Failed, j.p1), |j.p1|, j.p2))
  }

  /** A judgement is accepted exactly when it answers every criterion of every level once, in any
      order, and nothing else. */
  lemma AcceptedExactlyWhenComplete(rubric: Rubric, j: Judgement)
    requires rubric.Valid()
    ensures ScoreRubric(rubric, j).Scored? <==>
            && multiset(BinaryNames(j.p0)) == multiset(rubric.p0)
            && multiset(BinaryNames(j.p1)) == multiset(rubric.p1)
            && multiset(GradedNames(j.p2)) == multiset(rubric.p2)
  {
    SameElementsIsReordering(BinaryNames(j.p0), rubric.p0);
    SameElementsIsReordering(BinaryNames(j.p1), rubric.p1);
    SameElementsIsReordering(GradedNames(j.p2), rubric.p2);
  }

  lemma {:induction false} CountsAreBounded(items: seq<Binary>)
    ensures 0 <= SumBy(Passed, items) <= |items| && SumBy(Passed, items) + SumBy(Failed, items) == |items|
    ensures SumBy(Passed, items) == |items| <==> forall i :: 0 <= i < |items| ==> items[i].passed
  {
    if items != [] {
      CountsAreBounded(items[..|items| - 1]);
    }
  }

  /** A scorecard as scoring builds it: counts within their totals, and the verdict says whether all
      P0 criteria passed. */
  ghost predicate Sound(card: Scorecard) {
    && 0 <= card.p0Passed <= card.p0Total && card.p0Total > 0
    && 0 <= card.p1Failed <= card.p1Total && card.p1Total > 0
    && card.p2Scores != [] && (forall i :: 0 <= i < |card.p2Scores| ==> 1 <= card.p2Scores[i].score <= 5)
    && (card.verdict.NoRedline? <==> card.p0Passed == card.p0Total)
  }

  /** An accepted judgement gives a sound card: no redline exactly when every P0 criterion passed, no P1
      failure exactly when every P1 criterion passed, and totals as in the rubric. */
  lemma CardTellsJudgement(rubric: Rubric, j: Judgement)
    requires rubric.Valid() && j.Valid() && ScoreRubric(rubric, j).Scored?
    ensures var card := ScoreRubric(rubric, j).card;
            && Sound(card)
            && card.p0Total == |rubric.p0| && card.p1Total == |rubric.p1| && |card.p2Scores| == |rubric.p2|
            && (card.verdict.NoRedline? <==> forall i :: 0 <= i < |j.p0| ==> j.p0[i].passed)
            && (card.p1Failed == 0 <==> forall i :: 0 <= i < |j.p1| ==> j.p1[i].passed)
  {
    AcceptedExactlyWhenComplete(rubric, j);
    SameLength(BinaryNames(j.p0), rubric.p0);
    SameLength(BinaryNames(j.p1), rubric.p1);
    SameLength(GradedNames(j.p2), rubric.p2);
    CountsAreBounded(j.p0);
    CountsAreBounded(j.p1);
  }

  lemma SameLength<T>(a: seq<T>, b: seq<T>)
    requires multiset(a) == multiset(b)
    ensures |a| == |b|
  {
    assert |multiset(a)| == |multiset(b)|;
  }

  // ---------------------------------------------------------------- one result

  datatype Outcome = SCORED | FAIL | ERROR

  datatype CaseResult = CaseResult(id: string, outcome: Outcome, judgement: Option<Judgement>,
                                   card: Option<Scorecard>, failure: Option<string>)

  /** The validator of results. */
  predicate ValidOutcome(r: CaseResult) {
    if r.outcome.ERROR? then r.failure.Some? && r.judgement.None? && r.card.None?
    else
      && r.failure.None? && r.judgement.Some? && r.card.Some?
      && r.outcome == (if r.card.value.verdict.RedlineFail? then FAIL else SCORED)
  }

  function CompletedResult(id: string, j: Judgement, card: Scorecard): CaseResult {
    CaseResult(id, if card.verdict.RedlineFail? then FAIL else SCORED, Some(j), Some(card), None)
  }

  function ErrorResult(id: string, failure: string): CaseResult {
    CaseResult(id, ERROR, None, None, Some(failure))
  }

  /** The validator accepts exactly what the two ways of building a result can give. */
  lemma ValidExactlyWhenBuilt(r: CaseResult)
    ensures ValidOutcome(r) <==>
            || (exists j, card :: r == CompletedResult(r.id, j, card))
            || (exists failure :: r == ErrorResult(r.id, failure))
  {
    if ValidOutcome(r) {
      if r.outcome.ERROR? {
        assert r == ErrorResult(r.id, r.failure.value);
      } else {
        assert r == CompletedResult(r.id, r.judgement.value, r.card.value);
      }
    }
  }

  ghost predicate Good(r: CaseResult) {
    ValidOutcome(r) && (r.card.Some? ==> Sound(r.card.value))
  }

  ghost predicate AllGood(results: seq<CaseResult>) {
    forall i :: 0 <= i < |results| ==> Good(results[i])
  }

  // ---------------------------------------------------------------- a batch

  function P0PassedOf(r: CaseResult): int { if r.card.Some? then r.card.value.p0Passed else 0 }

  function P0TotalOf(r: CaseResult): int { if r.card.Some? then r.card.value.p0Total else 0 }

  function P1FailedOf(r: CaseResult): int { if r.card.Some? then r.card.value.p1Failed else 0 }

  function P1TotalOf(r: CaseResult): int { if r.card.Some? then r.card.value.p1Total else 0 }

  function ScoreOf(g: Graded): int { g.score }

  function P2EarnedOf(r: CaseResult): int { if r.card.Some? then SumBy(ScoreOf, r.card.value.p2Scores) else 0 }

  function P2CountOf(r: CaseResult): int { if r.card.Some? then |r.card.value.p2Scores| else 0 }

  function ErrorOf(r: CaseResult): int { if r.outcome.ERROR? then 1 else 0 }

  datatype Weights = Weights(p0: real, p1: real, p2: real) {
    predicate Valid() { p0 > 0.0 && p1 > 0.0 && p2 > 0.0 && p0 + p1 + p2 == 100.0 }
  }

  datatype Gate = PASS | FAILED | INCOMPLETE

  datatype Summary = Summary(p0Passed: int, p0Total: int, p1Earned: int, p1Max: int, p2Earned: int, p2Max: int,
                             errors: int, gate: Gate, weighted: Option<real>)

  function Ratio(part: int, whole: int): real { if whole > 0 then part as real / whole as real else 0.0 }

  function GateOf(passed: int, total: int, errors: int): Gate {
    if total > 0 && passed < total then FAILED
    else if errors > 0 then INCOMPLETE
    else if total > 0 && passed == total then PASS
    else FAILED
  }

  function Share(ratio: real, weight: real): real { ratio * weight }

  function Weighted(w: Weights, r0: real, r1: real, r2: real): real {
    Share(r0, w.p0) + Share(r1, w.p1) + Share(r2, w.p2)
  }

  function Summarize(results: seq<CaseResult>, w: Weights): Summary {
    var passed, total := SumBy(P0PassedOf, results), SumBy(P0TotalOf, results);
    var p1Max := SumBy(P1TotalOf, results) * 2;
    var p1Earned := p1Max - SumBy(P1FailedOf, results) * 2;
    var p2Earned, p2Max := SumBy(P2EarnedOf, results), SumBy(P2CountOf, results) * 5;
    var errors := SumBy(ErrorOf, results);
    Summary(passed, total, p1Earned, p1Max, p2Earned, p2Max, errors, GateOf(passed, total, errors),
            if errors == 0 && total > 0 && p1Max > 0 && p2Max > 0
            then Some(Weighted(w, Ratio(passed, total), Ratio(p1Earned, p1Max), Ratio(p2Earned, p2Max)))
            else None)
  }

  // ---------------------------------------------------------------- the release gate

  lemma {:induction false} SumsOfGoodResults(results: seq<CaseResult>)
    requires AllGood(results)
    ensures 0 <= SumBy(P0PassedOf, results) <= SumBy(P0TotalOf, results)
    ensures SumBy(P0PassedOf, results) == SumBy(P0TotalOf, results) <==>
            forall i :: 0 <= i < |results| ==> !results[i].outcome.FAIL?
    ensures SumBy(P0TotalOf, results) == 0 <==> forall i :: 0 <= i < |results| ==> results[i].outcome.ERROR?
    ensures 0 <= SumBy(ErrorOf, results)
    ensures SumBy(ErrorOf, results) == 0 <==> forall i :: 0 <= i < |results| ==> !results[i].outcome.ERROR?
  {
    if results != [] {
      SumsOfGoodResults(results[..|results| - 1]);
      assert Good(results[|results| - 1]);
    }
  }

  /** The gate passes exactly when the batch is not empty and every outcome is SCORED, and is
      incomplete exactly when something failed to run and nothing failed a P0 criterion. */
  lemma GateTellsOutcomes(results: seq<CaseResult>, w: Weights)
    requires AllGood(results)
    ensures Summarize(results, w).gate.PASS? <==>
            results != [] && forall i :: 0 <= i < |results| ==> results[i].outcome.SCORED?
    ensures Summarize(results, w).gate.INCOMPLETE? <==>
            && (exists i :: 0 <= i < |results| && results[i].outcome.ERROR?)
            && (forall i :: 0 <= i < |results| ==> !results[i].outcome.FAIL?)
  {
    SumsOfGoodResults(results);
    if results != [] {
      assert Good(results[0]);
    }
  }

  // ---------------------------------------------------------------- the weighted score

  lemma {:induction false} ScoresAreBounded(scores: seq<Graded>)
    requires forall i :: 0 <= i < |scores| ==> 1 <= scores[i].score <= 5
    ensures |scores| <= SumBy(ScoreOf, scores) <= 5 * |scores|
    ensures SumBy(ScoreOf, scores) == 5 * |scores| <==> forall i :: 0 <= i < |scores| ==> scores[i].score == 5
  {
    if scores != [] {
      ScoresAreBounded(scores[..|scores| - 1]);
    }
  }

  /** Every criterion of the case met in full. */
  ghost predicate Perfect(r: CaseResult) {
    && r.card.Some? && r.card.value.p0Passed == r.card.value.p0Total && r.card.value.p1Failed == 0
    && forall i :: 0 <= i < |r.card.value.p2Scores| ==> r.card.value.p2Scores[i].score == 5
  }

  lemma {:induction false} SectionsAreBounded(results: seq<CaseResult>)
    requires AllGood(results)
    ensures 0 <= SumBy(P1FailedOf, results) <= SumBy(P1TotalOf, results)
    ensures 0 <= SumBy(P2EarnedOf, results) <= 5 * SumBy(P2CountOf, results)
    ensures SumBy(P1TotalOf, results) == 0 <==> SumBy(P0TotalOf, results) == 0
    ensures SumBy(P2CountOf, results) == 0 <==> SumBy(P0TotalOf, results) == 0
    ensures SumBy(P0TotalOf, results) >= 0 && SumBy(P1TotalOf, results) >= 0 && SumBy(P2CountOf, results) >= 0
  {
    if results != [] {
      var r := results[|results| - 1];
      SectionsAreBounded(results[..|results| - 1]);
      assert Good(r);
      if r.card.Some? {
        ScoresAreBounded(r.card.value.p2Scores);
      }
    }
  }

  lemma {:induction false} FullSumsArePerfect(results: seq<CaseResult>)
    requires AllGood(results) && forall i :: 0 <= i < |results| ==> !results[i].outcome.ERROR?
    ensures && SumBy(P0PassedOf, results) == SumBy(P0TotalOf, results)
            && SumBy(P1FailedOf, results) == 0
            && SumBy(P2EarnedOf, results) == 5 * SumBy(P2CountOf, results)
            <==> forall i :: 0 <= i < |results| ==> Perfect(results[i])
  {
    if results != [] {
      var r := results[|results| - 1];
      var front := results[..|results| - 1];
      FullSumsArePerfect(front);
      SectionsAreBounded(front);
      SumsOfGoodResults(front);
      assert Good(r);
      ScoresAreBounded(r.card.value.p2Scores);
    }
  }

  lemma RatioIsBounded(part: int, whole: int)
    requires 0 <= part <= whole && whole > 0
    ensures 0.0 <= Ratio(part, whole) <= 1.0
    ensures Ratio(part, whole) == 1.0 <==> part == whole
  {
    Quotient(part as real, whole as real);
  }

  lemma RatioIsMonotone(part: int, more: int, whole: int)
    requires part <= more && whole > 0
    ensures Ratio(part, whole) <= Ratio(more, whole)
  {}

  lemma ShareIsBounded(ratio: real, weight: real)
    requires 0.0 <= ratio <= 1.0 && weight > 0.0
    ensures 0.0 <= Share(ratio, weight) <= weight
    ensures Share(ratio, weight) == weight <==> ratio == 1.0
  {}

  lemma ShareIsMonotone(ratio: real, better: real, weight: real)
    requires ratio <= better && weight > 0.0
    ensures Share(ratio, weight) <= Share(better, weight)
  {}

  lemma WeightedIsBounded(w: Weights, r0: real, r1: real, r2: real)
    requires w.Valid() && 0.0 <= r0 <= 1.0 && 0.0 <= r1 <= 1.0 && 0.0 <= r2 <= 1.0
    ensures 0.0 <= Weighted(w, r0, r1, r2) <= 100.0
    ensures Weighted(w, r0, r1, r2) == 100.0 <==> r0 == 1.0 && r1 == 1.0 && r2 == 1.0
  {
    ShareIsBounded(r0, w.p0);
    ShareIsBounded(r1, w.p1);
    ShareIsBounded(r2, w.p2);
  }

  lemma WeightedIsMonotone(w: Weights, a0: real, a1: real, a2: real, b0: real, b1: real, b2: real)
    requires w.Valid() && a0 <= b0 && a1 <= b1 && a2 <= b2
    ensures Weighted(w, a0, a1, a2) <= Weighted(w, b0, b1, b2)
  {
    ShareIsMonotone(a0, b0, w.p0);
    ShareIsMonotone(a1, b1, w.p1);
    ShareIsMonotone(a2, b2, w.p2);
  }

  /** There is a weighted score exactly for a non-empty batch without errors. */
  lemma ScoredExactlyWhenComplete(results: seq<CaseResult>, w: Weights)
    requires AllGood(results)
    ensures Summarize(results, w).weighted.Some? <==>
            results != [] && forall i :: 0 <= i < |results| ==> !results[i].outcome.ERROR?
  {
    SumsOfGoodResults(results);
    SectionsAreBounded(results);
    if results != [] && results[0].outcome.ERROR? {
      assert SumBy(ErrorOf, results) != 0;
    }
  }

  /** The weighted score lies in [0, 100] and is 100 exactly for a batch perfect in every criterion. */
  lemma WeightedScoreIsAPercentage(results: seq<CaseResult>, w: Weights)
    requires AllGood(results) && w.Valid() && Summarize(results, w).weighted.Some?
    ensures 0.0 <= Summarize(results, w).weighted.value <= 100.0
    ensures Summarize(results, w).weighted.value == 100.0 <==> forall i :: 0 <= i < |results| ==> Perfect(results[i])
  {
    var s := Summarize(results, w);
    SumsOfGoodResults(results);
    SectionsAreBounded(results);
    FullSumsArePerfect(results);
    RatioIsBounded(s.p0Passed, s.p0Total);
    RatioIsBounded(s.p1Earned, s.p1Max);
    RatioIsBounded(s.p2Earned, s.p2Max);
    WeightedIsBounded(w, Ratio(s.p0Passed, s.p0Total), Ratio(s.p1Earned, s.p1Max), Ratio(s.p2Earned, s.p2Max));
  }

  // ---------------------------------------------------------------- better answers, other orders

  /** The same criteria in the same order, each answered at least as well. */
  ghost predicate NoWorse(j: Judgement, k: Judgement) {
    && |j.p0| == |k.p0| && |j.p1| == |k.p1| && |j.p2| == |k.p2|
    && (forall i :: 0 <= i < |j.p0| ==> j.p0[i].criterion == k.p0[i].criterion && (j.p0[i].passed ==> k.p0[i].passed))
    && (forall i :: 0 <= i < |j.p1| ==> j.p1[i].criterion == k.p1[i].criterion && (j.p1[i].passed ==> k.p1[i].passed))
    && (forall i :: 0 <= i < |j.p2| ==> j.p2[i].criterion == k.p2[i].criterion && j.p2[i].score <= k.p2[i].score)
  }

  /** Totals unchanged, every section at least as good. */
  ghost predicate NoWorseResult(a: CaseResult, b: CaseResult) {
    && a.outcome.ERROR? == b.outcome.ERROR?
    && P0TotalOf(a) == P0TotalOf(b) && P1TotalOf(a) == P1TotalOf(b) && P2CountOf(a) == P2CountOf(b)
    && P0PassedOf(a) <= P0PassedOf(b) && P1FailedOf(a) >= P1FailedOf(b) && P2EarnedOf(a) <= P2EarnedOf(b)
  }

  function Judged(id: string, rubric: Rubric, j: Judgement): CaseResult {
    var scoring := ScoreRubric(rubric, j);
    if scoring.Scored? then CompletedResult(id, j, scoring.card) else ErrorResult(id, "judge protocol")
  }

  lemma BetterAnswersAreNoWorse(id: string, rubric: Rubric, j: Judgement, k: Judgement)
    requires NoWorse(j, k)
    ensures NoWorseResult(Judged(id, rubric, j), Judged(id, rubric, k))
  {
    assert BinaryNames(j.p0) == BinaryNames(k.p0) && BinaryNames(j.p1) == BinaryNames(k.p1);
    assert GradedNames(j.p2) == GradedNames(k.p2);
    SumOverLists(Passed, j.p0, k.p0);
    SumOverLists(Failed, k.p1, j.p1);
    SumOverLists(ScoreOf, j.p2, k.p2);
  }

  ghost predicate NoWorseBatch(a: seq<CaseResult>, b: seq<CaseResult>) {
    |a| == |b| && forall i :: 0 <= i < |a| ==> NoWorseResult(a[i], b[i])
  }

  lemma {:induction false} NoWorseSums(a: seq<CaseResult>, b: seq<CaseResult>)
    requires NoWorseBatch(a, b)
    ensures SumBy(P0TotalOf, a) == SumBy(P0TotalOf, b) && SumBy(P1TotalOf, a) == SumBy(P1TotalOf, b)
    ensures SumBy(P2CountOf, a) == SumBy(P2CountOf, b) && SumBy(ErrorOf, a) == SumBy(ErrorOf, b)
    ensures SumBy(P0PassedOf, a) <= SumBy(P0PassedOf, b)
    ensures SumBy(P1FailedOf, a) >= SumBy(P1FailedOf, b)
    ensures SumBy(P2EarnedOf, a) <= SumBy(P2EarnedOf, b)
  {
    if a != [] {
      NoWorseSums(a[..|a| - 1], b[..|b| - 1]);
      assert NoWorseResult(a[|a| - 1], b[|b| - 1]);
    }
  }

  /** No answer of a judge can lower the weighted score by being better. */
  lemma WeightedScoreIsMonotone(a: seq<CaseResult>, b: seq<CaseResult>, w: Weights)
    requires w.Valid() && NoWorseBatch(a, b)
    ensures Summarize(a, w).weighted.Some? <==> Summarize(b, w).weighted.Some?
    ensures Summarize(a, w).weighted.Some? ==> Summarize(a, w).weighted.value <= Summarize(b, w).weighted.value
  {
    NoWorseSums(a, b);
    var s, t := Summarize(a, w), Summarize(b, w);
    if s.weighted.Some? {
      RatioIsMonotone(s.p0Passed, t.p0Passed, s.p0Total);
      RatioIsMonotone(s.p1Earned, t.p1Earned, s.p1Max);
      RatioIsMonotone(s.p2Earned, t.p2Earned, s.p2Max);
      WeightedIsMonotone(w, Ratio(s.p0Passed, s.p0Total), Ratio(s.p1Earned, s.p1Max), Ratio(s.p2Earned, s.p2Max),
                         Ratio(t.p0Passed, t.p0Total), Ratio(t.p1Earned, t.p1Max), Ratio(t.p2Earned, t.p2Max));
    }
  }

  /** The items of the judge in another order give the same counts, verdict and outcome, and the same
      scores by criterion. */
  lemma OrderOfAnswersDoesNotMatter(id: string, rubric: Rubric, j: Judgement, k: Judgement)
    requires rubric.Valid()
    requires multiset(j.p0) == multiset(k.p0) && multiset(j.p1) == multiset(k.p1) && multiset(j.p2) == multiset(k.p2)
    ensures ScoreRubric(rubric, j).Scored? <==> ScoreRubric(rubric, k).Scored?
    ensures var a, b := Judged(id, rubric, j), Judged(id, rubric, k);
            NoWorseResult(a, b) && NoWorseResult(b, a) && a.outcome == b.outcome
  {
    MapOfReordering((b: Binary) => b.criterion, j.p0, k.p0);
    MapOfReordering((b: Binary) => b.criterion, j.p1, k.p1);
    MapOfReordering((g: Graded) => g.criterion, j.p2, k.p2);
    AcceptedExactlyWhenComplete(rubric, j);
    AcceptedExactlyWhenComplete(rubric, k);
    SameLength(j.p0, k.p0);
    SameLength(j.p1, k.p1);
    SameLength(j.p2, k.p2);
    SumOfReordering(Passed, j.p0, k.p0);
    SumOfReordering(Failed, j.p1, k.p1);
    SumOfReordering(ScoreOf, j.p2, k.p2);
  }

  /** A case as judged: its rubric and the answers of the judge. */
  datatype JudgedCase = JudgedCase(id: string, rubric: Rubric, judgement: Judgement)

  function BatchOf(cases: seq<JudgedCase>): seq<CaseResult> {
    MapBy((c: JudgedCase) => Judged(c.id, c.rubric, c.judgement), cases)
  }

  /** Judged cases are well-formed results: what the laws about batches ask for. */
  lemma JudgedBatchIsGood(cases: seq<JudgedCase>)
    requires forall i :: 0 <= i < |cases| ==> cases[i].rubric.Valid() && cases[i].judgement.Valid()
    ensures AllGood(BatchOf(cases))
  {
    forall i | 0 <= i < |cases| ensures Good(BatchOf(cases)[i]) {
      if ScoreRubric(cases[i].rubric, cases[i].judgement).Scored? {
        CardTellsJudgement(cases[i].rubric, cases[i].judgement);
      }
    }
  }

  /** The same case with the items of the judge in another order. */
  ghost predicate Reordered(a: JudgedCase, b: JudgedCase) {
    && a.id == b.id && a.rubric == b.rubric && a.rubric.Valid()
    && multiset(a.judgement.p0) == multiset(b.judgement.p0)
    && multiset(a.judgement.p1) == multiset(b.judgement.p1)
    && multiset(a.judgement.p2) == multiset(b.judgement.p2)
  }

  lemma ReorderedIsNoWorse(a: seq<JudgedCase>, b: seq<JudgedCase>)
    requires |a| == |b| && forall i :: 0 <= i < |a| ==> Reordered(a[i], b[i])
    ensures NoWorseBatch(BatchOf(a), BatchOf(b))
  {
    forall i | 0 <= i < |a| ensures NoWorseResult(BatchOf(a)[i], BatchOf(b)[i]) {
      assert Reordered(a[i], b[i]);
      OrderOfAnswersDoesNotMatter(a[i].id, a[i].rubric, a[i].judgement, b[i].judgement);
    }
  }

  lemma EqualBothWays(a: seq<CaseResult>, b: seq<CaseResult>, w: Weights)
    requires NoWorseBatch(a, b) && NoWorseBatch(b, a)
    ensures Summarize(a, w) == Summarize(b, w)
  {
    NoWorseSums(a, b);
    NoWorseSums(b, a);
  }

  /** Reordering the items of the judge in any cases changes nothing in the summary of the batch: not its
      gate, not its weighted score, not its counts. */
  lemma OrderOfAnswersDoesNotMoveTheGate(a: seq<JudgedCase>, b: seq<JudgedCase>, w: Weights)
    requires |a| == |b| && forall i :: 0 <= i < |a| ==> Reordered(a[i], b[i])
    ensures Summarize(BatchOf(a), w) == Summarize(BatchOf(b), w)
  {
    forall i | 0 <= i < |b| ensures Reordered(b[i], a[i]) {
      assert Reordered(a[i], b[i]);
    }
    ReorderedIsNoWorse(a, b);
    ReorderedIsNoWorse(b, a);
    EqualBothWays(BatchOf(a), BatchOf(b), w);
  }
}
