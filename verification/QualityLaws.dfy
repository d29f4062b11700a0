/**
 What one answer of the judge is worth: exact laws of the weighted score, from single criteria to the batch.
 */
module QualityLaws {
  import opened Wrappers
  import opened Sequences
  import opened Quality

  // ---------------------------------------------------------------- counting answers

  function PassedAt(items: seq<Binary>): set<nat> { set i: nat | i < |items| && items[i].passed }

  function FailedAt(items: seq<Binary>): set<nat> { set i: nat | i < |items| && !items[i].passed }

  lemma {:induction false} PassedIsSize(items: seq<Binary>)
    ensures SumBy(Passed, items) == |PassedAt(items)|
  {
    if items != [] {
      var n := |items| - 1;
      PassedIsSize(items[..n]);
      if items[n].passed {
        assert PassedAt(items) == PassedAt(items[..n]) + {n};
      } else {
        assert PassedAt(items) == PassedAt(items[..n]);
      }
    }
  }

  lemma {:induction false} FailedIsSize(items: seq<Binary>)
    ensures SumBy(Failed, items) == |FailedAt(items)|
  {
    if items != [] {
      var n := |items| - 1;
      FailedIsSize(items[..n]);
      if items[n].passed {
        assert FailedAt(items) == FailedAt(items[..n]);
      } else {
        assert FailedAt(items) == FailedAt(items[..n]) + {n};
      }
    }
  }

  /** The card counts the passed P0 and the failed P1 criteria and keeps the P2 scores. */
  lemma CardCountsAnswers(rubric: Rubric, j: Judgement)
    requires ScoreRubric(rubric, j).Scored?
    ensures var card := ScoreRubric(rubric, j).card;
            && card.p0Passed == |PassedAt(j.p0)| && card.p0Total == |j.p0|
            && card.p1Failed == |FailedAt(j.p1)| && card.p1Total == |j.p1|
            && card.p2Scores == j.p2
  {
    PassedIsSize(j.p0);
    FailedIsSize(j.p1);
  }

  lemma {:induction false} SumOfUpdate<T>(f: T -> int, s: seq<T>, i: nat, x: T)
    requires i < |s|
    ensures SumBy(f, s[i := x]) == SumBy(f, s) - f(s[i]) + f(x)
  {
    var n := |s| - 1;
    if i < n {
      SumOfUpdate(f, s[..n], i, x);
      assert s[i := x][..n] == s[..n][i := x];
    } else {
      assert s[i := x][..n] == s[..n];
    }
  }

  // ---------------------------------------------------------------- the sections of a batch

  /** How many criteria of a level the cases have. */
  function CriteriaOf(level: Level, c: JudgedCase): int {
    match level
    case P0 => |c.rubric.p0|
    case P1 => |c.rubric.p1|
    case P2 => |c.rubric.p2|
  }

  function Criteria(level: Level, cases: seq<JudgedCase>): int { SumBy((c: JudgedCase) => CriteriaOf(level, c), cases) }

  /** Every case has a valid rubric and a judgement that answers it. */
  ghost predicate AllAnswered(cases: seq<JudgedCase>) {
    forall i :: 0 <= i < |cases| ==> Answered(cases[i])
  }

  ghost predicate Answered(c: JudgedCase) {
    c.rubric.Valid() && c.judgement.Valid() && ScoreRubric(c.rubric, c.judgement).Scored?
  }

  lemma AnsweredTotals(c: JudgedCase)
    requires Answered(c)
    ensures TotalsAgree(c)
  {
    CardTellsJudgement(c.rubric, c.judgement);
  }

  lemma BatchOfOneMore(front: seq<JudgedCase>, last: JudgedCase)
    ensures BatchOf(front + [last]) == BatchOf(front) + [Judged(last.id, last.rubric, last.judgement)]
  {}

  /** A sum over the results is a sum over the cases. */
  lemma {:induction false} SumOverBatch(f: CaseResult -> int, g: JudgedCase -> int, cases: seq<JudgedCase>)
    requires forall i :: 0 <= i < |cases| ==> f(Judged(cases[i].id, cases[i].rubric, cases[i].judgement)) == g(cases[i])
    ensures SumBy(f, BatchOf(cases)) == SumBy(g, cases)
  {
    if cases != [] {
      var front, last := cases[..|cases| - 1], cases[|cases| - 1];
      SumOverBatch(f, g, front);
      assert cases == front + [last];
      BatchOfOneMore(front, last);
      assert BatchOf(cases)[..|front|] == BatchOf(front);
    }
  }

  lemma {:induction false} SumAtLeastLength<T>(f: T -> int, s: seq<T>)
    requires forall i :: 0 <= i < |s| ==> f(s[i]) >= 1
    ensures SumBy(f, s) >= |s|
  {
    if s != [] {
      SumAtLeastLength(f, s[..|s| - 1]);
    }
  }

  lemma BatchTotals(cases: seq<JudgedCase>)
    requires AllAnswered(cases)
    ensures var batch := BatchOf(cases);
            && SumBy(P0TotalOf, batch) == Criteria(P0, cases) && SumBy(P1TotalOf, batch) == Criteria(P1, cases)
            && SumBy(P2CountOf, batch) == Criteria(P2, cases) && SumBy(ErrorOf, batch) == 0
    ensures Criteria(P0, cases) >= |cases| && Criteria(P1, cases) >= |cases| && Criteria(P2, cases) >= |cases|
  {
    forall i | 0 <= i < |cases| ensures TotalsAgree(cases[i]) {
      assert Answered(cases[i]);
      AnsweredTotals(cases[i]);
    }
    SumOverBatch(P0TotalOf, (c: JudgedCase) => CriteriaOf(P0, c), cases);
    SumOverBatch(P1TotalOf, (c: JudgedCase) => CriteriaOf(P1, c), cases);
    SumOverBatch(P2CountOf, (c: JudgedCase) => CriteriaOf(P2, c), cases);
    SumOverBatch(ErrorOf, (c: JudgedCase) => 0, cases);
    ConstantSum((c: JudgedCase) => 0, cases, 0);
    SumAtLeastLength((c: JudgedCase) => CriteriaOf(P0, c), cases);
    SumAtLeastLength((c: JudgedCase) => CriteriaOf(P1, c), cases);
    SumAtLeastLength((c: JudgedCase) => CriteriaOf(P2, c), cases);
  }

  ghost predicate TotalsAgree(c: JudgedCase) {
    var r := Judged(c.id, c.rubric, c.judgement);
    && P0TotalOf(r) == CriteriaOf(P0, c) > 0 && P1TotalOf(r) == CriteriaOf(P1, c) > 0
    && P2CountOf(r) == CriteriaOf(P2, c) > 0 && ErrorOf(r) == 0
  }

  // ---------------------------------------------------------------- the score of given sections

  /** The sums of the three sections of a batch without errors. */
  datatype Sections = Sections(passed: int, p0: int, failed: int, p1: int, earned: int, p2: int) {
    predicate Scored() { p0 > 0 && p1 > 0 && p2 > 0 }
  }

  ghost predicate HasSections(batch: seq<CaseResult>, s: Sections) {
    && SumBy(P0PassedOf, batch) == s.passed && SumBy(P0TotalOf, batch) == s.p0
    && SumBy(P1FailedOf, batch) == s.failed && SumBy(P1TotalOf, batch) == s.p1
    && SumBy(P2EarnedOf, batch) == s.earned && SumBy(P2CountOf, batch) == s.p2
    && SumBy(ErrorOf, batch) == 0
  }

  /** A part of a weight. */
  function Rise(weight: real, part: int, whole: int): real
    requires whole != 0
  {
    weight * part as real / whole as real
  }

  lemma ShareIsRise(weight: real, part: int, whole: int)
    requires whole > 0
    ensures Share(Ratio(part, whole), weight) == Rise(weight, part, whole)
  {
    QuotientScales(weight, part as real, whole as real);
  }

  lemma QuotientScales(weight: real, part: real, whole: real)
    requires whole > 0.0
    ensures part / whole * weight == weight * part / whole
  {
    var q := part / whole;
    assert q * whole == part;
    assert (q * weight) * whole == weight * part;
  }

  lemma RiseOfDouble(weight: real, part: int, whole: int)
    requires whole > 0
    ensures Rise(weight, 2 * part, 2 * whole) == Rise(weight, part, whole)
  {
    DoubleQuotient(weight * part as real, whole as real);
    assert weight * (2 * part) as real == 2.0 * (weight * part as real);
  }

  lemma DoubleQuotient(a: real, b: real)
    requires b > 0.0
    ensures (2.0 * a) / (2.0 * b) == a / b
  {
    var q := a / b;
    assert q * b == a && q * (2.0 * b) == 2.0 * a;
  }

  lemma RisesAdd(weight: real, part: int, more: int, whole: int)
    requires whole > 0
    ensures Rise(weight, part + more, whole) == Rise(weight, part, whole) + Rise(weight, more, whole)
  {
    var unit := weight / whole as real;
    assert unit * whole as real == weight;
    UnitRise(weight, unit, part, whole);
    UnitRise(weight, unit, more, whole);
    UnitRise(weight, unit, part + more, whole);
    assert unit * (part + more) as real == unit * part as real + unit * more as real;
  }

  lemma UnitRise(weight: real, unit: real, part: int, whole: int)
    requires whole > 0 && unit * whole as real == weight
    ensures Rise(weight, part, whole) == unit * part as real
  {
    assert (unit * part as real) * whole as real == weight * part as real;
  }

  /** The weighted score adds up what each section earned of its weight: passed P0 criteria, P1 criteria that
      did not fail, and P2 points out of five each. */
  lemma ScoreAddsSections(batch: seq<CaseResult>, w: Weights, s: Sections)
    requires HasSections(batch, s) && s.Scored()
    ensures Summarize(batch, w).weighted ==
            Some(Rise(w.p0, s.passed, s.p0) + Rise(w.p1, s.p1 - s.failed, s.p1) + Rise(w.p2, s.earned, s.p2 * 5))
  {
    ShareIsRise(w.p0, s.passed, s.p0);
    ShareIsRise(w.p1, 2 * (s.p1 - s.failed), 2 * s.p1);
    RiseOfDouble(w.p1, s.p1 - s.failed, s.p1);
    ShareIsRise(w.p2, s.earned, s.p2 * 5);
  }

  /** The summary shows the sections: two points for each P1 criterion that did not fail, five at most for each
      P2 criterion. */
  lemma SummaryShowsSections(batch: seq<CaseResult>, w: Weights, s: Sections)
    requires HasSections(batch, s)
    ensures var summary := Summarize(batch, w);
            && summary.p0Passed == s.passed && summary.p0Total == s.p0
            && summary.p1Earned == 2 * (s.p1 - s.failed) && summary.p1Max == 2 * s.p1
            && summary.p2Earned == s.earned && summary.p2Max == 5 * s.p2
  {}

  function ErrorsAt(batch: seq<CaseResult>): set<nat> { set i: nat | i < |batch| && batch[i].outcome.ERROR? }

  /** The errors of the summary are the results with that outcome. */
  lemma {:induction false} SummaryCountsErrors(batch: seq<CaseResult>, w: Weights)
    ensures Summarize(batch, w).errors == |ErrorsAt(batch)|
  {
    if batch != [] {
      var n := |batch| - 1;
      SummaryCountsErrors(batch[..n], w);
      if batch[n].outcome.ERROR? {
        assert ErrorsAt(batch) == ErrorsAt(batch[..n]) + {n};
      } else {
        assert ErrorsAt(batch) == ErrorsAt(batch[..n]);
      }
    }
  }

  /** A batch that earned nothing in any section scores 0. */
  lemma NothingEarnedScoresZero(batch: seq<CaseResult>, w: Weights, s: Sections)
    requires HasSections(batch, s) && s.Scored() && s.passed == 0 && s.failed == s.p1 && s.earned == 0
    ensures Summarize(batch, w).weighted == Some(0.0)
  {
    ScoreAddsSections(batch, w, s);
    NoRise(w.p0, s.p0);
    NoRise(w.p1, s.p1);
    NoRise(w.p2, s.p2 * 5);
  }

  lemma NoRise(weight: real, whole: int)
    requires whole > 0
    ensures Rise(weight, 0, whole) == 0.0
  {}

  ghost predicate ScoreRises(batch: seq<CaseResult>, better: seq<CaseResult>, w: Weights, rise: real) {
    && Summarize(batch, w).weighted.Some? && Summarize(better, w).weighted.Some?
    && Summarize(better, w).weighted.value == Summarize(batch, w).weighted.value + rise
  }

  /** Each section moves the score by its own weight, in proportion to what it earns more. */
  lemma SectionsMoveTheScore(batch: seq<CaseResult>, better: seq<CaseResult>, w: Weights, s: Sections, d0: int, d1: int, d2: int)
    requires s.Scored() && HasSections(batch, s)
    requires HasSections(better, s.(passed := s.passed + d0, failed := s.failed - d1, earned := s.earned + d2))
    ensures ScoreRises(batch, better, w, Rise(w.p0, d0, s.p0) + Rise(w.p1, d1, s.p1) + Rise(w.p2, d2, s.p2 * 5))
  {
    ScoreAddsSections(batch, w, s);
    ScoreAddsSections(better, w, s.(passed := s.passed + d0, failed := s.failed - d1, earned := s.earned + d2));
    RisesAdd(w.p0, s.passed, d0, s.p0);
    RisesAdd(w.p1, s.p1 - s.failed, d1, s.p1);
    RisesAdd(w.p2, s.earned, d2, s.p2 * 5);
    assert s.p1 - (s.failed - d1) == (s.p1 - s.failed) + d1;
  }

  // ---------------------------------------------------------------- one answer of the judge

  /** The batch changes in one case only. */
  lemma OneCaseChanges(cases: seq<JudgedCase>, c: nat, other: JudgedCase)
    requires c < |cases|
    ensures BatchOf(cases[c := other]) == BatchOf(cases)[c := Judged(other.id, other.rubric, other.judgement)]
  {}

  lemma SumsOfOneChange(cases: seq<JudgedCase>, c: nat, other: JudgedCase)
    requires c < |cases|
    ensures var a, b := BatchOf(cases), BatchOf(cases[c := other]);
            var old', new' := a[c], Judged(other.id, other.rubric, other.judgement);
            && SumBy(P0PassedOf, b) == SumBy(P0PassedOf, a) - P0PassedOf(old') + P0PassedOf(new')
            && SumBy(P1FailedOf, b) == SumBy(P1FailedOf, a) - P1FailedOf(old') + P1FailedOf(new')
            && SumBy(P2EarnedOf, b) == SumBy(P2EarnedOf, a) - P2EarnedOf(old') + P2EarnedOf(new')
  {
    var a, new' := BatchOf(cases), Judged(other.id, other.rubric, other.judgement);
    OneCaseChanges(cases, c, other);
    SumOfUpdate(P0PassedOf, a, c, new');
    SumOfUpdate(P1FailedOf, a, c, new');
    SumOfUpdate(P2EarnedOf, a, c, new');
  }

  /** The judgement with the answer to one criterion improved. */
  function PassP0(c: JudgedCase, i: nat): JudgedCase
    requires i < |c.judgement.p0|
  {
    c.(judgement := c.judgement.(p0 := c.judgement.p0[i := c.judgement.p0[i].(passed := true)]))
  }

  function PassP1(c: JudgedCase, i: nat): JudgedCase
    requires i < |c.judgement.p1|
  {
    c.(judgement := c.judgement.(p1 := c.judgement.p1[i := c.judgement.p1[i].(passed := true)]))
  }

  function RaiseP2(c: JudgedCase, i: nat): JudgedCase
    requires i < |c.judgement.p2|
  {
    c.(judgement := c.judgement.(p2 := c.judgement.p2[i := c.judgement.p2[i].(score := c.judgement.p2[i].score + 1)]))
  }

  lemma PassP0Counts(c: JudgedCase, i: nat)
    requires Answered(c) && i < |c.judgement.p0| && !c.judgement.p0[i].passed
    ensures Improves(c, PassP0(c, i), 1, 0, 0)
  {
    var p0 := c.judgement.p0;
    assert BinaryNames(PassP0(c, i).judgement.p0) == BinaryNames(p0);
    SumOfUpdate(Passed, p0, i, p0[i].(passed := true));
  }

  lemma PassP1Counts(c: JudgedCase, i: nat)
    requires Answered(c) && i < |c.judgement.p1| && !c.judgement.p1[i].passed
    ensures Improves(c, PassP1(c, i), 0, 1, 0)
  {
    var p1 := c.judgement.p1;
    assert BinaryNames(PassP1(c, i).judgement.p1) == BinaryNames(p1);
    SumOfUpdate(Failed, p1, i, p1[i].(passed := true));
  }

  lemma RaiseP2Counts(c: JudgedCase, i: nat)
    requires Answered(c) && i < |c.judgement.p2| && c.judgement.p2[i].score < 5
    ensures Improves(c, RaiseP2(c, i), 0, 0, 1)
  {
    var p2 := c.judgement.p2;
    assert GradedNames(RaiseP2(c, i).judgement.p2) == GradedNames(p2);
    SumOfUpdate(ScoreOf, p2, i, p2[i].(score := p2[i].score + 1));
  }

  function SectionsOf(cases: seq<JudgedCase>): Sections {
    var batch := BatchOf(cases);
    Sections(SumBy(P0PassedOf, batch), Criteria(P0, cases), SumBy(P1FailedOf, batch), Criteria(P1, cases),
             SumBy(P2EarnedOf, batch), Criteria(P2, cases))
  }

  lemma BatchHasSections(cases: seq<JudgedCase>)
    requires AllAnswered(cases) && cases != []
    ensures HasSections(BatchOf(cases), SectionsOf(cases)) && SectionsOf(cases).Scored()
  {
    BatchTotals(cases);
  }

  lemma SameCriteria(cases: seq<JudgedCase>, c: nat, other: JudgedCase, level: Level)
    requires c < |cases| && other.rubric == cases[c].rubric
    ensures Criteria(level, cases[c := other]) == Criteria(level, cases)
  {
    SumOfUpdate((x: JudgedCase) => CriteriaOf(level, x), cases, c, other);
  }

  /** What the change of one case adds to the sections. */
  ghost predicate Improves(a: JudgedCase, b: JudgedCase, d0: int, d1: int, d2: int) {
    && Answered(a) && Answered(b) && a.rubric == b.rubric
    && var r, r' := Judged(a.id, a.rubric, a.judgement), Judged(b.id, b.rubric, b.judgement);
    && P0PassedOf(r') == P0PassedOf(r) + d0 && P1FailedOf(r') == P1FailedOf(r) - d1 && P2EarnedOf(r') == P2EarnedOf(r) + d2
  }

  lemma ChangedSections(cases: seq<JudgedCase>, c: nat, other: JudgedCase, d0: int, d1: int, d2: int)
    requires AllAnswered(cases) && c < |cases| && Improves(cases[c], other, d0, d1, d2)
    ensures var s := SectionsOf(cases);
            && s.Scored() && HasSections(BatchOf(cases), s)
            && HasSections(BatchOf(cases[c := other]), s.(passed := s.passed + d0, failed := s.failed - d1, earned := s.earned + d2))
  {
    var better := cases[c := other];
    assert forall i :: 0 <= i < |better| ==> better[i] == if i == c then other else cases[i];
    BatchHasSections(cases);
    BatchHasSections(better);
    SameCriteria(cases, c, other, P0);
    SameCriteria(cases, c, other, P1);
    SameCriteria(cases, c, other, P2);
    SumsOfOneChange(cases, c, other);
  }

  lemma ChangedBatchMoves(cases: seq<JudgedCase>, c: nat, other: JudgedCase, w: Weights, d0: int, d1: int, d2: int)
    requires AllAnswered(cases) && c < |cases| && Improves(cases[c], other, d0, d1, d2)
    ensures SectionsOf(cases).Scored()
    ensures ScoreRises(BatchOf(cases), BatchOf(cases[c := other]), w,
                       Rise(w.p0, d0, Criteria(P0, cases)) + Rise(w.p1, d1, Criteria(P1, cases)) + Rise(w.p2, d2, Criteria(P2, cases) * 5))
  {
    ChangedSections(cases, c, other, d0, d1, d2);
    SectionsMoveTheScore(BatchOf(cases), BatchOf(cases[c := other]), w, SectionsOf(cases), d0, d1, d2);
  }

  /** One more passed P0 criterion raises the score by exactly the P0 weight over all P0 criteria. */
  lemma OneMoreP0Raises(cases: seq<JudgedCase>, c: nat, i: nat, w: Weights)
    requires AllAnswered(cases) && c < |cases| && i < |cases[c].judgement.p0| && !cases[c].judgement.p0[i].passed
    ensures Criteria(P0, cases) > 0
    ensures ScoreRises(BatchOf(cases), BatchOf(cases[c := PassP0(cases[c], i)]), w, Rise(w.p0, 1, Criteria(P0, cases)))
  {
    assert Answered(cases[c]);
    PassP0Counts(cases[c], i);
    ChangedBatchMoves(cases, c, PassP0(cases[c], i), w, 1, 0, 0);
    NoRise(w.p1, Criteria(P1, cases));
    NoRise(w.p2, Criteria(P2, cases) * 5);
  }

  /** One P1 failure fewer raises the score by exactly the P1 weight over all P1 criteria. */
  lemma OneP1FailureFewerRaises(cases: seq<JudgedCase>, c: nat, i: nat, w: Weights)
    requires AllAnswered(cases) && c < |cases| && i < |cases[c].judgement.p1| && !cases[c].judgement.p1[i].passed
    ensures Criteria(P1, cases) > 0
    ensures ScoreRises(BatchOf(cases), BatchOf(cases[c := PassP1(cases[c], i)]), w, Rise(w.p1, 1, Criteria(P1, cases)))
  {
    assert Answered(cases[c]);
    PassP1Counts(cases[c], i);
    ChangedBatchMoves(cases, c, PassP1(cases[c], i), w, 0, 1, 0);
    NoRise(w.p0, Criteria(P0, cases));
    NoRise(w.p2, Criteria(P2, cases) * 5);
  }

  /** One P2 point more raises the score by exactly the P2 weight over five times all P2 criteria. */
  lemma OneMoreP2PointRaises(cases: seq<JudgedCase>, c: nat, i: nat, w: Weights)
    requires AllAnswered(cases) && c < |cases| && i < |cases[c].judgement.p2| && cases[c].judgement.p2[i].score < 5
    ensures Criteria(P2, cases) > 0
    ensures ScoreRises(BatchOf(cases), BatchOf(cases[c := RaiseP2(cases[c], i)]), w, Rise(w.p2, 1, Criteria(P2, cases) * 5))
  {
    assert Answered(cases[c]);
    RaiseP2Counts(cases[c], i);
    ChangedBatchMoves(cases, c, RaiseP2(cases[c], i), w, 0, 0, 1);
    NoRise(w.p0, Criteria(P0, cases));
    NoRise(w.p1, Criteria(P1, cases));
  }

  // ---------------------------------------------------------------- the lowest score

  /** Every P0 and P1 criterion failed and every P2 criterion given its lowest point. */
  ghost predicate Worst(j: Judgement) {
    && (forall i :: 0 <= i < |j.p0| ==> !j.p0[i].passed) && (forall i :: 0 <= i < |j.p1| ==> !j.p1[i].passed)
    && (forall i :: 0 <= i < |j.p2| ==> j.p2[i].score == 1)
  }

  lemma {:induction false} ConstantSum<T>(f: T -> int, s: seq<T>, x: int)
    requires forall i :: 0 <= i < |s| ==> f(s[i]) == x
    ensures SumBy(f, s) == x * |s|
  {
    if s != [] {
      ConstantSum(f, s[..|s| - 1], x);
    }
  }

  ghost predicate EarnsLeast(c: JudgedCase) {
    var r := Judged(c.id, c.rubric, c.judgement);
    P0PassedOf(r) == 0 && P1FailedOf(r) == CriteriaOf(P1, c) && P2EarnedOf(r) == CriteriaOf(P2, c)
  }

  lemma WorstCase(c: JudgedCase)
    requires Answered(c) && Worst(c.judgement)
    ensures EarnsLeast(c)
  {
    AnsweredTotals(c);
    ConstantSum(Passed, c.judgement.p0, 0);
    ConstantSum(Failed, c.judgement.p1, 1);
    ConstantSum(ScoreOf, c.judgement.p2, 1);
  }

  lemma WorstSums(cases: seq<JudgedCase>)
    requires AllAnswered(cases) && forall i :: 0 <= i < |cases| ==> Worst(cases[i].judgement)
    ensures var batch := BatchOf(cases);
            && SumBy(P0PassedOf, batch) == 0 && SumBy(P1FailedOf, batch) == Criteria(P1, cases)
            && SumBy(P2EarnedOf, batch) == Criteria(P2, cases)
  {
    forall i | 0 <= i < |cases| ensures EarnsLeast(cases[i]) {
      assert Answered(cases[i]);
      WorstCase(cases[i]);
    }
    SumOverBatch(P0PassedOf, (c: JudgedCase) => 0, cases);
    ConstantSum((c: JudgedCase) => 0, cases, 0);
    SumOverBatch(P1FailedOf, (c: JudgedCase) => CriteriaOf(P1, c), cases);
    SumOverBatch(P2EarnedOf, (c: JudgedCase) => CriteriaOf(P2, c), cases);
  }

  /** The worst possible answers to a batch score a fifth of the P2 weight: from there the laws above give every
      score. */
  lemma WorstBatchScore(cases: seq<JudgedCase>, w: Weights)
    requires AllAnswered(cases) && cases != [] && forall i :: 0 <= i < |cases| ==> Worst(cases[i].judgement)
    ensures Summarize(BatchOf(cases), w).weighted == Some(w.p2 / 5.0)
  {
    var s := SectionsOf(cases);
    BatchHasSections(cases);
    WorstSums(cases);
    ScoreAddsSections(BatchOf(cases), w, s);
    NoRise(w.p0, s.p0);
    NoRise(w.p1, s.p1);
    Fifth(w.p2, s.p2);
  }

  lemma Fifth(weight: real, whole: int)
    requires whole > 0
    ensures Rise(weight, whole, whole * 5) == weight / 5.0
  {
    UnitRise(weight, weight / (whole * 5) as real, whole, whole * 5);
    assert weight / (whole * 5) as real * whole as real * 5.0 == weight;
  }
}
