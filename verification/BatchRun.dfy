/**
 The run of a batch: each case is evaluated only behind its dependencies, each gives one result,
 and the report accepts the batch.
 */
module BatchRun {
  import opened Wrappers
  import opened Sequences
  import opened CaseSuite
  import opened Quality

  datatype Answer = Answer(judgement: Judgement, card: Scorecard)

  /** A dependency counts only without a P0 or P1 failure. */
  predicate Ready(r: CaseResult) {
    r.outcome.SCORED? && r.card.Some? && r.card.value.p0Passed == r.card.value.p0Total && r.card.value.p1Failed == 0
  }

  /** A judged dependency is ready exactly when every P0 and every P1 criterion passed. */
  lemma ReadyMeansAllPassed(id: string, rubric: Rubric, j: Judgement)
    requires rubric.Valid() && j.Valid() && ScoreRubric(rubric, j).Scored?
    ensures Ready(CompletedResult(id, j, ScoreRubric(rubric, j).card)) <==>
            && (forall i :: 0 <= i < |j.p0| ==> j.p0[i].passed) && (forall i :: 0 <= i < |j.p1| ==> j.p1[i].passed)
  {
    CardTellsJudgement(rubric, j);
    CountsAreBounded(j.p0);
  }

  /** Some earlier case with this id has a ready result. */
  ghost predicate ReadyBefore(cases: seq<Case>, results: seq<CaseResult>, i: nat, id: string)
    requires |cases| == |results|
  {
    exists j :: 0 <= j < i && j < |cases| && cases[j].id == id && Ready(results[j])
  }

  ghost predicate DependenciesReady(cases: seq<Case>, results: seq<CaseResult>, i: nat)
    requires i < |cases| == |results|
  {
    forall id :: id in cases[i].dependsOn ==> ReadyBefore(cases, results, i, id)
  }

  /** The result of case i, evaluated or not. */
  function ResultOf(c: Case, evaluated: bool, answer: Option<Answer>): CaseResult {
    if !evaluated then ErrorResult(c.id, "dependency")
    else if answer.None? then ErrorResult(c.id, "evaluation")
    else CompletedResult(c.id, answer.value.judgement, answer.value.card)
  }

  /** What a run is: one result per case in order, and evaluation exactly behind ready dependencies. */
  ghost predicate IsRun(cases: seq<Case>, answers: nat -> Option<Answer>, results: seq<CaseResult>, evaluated: set<nat>) {
    && |results| == |cases|
    && (forall i :: i in evaluated ==> i < |cases|)
    && (forall i :: 0 <= i < |cases| ==> results[i] == ResultOf(cases[i], i in evaluated, answers(i)))
    && (forall i :: 0 <= i < |cases| ==> (i in evaluated <==> DependenciesReady(cases, results, i)))
  }

  /** The ids with a ready case so far are the ids whose completed case is ready. */
  ghost predicate Completed(cases: seq<Case>, results: seq<CaseResult>, completed: map<string, CaseResult>)
    requires |results| == |cases|
  {
    && (forall id :: id in completed ==> id in IdsOf(cases))
    && (forall id :: id in completed && Ready(completed[id]) <==> ReadyBefore(cases, results, |cases|, id))
  }

  method AllReady(completed: map<string, CaseResult>, ids: seq<string>) returns (ready: bool)
    ensures ready <==> forall id :: id in ids ==> id in completed && Ready(completed[id])
  {
    for k := 0 to |ids|
      invariant forall id :: id in ids[..k] ==> id in completed && Ready(completed[id])
    {
      if ids[k] !in completed || !Ready(completed[ids[k]]) {
        return false;
      }
      assert ids[..k + 1] == ids[..k] + [ids[k]];
    }
    assert ids[..|ids|] == ids;
    return true;
  }

  /** `answers(i)` is what evaluating case i would give: an answer of the judge, or nothing when any
      phase of the evaluation raises.  `evaluated` records the cases whose evaluation was started. */
  method RunCases(cases: seq<Case>, answers: nat -> Option<Answer>)
    returns (results: seq<CaseResult>, evaluated: set<nat>)
    requires DistinctIds(cases)
    ensures IsRun(cases, answers, results, evaluated)
  {
    results := [];
    evaluated := {};
    var completed: map<string, CaseResult> := map[];
    for i := 0 to |cases|
      invariant IsRun(cases[..i], answers, results, evaluated)
      invariant Completed(cases[..i], results, completed)
    {
      var c := cases[i];
      var available := AllReady(completed, c.dependsOn);
      var result;
      if !available {
        result := ErrorResult(c.id, "dependency");
      } else {
        match answers(i)
        case None => result := ErrorResult(c.id, "evaluation");
        case Some(answer) => result := CompletedResult(c.id, answer.judgement, answer.card);
      }
      IdIsNew(cases, i);
      RunGrows(cases[..i], answers, results, evaluated, completed, c, result, available);
      CompletedGrows(cases[..i], results, completed, c, result);
      if available && answers(i).Some? {
        completed := completed[c.id := result];
      }
      if available {
        evaluated := evaluated + {i};
      }
      results := results + [result];
      assert cases[..i + 1] == cases[..i] + [c];
    }
    assert cases[..|cases|] == cases;
  }

  lemma IdIsNew(cases: seq<Case>, i: nat)
    requires DistinctIds(cases) && i < |cases|
    ensures cases[i].id !in IdsOf(cases[..i])
  {}

  lemma CompletedGrows(cases: seq<Case>, results: seq<CaseResult>, completed: map<string, CaseResult>, c: Case, result: CaseResult)
    requires |results| == |cases| && Completed(cases, results, completed) && c.id !in IdsOf(cases)
    ensures Completed(cases + [c], results + [result], completed[c.id := result])
    ensures !Ready(result) ==> Completed(cases + [c], results + [result], completed)
  {
    var cases', results' := cases + [c], results + [result];
    IdsOfConcat(cases, [c]);
    assert [c][0].id in IdsOf([c]);
    forall id ensures ReadyBefore(cases', results', |cases'|, id) <==>
                      ReadyBefore(cases, results, |cases|, id) || (id == c.id && Ready(result)) {
      OneMoreBefore(cases, results, c, result, id);
    }
  }

  lemma OneMoreBefore(cases: seq<Case>, results: seq<CaseResult>, c: Case, result: CaseResult, id: string)
    requires |cases| == |results|
    ensures ReadyBefore(cases + [c], results + [result], |cases| + 1, id) <==>
            ReadyBefore(cases, results, |cases|, id) || (id == c.id && Ready(result))
  {
    var n := |cases|;
    var cases', results' := cases + [c], results + [result];
    assert cases'[n] == c && results'[n] == result;
    SameBefore(cases, results, c, result, n, id);
    if ReadyBefore(cases', results', n + 1, id) {
      var j :| 0 <= j < n + 1 && j < |cases'| && cases'[j].id == id && Ready(results'[j]);
      assert j == n || ReadyBefore(cases', results', n, id);
    }
  }

  lemma RunGrows(cases: seq<Case>, answers: nat -> Option<Answer>, results: seq<CaseResult>, evaluated: set<nat>,
                 completed: map<string, CaseResult>, c: Case, result: CaseResult, available: bool)
    requires IsRun(cases, answers, results, evaluated) && Completed(cases, results, completed)
    requires available <==> forall id :: id in c.dependsOn ==> id in completed && Ready(completed[id])
    requires result == ResultOf(c, available, answers(|cases|))
    ensures IsRun(cases + [c], answers, results + [result], if available then evaluated + {|cases|} else evaluated)
  {}

  lemma SameBefore(cases: seq<Case>, results: seq<CaseResult>, c: Case, result: CaseResult, i: nat, id: string)
    requires |cases| == |results| && i <= |cases|
    ensures ReadyBefore(cases + [c], results + [result], i, id) <==> ReadyBefore(cases, results, i, id)
  {
    if ReadyBefore(cases, results, i, id) {
      var j :| 0 <= j < i && j < |cases| && cases[j].id == id && Ready(results[j]);
      assert (cases + [c])[j] == cases[j] && (results + [result])[j] == results[j];
    }
    if ReadyBefore(cases + [c], results + [result], i, id) {
      var j :| 0 <= j < i && j < |cases + [c]| && (cases + [c])[j].id == id && Ready((results + [result])[j]);
      assert (cases + [c])[j] == cases[j] && (results + [result])[j] == results[j];
    }
  }

  /** In every run a case is evaluated exactly when every case it needs, directly or through others,
      was scored with all P0 criteria passed and no P1 failure. */
  lemma EvaluatedExactlyBehindReady(cases: seq<Case>, answers: nat -> Option<Answer>, results: seq<CaseResult>,
                                    evaluated: set<nat>, i: nat, needed: set<string>)
    requires DistinctIds(cases) && BackwardsDependencies(cases)
    requires IsRun(cases, answers, results, evaluated) && i < |cases|
    requires IsNeeded(cases, {cases[i].id}, needed)
    ensures i in evaluated <==> forall j :: 0 <= j < |cases| && j != i && cases[j].id in needed ==>
                                  (results[j].outcome.SCORED? && results[j].card.Some?
                                   && results[j].card.value.p0Passed == results[j].card.value.p0Total
                                   && results[j].card.value.p1Failed == 0)
  {
    if i in evaluated {
      var ready := set j | 0 <= j < |cases| && (j == i || Ready(results[j])) :: cases[j].id;
      ReadyIsClosed(cases, answers, results, evaluated, i, ready);
      assert needed <= ready;
      forall j | 0 <= j < |cases| && j != i && cases[j].id in needed ensures Ready(results[j]) {
        var k :| 0 <= k < |cases| && (k == i || Ready(results[k])) && cases[k].id == cases[j].id;
        assert k == j;
      }
    } else {
      var id :| id in cases[i].dependsOn && !ReadyBefore(cases, results, i, id);
      assert DependsBackwards(cases, i) && id in IdsOf(cases[..i]);
      var j :| 0 <= j < i && cases[..i][j].id == id;
      assert id in SetOf(cases[i].dependsOn) && id in needed;
      assert cases[j].id == id && !Ready(results[j]);
    }
  }

  lemma ReadyIsClosed(cases: seq<Case>, answers: nat -> Option<Answer>, results: seq<CaseResult>,
                      evaluated: set<nat>, i: nat, ready: set<string>)
    requires DistinctIds(cases) && IsRun(cases, answers, results, evaluated) && i in evaluated
    requires ready == set j | 0 <= j < |cases| && (j == i || Ready(results[j])) :: cases[j].id
    ensures Closed(cases, ready) && cases[i].id in ready
  {}

  /** What the result of a case says: an error of the dependencies exactly when the case was not evaluated, an
      error of the evaluation exactly when that gave no answer, and otherwise the judge's answer, failed exactly
      when some P0 criterion was. */
  lemma ResultTells(cases: seq<Case>, answers: nat -> Option<Answer>, results: seq<CaseResult>, evaluated: set<nat>,
                    i: nat, rubric: Rubric)
    requires IsRun(cases, answers, results, evaluated) && i < |cases| && rubric.Valid()
    requires answers(i).Some? ==> IsJudged(answers(i).value, rubric)
    ensures var r, answer := results[i], answers(i);
            && r.id == cases[i].id
            && (r.outcome == ERROR && r.failure == Some("dependency") <==> i !in evaluated)
            && (r.outcome == ERROR && r.failure == Some("evaluation") <==> i in evaluated && answer.None?)
            && (i in evaluated && answer.Some? ==>
                  && r.judgement == Some(answer.value.judgement) && r.card == Some(answer.value.card) && r.failure.None?
                  && r.outcome == (if forall k :: 0 <= k < |answer.value.judgement.p0| ==> answer.value.judgement.p0[k].passed
                                   then SCORED else FAIL))
  {
    if answers(i).Some? {
      CardTellsJudgement(rubric, answers(i).value.judgement);
    }
  }

  /** An answer as scoring a complete judgement gives it. */
  ghost predicate IsJudged(answer: Answer, rubric: Rubric) {
    answer.judgement.Valid() && ScoreRubric(rubric, answer.judgement) == Scored(answer.card)
  }

  // ---------------------------------------------------------------- the report accepts the batch

  function CaseIds(cases: seq<Case>): seq<string> { MapBy((c: Case) => c.id, cases) }

  function ResultIds(results: seq<CaseResult>): seq<string> { MapBy((r: CaseResult) => r.id, results) }

  /** The identity check of the report. */
  ghost predicate BatchAccepted(design: seq<Case>, run: seq<Case>, results: seq<CaseResult>) {
    && NoRepeats(CaseIds(design)) && NoRepeats(CaseIds(run)) && NoRepeats(ResultIds(results))
    && SetOf(CaseIds(run)) <= SetOf(CaseIds(design))
    && SetOf(CaseIds(run)) == SetOf(ResultIds(results))
  }

  /** The check accepts exactly one result per run case, in any order. */
  lemma AcceptedExactlyWithOneResultEach(design: seq<Case>, run: seq<Case>, results: seq<CaseResult>)
    requires NoRepeats(CaseIds(design)) && NoRepeats(CaseIds(run)) && SetOf(CaseIds(run)) <= SetOf(CaseIds(design))
    ensures BatchAccepted(design, run, results) <==> multiset(ResultIds(results)) == multiset(CaseIds(run))
  {
    SameElementsIsReordering(ResultIds(results), CaseIds(run));
    SetSizeMeansNoRepeats(ResultIds(results));
  }

  /** Whatever is requested of a valid suite and however the evaluations end, the batch is accepted. */
  lemma RunsAreAccepted(design: seq<Case>, needed: set<string>, answers: nat -> Option<Answer>,
                        results: seq<CaseResult>, evaluated: set<nat>)
    requires DistinctIds(design) && BackwardsDependencies(design) && Closed(design, needed)
    requires IsRun(Chosen(design, needed), answers, results, evaluated)
    ensures BatchAccepted(design, Chosen(design, needed), results)
  {
    var run := Chosen(design, needed);
    SelectionStaysValid(design, needed);
    ChosenIds(design, needed);
    assert CaseIds(run) == ResultIds(results);
    forall id | id in CaseIds(run) ensures id in CaseIds(design) {
      var i :| 0 <= i < |run| && CaseIds(run)[i] == id;
      assert run[i] in design;
      var j :| 0 <= j < |design| && design[j] == run[i];
      assert CaseIds(design)[j] == id;
    }
  }

  datatype BatchResult = Ran(run: seq<Case>, results: seq<CaseResult>) | BadSuite(problem: Problem) | BadRequest(unknown: set<string>)

  /** Validation, selection and run of a suite. */
  method RunSuite(families: Families, cases: seq<Case>, requested: seq<string>, answers: nat -> Option<Answer>)
    returns (r: BatchResult)
    ensures r.BadSuite? <==> !ValidSuite(families, cases)
    ensures r.BadRequest? <==> ValidSuite(families, cases) && requested != [] && !(SetOf(requested) <= IdsOf(cases))
    ensures r.Ran? ==> BatchAccepted(cases, r.run, r.results)
    ensures r.Ran? ==> exists needed, evaluated ::
                IsNeeded(cases, if requested == [] then IdsOf(cases) else SetOf(requested), needed)
                && r.run == Chosen(cases, needed) && IsRun(r.run, answers, r.results, evaluated)
  {
    var problem := ValidateSuite(families, cases);
    if problem.Some? {
      return BadSuite(problem.value);
    }
    var choice, needed := SelectCases(cases, requested);
    if choice.UnknownIds? {
      return BadRequest(choice.ids);
    }
    SelectionStaysValid(cases, needed);
    var results, evaluated := RunCases(choice.cases, answers);
    RunsAreAccepted(cases, needed, answers, results, evaluated);
    return Ran(choice.cases, results);
  }
}
