/**
 The case suite: its contract, checked case by case, and the choice of the cases to run, closed
 under their dependencies.
 */
module CaseSuite {
  import opened Wrappers
  import opened Sequences

  datatype Case = Case(id: string, dependsOn: seq<string>, family: string, points: set<string>)

  /** A family of journeys: its share of the coverage score and the points a suite must cover. */
  datatype Family = Family(weight: real, required: set<string>)

  type Families = map<string, Family>

  datatype Problem =
    | DuplicateIds
    | UnknownDependencies(at: nat)
    | LaterDependencies(at: nat)
    | UnknownFamily(at: nat)
    | UnknownPoints(at: nat)

  function IdsOf(cases: seq<Case>): set<string> { set i | 0 <= i < |cases| :: cases[i].id }

  ghost predicate DistinctIds(cases: seq<Case>) {
    forall i, j :: 0 <= i < j < |cases| ==> cases[i].id != cases[j].id
  }

  /** Case i depends on earlier cases only. */
  predicate DependsBackwards(cases: seq<Case>, i: nat)
    requires i < |cases|
  {
    SetOf(cases[i].dependsOn) <= IdsOf(cases[..i])
  }

  predicate PointsKnown(families: Families, c: Case) {
    c.family in families && c.points <= families[c.family].required
  }

  ghost predicate BackwardsDependencies(cases: seq<Case>) {
    forall i :: 0 <= i < |cases| ==> DependsBackwards(cases, i)
  }

  ghost predicate ValidSuite(families: Families, cases: seq<Case>) {
    && DistinctIds(cases) && BackwardsDependencies(cases)
    && forall i :: 0 <= i < |cases| ==> PointsKnown(families, cases[i])
  }

  /** The first thing wrong with case i. */
  function ProblemOf(families: Families, cases: seq<Case>, i: nat): Option<Problem>
    requires i < |cases|
  {
    var c := cases[i];
    if !(SetOf(c.dependsOn) <= IdsOf(cases)) then Some(UnknownDependencies(i))
    else if !DependsBackwards(cases, i) then Some(LaterDependencies(i))
    else if c.family !in families then Some(UnknownFamily(i))
    else if !(c.points <= families[c.family].required) then Some(UnknownPoints(i))
    else None
  }

  /** What each problem of a case means; they are looked for in this order. */
  lemma ProblemOfTells(families: Families, cases: seq<Case>, i: nat)
    requires i < |cases|
    ensures var c, p := cases[i], ProblemOf(families, cases, i);
            && (p == Some(UnknownDependencies(i)) <==> exists d :: d in c.dependsOn && d !in IdsOf(cases))
            && (p == Some(LaterDependencies(i)) <==>
                  (forall d :: d in c.dependsOn ==> d in IdsOf(cases)) && exists d :: d in c.dependsOn && d !in IdsOf(cases[..i]))
            && (p == Some(UnknownFamily(i)) <==> DependsBackwards(cases, i) && c.family !in families)
            && (p == Some(UnknownPoints(i)) <==>
                  DependsBackwards(cases, i) && c.family in families && exists x :: x in c.points && x !in families[c.family].required)
            && (p == None <==> DependsBackwards(cases, i) && PointsKnown(families, c))
  {
    PrefixIds(cases, i);
    assert forall d :: d in SetOf(cases[i].dependsOn) <==> d in cases[i].dependsOn;
  }

  lemma PrefixIds(cases: seq<Case>, n: nat)
    requires n <= |cases|
    ensures IdsOf(cases[..n]) <= IdsOf(cases)
  {}

  method HasDuplicateIds(cases: seq<Case>) returns (duplicates: bool)
    ensures duplicates <==> !DistinctIds(cases)
  {
    var seen: set<string> := {};
    for i := 0 to |cases|
      invariant DistinctIds(cases[..i])
      invariant seen == IdsOf(cases[..i])
    {
      assert cases[..i + 1] == cases[..i] + [cases[i]];
      if cases[i].id in seen {
        assert exists j :: 0 <= j < i && cases[j].id == cases[i].id;
        return true;
      }
      seen := seen + {cases[i].id};
    }
    assert cases[..|cases|] == cases;
    return false;
  }

  /** Accepts exactly the valid suites; otherwise reports the first problem in suite order. */
  method ValidateSuite(families: Families, cases: seq<Case>) returns (problem: Option<Problem>)
    ensures problem == None <==> ValidSuite(families, cases)
    ensures problem == Some(DuplicateIds) <==> !DistinctIds(cases)
    ensures problem.Some? && !problem.value.DuplicateIds? ==>
              exists i :: 0 <= i < |cases| && problem == ProblemOf(families, cases, i)
                          && forall j :: 0 <= j < i ==> ProblemOf(families, cases, j) == None
  {
    var duplicates := HasDuplicateIds(cases);
    if duplicates {
      return Some(DuplicateIds);
    }
    var known: set<string> := {};
    var all := IdsOf(cases);
    for i := 0 to |cases|
      invariant known == IdsOf(cases[..i])
      invariant forall j :: 0 <= j < i ==> ProblemOf(families, cases, j) == None
    {
      var c := cases[i];
      problem := None;
      if !(SetOf(c.dependsOn) <= all) {
        problem := Some(UnknownDependencies(i));
      } else if !(SetOf(c.dependsOn) <= known) {
        problem := Some(LaterDependencies(i));
      } else if c.family !in families {
        problem := Some(UnknownFamily(i));
      } else if !(c.points <= families[c.family].required) {
        problem := Some(UnknownPoints(i));
      }
      assert problem == ProblemOf(families, cases, i);
      if problem.Some? {
        PrefixIds(cases, i);
        assert !DependsBackwards(cases, i) || !PointsKnown(families, c);
        return;
      }
      assert cases[..i + 1] == cases[..i] + [c];
      known := known + {c.id};
    }
    forall i | 0 <= i < |cases| ensures DependsBackwards(cases, i) && PointsKnown(families, cases[i]) {
      assert ProblemOf(families, cases, i) == None;
    }
    return None;
  }

  // ---------------------------------------------------------------- the cases a request needs

  /** Where an id stands in the suite. */
  function Position(cases: seq<Case>, id: string): (i: nat)
    requires id in IdsOf(cases)
    ensures i < |cases| && cases[i].id == id
  {
    if cases[|cases| - 1].id == id then |cases| - 1
    else Position(cases[..|cases| - 1], id)
  }

  /** With a case the set holds all its dependencies. */
  ghost predicate Closed(cases: seq<Case>, s: set<string>) {
    forall i :: 0 <= i < |cases| && cases[i].id in s ==> SetOf(cases[i].dependsOn) <= s
  }

  /** The smallest closed set of suite ids around the requested ones. */
  ghost predicate IsNeeded(cases: seq<Case>, requested: set<string>, s: set<string>) {
    && requested <= s <= IdsOf(cases) && Closed(cases, s)
    && forall t :: requested <= t && Closed(cases, t) ==> s <= t
  }

  lemma DependencyStandsEarlier(cases: seq<Case>, id: string, dependency: string)
    requires DistinctIds(cases) && BackwardsDependencies(cases) && id in IdsOf(cases)
    requires dependency in cases[Position(cases, id)].dependsOn
    ensures dependency in IdsOf(cases) && Position(cases, dependency) < Position(cases, id)
  {
    var i := Position(cases, id);
    assert DependsBackwards(cases, i) && dependency in IdsOf(cases[..i]);
    var j :| 0 <= j < i && cases[..i][j].id == dependency;
    assert cases[j].id == dependency && dependency in IdsOf(cases);
  }

  /** The recursion that grows the selection, dependencies before the case. */
  class Selection {
    const cases: seq<Case>
    var selected: set<string>

    ghost predicate Valid()
      reads this
    {
      && DistinctIds(cases) && BackwardsDependencies(cases)
      && selected <= IdsOf(cases) && Closed(cases, selected)
    }

    constructor (cases: seq<Case>)
      requires DistinctIds(cases) && BackwardsDependencies(cases)
      ensures Valid() && this.cases == cases && selected == {}
    {
      this.cases := cases;
      selected := {};
    }

    /** Adds the case and everything it needs, and nothing else. */
    method Include(id: string)
      requires Valid() && id in IdsOf(cases)
      modifies this
      ensures Valid() && old(selected) <= selected && id in selected
      ensures forall t :: old(selected) <= t && id in t && Closed(cases, t) ==> selected <= t
      decreases Position(cases, id)
    {
      if id in selected {
        return;
      }
      var c := cases[Position(cases, id)];
      for k := 0 to |c.dependsOn|
        invariant Valid() && old(selected) <= selected
        invariant SetOf(c.dependsOn[..k]) <= selected
        invariant forall t :: old(selected) <= t && id in t && Closed(cases, t) ==> selected <= t
      {
        var dependency := c.dependsOn[k];
        DependencyStandsEarlier(cases, id, dependency);
        assert forall t :: id in t && Closed(cases, t) ==> SetOf(c.dependsOn) <= t;
        assert dependency in SetOf(c.dependsOn);
        Include(dependency);
        assert c.dependsOn[..k + 1] == c.dependsOn[..k] + [dependency];
      }
      assert c.dependsOn[..|c.dependsOn|] == c.dependsOn;
      selected := selected + {id};
      forall i | 0 <= i < |cases| && cases[i].id in selected ensures SetOf(cases[i].dependsOn) <= selected {
        assert cases[i].id == id ==> cases[i] == c;
      }
    }
  }

  /** The cases with selected ids, in suite order. */
  function Chosen(cases: seq<Case>, ids: set<string>): seq<Case> {
    if cases == [] then [] else
      Chosen(cases[..|cases| - 1], ids) +
      (if cases[|cases| - 1].id in ids then [cases[|cases| - 1]] else [])
  }

  datatype Choice = Selected(cases: seq<Case>) | UnknownIds(ids: set<string>)

  method SelectCases(cases: seq<Case>, requested: seq<string>) returns (choice: Choice, ghost needed: set<string>)
    requires DistinctIds(cases) && BackwardsDependencies(cases)
    ensures choice.UnknownIds? <==> requested != [] && !(SetOf(requested) <= IdsOf(cases))
    ensures choice.UnknownIds? ==> choice.ids == SetOf(requested) - IdsOf(cases)
    ensures choice.Selected? ==> IsNeeded(cases, if requested == [] then IdsOf(cases) else SetOf(requested), needed)
    ensures choice.Selected? ==> choice.cases == Chosen(cases, needed)
  {
    needed := IdsOf(cases);
    if requested == [] {
      AllCasesAreClosed(cases);
      ChoosingAllIsWhole(cases, needed);
      return Selected(cases), needed;
    }
    var unknown := SetOf(requested) - IdsOf(cases);
    if unknown != {} {
      return UnknownIds(unknown), needed;
    }
    var selection := new Selection(cases);
    for k := 0 to |requested|
      invariant selection.Valid() && selection.cases == cases
      invariant SetOf(requested[..k]) <= selection.selected
      invariant forall t :: SetOf(requested) <= t && Closed(cases, t) ==> selection.selected <= t
    {
      assert requested[k] in SetOf(requested);
      selection.Include(requested[k]);
      assert requested[..k + 1] == requested[..k] + [requested[k]];
    }
    assert requested[..|requested|] == requested;
    needed := selection.selected;
    var chosen: seq<Case> := [];
    for i := 0 to |cases|
      invariant chosen == Chosen(cases[..i], selection.selected)
    {
      assert cases[..i + 1][..i] == cases[..i];
      if cases[i].id in selection.selected {
        chosen := chosen + [cases[i]];
      }
    }
    assert cases[..|cases|] == cases;
    return Selected(chosen), needed;
  }

  lemma AllCasesAreClosed(cases: seq<Case>)
    requires BackwardsDependencies(cases)
    ensures Closed(cases, IdsOf(cases))
  {
    forall i | 0 <= i < |cases| ensures SetOf(cases[i].dependsOn) <= IdsOf(cases) {
      assert DependsBackwards(cases, i);
      PrefixIds(cases, i);
    }
  }

  lemma {:induction false} ChoosingAllIsWhole(cases: seq<Case>, ids: set<string>)
    requires IdsOf(cases) <= ids
    ensures Chosen(cases, ids) == cases
  {
    if cases != [] {
      var front, last := cases[..|cases| - 1], cases[|cases| - 1];
      assert forall i :: 0 <= i < |front| ==> front[i].id in IdsOf(cases);
      assert last.id in IdsOf(cases);
      ChoosingAllIsWhole(front, ids);
      assert cases == front + [last];
    }
  }

  /** The chosen cases are those with needed ids, and no others. */
  lemma {:induction false} ChosenIds(cases: seq<Case>, ids: set<string>)
    ensures IdsOf(Chosen(cases, ids)) == IdsOf(cases) * ids
    ensures forall c :: c in Chosen(cases, ids) ==> c in cases
  {
    if cases != [] {
      var front, last := cases[..|cases| - 1], cases[|cases| - 1];
      ChosenIds(front, ids);
      assert cases == front + [last];
      IdsOfConcat(front, [last]);
      IdsOfConcat(Chosen(front, ids), [last]);
      assert IdsOf([last]) == {last.id} by {
        assert [last][0].id == last.id;
      }
      if last.id !in ids {
        assert Chosen(cases, ids) == Chosen(front, ids);
      }
    }
  }

  lemma IdsOfConcat(a: seq<Case>, b: seq<Case>)
    ensures IdsOf(a + b) == IdsOf(a) + IdsOf(b)
  {
    forall id | id in IdsOf(a) + IdsOf(b) ensures id in IdsOf(a + b) {
      if id in IdsOf(a) {
        var i :| 0 <= i < |a| && a[i].id == id;
        assert (a + b)[i].id == id;
      } else {
        var i :| 0 <= i < |b| && b[i].id == id;
        assert (a + b)[|a| + i].id == id;
      }
    }
  }

  /** A closed selection of a valid suite is a valid suite again: distinct ids, and every
      dependency chosen and placed before the case that needs it. */
  lemma {:induction false} SelectionStaysValid(cases: seq<Case>, ids: set<string>)
    requires DistinctIds(cases) && BackwardsDependencies(cases) && Closed(cases, ids)
    ensures DistinctIds(Chosen(cases, ids)) && BackwardsDependencies(Chosen(cases, ids))
  {
    if cases != [] {
      var n := |cases| - 1;
      var front, last := cases[..n], cases[n];
      FrontStaysValid(cases, ids);
      SelectionStaysValid(front, ids);
      ChosenIds(front, ids);
      if last.id in ids {
        assert DependsBackwards(cases, n);
        LastIdIsNew(cases, Chosen(front, ids));
        OneMoreDependsBackwards(Chosen(front, ids), last);
      } else {
        assert Chosen(cases, ids) == Chosen(front, ids);
      }
    }
  }

  lemma FrontStaysValid(cases: seq<Case>, ids: set<string>)
    requires cases != [] && BackwardsDependencies(cases) && Closed(cases, ids)
    ensures BackwardsDependencies(cases[..|cases| - 1]) && Closed(cases[..|cases| - 1], ids)
  {
    var front := cases[..|cases| - 1];
    forall i | 0 <= i < |front| ensures DependsBackwards(front, i) {
      assert DependsBackwards(cases, i) && front[..i] == cases[..i];
    }
  }

  lemma OneMoreDependsBackwards(before: seq<Case>, last: Case)
    requires BackwardsDependencies(before) && SetOf(last.dependsOn) <= IdsOf(before)
    ensures BackwardsDependencies(before + [last])
  {
    var chosen := before + [last];
    forall i | 0 <= i < |chosen| ensures DependsBackwards(chosen, i) {
      assert chosen[..i] == before[..i];
      if i < |before| {
        assert DependsBackwards(before, i);
      } else {
        assert before[..i] == before;
      }
    }
  }

  lemma LastIdIsNew(cases: seq<Case>, before: seq<Case>)
    requires cases != [] && DistinctIds(cases) && DistinctIds(before)
    requires IdsOf(before) <= IdsOf(cases[..|cases| - 1])
    ensures DistinctIds(before + [cases[|cases| - 1]])
  {
    var last := cases[|cases| - 1];
    forall i | 0 <= i < |before| ensures before[i].id != last.id {
      assert before[i].id in IdsOf(before);
      var j :| 0 <= j < |cases| - 1 && cases[..|cases| - 1][j].id == before[i].id;
      assert cases[j].id == before[i].id;
    }
  }

  /** The chosen cases come in suite order. */
  lemma {:induction false} ChosenKeepsOrder(cases: seq<Case>, ids: set<string>, a: nat, b: nat)
    requires DistinctIds(cases) && a < b < |Chosen(cases, ids)|
    ensures Chosen(cases, ids)[a].id in IdsOf(cases) && Chosen(cases, ids)[b].id in IdsOf(cases)
    ensures Position(cases, Chosen(cases, ids)[a].id) < Position(cases, Chosen(cases, ids)[b].id)
  {
    var n := |cases| - 1;
    var front, last := cases[..n], cases[n];
    var before := Chosen(front, ids);
    PrefixIds(cases, n);
    assert last.id in IdsOf(cases);
    if b < |before| {
      ChosenKeepsOrder(front, ids, a, b);
      PositionInFront(cases, before[a].id);
      PositionInFront(cases, before[b].id);
    } else {
      ChosenIds(front, ids);
      assert before[a].id in IdsOf(before);
      PositionInFront(cases, before[a].id);
    }
  }

  lemma PositionInFront(cases: seq<Case>, id: string)
    requires cases != [] && DistinctIds(cases) && id in IdsOf(cases[..|cases| - 1])
    ensures id in IdsOf(cases) && Position(cases, id) == Position(cases[..|cases| - 1], id)
  {}
}
