/**
 The products shown to the buyer: references chosen by the model, resolved against what searches of
 this turn returned or what was shown before, never against what the model says about them.
 */
module DisplayedProducts {
  import opened Wrappers
  import opened Sequences

  /** A reference of the structured output; its platform is one of PLATFORMS and its id not empty. */
  datatype Ref = Ref(platform: string, id: string)

  const PLATFORMS := {"crossshop_reference", "reference_seed", "amazon"}

  /** At most five products are shown. */
  const MAX_DISPLAYED: nat := 5

  /** A product card; the id is missing when it is not a string. */
  datatype Card = Card(id: Option<string>, facts: string)

  /** An entry shown in an earlier turn; a field is missing when it has not the expected type. */
  datatype Prior = Prior(platform: Option<string>, locale: Option<string>, card: Option<Card>)

  datatype Event =
    | ToolResult(tool: string, failed: bool, platform: Option<string>, locale: Option<string>, hits: Option<seq<Option<Card>>>)
    | OtherEvent

  datatype Shown = Shown(locale: Option<string>, card: Card)

  datatype Displayed = Displayed(rank: nat, platform: string, locale: Option<string>, card: Card)

  // ---------------------------------------------------------------- which card a reference means

  predicate PriorShows(p: Prior, ref: Ref) {
    p.card.Some? && p.platform == Some(ref.platform) && p.card.value.id == Some(ref.id)
  }

  predicate IsSearch(e: Event) {
    && e.ToolResult? && e.tool == "product_search_tool" && !e.failed
    && e.platform.Some? && e.platform.value in PLATFORMS && e.hits.Some?
  }

  predicate HitShows(e: Event, h: nat, ref: Ref)
    requires IsSearch(e) && h < |e.hits.value|
  {
    && e.platform == Some(ref.platform) && e.hits.value[h].Some?
    && e.hits.value[h].value.id == Some(ref.id) && ref.id != ""
  }

  /** The latest of the first n prior entries that shows the reference. */
  function LatestPrior(prior: seq<Prior>, n: nat, ref: Ref): Option<Shown>
    requires n <= |prior|
  {
    if n == 0 then None
    else if PriorShows(prior[n - 1], ref) then Some(Shown(prior[n - 1].locale, prior[n - 1].card.value))
    else LatestPrior(prior, n - 1, ref)
  }

  /** The latest of the first n hits of a search that shows the reference. */
  function LatestIn(e: Event, n: nat, ref: Ref): Option<Shown>
    requires IsSearch(e) && n <= |e.hits.value|
  {
    if n == 0 then None
    else if HitShows(e, n - 1, ref) then Some(Shown(e.locale, e.hits.value[n - 1].value))
    else LatestIn(e, n - 1, ref)
  }

  function HitOf(e: Event, ref: Ref): Option<Shown> {
    if IsSearch(e) then LatestIn(e, |e.hits.value|, ref) else None
  }

  /** The latest hit in the first n events. */
  function LatestHit(events: seq<Event>, n: nat, ref: Ref): Option<Shown>
    requires n <= |events|
  {
    if n == 0 then None
    else if HitOf(events[n - 1], ref).Some? then HitOf(events[n - 1], ref)
    else LatestHit(events, n - 1, ref)
  }

  function OrElse(a: Option<Shown>, b: Option<Shown>): Option<Shown> { if a.Some? then a else b }

  /** The card of a reference: the latest hit of this turn, or else the latest card shown before. */
  function Resolve(prior: seq<Prior>, events: seq<Event>, ref: Ref): Option<Shown> {
    OrElse(LatestHit(events, |events|, ref), LatestPrior(prior, |prior|, ref))
  }

  ghost predicate HitAt(events: seq<Event>, ref: Ref, e: nat, h: nat) {
    e < |events| && IsSearch(events[e]) && h < |events[e].hits.value| && HitShows(events[e], h, ref)
  }

  /** No hit before event n shows the reference after hit h of event e. */
  ghost predicate NoneLater(events: seq<Event>, ref: Ref, n: nat, e: nat, h: nat) {
    forall f: nat, k: nat :: HitAt(events, ref, f, k) && f < n ==> f < e || (f == e && k <= h)
  }

  lemma {:induction false} LatestInIsLatest(e: Event, n: nat, ref: Ref) returns (h: nat)
    requires IsSearch(e) && n <= |e.hits.value|
    ensures LatestIn(e, n, ref) == None ==> forall k :: 0 <= k < n ==> !HitShows(e, k, ref)
    ensures LatestIn(e, n, ref).Some? ==>
              && h < n && HitShows(e, h, ref) && (forall k :: h < k < n ==> !HitShows(e, k, ref))
              && LatestIn(e, n, ref) == Some(Shown(e.locale, e.hits.value[h].value))
  {
    h := 0;
    if n > 0 {
      if HitShows(e, n - 1, ref) {
        h := n - 1;
      } else {
        h := LatestInIsLatest(e, n - 1, ref);
      }
    }
  }

  /** What is resolved against this turn is the very last hit for the reference, in the last event
      with one; and nothing is resolved only if no event has one. */
  lemma {:induction false} LatestHitIsLatest(events: seq<Event>, n: nat, ref: Ref) returns (e: nat, h: nat)
    requires n <= |events|
    ensures LatestHit(events, n, ref) == None ==> forall f: nat, k: nat :: HitAt(events, ref, f, k) ==> f >= n
    ensures LatestHit(events, n, ref).Some? ==>
              && e < n && HitAt(events, ref, e, h) && NoneLater(events, ref, n, e, h)
              && LatestHit(events, n, ref) == Some(Shown(events[e].locale, events[e].hits.value[h].value))
  {
    e, h := 0, 0;
    if n > 0 {
      if HitOf(events[n - 1], ref).Some? {
        e := n - 1;
        h := LatestInIsLatest(events[e], |events[e].hits.value|, ref);
      } else {
        e, h := LatestHitIsLatest(events, n - 1, ref);
        if IsSearch(events[n - 1]) {
          var _ := LatestInIsLatest(events[n - 1], |events[n - 1].hits.value|, ref);
        }
      }
    }
  }

  /** What is resolved against earlier turns is the last entry that shows the reference. */
  lemma {:induction false} LatestPriorIsLatest(prior: seq<Prior>, n: nat, ref: Ref) returns (p: nat)
    requires n <= |prior|
    ensures LatestPrior(prior, n, ref) == None ==> forall q :: 0 <= q < n ==> !PriorShows(prior[q], ref)
    ensures LatestPrior(prior, n, ref).Some? ==>
              && p < n && PriorShows(prior[p], ref) && (forall q :: p < q < n ==> !PriorShows(prior[q], ref))
              && LatestPrior(prior, n, ref) == Some(Shown(prior[p].locale, prior[p].card.value))
  {
    p := 0;
    if n > 0 {
      if PriorShows(prior[n - 1], ref) {
        p := n - 1;
      } else {
        p := LatestPriorIsLatest(prior, n - 1, ref);
      }
    }
  }

  /** A hit of this turn: the reference's product in the hits of a product search on its platform that did not
      fail, on one of the three platforms. */
  ghost predicate IsCurrentHit(events: seq<Event>, ref: Ref, e: nat, h: nat) {
    && e < |events| && events[e].ToolResult? && events[e].tool == "product_search_tool" && !events[e].failed
    && events[e].platform == Some(ref.platform)
    && (ref.platform == "crossshop_reference" || ref.platform == "reference_seed" || ref.platform == "amazon")
    && events[e].hits.Some? && h < |events[e].hits.value| && events[e].hits.value[h].Some?
    && events[e].hits.value[h].value.id == Some(ref.id) && ref.id != ""
  }

  /** A card shown before: a prior entry of the platform with a card of the product. */
  ghost predicate IsPriorCard(prior: seq<Prior>, ref: Ref, p: nat) {
    && p < |prior| && prior[p].platform == Some(ref.platform) && prior[p].card.Some?
    && prior[p].card.value.id == Some(ref.id)
  }

  /** A reference resolves exactly when this turn has a hit for it or an earlier turn showed it; the last hit of
      the last event with one comes first, the last prior card only without any hit. */
  lemma ResolvesExactly(prior: seq<Prior>, events: seq<Event>, ref: Ref)
    ensures Resolve(prior, events, ref).Some? <==>
            (exists e: nat, h: nat :: IsCurrentHit(events, ref, e, h)) || (exists p: nat :: IsPriorCard(prior, ref, p))
    ensures forall e: nat, h: nat :: IsCurrentHit(events, ref, e, h) && NoneLater(events, ref, |events|, e, h) ==>
              Resolve(prior, events, ref) == Some(Shown(events[e].locale, events[e].hits.value[h].value))
    ensures (forall e: nat, h: nat :: !IsCurrentHit(events, ref, e, h)) ==>
              forall p: nat :: IsPriorCard(prior, ref, p) && (forall q: nat :: IsPriorCard(prior, ref, q) ==> q <= p) ==>
                Resolve(prior, events, ref) == Some(Shown(prior[p].locale, prior[p].card.value))
  {
    var e, h := LatestHitIsLatest(events, |events|, ref);
    var p := LatestPriorIsLatest(prior, |prior|, ref);
    forall f: nat, k: nat ensures HitAt(events, ref, f, k) <==> IsCurrentHit(events, ref, f, k) {}
    forall q: nat ensures IsPriorCard(prior, ref, q) <==> q < |prior| && PriorShows(prior[q], ref) {}
  }

  lemma {:induction false} PriorHasTheId(prior: seq<Prior>, n: nat, ref: Ref)
    requires n <= |prior|
    ensures LatestPrior(prior, n, ref).Some? ==> LatestPrior(prior, n, ref).value.card.id == Some(ref.id)
  {
    if n > 0 {
      PriorHasTheId(prior, n - 1, ref);
    }
  }

  /** A resolved card is a card of the referenced product. */
  lemma ResolvedCardHasTheId(prior: seq<Prior>, events: seq<Event>, ref: Ref)
    requires Resolve(prior, events, ref).Some?
    ensures Resolve(prior, events, ref).value.card.id == Some(ref.id)
  {
    var e, h := LatestHitIsLatest(events, |events|, ref);
    PriorHasTheId(prior, |prior|, ref);
  }

  // ---------------------------------------------------------------- the table of cards

  type Cards = map<Ref, Shown>

  function Lookup(cards: Cards, ref: Ref): Option<Shown> { if ref in cards then Some(cards[ref]) else None }

  method CollectPrior(prior: seq<Prior>) returns (cards: Cards)
    ensures forall ref :: Lookup(cards, ref) == LatestPrior(prior, |prior|, ref)
  {
    cards := map[];
    for n := 0 to |prior|
      invariant forall ref :: Lookup(cards, ref) == LatestPrior(prior, n, ref)
    {
      var p := prior[n];
      if p.card.Some? && p.platform.Some? && p.card.value.id.Some? {
        cards := cards[Ref(p.platform.value, p.card.value.id.value) := Shown(p.locale, p.card.value)];
      }
    }
  }

  method CollectHits(cards: Cards, e: Event) returns (after: Cards)
    ensures forall ref :: Lookup(after, ref) == OrElse(HitOf(e, ref), Lookup(cards, ref))
  {
    after := cards;
    if !IsSearch(e) {
      return;
    }
    for n := 0 to |e.hits.value|
      invariant forall ref :: Lookup(after, ref) == OrElse(LatestIn(e, n, ref), Lookup(cards, ref))
    {
      var hit := e.hits.value[n];
      if hit.Some? && hit.value.id.Some? && hit.value.id.value != "" {
        after := after[Ref(e.platform.value, hit.value.id.value) := Shown(e.locale, hit.value)];
      }
    }
  }

  method CollectCards(prior: seq<Prior>, events: seq<Event>) returns (cards: Cards)
    ensures forall ref :: Lookup(cards, ref) == Resolve(prior, events, ref)
  {
    cards := CollectPrior(prior);
    for n := 0 to |events|
      invariant forall ref :: Lookup(cards, ref) == OrElse(LatestHit(events, n, ref), LatestPrior(prior, |prior|, ref))
    {
      cards := CollectHits(cards, events[n]);
    }
  }

  // ---------------------------------------------------------------- the displayed list

  /** The first n references without repeats and without those that resolve to nothing. */
  function Resolvable(prior: seq<Prior>, events: seq<Event>, selected: seq<Ref>, n: nat): (r: seq<Ref>)
    requires n <= |selected|
    ensures |r| <= n
  {
    if n == 0 then []
    else
      var r, ref := Resolvable(prior, events, selected, n - 1), selected[n - 1];
      if ref !in r && Resolve(prior, events, ref).Some? then r + [ref] else r
  }

  function RefOf(d: Displayed): Ref { Ref(d.platform, d.card.id.GetOr("")) }

  /** The entry at position i: its rank, and the card its reference resolves to. */
  ghost predicate Shows(d: Displayed, i: nat, ref: Ref, shown: Option<Shown>) {
    d.rank == i + 1 && d.platform == ref.platform && shown == Some(Shown(d.locale, d.card))
  }

  method ResolveDisplayedProducts(selected: seq<Ref>, events: seq<Event>, prior: seq<Prior>)
    returns (displayed: seq<Displayed>)
    ensures var refs := Resolvable(prior, events, selected, |selected|);
            && |displayed| == (if |refs| <= 5 then |refs| else 5)
            && forall i :: 0 <= i < |displayed| ==> Shows(displayed[i], i, refs[i], Resolve(prior, events, refs[i]))
  {
    var cards := CollectCards(prior, events);
    displayed := [];
    var seen: set<Ref> := {};
    ghost var refs := [];
    for n := 0 to |selected|
      invariant refs == Resolvable(prior, events, selected, n)
      invariant SetOf(refs) == seen && |displayed| == |refs| < MAX_DISPLAYED
      invariant forall i :: 0 <= i < |displayed| ==> Shows(displayed[i], i, refs[i], Resolve(prior, events, refs[i]))
    {
      var ref := selected[n];
      assert Lookup(cards, ref) == Resolve(prior, events, ref);
      if ref !in seen && ref in cards {
        seen := seen + {ref};
        displayed := displayed + [Displayed(|displayed| + 1, ref.platform, cards[ref].locale, cards[ref].card)];
        refs := refs + [ref];
        if |displayed| == MAX_DISPLAYED {
          ResolvableGrows(prior, events, selected, n + 1, |selected|);
          return;
        }
      }
    }
  }

  lemma {:induction false} ResolvableGrows(prior: seq<Prior>, events: seq<Event>, selected: seq<Ref>, m: nat, n: nat)
    requires m <= n <= |selected|
    ensures Resolvable(prior, events, selected, m) <= Resolvable(prior, events, selected, n)
    decreases n
  {
    if m < n {
      ResolvableGrows(prior, events, selected, m, n - 1);
    }
  }

  /** The references are exactly the distinct resolvable ones. */
  lemma {:induction false} ResolvableIsExact(prior: seq<Prior>, events: seq<Event>, selected: seq<Ref>, n: nat)
    requires n <= |selected|
    ensures NoRepeats(Resolvable(prior, events, selected, n))
    ensures forall ref :: ref in Resolvable(prior, events, selected, n) <==>
                          ref in selected[..n] && Resolve(prior, events, ref).Some?
  {
    if n > 0 {
      ResolvableIsExact(prior, events, selected, n - 1);
      assert selected[..n] == selected[..n - 1] + [selected[n - 1]];
    }
  }

  /** Resolvable references keep the order of their first selection. */
  lemma {:induction false} ResolvableKeepsOrder(prior: seq<Prior>, events: seq<Event>, selected: seq<Ref>, i: nat, j: nat, n: nat)
    returns (p: nat, q: nat)
    requires i < j < n <= |selected| && selected[i] !in selected[..i] && selected[j] !in selected[..j]
    requires Resolve(prior, events, selected[i]).Some? && Resolve(prior, events, selected[j]).Some?
    ensures p < q < |Resolvable(prior, events, selected, n)|
    ensures Resolvable(prior, events, selected, n)[p] == selected[i]
    ensures Resolvable(prior, events, selected, n)[q] == selected[j]
    decreases n
  {
    if j < n - 1 {
      p, q := ResolvableKeepsOrder(prior, events, selected, i, j, n - 1);
    } else {
      var before := Resolvable(prior, events, selected, j);
      ResolvableIsExact(prior, events, selected, j);
      assert selected[i] == selected[..j][i] && selected[i] in before;
      p :| 0 <= p < |before| && before[p] == selected[i];
      q := |before|;
    }
  }

  /** The validator of a turn: ranks 1..n, at most five products, identities unique. */
  ghost predicate TurnAccepts(displayed: seq<Displayed>) {
    && |displayed| <= 5
    && (forall i :: 0 <= i < |displayed| ==> displayed[i].rank == i + 1 && displayed[i].card.id.Some?)
    && NoRepeats(MapBy(RefOf, displayed))
  }

  /** Whatever the model selects and the searches return, the displayed list passes the validator, and
      its identities are the selected ones. */
  lemma DisplayedPassesTheValidator(selected: seq<Ref>, events: seq<Event>, prior: seq<Prior>, displayed: seq<Displayed>)
    requires var refs := Resolvable(prior, events, selected, |selected|);
             && |displayed| == (if |refs| <= 5 then |refs| else 5)
             && forall i :: 0 <= i < |displayed| ==> Shows(displayed[i], i, refs[i], Resolve(prior, events, refs[i]))
    ensures TurnAccepts(displayed)
    ensures MapBy(RefOf, displayed) == Resolvable(prior, events, selected, |selected|)[..|displayed|]
  {
    var refs := Resolvable(prior, events, selected, |selected|);
    ResolvableIsExact(prior, events, selected, |selected|);
    forall i | 0 <= i < |displayed| ensures RefOf(displayed[i]) == refs[i] && displayed[i].card.id.Some? {
      ResolvedCardHasTheId(prior, events, refs[i]);
    }
  }
}
