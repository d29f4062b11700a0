/**
 The circuit breaker whose state lives in Redis.  Run one operation at a time it answers
 like the in-process breaker; run by many replicas it is a racy load, modify, save protocol.
 */
module SharedBreaker {
  import opened Wrappers
  import opened CircuitBreaker

  /** The stored dictionary; `openedAt` 0 means closed. */
  datatype Entry = Entry(failures: nat, openedAt: real, halfOpen: bool)

  const EMPTY := Entry(0, 0.0, false)

  /** What `allow_async` does with what it loaded: refuse, admit, or admit and save a probe. */
  predicate EntryRefuses(cfg: Config, loaded: Option<Entry>, now: real) {
    loaded.Some? && loaded.value.openedAt != 0.0 && now - loaded.value.openedAt < cfg.reset
  }

  predicate SavesProbe(cfg: Config, loaded: Option<Entry>, now: real) {
    loaded.Some? && loaded.value.openedAt != 0.0 && !EntryRefuses(cfg, loaded, now)
  }

  function WithFailure(cfg: Config, loaded: Option<Entry>, stamp: real): Entry {
    var e := loaded.GetOr(EMPTY);
    if e.halfOpen then e.(openedAt := stamp, halfOpen := false)
    else
      var n := e.failures + 1;
      e.(failures := n, openedAt := if n >= cfg.threshold then stamp else e.openedAt)
  }

  function EntryStatus(loaded: Option<Entry>): Status {
    if loaded == None || loaded.value.openedAt == 0.0 then Closed
    else if loaded.value.halfOpen then HalfOpen else Open
  }

  // ---------------------------------------------------------------- one operation at a time

  function SharedStep(cfg: Config, stored: Option<Entry>, e: Event): Option<Entry> {
    match e
    case Allow(_, at) => if SavesProbe(cfg, stored, at) then Some(stored.value.(halfOpen := true)) else stored
    case Success(_) => None
    case Failure(_, at) => Some(WithFailure(cfg, stored, at))
  }

  /** The stored entry of a key after a history of complete operations. */
  function StoredAfter(cfg: Config, h: History, key: Key): Option<Entry> {
    if h == [] then None else
      var stored := StoredAfter(cfg, h[..|h| - 1], key);
      if h[|h| - 1].key == key then SharedStep(cfg, stored, h[|h| - 1]) else stored
  }

  function Meaning(stored: Option<Entry>): CircuitState {
    var e := stored.GetOr(EMPTY);
    CircuitState(e.failures, if e.openedAt == 0.0 then None else Some(e.openedAt), e.halfOpen)
  }

  /** No failure was stamped with the time the stored form uses for "closed". */
  ghost predicate TimesNotZero(h: History) {
    forall i :: 0 <= i < |h| && h[i].Failure? ==> h[i].at != 0.0
  }

  /** The stored entry means the state the in-process breaker would be in. */
  lemma {:induction false} StoredMeansState(cfg: Config, h: History, key: Key)
    requires TimesNotZero(h)
    ensures Meaning(StoredAfter(cfg, h, key)) == StateAfter(cfg, h, key)
  {
    if h != [] {
      StoredMeansState(cfg, h[..|h| - 1], key);
    }
  }

  /** Same admissions and same status as the in-process breaker, for every history. */
  lemma SharedAnswersLikeLocal(cfg: Config, h: History, key: Key, now: real)
    requires TimesNotZero(h)
    ensures !EntryRefuses(cfg, StoredAfter(cfg, h, key), now) <==> Admits(cfg, h, key, now)
    ensures EntryStatus(StoredAfter(cfg, h, key)) == StatusOf(cfg, h, key)
  {
    StoredMeansState(cfg, h, key);
    StateTellsHistory(cfg, h, key);
  }

  /** `now or time.time()` is never the time that means "closed". */
  lemma StampIsNeverZero(now: Option<real>, clock: real)
    requires clock > 0.0
    ensures Stamp(now, clock) != 0.0
  {}

  lemma StoredAfterOneMore(cfg: Config, h: History, e: Event, key: Key)
    ensures StoredAfter(cfg, h + [e], key) ==
            if e.key == key then SharedStep(cfg, StoredAfter(cfg, h, key), e) else StoredAfter(cfg, h, key)
  {
    assert (h + [e])[..|h|] == h;
  }

  type Cache = map<Key, Entry>

  function Lookup(cache: Cache, key: Key): Option<Entry> { if key in cache then Some(cache[key]) else None }

  /** The cache holds for every key what its history leaves. */
  ghost predicate Mirrors(cfg: Config, cache: Cache, h: History) { forall key :: MirrorsKey(cfg, cache, h, key) }

  ghost predicate MirrorsKey(cfg: Config, cache: Cache, h: History, key: Key) {
    Lookup(cache, key) == StoredAfter(cfg, h, key)
  }

  lemma MirrorsOneMore(cfg: Config, cache: Cache, after: Cache, h: History, e: Event)
    requires Mirrors(cfg, cache, h)
    requires Lookup(after, e.key) == SharedStep(cfg, StoredAfter(cfg, h, e.key), e)
    requires forall k :: k != e.key ==> Lookup(after, k) == Lookup(cache, k)
    ensures Mirrors(cfg, after, h + [e])
  {
    forall k ensures MirrorsKey(cfg, after, h + [e], k) {
      assert MirrorsKey(cfg, cache, h, k);
      StoredAfterOneMore(cfg, h, e, k);
    }
  }

  /** The Redis-backed registry with every load, save and delete succeeding and none interleaved. */
  class SharedRegistry {
    const cfg: Config
    var cache: Cache
    ghost var history: History

    function Load(key: Key): Option<Entry>
      reads this
    {
      Lookup(cache, key)
    }

    ghost predicate Valid()
      reads this
    {
      TimesNotZero(history) && Mirrors(cfg, cache, history)
    }

    constructor (cfg: Config)
      ensures Valid() && history == [] && this.cfg == cfg
    {
      this.cfg := cfg;
      cache := map[];
      history := [];
      new;
      forall key ensures MirrorsKey(cfg, cache, history, key) {}
    }

    /** Saves, deletes or leaves the entry of a key, and notes the call. */
    method Finish(key: Key, entry: Option<Entry>, ghost e: Event)
      requires Valid() && e.key == key && entry == SharedStep(cfg, StoredAfter(cfg, history, key), e)
      requires e.Failure? ==> e.at != 0.0
      modifies this`cache, this`history
      ensures Valid() && history == old(history) + [e]
      ensures Load(key) == entry && forall k :: k != key ==> Load(k) == old(Load(k))
    {
      if entry.None? {
        cache := cache - {key};
      } else if Load(key) != entry {
        cache := cache[key := entry.value];
      }
      MirrorsOneMore(cfg, old(cache), cache, history, e);
      history := history + [e];
    }

    method AllowAsync(key: Key, now: Option<real>, clock: real) returns (allowed: bool)
      requires Valid()
      modifies this`cache, this`history
      ensures Valid() && history == old(history) + [Allow(key, Stamp(now, clock))]
      ensures allowed <==> Admits(cfg, old(history), key, Stamp(now, clock))
    {
      assert MirrorsKey(cfg, cache, history, key);
      var at := Stamp(now, clock);
      SharedAnswersLikeLocal(cfg, history, key, at);
      var state := Load(key);
      if state == None || state.value.openedAt == 0.0 {
        allowed := true;
      } else if at - state.value.openedAt < cfg.reset {
        allowed := false;
      } else {
        state := Some(state.value.(halfOpen := true));
        allowed := true;
      }
      Finish(key, state, Allow(key, at));
    }

    method RecordSuccessAsync(key: Key)
      requires Valid()
      modifies this`cache, this`history
      ensures Valid() && history == old(history) + [Success(key)]
    {
      Finish(key, None, Success(key));
    }

    method RecordFailureAsync(key: Key, now: Option<real>, clock: real)
      requires Valid() && clock > 0.0
      modifies this`cache, this`history
      ensures Valid() && history == old(history) + [Failure(key, Stamp(now, clock))]
    {
      assert MirrorsKey(cfg, cache, history, key);
      var state := Load(key).GetOr(EMPTY);
      var stamp := Stamp(now, clock);
      StampIsNeverZero(now, clock);
      if state.halfOpen {
        state := state.(openedAt := stamp, halfOpen := false);
      } else {
        state := state.(failures := state.failures + 1);
        if state.failures >= cfg.threshold {
          state := state.(openedAt := stamp);
        }
      }
      Finish(key, Some(state), Failure(key, stamp));
    }

    method StatusAsync(key: Key) returns (status: Status)
      requires Valid()
      ensures status == StatusOf(cfg, history, key)
    {
      assert MirrorsKey(cfg, cache, history, key);
      SharedAnswersLikeLocal(cfg, history, key, 0.0);
      status := EntryStatus(Load(key));
    }
  }

  // ---------------------------------------------------------------- many replicas

  /** `max(60, int(reset_seconds * 10))`, in seconds. */
  function Ttl(reset: real): int {
    var tenfold := if reset >= 0.0 then (reset * 10.0).Floor else -((-reset * 10.0).Floor);
    if tenfold > 60 then tenfold else 60
  }

  lemma TtlCoversCooldown(reset: real)
    ensures Ttl(reset) as real >= reset
  {}

  /** An entry is kept for ten cooldowns, in whole seconds, and at least for a minute. */
  lemma TtlIsTenCooldowns(reset: real)
    ensures 10.0 * reset >= 61.0 ==> 10.0 * reset - 1.0 < Ttl(reset) as real <= 10.0 * reset
    ensures 10.0 * reset < 61.0 ==> Ttl(reset) == 60
  {}

  datatype Saved = Saved(entry: Entry, at: real)

  /** An operation between its load and its save; `seen` counts the writes before its load. */
  datatype Pending =
    | SavingProbe(entry: Entry, now: real, seen: nat)
    | RecordingFailure(loaded: Option<Entry>, loadedAt: real, seen: nat)

  /** One key: the shared clock, what Redis holds, the operations in flight, how many failures were
      reported so far, and how often the entry was saved, deleted or expired. */
  datatype Shared = Shared(clock: real, store: Option<Saved>, pending: map<nat, Pending>, reported: nat, writes: nat) {
    function Stored(): Option<Entry> { if store.Some? then Some(store.value.entry) else None }
  }

  /** The steps of any number of replicas; `ok` is false when Redis fails. */
  datatype Action =
    | AllowLoad(op: nat, now: real, ok: bool)
    | ProbeSave(op: nat, ok: bool)
    | FailureLoad(op: nat, ok: bool)
    | FailureSave(op: nat, stamp: real, ok: bool)
    | SuccessDelete(ok: bool)
    | Abandon(op: nat)
    | Expire
    | Tick(to: real)

  predicate Enabled(cfg: Config, s: Shared, a: Action) {
    match a
    case AllowLoad(op, _, _) => op !in s.pending
    case ProbeSave(op, _) => op in s.pending && s.pending[op].SavingProbe?
    case FailureLoad(op, _) => op !in s.pending
    case FailureSave(op, stamp, _) =>
      op in s.pending && s.pending[op].RecordingFailure? && s.pending[op].loadedAt <= stamp <= s.clock
    case SuccessDelete(_) => true
    case Abandon(op) => op in s.pending
    case Expire => s.store.Some? && s.clock >= s.store.value.at + Ttl(cfg.reset) as real
    case Tick(to) => to >= s.clock
  }

  /** What a load returns; a failed one returns nothing. */
  function Loaded(s: Shared, ok: bool): Option<Entry> { if ok then s.Stored() else None }

  /** A save; a failed one is dropped. */
  function Save(s: Shared, entry: Entry, ok: bool): Shared {
    if ok then s.(store := Some(Saved(entry, s.clock)), writes := s.writes + 1) else s
  }

  function Do(cfg: Config, s: Shared, a: Action): Shared
    requires Enabled(cfg, s, a)
  {
    match a
    case AllowLoad(op, now, ok) =>
      var loaded := Loaded(s, ok);
      if SavesProbe(cfg, loaded, now)
      then s.(pending := s.pending[op := SavingProbe(loaded.value.(halfOpen := true), now, s.writes)]) else s
    case ProbeSave(op, ok) =>
      Save(s.(pending := s.pending - {op}), s.pending[op].entry, ok)
    case FailureLoad(op, ok) =>
      s.(pending := s.pending[op := RecordingFailure(Loaded(s, ok), s.clock, s.writes)], reported := s.reported + 1)
    case FailureSave(op, stamp, ok) =>
      Save(s.(pending := s.pending - {op}), WithFailure(cfg, s.pending[op].loaded, stamp), ok)
    case SuccessDelete(ok) => if ok then s.(store := None, writes := s.writes + 1) else s
    case Abandon(op) => s.(pending := s.pending - {op})
    case Expire => s.(store := None, writes := s.writes + 1)
    case Tick(to) => s.(clock := to)
  }

  predicate CanRun(cfg: Config, s: Shared, run: seq<Action>)
    decreases |run|
  {
    run == [] || (Enabled(cfg, s, run[0]) && CanRun(cfg, Do(cfg, s, run[0]), run[1..]))
  }

  function Run(cfg: Config, s: Shared, run: seq<Action>): Shared
    requires CanRun(cfg, s, run)
    decreases |run|
  {
    if run == [] then s else Run(cfg, Do(cfg, s, run[0]), run[1..])
  }

  function Start(clock: real): Shared { Shared(clock, None, map[], 0, 0) }

  /** An entry that counts no more failures than were reported, is open or half-open only after the
      threshold, and was opened by `time`. */
  predicate Earned(cfg: Config, e: Entry, reported: nat, time: real) {
    && e.failures <= reported
    && (e.halfOpen ==> e.openedAt != 0.0)
    && (e.openedAt != 0.0 ==> reported >= 1 && reported >= cfg.threshold && e.openedAt <= time)
  }

  predicate PendingEarned(cfg: Config, p: Pending, reported: nat, clock: real) {
    match p
    case SavingProbe(e, _, _) => Earned(cfg, e, reported, clock)
    case RecordingFailure(loaded, at, _) =>
      && 0.0 < at <= clock && reported >= 1
      && (loaded.Some? ==> Earned(cfg, loaded.value, reported, clock) && loaded.value.failures < reported)
  }

  ghost predicate Inv(cfg: Config, s: Shared) {
    && s.clock > 0.0
    && (s.store.Some? ==> s.store.value.at <= s.clock && Earned(cfg, s.store.value.entry, s.reported, s.store.value.at))
    && forall op :: op in s.pending ==> PendingEarned(cfg, s.pending[op], s.reported, s.clock)
  }

  lemma StepKeepsInv(cfg: Config, s: Shared, a: Action)
    requires Inv(cfg, s) && Enabled(cfg, s, a)
    ensures Inv(cfg, Do(cfg, s, a))
  {}

  lemma {:induction false} RunKeepsInv(cfg: Config, s: Shared, run: seq<Action>)
    requires Inv(cfg, s) && CanRun(cfg, s, run)
    ensures Inv(cfg, Run(cfg, s, run))
    decreases |run|
  {
    if run != [] {
      StepKeepsInv(cfg, s, run[0]);
      RunKeepsInv(cfg, Do(cfg, s, run[0]), run[1..]);
    }
  }

  /** Under any interleaving, with failed loads and saves and with expiry, the breaker is never
      stored open or half-open before the threshold of failures was reported. */
  lemma NeverOpenTooEarly(cfg: Config, clock: real, run: seq<Action>)
    requires clock > 0.0 && CanRun(cfg, Start(clock), run)
    ensures var s := Run(cfg, Start(clock), run);
            EntryStatus(s.Stored()) != Closed ==> s.reported >= 1 && s.reported >= cfg.threshold
    ensures var s := Run(cfg, Start(clock), run);
            s.store.Some? ==> s.store.value.entry.failures <= s.reported
  {
    RunKeepsInv(cfg, Start(clock), run);
  }

  /** Expiry never ends a refusal: when it can happen the stored entry already admits calls. */
  lemma ExpiryNeverEndsARefusal(cfg: Config, clock: real, run: seq<Action>)
    requires clock > 0.0 && CanRun(cfg, Start(clock), run)
    requires Enabled(cfg, Run(cfg, Start(clock), run), Expire)
    ensures var s := Run(cfg, Start(clock), run); !EntryRefuses(cfg, s.Stored(), s.clock)
  {
    RunKeepsInv(cfg, Start(clock), run);
    TtlCoversCooldown(cfg.reset);
  }

  /** The failures reported in a run, and the saves, deletes and expiries that reached Redis. */
  function Reports(run: seq<Action>): nat {
    if run == [] then 0 else Reports(run[1..]) + (if run[0].FailureLoad? then 1 else 0)
  }

  predicate Writes(a: Action) {
    (a.ProbeSave? && a.ok) || (a.FailureSave? && a.ok) || (a.SuccessDelete? && a.ok) || a.Expire?
  }

  function WritesIn(run: seq<Action>): nat {
    if run == [] then 0 else WritesIn(run[1..]) + (if Writes(run[0]) then 1 else 0)
  }

  /** Both are counted one by one. */
  lemma {:induction false} RunCountsReportsAndWrites(cfg: Config, s: Shared, run: seq<Action>)
    requires CanRun(cfg, s, run)
    ensures Run(cfg, s, run).reported == s.reported + Reports(run)
    ensures Run(cfg, s, run).writes == s.writes + WritesIn(run)
    decreases |run|
  {
    if run != [] {
      RunCountsReportsAndWrites(cfg, Do(cfg, s, run[0]), run[1..]);
    }
  }

  // ---------------------------------------------------------------- when replicas act like one

  /** The complete calls a step adds to the history: an operation counts when its save or delete reaches
      Redis, or at its load when there is nothing to save.  One that never reaches Redis does not count, and
      an expiry counts as a success: both leave no entry. */
  function Completes(cfg: Config, s: Shared, a: Action, key: Key): History
    requires Enabled(cfg, s, a)
  {
    match a
    case AllowLoad(_, now, ok) => if ok && !SavesProbe(cfg, s.Stored(), now) then [Allow(key, now)] else []
    case ProbeSave(op, ok) => if ok then [Allow(key, s.pending[op].now)] else []
    case FailureSave(_, stamp, ok) => if ok then [Failure(key, stamp)] else []
    case SuccessDelete(ok) => if ok then [Success(key)] else []
    case Expire => [Success(key)]
    case _ => []
  }

  /** The calls before a run and then those of the run, in the order of their saves. */
  function HistoryOf(cfg: Config, s: Shared, before: History, run: seq<Action>, key: Key): History
    requires CanRun(cfg, s, run)
    decreases |run|
  {
    if run == [] then before
    else HistoryOf(cfg, Do(cfg, s, run[0]), before + Completes(cfg, s, run[0], key), run[1..], key)
  }

  /** At every step Redis holds what the calls completed so far would leave one after the other. */
  ghost predicate ActsLikeOne(cfg: Config, s: Shared, h: History, run: seq<Action>, key: Key)
    requires CanRun(cfg, s, run)
    decreases |run|
  {
    && s.Stored() == StoredAfter(cfg, h, key)
    && (run != [] ==> ActsLikeOne(cfg, Do(cfg, s, run[0]), h + Completes(cfg, s, run[0], key), run[1..], key))
  }

  /** A save writes what the operation would write had it loaded what Redis holds now. */
  predicate Harmless(cfg: Config, s: Shared, a: Action)
    requires Enabled(cfg, s, a)
  {
    match a
    case ProbeSave(op, ok) => ok ==> ProbeFits(cfg, s.pending[op].entry, s.Stored(), s.pending[op].now)
    case FailureSave(op, stamp, ok) => ok ==> FailureFits(cfg, s.pending[op].loaded, s.Stored(), stamp)
    case _ => true
  }

  predicate ProbeFits(cfg: Config, entry: Entry, stored: Option<Entry>, now: real) {
    Some(entry) == SharedStep(cfg, stored, Allow("", now))
  }

  predicate FailureFits(cfg: Config, loaded: Option<Entry>, stored: Option<Entry>, stamp: real) {
    Some(WithFailure(cfg, loaded, stamp)) == SharedStep(cfg, stored, Failure("", stamp))
  }

  predicate AllHarmless(cfg: Config, s: Shared, run: seq<Action>)
    requires CanRun(cfg, s, run)
    decreases |run|
  {
    run == [] || (Harmless(cfg, s, run[0]) && AllHarmless(cfg, Do(cfg, s, run[0]), run[1..]))
  }

  /** No failure was counted on a load that failed. */
  predicate LoadSucceeds(a: Action) { a.FailureLoad? ==> a.ok }

  ghost predicate LoadsSucceed(run: seq<Action>) { forall i :: 0 <= i < |run| ==> LoadSucceeds(run[i]) }

  lemma StepActsLikeOne(cfg: Config, s: Shared, h: History, a: Action, key: Key)
    requires Enabled(cfg, s, a) && s.Stored() == StoredAfter(cfg, h, key)
    ensures Do(cfg, s, a).Stored() == StoredAfter(cfg, h + Completes(cfg, s, a, key), key) <==> Harmless(cfg, s, a)
  {
    var calls := Completes(cfg, s, a, key);
    if calls == [] {
      assert h + calls == h;
    } else {
      assert calls == [calls[0]];
      StoredAfterOneMore(cfg, h, calls[0], key);
    }
  }

  /** In every run, with Redis failures, expiry and abandoned operations, any number of replicas act at every
      step like one exactly when every save is harmless. */
  lemma {:induction false} ActsLikeOneExactly(cfg: Config, s: Shared, h: History, run: seq<Action>, key: Key)
    requires CanRun(cfg, s, run) && s.Stored() == StoredAfter(cfg, h, key)
    ensures ActsLikeOne(cfg, s, h, run, key) <==> AllHarmless(cfg, s, run)
    decreases |run|
  {
    if run != [] {
      StepActsLikeOne(cfg, s, h, run[0], key);
      if Harmless(cfg, s, run[0]) {
        ActsLikeOneExactly(cfg, Do(cfg, s, run[0]), h + Completes(cfg, s, run[0], key), run[1..], key);
      }
    }
  }

  lemma {:induction false} ActingLikeOneEndsLikeOne(cfg: Config, s: Shared, h: History, run: seq<Action>, key: Key)
    requires CanRun(cfg, s, run) && ActsLikeOne(cfg, s, h, run, key)
    ensures Run(cfg, s, run).Stored() == StoredAfter(cfg, HistoryOf(cfg, s, h, run, key), key)
    decreases |run|
  {
    if run != [] {
      ActingLikeOneEndsLikeOne(cfg, Do(cfg, s, run[0]), h + Completes(cfg, s, run[0], key), run[1..], key);
    }
  }

  /** No save, delete or expiry fell between the operation's load and its save. */
  predicate Undisturbed(s: Shared, a: Action) {
    (a.ProbeSave? || a.FailureSave?) && a.op in s.pending ==> s.pending[a.op].seen == s.writes
  }

  predicate AllUndisturbed(cfg: Config, s: Shared, run: seq<Action>)
    requires CanRun(cfg, s, run)
    decreases |run|
  {
    run == [] || (Undisturbed(s, run[0]) && AllUndisturbed(cfg, Do(cfg, s, run[0]), run[1..]))
  }

  /** An operation before whose save nothing was written still holds what Redis holds. */
  predicate IsCurrent(cfg: Config, s: Shared, p: Pending) {
    && p.seen <= s.writes
    && (p.seen == s.writes ==>
          match p
          case SavingProbe(entry, now, _) => ProbeFits(cfg, entry, s.Stored(), now)
          case RecordingFailure(loaded, _, _) => loaded == s.Stored())
  }

  ghost predicate AllCurrent(cfg: Config, s: Shared) {
    forall op :: op in s.pending ==> IsCurrent(cfg, s, s.pending[op])
  }

  lemma StepKeepsCurrent(cfg: Config, s: Shared, a: Action)
    requires AllCurrent(cfg, s) && Enabled(cfg, s, a) && LoadSucceeds(a)
    ensures AllCurrent(cfg, Do(cfg, s, a))
    ensures Undisturbed(s, a) ==> Harmless(cfg, s, a)
  {
    var s' := Do(cfg, s, a);
    forall op | op in s'.pending ensures IsCurrent(cfg, s', s'.pending[op]) {
      if op in s.pending {
        assert IsCurrent(cfg, s, s.pending[op]);
      }
    }
    if a.ProbeSave? || a.FailureSave? {
      assert IsCurrent(cfg, s, s.pending[a.op]);
    }
  }

  lemma {:induction false} UndisturbedIsHarmless(cfg: Config, s: Shared, run: seq<Action>)
    requires CanRun(cfg, s, run) && LoadsSucceed(run) && AllCurrent(cfg, s) && AllUndisturbed(cfg, s, run)
    ensures AllHarmless(cfg, s, run)
    decreases |run|
  {
    if run != [] {
      StepKeepsCurrent(cfg, s, run[0]);
      UndisturbedIsHarmless(cfg, Do(cfg, s, run[0]), run[1..]);
    }
  }

  /** If no save, delete or expiry falls between any operation's load and its own save, Redis holds at every
      step, and at the end, what the calls would leave one after the other in the order of their saves. */
  lemma UndisturbedRunsActLikeOne(cfg: Config, clock: real, run: seq<Action>, key: Key)
    requires CanRun(cfg, Start(clock), run) && LoadsSucceed(run) && AllUndisturbed(cfg, Start(clock), run)
    ensures ActsLikeOne(cfg, Start(clock), [], run, key)
    ensures Run(cfg, Start(clock), run).Stored() == StoredAfter(cfg, HistoryOf(cfg, Start(clock), [], run, key), key)
  {
    UndisturbedIsHarmless(cfg, Start(clock), run);
    ActsLikeOneExactly(cfg, Start(clock), [], run, key);
    ActingLikeOneEndsLikeOne(cfg, Start(clock), [], run, key);
  }

  lemma {:induction false} FailuresHaveTimes(cfg: Config, s: Shared, h: History, run: seq<Action>, key: Key)
    requires Inv(cfg, s) && TimesNotZero(h) && CanRun(cfg, s, run)
    ensures TimesNotZero(HistoryOf(cfg, s, h, run, key))
    decreases |run|
  {
    if run != [] {
      StepKeepsInv(cfg, s, run[0]);
      if run[0].FailureSave? {
        assert PendingEarned(cfg, s.pending[run[0].op], s.reported, s.clock);
      }
      FailuresHaveTimes(cfg, Do(cfg, s, run[0]), h + Completes(cfg, s, run[0], key), run[1..], key);
    }
  }

  /** What `allow_async` answers after its load. */
  predicate AllowAnswers(cfg: Config, s: Shared, now: real, ok: bool) { !EntryRefuses(cfg, Loaded(s, ok), now) }

  /** After an undisturbed run a load that succeeds answers as an in-process breaker fed the same calls. */
  lemma AnswersAfterUndisturbedRun(cfg: Config, clock: real, run: seq<Action>, key: Key, now: real)
    requires clock > 0.0 && CanRun(cfg, Start(clock), run)
    requires LoadsSucceed(run) && AllUndisturbed(cfg, Start(clock), run)
    ensures var s, h := Run(cfg, Start(clock), run), HistoryOf(cfg, Start(clock), [], run, key);
            && (AllowAnswers(cfg, s, now, true) <==> Admits(cfg, h, key, now))
            && EntryStatus(s.Stored()) == StatusOf(cfg, h, key)
  {
    var h := HistoryOf(cfg, Start(clock), [], run, key);
    FailuresHaveTimes(cfg, Start(clock), [], run, key);
    UndisturbedRunsActLikeOne(cfg, clock, run, key);
    SharedAnswersLikeLocal(cfg, h, key, now);
  }

  /** A load that fails lets the call through, whatever Redis holds: the answer of an in-process breaker fed
      any history of calls exactly when that breaker would admit the call. */
  lemma FailedLoadAdmits(cfg: Config, s: Shared, h: History, key: Key, now: real)
    ensures AllowAnswers(cfg, s, now, false)
    ensures AllowAnswers(cfg, s, now, false) == !Refuses(cfg, StateAfter(cfg, h, key), now) <==> Admits(cfg, h, key, now)
  {
    AnswersTellHistory(cfg, h, key, now);
  }

  // ---------------------------------------------------------------- what an overlap loses

  /** A failure saved over a changed entry is harmless exactly when the old and the new entry count the same
      failures and agree on what the save keeps; a probe lost or won in between must make up for one failure. */
  lemma FailureFitsExactly(cfg: Config, loaded: Option<Entry>, stored: Option<Entry>, stamp: real)
    ensures var old', new' := loaded.GetOr(EMPTY), stored.GetOr(EMPTY);
            FailureFits(cfg, loaded, stored, stamp) <==>
            if old'.halfOpen == new'.halfOpen then
              old'.failures == new'.failures
              && (old'.halfOpen || old'.failures + 1 >= cfg.threshold || old'.openedAt == new'.openedAt)
            else if old'.halfOpen then
              old'.failures == new'.failures + 1 && (old'.failures >= cfg.threshold || new'.openedAt == stamp)
            else
              new'.failures == old'.failures + 1 && (new'.failures >= cfg.threshold || old'.openedAt == stamp)
  {}

  /** A probe mark saved over a changed entry is harmless exactly when nothing but the mark changed, and the
      mark is there already or due. */
  lemma ProbeFitsExactly(cfg: Config, entry: Entry, stored: Option<Entry>, now: real)
    requires entry.halfOpen
    ensures ProbeFits(cfg, entry, stored, now) <==>
            && stored.Some? && entry == stored.value.(halfOpen := true)
            && (stored.value.halfOpen || SavesProbe(cfg, stored, now))
  {}

  /** Operations in flight that all loaded the same entry. */
  ghost predicate AllLoaded(s: Shared, loaded: Option<Entry>) {
    forall op :: op in s.pending ==> s.pending[op].RecordingFailure? && s.pending[op].loaded == loaded
  }

  predicate IsLoad(a: Action) { a.Tick? || (a.FailureLoad? && a.ok) }

  predicate IsSave(a: Action) { a.Tick? || (a.FailureSave? && a.ok) }

  lemma {:induction false} LoadsLoadTheSame(cfg: Config, s: Shared, loads: seq<Action>)
    requires CanRun(cfg, s, loads) && AllLoaded(s, s.Stored()) && forall i :: 0 <= i < |loads| ==> IsLoad(loads[i])
    ensures AllLoaded(Run(cfg, s, loads), s.Stored())
    decreases |loads|
  {
    if loads != [] {
      LoadsLoadTheSame(cfg, Do(cfg, s, loads[0]), loads[1..]);
    }
  }

  lemma {:induction false} LastSaveWins(cfg: Config, s: Shared, loaded: Option<Entry>, saves: seq<Action>)
    requires CanRun(cfg, s, saves) && AllLoaded(s, loaded) && forall i :: 0 <= i < |saves| ==> IsSave(saves[i])
    requires saves != [] && saves[|saves| - 1].FailureSave?
    ensures Run(cfg, s, saves).Stored() == Some(WithFailure(cfg, loaded, saves[|saves| - 1].stamp))
    decreases |saves|
  {
    var s' := Do(cfg, s, saves[0]);
    if |saves| == 1 {
      assert saves[1..] == [] && Run(cfg, s', saves[1..]) == s';
    } else {
      LastSaveWins(cfg, s', loaded, saves[1..]);
    }
  }

  lemma {:induction false} RunSplit(cfg: Config, s: Shared, first: seq<Action>, second: seq<Action>)
    requires CanRun(cfg, s, first) && CanRun(cfg, Run(cfg, s, first), second)
    ensures CanRun(cfg, s, first + second) && Run(cfg, s, first + second) == Run(cfg, Run(cfg, s, first), second)
    decreases |first|
  {
    if first == [] {
      assert first + second == second;
    } else {
      RunSplit(cfg, Do(cfg, s, first[0]), first[1..], second);
      assert (first + second)[1..] == first[1..] + second;
    }
  }

  /** Failures whose loads all come before the first save count as one, however many they are, in whatever
      order and at whatever times they save, and whatever Redis held before. */
  lemma OverlappingFailuresCountAsOne(cfg: Config, s: Shared, loads: seq<Action>, saves: seq<Action>)
    requires s.pending == map[] && CanRun(cfg, s, loads) && CanRun(cfg, Run(cfg, s, loads), saves)
    requires forall i :: 0 <= i < |loads| ==> IsLoad(loads[i])
    requires forall i :: 0 <= i < |saves| ==> IsSave(saves[i])
    requires saves != [] && saves[|saves| - 1].FailureSave?
    ensures CanRun(cfg, s, loads + saves)
    ensures Run(cfg, s, loads + saves).Stored() == Some(WithFailure(cfg, s.Stored(), saves[|saves| - 1].stamp))
  {
    LoadsLoadTheSame(cfg, s, loads);
    LastSaveWins(cfg, Run(cfg, s, loads), s.Stored(), saves);
    RunSplit(cfg, s, loads, saves);
  }

  /** A failure that loaded before a success and saves after it opens the breaker although no
      failure was reported since that success. */
  lemma StaleSaveUndoesSuccess(cfg: Config, s: Shared, op: nat)
    requires s.clock > 0.0 && op !in s.pending
    requires s.store.Some? && !s.store.value.entry.halfOpen && s.store.value.entry.failures + 1 >= cfg.threshold
    ensures var run := [FailureLoad(op, true), SuccessDelete(true), FailureSave(op, s.clock, true)];
            CanRun(cfg, s, run) && EntryStatus(Run(cfg, s, run).Stored()) == Open
  {
    var a, b, c := FailureLoad(op, true), SuccessDelete(true), FailureSave(op, s.clock, true);
    var run := [a, b, c];
    assert run[1..] == [b, c] && [b, c][1..] == [c] && [c][1..] == [];
    var s2 := Do(cfg, Do(cfg, s, a), b);
    assert CanRun(cfg, Do(cfg, s2, c), []) && Run(cfg, Do(cfg, s2, c), []) == Do(cfg, s2, c);
    assert CanRun(cfg, s2, [c]) && Run(cfg, s2, [c]) == Do(cfg, s2, c);
    assert CanRun(cfg, Do(cfg, s, a), [b, c]);
  }
}
