/**
 The in-process circuit breaker: a table of timed state machines, one per tool key,
 specified by what its history says and nothing else.
 */
module CircuitBreaker {
  import opened Wrappers

  type Key = string

  datatype Config = Config(threshold: int, reset: real)

  datatype Status = Closed | Open | HalfOpen

  datatype CircuitState = CircuitState(failures: nat, openedAt: Option<real>, probing: bool) {
    function Status(): Status {
      if openedAt == None then Closed else if probing then HalfOpen else Open
    }
  }

  const FRESH := CircuitState(0, None, false)

  /** The calls that can change a state, with the time they use. */
  datatype Event =
    | Allow(key: Key, at: real)
    | Success(key: Key)
    | Failure(key: Key, at: real)

  type History = seq<Event>

  // ---------------------------------------------------------------- what the history says

  /** Failures of the key since its last success. */
  function FailuresSince(h: History, key: Key): nat {
    if h == [] then 0 else
      var n := FailuresSince(h[..|h| - 1], key);
      match h[|h| - 1]
      case Failure(k, _) => if k == key then n + 1 else n
      case Success(k) => if k == key then 0 else n
      case Allow(_, _) => n
  }

  /** The time of the last failure of the key (0 without one). */
  function LastFailure(h: History, key: Key): real {
    if h == [] then 0.0
    else if h[|h| - 1].Failure? && h[|h| - 1].key == key then h[|h| - 1].at
    else LastFailure(h[..|h| - 1], key)
  }

  /** A breaker is tripped when enough failures came since the last success; one always counts. */
  predicate Tripped(cfg: Config, h: History, key: Key) {
    FailuresSince(h, key) >= 1 && FailuresSince(h, key) >= cfg.threshold
  }

  /** A call is admitted unless the breaker is tripped and its last failure is recent. */
  predicate Admits(cfg: Config, h: History, key: Key, now: real) {
    Tripped(cfg, h, key) ==> now - LastFailure(h, key) >= cfg.reset
  }

  /** A call was admitted while the breaker was tripped, and no outcome has been recorded since. */
  predicate Probing(cfg: Config, h: History, key: Key) {
    if h == [] then false else
      var front := h[..|h| - 1];
      match h[|h| - 1]
      case Allow(k, at) => Probing(cfg, front, key) || (k == key && Tripped(cfg, front, key) && Admits(cfg, front, key, at))
      case Success(k) => k != key && Probing(cfg, front, key)
      case Failure(k, _) => k != key && Probing(cfg, front, key)
  }

  function StatusOf(cfg: Config, h: History, key: Key): Status {
    if !Tripped(cfg, h, key) then Closed else if Probing(cfg, h, key) then HalfOpen else Open
  }

  // ---------------------------------------------------------------- the state machine

  predicate Refuses(cfg: Config, s: CircuitState, now: real) {
    s.openedAt.Some? && now - s.openedAt.value < cfg.reset
  }

  function AfterAllow(cfg: Config, s: CircuitState, now: real): CircuitState {
    if s.openedAt == None || Refuses(cfg, s, now) then s else s.(probing := true)
  }

  function AfterFailure(cfg: Config, s: CircuitState, now: real): CircuitState {
    if s.probing then s.(openedAt := Some(now), probing := false)
    else
      var n := s.failures + 1;
      s.(failures := n, openedAt := if n >= cfg.threshold then Some(now) else s.openedAt)
  }

  function Step(cfg: Config, s: CircuitState, e: Event): CircuitState {
    match e
    case Allow(_, at) => AfterAllow(cfg, s, at)
    case Success(_) => FRESH
    case Failure(_, at) => AfterFailure(cfg, s, at)
  }

  /** The state of a key after a history of calls on any keys. */
  function StateAfter(cfg: Config, h: History, key: Key): CircuitState {
    if h == [] then FRESH else
      var s := StateAfter(cfg, h[..|h| - 1], key);
      if h[|h| - 1].key == key then Step(cfg, s, h[|h| - 1]) else s
  }

  /** The state holds what the history says: tripped exactly at the threshold of failures since the
      last success, opened at the last failure, half-open exactly while a probe is unanswered. */
  lemma {:induction false} StateTellsHistory(cfg: Config, h: History, key: Key)
    ensures var s := StateAfter(cfg, h, key);
            && s.Status() == StatusOf(cfg, h, key)
            && s.openedAt == (if Tripped(cfg, h, key) then Some(LastFailure(h, key)) else None)
            && (s.probing ==> Tripped(cfg, h, key))
            && (if Tripped(cfg, h, key) then s.failures >= cfg.threshold else s.failures == FailuresSince(h, key))
  {
    if h != [] {
      StateTellsHistory(cfg, h[..|h| - 1], key);
    }
  }

  /** Every call is answered as the history says. */
  lemma AnswersTellHistory(cfg: Config, h: History, key: Key, now: real)
    ensures !Refuses(cfg, StateAfter(cfg, h, key), now) <==> Admits(cfg, h, key, now)
  {
    StateTellsHistory(cfg, h, key);
  }

  // ---------------------------------------------------------------- the readings of a history

  /** The failures of a key after its last success. */
  function RecentFailures(h: History, key: Key): set<nat> {
    set i: nat | i < |h| && h[i].Failure? && h[i].key == key && !SucceedsAfter(h, key, i)
  }

  predicate SucceedsAfter(h: History, key: Key, i: nat) { exists j: nat :: i < j < |h| && h[j] == Success(key) }

  lemma RecentOfFront(h: History, key: Key)
    requires h != [] && h[|h| - 1] != Success(key)
    ensures var n, last := |h| - 1, h[|h| - 1];
            RecentFailures(h, key) == RecentFailures(h[..n], key) + (if last.Failure? && last.key == key then {n} else {})
  {
    var n := |h| - 1;
    forall i: nat | i < n ensures SucceedsAfter(h, key, i) <==> SucceedsAfter(h[..n], key, i) {
      SuccessesOfFront(h, key, i);
    }
    assert !SucceedsAfter(h, key, n);
  }

  lemma RecentAfterSuccess(h: History, key: Key)
    requires h != [] && h[|h| - 1] == Success(key)
    ensures RecentFailures(h, key) == {}
  {
    forall i: nat | i < |h| - 1 ensures SucceedsAfter(h, key, i) {
      assert i < |h| - 1 < |h| && h[|h| - 1] == Success(key);
    }
  }

  lemma OneMoreRecent(h: History, key: Key)
    requires h != [] && h[|h| - 1] != Success(key)
    ensures |RecentFailures(h, key)| == |RecentFailures(h[..|h| - 1], key)| +
            (if h[|h| - 1].Failure? && h[|h| - 1].key == key then 1 else 0)
  {
    RecentOfFront(h, key);
    var front := RecentFailures(h[..|h| - 1], key);
    assert |h| - 1 !in front;
  }

  /** Failures are counted from the last success. */
  lemma {:induction false} FailuresSinceCounts(h: History, key: Key)
    ensures FailuresSince(h, key) == |RecentFailures(h, key)|
  {
    if h == [] {
      assert RecentFailures(h, key) == {};
    } else if h[|h| - 1] == Success(key) {
      RecentAfterSuccess(h, key);
    } else {
      FailuresSinceCounts(h[..|h| - 1], key);
      OneMoreRecent(h, key);
    }
  }

  lemma SuccessesOfFront(h: History, key: Key, i: nat)
    requires h != [] && h[|h| - 1] != Success(key) && i < |h| - 1
    ensures SucceedsAfter(h, key, i) <==> SucceedsAfter(h[..|h| - 1], key, i)
  {
    var front := h[..|h| - 1];
    if SucceedsAfter(h, key, i) {
      var j: nat :| i < j < |h| && h[j] == Success(key);
      assert front[j] == Success(key);
    }
    if SucceedsAfter(front, key, i) {
      var j: nat :| i < j < |front| && front[j] == Success(key);
      assert h[j] == Success(key);
    }
  }

  /** The time of the last failure is that of the failure no other failure of the key follows. */
  lemma {:induction false} LastFailureIsLast(h: History, key: Key, i: nat)
    requires i < |h| && h[i].Failure? && h[i].key == key
    requires forall j :: i < j < |h| ==> !(h[j].Failure? && h[j].key == key)
    ensures LastFailure(h, key) == h[i].at
  {
    if i < |h| - 1 {
      LastFailureIsLast(h[..|h| - 1], key, i);
    }
  }

  /** Call i of the key was let through although the breaker was tripped, and nothing was reported since. */
  ghost predicate UnansweredProbe(cfg: Config, h: History, key: Key, i: nat) {
    && i < |h| && h[i].Allow? && h[i].key == key && Tripped(cfg, h[..i], key) && Admits(cfg, h[..i], key, h[i].at)
    && forall j :: i < j < |h| && h[j].key == key ==> h[j].Allow?
  }

  /** The breaker is probing exactly while such a call is unanswered. */
  lemma {:induction false} ProbingExactly(cfg: Config, h: History, key: Key)
    ensures Probing(cfg, h, key) <==> exists i: nat :: UnansweredProbe(cfg, h, key, i)
  {
    if h != [] {
      var n := |h| - 1;
      ProbingExactly(cfg, h[..n], key);
      forall i: nat | i < n
        ensures UnansweredProbe(cfg, h, key, i) <==> UnansweredProbe(cfg, h[..n], key, i) && (h[n].key == key ==> h[n].Allow?)
      {
        assert h[..n][..i] == h[..i];
        assert forall j :: 0 <= j < n ==> h[..n][j] == h[j];
      }
      assert UnansweredProbe(cfg, h, key, n) <==>
             h[n].Allow? && h[n].key == key && Tripped(cfg, h[..n], key) && Admits(cfg, h[..n], key, h[n].at);
    }
  }

  // ---------------------------------------------------------------- laws over whole histories

  ghost predicate NoSuccessAndNoEarlierFailure(later: History, key: Key, t: real) {
    forall i :: 0 <= i < |later| && later[i].key == key ==>
      !later[i].Success? && (later[i].Failure? ==> later[i].at >= t)
  }

  /** After a failure at t that leaves the breaker tripped every call before t + reset is refused
      until a success, whatever happens to this and other keys at times not before t. */
  lemma {:induction false} RefusedUntilCooldownOrSuccess(cfg: Config, h: History, later: History, key: Key, t: real, now: real)
    requires h != [] && h[|h| - 1] == Failure(key, t) && Tripped(cfg, h, key)
    requires NoSuccessAndNoEarlierFailure(later, key, t)
    requires now < t + cfg.reset
    ensures Tripped(cfg, h + later, key) && LastFailure(h + later, key) >= t
    ensures !Admits(cfg, h + later, key, now)
  {
    if later == [] {
      assert h + later == h;
    } else {
      var front := later[..|later| - 1];
      RefusedUntilCooldownOrSuccess(cfg, h, front, key, t, now);
      assert (h + later)[..|h + later| - 1] == h + front;
    }
  }

  /** The events of one key. */
  function Only(h: History, key: Key): History {
    if h == [] then [] else
      Only(h[..|h| - 1], key) + (if h[|h| - 1].key == key then [h[|h| - 1]] else [])
  }

  /** What happens to other keys does not matter. */
  lemma {:induction false} KeysAreIndependent(cfg: Config, h: History, key: Key)
    ensures StateAfter(cfg, h, key) == StateAfter(cfg, Only(h, key), key)
  {
    if h != [] {
      var front, last := h[..|h| - 1], h[|h| - 1];
      KeysAreIndependent(cfg, front, key);
      if last.key == key {
        var only := Only(front, key) + [last];
        assert only == Only(h, key) && only[..|only| - 1] == Only(front, key);
      } else {
        assert Only(h, key) == Only(front, key);
      }
    }
  }

  /** Calls asking for admission never change who is admitted: once the cooldown is over every call
      is let through, not just one probe, until an outcome is recorded. */
  lemma {:induction false} ProbesAreNotCounted(cfg: Config, h: History, probes: History, key: Key, now: real)
    requires forall i :: 0 <= i < |probes| ==> probes[i].Allow?
    ensures Admits(cfg, h + probes, key, now) <==> Admits(cfg, h, key, now)
    ensures Tripped(cfg, h + probes, key) <==> Tripped(cfg, h, key)
  {
    if probes == [] {
      assert h + probes == h;
    } else {
      var front := probes[..|probes| - 1];
      ProbesAreNotCounted(cfg, h, front, key, now);
      assert probes == front + [probes[|probes| - 1]];
      assert (h + probes)[..|h + probes| - 1] == h + front;
      assert (h + probes)[|h + probes| - 1] == probes[|probes| - 1];
    }
  }

  /** How many of the calls, made one after the other, are admitted. */
  function Admitted(cfg: Config, h: History, calls: History, key: Key): nat {
    if calls == [] then 0 else
      var front, last := calls[..|calls| - 1], calls[|calls| - 1];
      Admitted(cfg, h, front, key) + (if last.Allow? && last.key == key && Admits(cfg, h + front, key, last.at) then 1 else 0)
  }

  /** Between the end of a cooldown and the next outcome every call that asks is a probe, so only one passes
      exactly when only one asks. */
  lemma {:induction false} OneProbeExactlyWhenOneAsks(cfg: Config, h: History, calls: History, key: Key)
    requires Tripped(cfg, h, key)
    requires forall i :: 0 <= i < |calls| ==> calls[i].Allow? && calls[i].key == key && calls[i].at - LastFailure(h, key) >= cfg.reset
    ensures Admitted(cfg, h, calls, key) == |calls|
    ensures Admitted(cfg, h, calls, key) <= 1 <==> |calls| <= 1
  {
    if calls != [] {
      var front, last := calls[..|calls| - 1], calls[|calls| - 1];
      OneProbeExactlyWhenOneAsks(cfg, h, front, key);
      ProbesAreNotCounted(cfg, h, front, key, last.at);
    }
  }

  // ---------------------------------------------------------------- the registry

  /** `now or time.monotonic()`: a missing time and the time 0 both mean the clock. */
  function Stamp(now: Option<real>, clock: real): real {
    if now.Some? && now.value != 0.0 then now.value else clock
  }

  /** A time other than 0 is taken as given, and only then. */
  lemma StampTakesGivenTimes(now: Option<real>, clock: real)
    ensures now.Some? && now.value != 0.0 ==> Stamp(now, clock) == now.value
    ensures now == None || now == Some(0.0) ==> Stamp(now, clock) == clock
  {}

  class Registry {
    const cfg: Config
    var states: map<Key, CircuitState>
    ghost var history: History

    ghost predicate Valid()
      reads this
    {
      forall key :: Holds(key)
    }

    ghost predicate Holds(key: Key)
      reads this
    {
      StateAfter(cfg, history, key) == (if key in states then states[key] else FRESH)
    }

    constructor (cfg: Config)
      ensures Valid() && history == [] && this.cfg == cfg
    {
      this.cfg := cfg;
      states := map[];
      history := [];
    }

    /** The state of a key, created on first use. */
    method State(key: Key) returns (s: CircuitState)
      requires Valid()
      modifies this`states
      ensures Valid() && key in states && s == states[key] == StateAfter(cfg, history, key)
      ensures forall k :: k in old(states) ==> k in states && states[k] == old(states)[k]
    {
      assert Holds(key);
      if key !in states {
        states := states[key := FRESH];
      }
      s := states[key];
      forall k ensures Holds(k) {
        assert old(Holds(k));
      }
    }

    /** Stores the next state of a key and notes the call. */
    method Update(key: Key, s: CircuitState, ghost e: Event)
      requires Valid() && e.key == key && s == Step(cfg, StateAfter(cfg, history, key), e)
      modifies this`states, this`history
      ensures Valid() && history == old(history) + [e] && states == old(states)[key := s]
    {
      states := states[key := s];
      history := history + [e];
      assert history[..|history| - 1] == old(history);
      forall k ensures Holds(k) {
        assert old(Holds(k));
      }
    }

    method Status(key: Key) returns (status: Status)
      requires Valid()
      modifies this`states
      ensures Valid()
      ensures status == StatusOf(cfg, history, key)
    {
      var s := State(key);
      StateTellsHistory(cfg, history, key);
      status := s.Status();
    }

    method Allow(key: Key, now: Option<real>, clock: real) returns (allowed: bool)
      requires Valid()
      modifies this`states, this`history
      ensures Valid() && history == old(history) + [Event.Allow(key, Stamp(now, clock))]
      ensures allowed <==> Admits(cfg, old(history), key, Stamp(now, clock))
    {
      var s := State(key);
      var at := Stamp(now, clock);
      AnswersTellHistory(cfg, history, key, at);
      if s.openedAt == None {
        allowed := true;
      } else if at - s.openedAt.value < cfg.reset {
        allowed := false;
      } else {
        s := s.(probing := true);
        allowed := true;
      }
      Update(key, s, Event.Allow(key, at));
    }

    method RecordSuccess(key: Key)
      requires Valid()
      modifies this`states, this`history
      ensures Valid() && history == old(history) + [Success(key)]
    {
      Update(key, FRESH, Success(key));
    }

    method RecordFailure(key: Key, now: Option<real>, clock: real)
      requires Valid()
      modifies this`states, this`history
      ensures Valid() && history == old(history) + [Failure(key, Stamp(now, clock))]
    {
      var s := State(key);
      var at := Stamp(now, clock);
      if s.probing {
        s := s.(openedAt := Some(at), probing := false);
      } else {
        s := s.(failures := s.failures + 1);
        if s.failures >= cfg.threshold {
          s := s.(openedAt := Some(at));
        }
      }
      Update(key, s, Failure(key, at));
    }
  }
}
