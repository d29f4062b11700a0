/**
 The quota gate of the model gateway and the chat model that holds a slot of it: any number of
 callers, interleaved between any two awaits, cancelled anywhere.
 */
module Gateway {
  import opened Wrappers
  import opened Sequences

  datatype Config = Config(maxConcurrency: int, minInterval: real, maxRetries: int, hasFallback: bool) {
    function Cap(): nat { if maxConcurrency > 1 then maxConcurrency else 1 }

    function Interval(): real { if minInterval > 0.0 then minInterval else 0.0 }

    /** How often the primary model may be called. */
    function Primaries(): nat { if maxRetries + 1 > 0 then maxRetries + 1 else 0 }

    function MaxCalls(): nat { Primaries() + if hasFallback then 1 else 0 }
  }

  datatype End = Raised | Cancelled | Returned | Exhausted | Closed

  /** Where a caller stands.  From Spacing to Streaming, and when Leaked, it holds a slot. */
  datatype Phase =
    | Waiting
    | Spacing
    | Sleeping(until: real)
    | Upstream(call: nat)
    | Unstarted(total: nat)
    | Streaming(read: nat, total: nat)
    | Leaked
    | Gone(end: End)

  datatype Caller = Caller(phase: Phase, acquired: nat, released: nat) {
    predicate Holds() { !phase.Waiting? && !phase.Gone? }

    /** An upstream call in flight or a stream not read to its end. */
    predicate Busy() { phase.Upstream? || phase.Unstarted? || phase.Streaming? }
  }

  datatype Gate = Gate(clock: real, free: int, lock: Option<nat>, lastStart: real, starts: seq<real>,
                       callers: map<nat, Caller>)

  datatype Action =
    | Call(id: nat)
    | Acquire(id: nat)
    | Lock(id: nat)
    | Wake(id: nat)
    | Raise(id: nat, transient: bool)
    | ReturnValue(id: nat)
    | ReturnStream(id: nat, total: nat)
    | StartReading(id: nat)
    | Chunk(id: nat)
    | EndOfStream(id: nat)
    | StreamRaises(id: nat)
    | CloseStream(id: nat)
    | Discard(id: nat)
    | Cancel(id: nat)
    | Tick(to: real)

  /** The upstream call that follows entering the slot, if any: with no attempt allowed and no
      fallback there is none. */
  function FirstCall(cfg: Config): Option<nat> {
    if cfg.Primaries() > 0 || cfg.hasFallback then Some(1) else None
  }

  /** The call that follows a failed k-th call; None raises. */
  function CallAfter(cfg: Config, k: nat, transient: bool): Option<nat> {
    if k > cfg.Primaries() || !transient then None
    else if k < cfg.Primaries() || cfg.hasFallback then Some(k + 1)
    else None
  }

  predicate Enabled(s: Gate, a: Action) {
    if a.Tick? then a.to >= s.clock
    else if a.Call? then a.id !in s.callers
    else a.id in s.callers && EnabledIn(s, a, s.callers[a.id].phase)
  }

  predicate EnabledIn(s: Gate, a: Action, phase: Phase)
    requires !a.Tick?
  {
    match a
    case Call(_) => false
    case Acquire(_) => phase.Waiting? && s.free > 0
    case Lock(_) => phase.Spacing? && s.lock == None
    case Wake(_) => phase.Sleeping? && s.clock >= phase.until
    case Raise(_, _) => phase.Upstream?
    case ReturnValue(_) => phase.Upstream?
    case ReturnStream(_, _) => phase.Upstream?
    case StartReading(_) => phase.Unstarted?
    case Chunk(_) => phase.Streaming? && phase.read < phase.total
    case EndOfStream(_) => phase.Streaming? && phase.read == phase.total
    case StreamRaises(_) => phase.Streaming?
    case CloseStream(_) => phase.Streaming?
    case Discard(_) => phase.Unstarted?
    case Cancel(_) => phase.Waiting? || phase.Spacing? || phase.Sleeping? || phase.Upstream?
  }

  function Move(s: Gate, id: nat, phase: Phase): Gate
    requires id in s.callers
  {
    s.(callers := s.callers[id := s.callers[id].(phase := phase)])
  }

  /** Leaves the slot. */
  function Release(s: Gate, id: nat, end: End): Gate
    requires id in s.callers
  {
    var c := s.callers[id];
    s.(free := s.free + 1, callers := s.callers[id := c.(phase := Gone(end), released := c.released + 1)])
  }

  function GoUpstream(s: Gate, id: nat, call: Option<nat>): Gate
    requires id in s.callers
  {
    if call.Some? then Move(s, id, Upstream(call.value)) else Release(s, id, Raised)
  }

  /** Takes a slot; without a spacing interval the upstream call follows at once. */
  function Enter(cfg: Config, s: Gate, id: nat): Gate
    requires id in s.callers
  {
    var c := s.callers[id];
    var inside := s.(free := s.free - 1, callers := s.callers[id := c.(phase := Spacing, acquired := c.acquired + 1)]);
    if cfg.Interval() <= 0.0 then GoUpstream(inside, id, FirstCall(cfg)) else inside
  }

  /** Takes the spacing lock and computes how long to sleep from the last recorded start. */
  function StartSleep(cfg: Config, s: Gate, id: nat): Gate
    requires id in s.callers
  {
    var wait := cfg.Interval() - (s.clock - s.lastStart);
    Move(s.(lock := Some(id)), id, Sleeping(if wait > 0.0 then s.clock + wait else s.clock))
  }

  /** Records the start, leaves the lock and calls upstream. */
  function RecordStart(cfg: Config, s: Gate, id: nat): Gate
    requires id in s.callers
  {
    GoUpstream(s.(lock := None, lastStart := s.clock, starts := s.starts + [s.clock]), id, FirstCall(cfg))
  }

  function Abort(s: Gate, id: nat): Gate
    requires id in s.callers
  {
    var phase := s.callers[id].phase;
    if phase.Waiting? then Move(s, id, Gone(Cancelled))
    else Release(if phase.Sleeping? then s.(lock := None) else s, id, Cancelled)
  }

  function Do(cfg: Config, s: Gate, a: Action): Gate
    requires Enabled(s, a)
  {
    match a
    case Tick(to) => s.(clock := to)
    case Call(id) => s.(callers := s.callers[id := Caller(Waiting, 0, 0)])
    case Acquire(id) => Enter(cfg, s, id)
    case Lock(id) => StartSleep(cfg, s, id)
    case Wake(id) => RecordStart(cfg, s, id)
    case Raise(id, transient) => GoUpstream(s, id, CallAfter(cfg, s.callers[id].phase.call, transient))
    case ReturnValue(id) => Release(s, id, Returned)
    case ReturnStream(id, total) => Move(s, id, Unstarted(total))
    case StartReading(id) => Move(s, id, Streaming(0, s.callers[id].phase.total))
    case Chunk(id) => Move(s, id, Streaming(s.callers[id].phase.read + 1, s.callers[id].phase.total))
    case EndOfStream(id) => Release(s, id, Exhausted)
    case StreamRaises(id) => Release(s, id, Raised)
    case CloseStream(id) => Release(s, id, Closed)
    case Discard(id) => Move(s, id, Leaked)
    case Cancel(id) => Abort(s, id)
  }

  predicate CanRun(cfg: Config, s: Gate, run: seq<Action>)
    decreases |run|
  {
    run == [] || (Enabled(s, run[0]) && CanRun(cfg, Do(cfg, s, run[0]), run[1..]))
  }

  function Run(cfg: Config, s: Gate, run: seq<Action>): Gate
    requires CanRun(cfg, s, run)
    decreases |run|
  {
    if run == [] then s else Run(cfg, Do(cfg, s, run[0]), run[1..])
  }

  function Fresh(cfg: Config, clock: real): Gate { Gate(clock, cfg.Cap(), None, 0.0, [], map[]) }

  // ---------------------------------------------------------------- slots

  function Holders(callers: map<nat, Caller>): set<nat> {
    set id | id in callers && callers[id].Holds()
  }

  function BusyCallers(callers: map<nat, Caller>): set<nat> {
    set id | id in callers && callers[id].Busy()
  }

  function LeakedCallers(callers: map<nat, Caller>): set<nat> {
    set id | id in callers && callers[id].phase.Leaked?
  }

  predicate HoldsSlot(callers: map<nat, Caller>, id: nat) { id in callers && callers[id].Holds() }

  lemma HoldersMember(callers: map<nat, Caller>, id: nat, c: Caller)
    ensures HoldsSlot(callers, id) <==> id in Holders(callers)
    ensures Holders(callers[id := c]) == if c.Holds() then Holders(callers) + {id} else Holders(callers) - {id}
  {}

  lemma HoldersAfter(callers: map<nat, Caller>, id: nat, c: Caller)
    ensures |Holders(callers[id := c])| ==
            |Holders(callers)| - (if HoldsSlot(callers, id) then 1 else 0) + (if c.Holds() then 1 else 0)
  {
    HoldersMember(callers, id, c);
  }

  predicate SlotsCounted(cfg: Config, s: Gate) {
    s.free >= 0 && s.free + |Holders(s.callers)| == cfg.Cap()
  }

  lemma StepKeepsSlots(cfg: Config, s: Gate, a: Action)
    requires SlotsCounted(cfg, s) && Enabled(s, a)
    ensures SlotsCounted(cfg, Do(cfg, s, a))
  {
    if !a.Tick? {
      var s' := Do(cfg, s, a);
      var c := s'.callers[a.id];
      assert s'.callers == s.callers[a.id := c];
      assert s'.free == s.free + (if HoldsSlot(s.callers, a.id) then 1 else 0) - (if c.Holds() then 1 else 0);
      HoldersAfter(s.callers, a.id, c);
    }
  }

  // ---------------------------------------------------------------- one caller

  /** What every phase says about the caller's slot: taken once, given back at most once, and given
      back exactly once when the caller ended by an error, a value, or a started stream. */
  predicate Accounted(cfg: Config, c: Caller) {
    match c.phase
    case Waiting => c.acquired == 0 && c.released == 0
    case Gone(end) => if end == Cancelled then c.acquired == c.released <= 1 else c.acquired == c.released == 1
    case Upstream(k) => c.acquired == 1 && c.released == 0 && 1 <= k <= cfg.MaxCalls()
    case Streaming(read, total) => c.acquired == 1 && c.released == 0 && read <= total
    case _ => c.acquired == 1 && c.released == 0
  }

  ghost predicate AllAccounted(cfg: Config, s: Gate) {
    forall id :: id in s.callers ==> Accounted(cfg, s.callers[id])
  }

  lemma ActorStaysAccounted(cfg: Config, s: Gate, a: Action)
    requires Enabled(s, a) && !a.Tick? && (a.Call? || Accounted(cfg, s.callers[a.id]))
    ensures Accounted(cfg, Do(cfg, s, a).callers[a.id])
  {}

  lemma StepKeepsAccounts(cfg: Config, s: Gate, a: Action)
    requires AllAccounted(cfg, s) && Enabled(s, a)
    ensures AllAccounted(cfg, Do(cfg, s, a))
  {
    if !a.Tick? {
      ActorStaysAccounted(cfg, s, a);
      var s' := Do(cfg, s, a);
      assert s'.callers == s.callers[a.id := s'.callers[a.id]];
    }
  }

  // ---------------------------------------------------------------- starts

  /** The lock belongs to the one sleeping caller, and no sleep ends before the interval is over. */
  ghost predicate LockOwned(cfg: Config, s: Gate) {
    forall id :: id in s.callers && s.callers[id].phase.Sleeping? ==>
      s.lock == Some(id) && s.callers[id].phase.until >= s.lastStart + cfg.Interval()
  }

  ghost predicate LockNotLost(s: Gate) {
    s.lock.Some? ==> s.lock.value in s.callers && s.callers[s.lock.value].phase.Sleeping?
  }

  ghost predicate Spaced(starts: seq<real>, interval: real) {
    forall i :: 0 <= i < |starts| - 1 ==> starts[i + 1] >= starts[i] + interval
  }

  ghost predicate StartsSpaced(cfg: Config, s: Gate) {
    && Spaced(s.starts, cfg.Interval())
    && (s.starts != [] ==> s.lastStart == s.starts[|s.starts| - 1])
  }

  lemma StepKeepsLock(cfg: Config, s: Gate, a: Action)
    requires LockOwned(cfg, s) && LockNotLost(s) && Enabled(s, a)
    ensures LockOwned(cfg, Do(cfg, s, a)) && LockNotLost(Do(cfg, s, a))
  {
    var s' := Do(cfg, s, a);
    if !a.Tick? {
      assert s'.callers == s.callers[a.id := s'.callers[a.id]];
    }
  }

  lemma StepKeepsStarts(cfg: Config, s: Gate, a: Action)
    requires LockOwned(cfg, s) && StartsSpaced(cfg, s) && Enabled(s, a)
    ensures StartsSpaced(cfg, Do(cfg, s, a))
    ensures s.starts <= Do(cfg, s, a).starts
  {}

  // ---------------------------------------------------------------- every reachable state

  ghost predicate Inv(cfg: Config, s: Gate) {
    && SlotsCounted(cfg, s) && AllAccounted(cfg, s)
    && LockOwned(cfg, s) && LockNotLost(s) && StartsSpaced(cfg, s)
  }

  lemma {:induction false} RunKeepsInv(cfg: Config, s: Gate, run: seq<Action>)
    requires Inv(cfg, s) && CanRun(cfg, s, run)
    ensures Inv(cfg, Run(cfg, s, run))
    decreases |run|
  {
    if run != [] {
      StepKeepsSlots(cfg, s, run[0]);
      StepKeepsAccounts(cfg, s, run[0]);
      StepKeepsLock(cfg, s, run[0]);
      StepKeepsStarts(cfg, s, run[0]);
      RunKeepsInv(cfg, Do(cfg, s, run[0]), run[1..]);
    }
  }

  lemma ReachableIsInv(cfg: Config, clock: real, run: seq<Action>)
    requires CanRun(cfg, Fresh(cfg, clock), run)
    ensures Inv(cfg, Run(cfg, Fresh(cfg, clock), run))
  {
    assert Holders(Fresh(cfg, clock).callers) == {};
    RunKeepsInv(cfg, Fresh(cfg, clock), run);
  }

  /** Over all schedules, at most max(1, max_concurrency) slots are held, so upstream calls and
      unfinished streams together never exceed it, and the free slots are exactly the rest. */
  lemma AtMostCapacity(cfg: Config, clock: real, run: seq<Action>)
    requires CanRun(cfg, Fresh(cfg, clock), run)
    ensures var s, most := Run(cfg, Fresh(cfg, clock), run), if cfg.maxConcurrency > 1 then cfg.maxConcurrency else 1;
            |BusyCallers(s.callers)| <= |Holders(s.callers)| == most - s.free <= most
  {
    ReachableIsInv(cfg, clock, run);
    var s := Run(cfg, Fresh(cfg, clock), run);
    SubsetIsSmaller(BusyCallers(s.callers), Holders(s.callers));
  }

  /** A caller that waits can take a slot exactly when fewer than max(1, max_concurrency) callers hold one. */
  lemma WaiterEntersExactly(cfg: Config, clock: real, run: seq<Action>, id: nat)
    requires CanRun(cfg, Fresh(cfg, clock), run)
    requires var s := Run(cfg, Fresh(cfg, clock), run); id in s.callers && s.callers[id].phase.Waiting?
    ensures var s, most := Run(cfg, Fresh(cfg, clock), run), if cfg.maxConcurrency > 1 then cfg.maxConcurrency else 1;
            Enabled(s, Acquire(id)) <==> |Holders(s.callers)| < most
  {
    ReachableIsInv(cfg, clock, run);
  }

  /** What holding a slot means: the caller took one and has not given it back. */
  lemma HoldersTookSlots(cfg: Config, clock: real, run: seq<Action>, id: nat)
    requires CanRun(cfg, Fresh(cfg, clock), run)
    ensures var callers := Run(cfg, Fresh(cfg, clock), run).callers;
            id in Holders(callers) <==> id in callers && callers[id].acquired == 1 && callers[id].released == 0
  {
    ReachableIsInv(cfg, clock, run);
    var callers := Run(cfg, Fresh(cfg, clock), run).callers;
    if id in callers {
      assert Accounted(cfg, callers[id]);
    }
  }

  /** A caller gives its slot back at most once, never while its stream still has chunks to read, and
      exactly once when it ended any way but cancelled before it had one; it never makes more than
      max_retries + 2 upstream calls. */
  lemma EachSlotIsReturnedOnce(cfg: Config, clock: real, run: seq<Action>, id: nat)
    requires CanRun(cfg, Fresh(cfg, clock), run)
    requires id in Run(cfg, Fresh(cfg, clock), run).callers
    ensures var c := Run(cfg, Fresh(cfg, clock), run).callers[id];
            && c.released <= c.acquired <= 1
            && (c.Holds() <==> c.acquired == 1 && c.released == 0)
            && (c.phase.Gone? && c.phase.end != Cancelled ==> c.acquired == 1 && c.released == 1)
            && (c.phase.Upstream? && cfg.maxRetries >= 0 ==> c.phase.call <= cfg.maxRetries + 2)
  {
    ReachableIsInv(cfg, clock, run);
    assert Accounted(cfg, Run(cfg, Fresh(cfg, clock), run).callers[id]);
  }

  /** A slot is given back by the end of a stream only when every chunk was read. */
  lemma SlotOutlivesTheStream(cfg: Config, s: Gate, a: Action, id: nat)
    requires id in s.callers && (s.callers[id].phase.Unstarted? || s.callers[id].phase.Streaming?)
    requires Enabled(s, a) && Do(cfg, s, a).callers[id].released > s.callers[id].released
    ensures s.callers[id].phase.Streaming?
    ensures a == CloseStream(id) || a == StreamRaises(id) ||
            (a == EndOfStream(id) && s.callers[id].phase.read == s.callers[id].phase.total)
  {}

  /** The chunks of a caller's stream handed out in a run. */
  function ChunksIn(run: seq<Action>, id: nat): nat {
    if run == [] then 0 else (if run[0] == Chunk(id) then 1 else 0) + ChunksIn(run[1..], id)
  }

  /** Where a stream of `total` chunks stands after n of them. */
  predicate ReadSoFar(phase: Phase, total: nat, n: nat) {
    match phase
    case Unstarted(t) => t == total && n == 0
    case Streaming(read, t) => t == total && read == n <= total
    case Leaked => n == 0
    case Gone(end) => if end == Exhausted then n == total else n <= total
    case _ => false
  }

  lemma ReadsOneStep(cfg: Config, s: Gate, a: Action, id: nat, total: nat, n: nat)
    requires Enabled(s, a) && id in s.callers && ReadSoFar(s.callers[id].phase, total, n)
    ensures id in Do(cfg, s, a).callers
    ensures ReadSoFar(Do(cfg, s, a).callers[id].phase, total, n + if a == Chunk(id) then 1 else 0)
  {}

  lemma {:induction false} ReadsRun(cfg: Config, s: Gate, run: seq<Action>, id: nat, total: nat, n: nat)
    requires CanRun(cfg, s, run) && id in s.callers && ReadSoFar(s.callers[id].phase, total, n)
    ensures id in Run(cfg, s, run).callers && ReadSoFar(Run(cfg, s, run).callers[id].phase, total, n + ChunksIn(run, id))
    decreases |run|
  {
    if run != [] {
      ReadsOneStep(cfg, s, run[0], id, total, n);
      ReadsRun(cfg, Do(cfg, s, run[0]), run[1..], id, total, n + if run[0] == Chunk(id) then 1 else 0);
    }
  }

  /** A stream ends by itself only after every one of its chunks was handed out. */
  lemma StreamEndsAfterLastChunk(cfg: Config, s: Gate, run: seq<Action>, id: nat)
    requires CanRun(cfg, s, run) && id in s.callers && s.callers[id].phase.Unstarted?
    ensures id in Run(cfg, s, run).callers
    ensures Run(cfg, s, run).callers[id].phase == Gone(Exhausted) ==> ChunksIn(run, id) == s.callers[id].phase.total
    ensures ChunksIn(run, id) <= s.callers[id].phase.total
  {
    ReadsRun(cfg, s, run, id, s.callers[id].phase.total, 0);
  }

  // ---------------------------------------------------------------- spacing of starts

  lemma {:induction false} GapsAddUp(starts: seq<real>, interval: real, i: nat, j: nat)
    requires Spaced(starts, interval) && i <= j < |starts|
    ensures starts[j] - starts[i] >= (j - i) as real * interval
    decreases j
  {
    if i < j {
      GapsAddUp(starts, interval, i, j - 1);
      assert starts[j - 1 + 1] >= starts[j - 1] + interval;
    }
  }

  /** Over all schedules any two recorded starts lie at least min_interval apart for each start between
      them. */
  lemma StartsAreSpaced(cfg: Config, clock: real, run: seq<Action>, i: nat, j: nat)
    requires CanRun(cfg, Fresh(cfg, clock), run)
    requires i < j < |Run(cfg, Fresh(cfg, clock), run).starts|
    ensures var starts := Run(cfg, Fresh(cfg, clock), run).starts;
            starts[j] - starts[i] >= (j - i) as real * cfg.minInterval
  {
    ReachableIsInv(cfg, clock, run);
    GapsAddUp(Run(cfg, Fresh(cfg, clock), run).starts, cfg.Interval(), i, j);
    LongerIntervalsAddUp(cfg.minInterval, cfg.Interval(), (j - i) as real);
  }

  lemma LongerIntervalsAddUp(short: real, long: real, count: real)
    requires short <= long && count >= 0.0
    ensures count * short <= count * long
  {
    assert count * (long - short) >= 0.0;
  }

  /** The starts inside a window of time. */
  function StartsWithin(starts: seq<real>, from: real, width: real): set<nat> {
    set i: nat | i < |starts| && from <= starts[i] <= from + width
  }

  lemma {:induction false} NarrowSetIsSmall(s: set<nat>, lo: nat, n: nat)
    requires forall i :: i in s ==> lo <= i < lo + n
    ensures |s| <= n
    decreases n
  {
    if n > 0 {
      NarrowSetIsSmall(s - {lo + n - 1}, lo, n - 1);
    } else {
      assert s == {};
    }
  }

  lemma GapFits(gap: nat, interval: real, width: real)
    requires interval > 0.0 && gap as real * interval <= width
    ensures gap <= (width / interval).Floor
  {
    var quotient := width / interval;
    assert quotient * interval == width;
    FactorsCompare(gap as real, quotient, interval);
  }

  lemma FactorsCompare(a: real, b: real, c: real)
    requires c > 0.0 && a * c <= b * c
    ensures a <= b
  {}

  /** A window of width W holds at most 1 + floor(W / min_interval) recorded starts. */
  lemma WindowHoldsFewStarts(cfg: Config, clock: real, run: seq<Action>, from: real, width: real)
    requires CanRun(cfg, Fresh(cfg, clock), run)
    requires cfg.minInterval > 0.0 && width >= 0.0
    ensures |StartsWithin(Run(cfg, Fresh(cfg, clock), run).starts, from, width)| <= 1 + (width / cfg.minInterval).Floor
  {
    ReachableIsInv(cfg, clock, run);
    SpacedStartsInWindow(Run(cfg, Fresh(cfg, clock), run).starts, cfg.minInterval, from, width);
  }

  lemma InWindow(starts: seq<real>, interval: real, from: real, width: real, first: nat, i: nat)
    requires Spaced(starts, interval) && interval > 0.0 && first <= i < |starts|
    requires from <= starts[first] && starts[i] <= from + width
    ensures i - first <= (width / interval).Floor
  {
    GapsAddUp(starts, interval, first, i);
    GapFits(i - first, interval, width);
  }

  lemma SpacedStartsInWindow(starts: seq<real>, interval: real, from: real, width: real)
    requires Spaced(starts, interval) && interval > 0.0 && width >= 0.0
    ensures |StartsWithin(starts, from, width)| <= 1 + (width / interval).Floor
  {
    var within, most := StartsWithin(starts, from, width), (width / interval).Floor;
    GapFits(0, interval, width);
    if within != {} {
      var first := Least(within);
      forall i | i in within ensures first <= i < first + 1 + most {
        InWindow(starts, interval, from, width, first, i);
      }
      NarrowSetIsSmall(within, first, 1 + most);
    }
  }

  lemma {:induction false} Least(s: set<nat>) returns (least: nat)
    requires s != {}
    ensures least in s && forall i :: i in s ==> least <= i
  {
    var x :| x in s;
    if s == {x} {
      least := x;
    } else {
      var rest := Least(s - {x});
      least := if x < rest then x else rest;
      forall i | i in s ensures least <= i {
        assert i == x || i in s - {x};
      }
    }
  }

  /** With an interval, no caller gets upstream but by a step that records the moment as its start. */
  lemma EveryStartIsRecorded(cfg: Config, s: Gate, a: Action, id: nat)
    requires cfg.minInterval > 0.0 && Enabled(s, a)
    requires id !in s.callers || !s.callers[id].phase.Upstream?
    requires id in Do(cfg, s, a).callers && Do(cfg, s, a).callers[id].phase.Upstream?
    ensures a == Wake(id) && Do(cfg, s, a).starts == s.starts + [s.clock]
  {}

  /** Spacing costs no more than it must: the sleep ends at the first moment that is an interval after
      the last recorded start. */
  lemma SleepIsAsShortAsAllowed(cfg: Config, s: Gate, id: nat, moment: real)
    requires Enabled(s, Lock(id)) && s.clock <= moment
    ensures var until := Do(cfg, s, Lock(id)).callers[id].phase.until;
            moment >= s.lastStart + (if cfg.minInterval > 0.0 then cfg.minInterval else 0.0) <==> until <= moment
  {}

  ghost predicate Unspaced(s: Gate) {
    s.starts == [] && s.lock == None &&
    forall id :: id in s.callers ==> !s.callers[id].phase.Spacing? && !s.callers[id].phase.Sleeping?
  }

  /** Without an interval nobody waits for the spacing lock and no start is recorded. */
  lemma {:induction false} NoIntervalNoSpacing(cfg: Config, s: Gate, run: seq<Action>)
    requires cfg.minInterval <= 0.0 && Unspaced(s) && CanRun(cfg, s, run)
    ensures Unspaced(Run(cfg, s, run))
    decreases |run|
  {
    if run != [] {
      assert Unspaced(Do(cfg, s, run[0]));
      NoIntervalNoSpacing(cfg, Do(cfg, s, run[0]), run[1..]);
    }
  }

  // ---------------------------------------------------------------- streams nobody starts

  /** A stream dropped before its first chunk keeps its slot for good. */
  lemma {:induction false} AbandonedStreamKeepsSlot(cfg: Config, s: Gate, run: seq<Action>, id: nat)
    requires CanRun(cfg, s, run) && id in s.callers && s.callers[id].phase.Leaked?
    ensures id in Run(cfg, s, run).callers && Run(cfg, s, run).callers[id] == s.callers[id]
    decreases |run|
  {
    if run != [] {
      AbandonedStreamKeepsSlot(cfg, Do(cfg, s, run[0]), run[1..], id);
    }
  }

  predicate Unfinished(c: Caller) { !c.phase.Gone? && !c.phase.Leaked? }

  /** Steps by which a caller gets on without being cancelled or giving its stream up. */
  predicate GetsOn(a: Action) { !a.Tick? && !a.Call? && !a.Cancel? && !a.Discard? }

  ghost predicate CanGetOn(s: Gate, id: nat, later: real) {
    exists a: Action :: GetsOn(a) && a.id == id && later >= s.clock && Enabled(s.(clock := later), a)
  }

  /** No caller can get on, now or later. */
  ghost predicate Stuck(s: Gate) {
    forall id, later :: id in s.callers ==> !CanGetOn(s, id, later)
  }

  lemma UnfinishedHolderGetsSomeoneOn(cfg: Config, s: Gate, id: nat)
    requires Inv(cfg, s) && id in s.callers && Unfinished(s.callers[id]) && !s.callers[id].phase.Waiting?
    ensures !Stuck(s)
  {
    match s.callers[id].phase
    case Spacing =>
      if s.lock.Some? {
        SleeperWakes(s, s.lock.value);
      } else {
        assert Enabled(s.(clock := s.clock), Lock(id)) && GetsOn(Lock(id));
        assert CanGetOn(s, id, s.clock);
      }
    case Sleeping(_) =>
      SleeperWakes(s, id);
    case Upstream(_) =>
      assert Enabled(s.(clock := s.clock), ReturnValue(id)) && GetsOn(ReturnValue(id));
      assert CanGetOn(s, id, s.clock);
    case Unstarted(_) =>
      assert Enabled(s.(clock := s.clock), StartReading(id)) && GetsOn(StartReading(id));
      assert CanGetOn(s, id, s.clock);
    case Streaming(_, _) =>
      assert Enabled(s.(clock := s.clock), CloseStream(id)) && GetsOn(CloseStream(id));
      assert CanGetOn(s, id, s.clock);
  }

  lemma SleeperWakes(s: Gate, id: nat)
    requires id in s.callers && s.callers[id].phase.Sleeping?
    ensures !Stuck(s)
  {
    var until := s.callers[id].phase.until;
    var later := if until > s.clock then until else s.clock;
    assert Enabled(s.(clock := later), Wake(id)) && GetsOn(Wake(id));
    assert CanGetOn(s, id, later);
  }

  /** The gate never deadlocks by itself: callers are left and none can get on, now or later, exactly
      when every slot went to a stream nobody started and all callers left are waiting for one. */
  lemma StuckExactlyWhenLeaked(cfg: Config, clock: real, run: seq<Action>, id: nat)
    requires CanRun(cfg, Fresh(cfg, clock), run)
    requires var s := Run(cfg, Fresh(cfg, clock), run); id in s.callers && Unfinished(s.callers[id])
    ensures var s, most := Run(cfg, Fresh(cfg, clock), run), if cfg.maxConcurrency > 1 then cfg.maxConcurrency else 1;
            Stuck(s) <==> |LeakedCallers(s.callers)| == most
  {
    ReachableIsInv(cfg, clock, run);
    var s := Run(cfg, Fresh(cfg, clock), run);
    var leaked, holders := LeakedCallers(s.callers), Holders(s.callers);
    if |leaked| == cfg.Cap() {
      SubsetIsSmaller(leaked, holders);
      forall c, later | c in s.callers ensures !CanGetOn(s, c, later) {
        assert c in holders <==> c in leaked;
      }
    } else if !s.callers[id].phase.Waiting? {
      UnfinishedHolderGetsSomeoneOn(cfg, s, id);
    } else if s.free > 0 {
      FreeSlotGetsWaiterOn(s, id);
    } else {
      var other := InOneOnly(leaked, holders);
      UnfinishedHolderGetsSomeoneOn(cfg, s, other);
    }
  }

  lemma FreeSlotGetsWaiterOn(s: Gate, id: nat)
    requires id in s.callers && s.callers[id].phase.Waiting? && s.free > 0
    ensures !Stuck(s)
  {
    assert Enabled(s.(clock := s.clock), Acquire(id)) && GetsOn(Acquire(id));
    assert CanGetOn(s, id, s.clock);
  }

  lemma InOneOnly(a: set<nat>, b: set<nat>) returns (x: nat)
    requires a <= b && |a| != |b|
    ensures x in b && x !in a
  {
    assert b * a == a;
    assert |b - a| != 0;
    x :| x in b - a;
  }

  // ---------------------------------------------------------------- the calls one caller makes

  datatype Outcome = Value | Stream(total: nat) | Failure(message: string, transient: bool) | NothingToRaise {
    predicate Retries() { Failure? && transient }
  }

  /** The pause after a failed attempt: the base, tripled for every earlier attempt. */
  function Pause(base: real, attempt: nat): real {
    if attempt == 0 then base else 3.0 * Pause(base, attempt - 1)
  }

  /** A failed call is followed by another exactly when the failure is transient and a retry or the fallback
      is left; with retries forbidden and no fallback there is not even a first call. */
  lemma CallsFollowTheRetryLimit(cfg: Config, k: nat, transient: bool)
    requires k >= 1
    ensures FirstCall(cfg) == (if cfg.maxRetries < 0 && !cfg.hasFallback then None else Some(1))
    ensures CallAfter(cfg, k, transient) ==
            if transient && (k <= cfg.maxRetries || (cfg.hasFallback && k <= cfg.maxRetries + 1)) then Some(k + 1) else None
  {}

  /** Calls the primary model until it answers or fails for good, then the fallback. `outcomes(i)` is
      what the i-th upstream call would give; `waits` are the pauses between calls. */
  method CallWithFallback(cfg: Config, base: real, outcomes: nat -> Outcome)
    returns (result: Outcome, calls: nat, waits: seq<real>)
    ensures var attempts := if cfg.maxRetries >= 0 then cfg.maxRetries + 1 else 0;
            var most := attempts + if cfg.hasFallback then 1 else 0;
            && calls <= most
            && (calls == 0 <==> cfg.maxRetries < 0 && !cfg.hasFallback)
            && (calls > 0 && result.Retries() ==> calls == most)
            && |waits| == (if attempts == 0 || calls == 0 then 0 else if calls < attempts then calls - 1 else attempts - 1)
    ensures result == if calls == 0 then NothingToRaise else outcomes(calls - 1)
    ensures forall i :: 0 <= i < calls - 1 ==> outcomes(i).Retries()
    ensures calls == 0 <==> FirstCall(cfg) == None
    ensures forall k :: 1 <= k < calls ==> CallAfter(cfg, k, true) == Some(k + 1)
    ensures calls > 0 && result.Failure? ==> CallAfter(cfg, calls, result.transient) == None
    ensures |waits| > 0 ==> waits[0] == base
    ensures forall i :: 0 <= i < |waits| - 1 ==> waits[i + 1] == 3.0 * waits[i]
  {
    calls, waits, result := 0, [], NothingToRaise;
    while calls < cfg.Primaries()
      invariant calls <= cfg.Primaries()
      invariant forall i :: 0 <= i < calls ==> outcomes(i).Retries()
      invariant result == if calls == 0 then NothingToRaise else outcomes(calls - 1)
      invariant |waits| == if calls < cfg.Primaries() || calls == 0 then calls else calls - 1
      invariant forall i :: 0 <= i < |waits| ==> waits[i] == Pause(base, i)
    {
      var attempt := calls;
      result := outcomes(attempt);
      calls := calls + 1;
      if !result.Retries() {
        return;
      }
      if attempt < cfg.maxRetries {
        waits := waits + [Pause(base, attempt)];
      }
    }
    if !cfg.hasFallback {
      return;
    }
    result := outcomes(calls);
    calls := calls + 1;
  }
}
