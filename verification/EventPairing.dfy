/**
 Pairing of invoke and result events: the queue-per-key form of `_normalize_events`
 and the scan-based form of `_product_search_calls`.  Orders are 1-based positions
 in the event stream.
 */
module EventPairing {
  import opened Wrappers

  // ---------------------------------------------------------------- what pairing means

  /** What must be the same for a result to answer an invoke: a tool, agent or platform name, and a
      correlation id. */
  datatype Key = Key(name: Option<string>, correlation: string)

  /** What an event does for one kind of pairing. */
  datatype Op = Open(key: Key) | Close(key: Key) | Skip

  /** The number of opens of a key among the first n events. */
  function Opened(ops: seq<Op>, n: nat, key: Key): nat
    requires n <= |ops|
  {
    if n == 0 then 0 else Opened(ops, n - 1, key) + (if ops[n - 1] == Open(key) then 1 else 0)
  }

  /** The number of closes of a key among the first n events that found an open one: a close is
      paired when fewer closes than opens of its key were paired before it. */
  function Paired(ops: seq<Op>, n: nat, key: Key): nat
    requires n <= |ops|
  {
    if n == 0 then 0 else
      var before := Paired(ops, n - 1, key);
      before + (if ops[n - 1] == Close(key) && before < Opened(ops, n - 1, key) then 1 else 0)
  }

  predicate PairsAt(ops: seq<Op>, n: nat)
    requires 1 <= n <= |ops|
  {
    ops[n - 1].Close? && Paired(ops, n - 1, ops[n - 1].key) < Opened(ops, n - 1, ops[n - 1].key)
  }

  predicate OrphanAt(ops: seq<Op>, n: nat)
    requires 1 <= n <= |ops|
  {
    ops[n - 1].Close? && !PairsAt(ops, n)
  }

  /** The m-th paired close of a key belongs to the m-th open of that key. */
  predicate Matches(ops: seq<Op>, o: nat, a: nat)
    requires 1 <= o <= |ops| && 1 <= a <= |ops|
  {
    && ops[o - 1].Open? && PairsAt(ops, a) && ops[a - 1].key == ops[o - 1].key
    && Paired(ops, a - 1, ops[a - 1].key) == Opened(ops, o - 1, ops[o - 1].key)
  }

  lemma {:induction false} CountsGrow(ops: seq<Op>, n: nat, n': nat, key: Key)
    requires n <= n' <= |ops|
    ensures Opened(ops, n, key) <= Opened(ops, n', key) && Paired(ops, n, key) <= Paired(ops, n', key)
  {
    if n < n' {
      CountsGrow(ops, n, n' - 1, key);
    }
  }

  lemma {:induction false} PairedAtMostOpened(ops: seq<Op>, n: nat, key: Key)
    requires n <= |ops|
    ensures Paired(ops, n, key) <= Opened(ops, n, key)
  {
    if n > 0 {
      PairedAtMostOpened(ops, n - 1, key);
    }
  }

  /** Opens of one key have different ranks. */
  lemma RankIsUnique(ops: seq<Op>, o: nat, o': nat)
    requires 1 <= o <= |ops| && 1 <= o' <= |ops| && ops[o - 1].Open? && ops[o' - 1] == ops[o - 1]
    ensures Opened(ops, o - 1, ops[o - 1].key) < Opened(ops, o' - 1, ops[o - 1].key) <==> o < o'
  {
    if o < o' {
      CountsGrow(ops, o, o' - 1, ops[o - 1].key);
    } else {
      CountsGrow(ops, o' - 1, o - 1, ops[o - 1].key);
    }
  }

  /** The matching goes forward in time and is one-to-one in both directions. */
  lemma MatchingIsOneToOne(ops: seq<Op>, o: nat, a: nat, o': nat, a': nat)
    requires 1 <= o <= |ops| && 1 <= a <= |ops| && Matches(ops, o, a)
    requires 1 <= o' <= |ops| && 1 <= a' <= |ops| && Matches(ops, o', a')
    ensures o < a
    ensures o == o' <==> a == a'
  {
    var key := ops[o - 1].key;
    if a <= o {
      CountsGrow(ops, a - 1, o - 1, key);
    }
    if a == a' {
      RankIsUnique(ops, o, o');
      RankIsUnique(ops, o', o);
    }
    if o == o' && a != a' {
      CountsGrow(ops, if a < a' then a else a', if a < a' then a' - 1 else a - 1, key);
    }
  }

  lemma {:induction false} OpenOfRank(ops: seq<Op>, n: nat, key: Key, rank: nat) returns (o: nat)
    requires n <= |ops| && rank < Opened(ops, n, key)
    ensures 1 <= o <= n && ops[o - 1] == Open(key) && Opened(ops, o - 1, key) == rank
  {
    if rank < Opened(ops, n - 1, key) {
      o := OpenOfRank(ops, n - 1, key, rank);
    } else {
      o := n;
    }
  }

  /** Every paired close has its open. */
  lemma EveryPairedCloseHasItsOpen(ops: seq<Op>, a: nat) returns (o: nat)
    requires 1 <= a <= |ops| && PairsAt(ops, a)
    ensures 1 <= o < a && Matches(ops, o, a)
  {
    o := OpenOfRank(ops, a - 1, ops[a - 1].key, Paired(ops, a - 1, ops[a - 1].key));
  }

  function Closed(ops: seq<Op>, n: nat, key: Key): nat
    requires n <= |ops|
  {
    if n == 0 then 0 else Closed(ops, n - 1, key) + (if ops[n - 1] == Close(key) then 1 else 0)
  }

  function Orphaned(ops: seq<Op>, n: nat, key: Key): nat
    requires n <= |ops|
  {
    if n == 0 then 0 else
      Orphaned(ops, n - 1, key) + (if OrphanAt(ops, n) && ops[n - 1].key == key then 1 else 0)
  }

  /** How many more closes than opens of the key the first n events hold. */
  function Excess(ops: seq<Op>, n: nat, key: Key): int
    requires n <= |ops|
  {
    Closed(ops, n, key) - Opened(ops, n, key)
  }

  /** The number of orphans is the largest excess of closes over opens in any prefix, or 0, and
      every close is either paired or an orphan. */
  lemma {:induction false} OrphanCount(ops: seq<Op>, n: nat, key: Key)
    requires n <= |ops|
    ensures Paired(ops, n, key) + Orphaned(ops, n, key) == Closed(ops, n, key)
    ensures forall p :: 0 <= p <= n ==> Excess(ops, p, key) <= Orphaned(ops, n, key)
    ensures Orphaned(ops, n, key) == 0 || exists p :: 0 <= p <= n && Excess(ops, p, key) == Orphaned(ops, n, key)
  {
    if n > 0 {
      OrphanCount(ops, n - 1, key);
      PairedAtMostOpened(ops, n - 1, key);
      PairedAtMostOpened(ops, n, key);
      if OrphanAt(ops, n) && ops[n - 1].key == key {
        assert Excess(ops, n, key) == Orphaned(ops, n, key);
      }
    }
  }

  // ---------------------------------------------------------------- records and their answers

  /** The orders at which a record is created: opens and, when asked for, orphans. */
  function Slots(ops: seq<Op>, n: nat, orphans: bool): seq<nat>
    requires n <= |ops|
  {
    if n == 0 then [] else
      Slots(ops, n - 1, orphans) + (if ops[n - 1].Open? || (orphans && OrphanAt(ops, n)) then [n] else [])
  }

  /** After n events, the order of the event that answers the record created at `o`: the close that
      matches an open; an orphan answers itself. */
  function Answer(ops: seq<Op>, n: nat, o: nat): (a: Option<nat>)
    requires 1 <= o <= n <= |ops|
    ensures a.Some? ==> o <= a.value <= n
  {
    if !ops[o - 1].Open? then Some(o)
    else if n == o then None
    else if Matches(ops, o, n) then Some(n)
    else Answer(ops, n - 1, o)
  }

  /** The answer of an open is its match, and it has one exactly when its turn has come. */
  lemma {:induction false} AnswerIsMatch(ops: seq<Op>, n: nat, o: nat)
    requires 1 <= o <= n <= |ops| && ops[o - 1].Open?
    ensures Answer(ops, n, o).Some? ==> Matches(ops, o, Answer(ops, n, o).value)
    ensures Answer(ops, n, o).Some? <==> Opened(ops, o - 1, ops[o - 1].key) < Paired(ops, n, ops[o - 1].key)
  {
    var key := ops[o - 1].key;
    if n == o {
      PairedAtMostOpened(ops, o - 1, key);
    } else {
      AnswerIsMatch(ops, n - 1, o);
      CountsGrow(ops, o, n - 1, key);
    }
  }

  lemma MatchIsAnswer(ops: seq<Op>, n: nat, o: nat, a: nat)
    requires 1 <= o <= |ops| && 1 <= a <= n <= |ops| && Matches(ops, o, a)
    ensures o < a && Answer(ops, n, o) == Some(a)
  {
    MatchingIsOneToOne(ops, o, a, o, a);
    CountsGrow(ops, a, n, ops[o - 1].key);
    AnswerIsMatch(ops, n, o);
    MatchingIsOneToOne(ops, o, a, o, Answer(ops, n, o).value);
  }

  lemma {:induction false} SlotBounds(ops: seq<Op>, n: nat, orphans: bool, i: nat)
    requires n <= |ops| && i < |Slots(ops, n, orphans)|
    ensures var o := Slots(ops, n, orphans)[i]; 1 <= o <= n && (ops[o - 1].Open? || (orphans && OrphanAt(ops, o)))
  {
    if i < |Slots(ops, n - 1, orphans)| {
      SlotBounds(ops, n - 1, orphans, i);
    }
  }

  lemma {:induction false} SlotsAscend(ops: seq<Op>, n: nat, orphans: bool, i: nat, j: nat)
    requires n <= |ops| && i < j < |Slots(ops, n, orphans)|
    ensures Slots(ops, n, orphans)[i] < Slots(ops, n, orphans)[j]
  {
    if j < |Slots(ops, n - 1, orphans)| {
      SlotsAscend(ops, n - 1, orphans, i, j);
    } else {
      SlotBounds(ops, n - 1, orphans, i);
    }
  }

  function OrphanSlots(ops: seq<Op>, n: nat): seq<nat>
    requires n <= |ops|
  {
    if n == 0 then [] else OrphanSlots(ops, n - 1) + (if OrphanAt(ops, n) then [n] else [])
  }

  /** Records number opens plus orphans. */
  lemma {:induction false} RecordCount(ops: seq<Op>, n: nat)
    requires n <= |ops|
    ensures |Slots(ops, n, true)| == |Slots(ops, n, false)| + |OrphanSlots(ops, n)|
  {
    if n > 0 {
      RecordCount(ops, n - 1);
    }
  }

  // ---------------------------------------------------------------- one queue per key

  type Queues = map<Key, seq<nat>>

  function Queue(queues: Queues, key: Key): seq<nat> { if key in queues then queues[key] else [] }

  /** Entry t of the queue of a key is the record of the open with t unanswered opens before it. */
  predicate PointsAt(ops: seq<Op>, slots: seq<nat>, key: Key, queue: seq<nat>, paired: nat, t: nat)
    requires t < |queue|
  {
    && queue[t] < |slots|
    && var o := slots[queue[t]];
    && 1 <= o <= |ops| && ops[o - 1] == Open(key) && Opened(ops, o - 1, key) == paired + t
  }

  ghost predicate AllPoint(ops: seq<Op>, slots: seq<nat>, key: Key, queue: seq<nat>, paired: nat) {
    forall t :: 0 <= t < |queue| ==> PointsAt(ops, slots, key, queue, paired, t)
  }

  /** The queue of a key holds the record numbers of its unanswered opens, oldest first. */
  ghost predicate QueueHolds(ops: seq<Op>, n: nat, orphans: bool, key: Key, queue: seq<nat>)
    requires n <= |ops|
  {
    && |queue| == Opened(ops, n, key) - Paired(ops, n, key)
    && AllPoint(ops, Slots(ops, n, orphans), key, queue, Paired(ops, n, key))
  }

  ghost predicate QueuesHold(ops: seq<Op>, n: nat, orphans: bool, queues: Queues)
    requires n <= |ops|
  {
    forall key :: QueueHolds(ops, n, orphans, key, Queue(queues, key))
  }

  lemma EntriesKept(ops: seq<Op>, slots: seq<nat>, slots': seq<nat>, key: Key, queue: seq<nat>, paired: nat)
    requires slots <= slots' && AllPoint(ops, slots, key, queue, paired)
    ensures AllPoint(ops, slots', key, queue, paired)
  {
    forall t | 0 <= t < |queue| ensures PointsAt(ops, slots', key, queue, paired, t) {
      assert PointsAt(ops, slots, key, queue, paired, t);
    }
  }

  lemma QueueGrows(ops: seq<Op>, n: nat, orphans: bool, key: Key, queue: seq<nat>)
    requires n < |ops| && ops[n] == Open(key) && QueueHolds(ops, n, orphans, key, queue)
    ensures QueueHolds(ops, n + 1, orphans, key, queue + [|Slots(ops, n, orphans)|])
  {
    var slots, slots', longer := Slots(ops, n, orphans), Slots(ops, n + 1, orphans), queue + [|Slots(ops, n, orphans)|];
    var paired := Paired(ops, n, key);
    PairedAtMostOpened(ops, n, key);
    forall t | 0 <= t < |longer| ensures PointsAt(ops, slots', key, longer, paired, t) {
      if t < |queue| {
        assert PointsAt(ops, slots, key, queue, paired, t);
      }
    }
  }

  lemma QueueShrinks(ops: seq<Op>, n: nat, orphans: bool, key: Key, queue: seq<nat>)
    requires n < |ops| && ops[n] == Close(key) && QueueHolds(ops, n, orphans, key, queue) && queue != []
    ensures QueueHolds(ops, n + 1, orphans, key, queue[1..])
  {
    var slots, shorter, paired, paired' := Slots(ops, n, orphans), queue[1..], Paired(ops, n, key), Paired(ops, n + 1, key);
    assert Slots(ops, n + 1, orphans) == slots;
    forall t | 0 <= t < |shorter| ensures PointsAt(ops, slots, key, shorter, paired', t) {
      assert PointsAt(ops, slots, key, queue, paired, t + 1);
    }
  }

  lemma QueueKept(ops: seq<Op>, n: nat, orphans: bool, key: Key, queue: seq<nat>)
    requires n < |ops| && QueueHolds(ops, n, orphans, key, queue)
    requires ops[n] != Open(key) && (ops[n] == Close(key) ==> queue == [])
    ensures QueueHolds(ops, n + 1, orphans, key, queue)
  {
    EntriesKept(ops, Slots(ops, n, orphans), Slots(ops, n + 1, orphans), key, queue, Paired(ops, n, key));
  }

  /** The record in slot i keeps its answer when event n + 1 arrives. */
  ghost predicate Kept(ops: seq<Op>, n: nat, orphans: bool, i: nat)
    requires n < |ops| && i < |Slots(ops, n, orphans)|
  {
    SlotBounds(ops, n, orphans, i);
    Answer(ops, n + 1, Slots(ops, n, orphans)[i]) == Answer(ops, n, Slots(ops, n, orphans)[i])
  }

  lemma KeptUnlessMatched(ops: seq<Op>, n: nat, orphans: bool, i: nat)
    requires n < |ops| && i < |Slots(ops, n, orphans)|
    requires var o := Slots(ops, n, orphans)[i]; 1 <= o <= n ==> !Matches(ops, o, n + 1)
    ensures Kept(ops, n, orphans, i)
  {
    SlotBounds(ops, n, orphans, i);
  }

  lemma OpenStep(ops: seq<Op>, n: nat, orphans: bool, queues: Queues)
    requires n < |ops| && ops[n].Open? && QueuesHold(ops, n, orphans, queues)
    ensures Slots(ops, n + 1, orphans) == Slots(ops, n, orphans) + [n + 1]
    ensures Answer(ops, n + 1, n + 1) == None
    ensures forall i :: 0 <= i < |Slots(ops, n, orphans)| ==> Kept(ops, n, orphans, i)
    ensures var key := ops[n].key;
            QueuesHold(ops, n + 1, orphans, queues[key := Queue(queues, key) + [|Slots(ops, n, orphans)|]])
  {
    var key := ops[n].key;
    var queues', n' := queues[key := Queue(queues, key) + [|Slots(ops, n, orphans)|]], n + 1;
    forall i | 0 <= i < |Slots(ops, n, orphans)| ensures Kept(ops, n, orphans, i) {
      KeptUnlessMatched(ops, n, orphans, i);
    }
    forall k ensures QueueHolds(ops, n', orphans, k, Queue(queues', k)) {
      assert QueueHolds(ops, n, orphans, k, Queue(queues, k));
      if k == key {
        QueueGrows(ops, n, orphans, key, Queue(queues, key));
      } else {
        QueueKept(ops, n, orphans, k, Queue(queues, k));
      }
    }
  }

  /** An unpaired close or an event without a part in this pairing. */
  lemma IdleStep(ops: seq<Op>, n: nat, orphans: bool, queues: Queues)
    requires n < |ops| && QueuesHold(ops, n, orphans, queues)
    requires ops[n].Skip? || (ops[n].Close? && Queue(queues, ops[n].key) == [])
    ensures ops[n].Close? ==> OrphanAt(ops, n + 1)
    ensures Slots(ops, n + 1, orphans) == Slots(ops, n, orphans) + (if ops[n].Close? && orphans then [n + 1] else [])
    ensures forall i :: 0 <= i < |Slots(ops, n, orphans)| ==> Kept(ops, n, orphans, i)
    ensures QueuesHold(ops, n + 1, orphans, queues)
  {
    if ops[n].Close? {
      assert QueueHolds(ops, n, orphans, ops[n].key, Queue(queues, ops[n].key));
    }
    forall i | 0 <= i < |Slots(ops, n, orphans)| ensures Kept(ops, n, orphans, i) {
      KeptUnlessMatched(ops, n, orphans, i);
    }
    var n' := n + 1;
    forall k ensures QueueHolds(ops, n', orphans, k, Queue(queues, k)) {
      assert QueueHolds(ops, n, orphans, k, Queue(queues, k));
      QueueKept(ops, n, orphans, k, Queue(queues, k));
    }
  }

  /** A close takes the front of its queue: the open that matches it. */
  lemma FrontMatches(ops: seq<Op>, n: nat, orphans: bool, key: Key, queue: seq<nat>)
    requires n < |ops| && ops[n] == Close(key) && QueueHolds(ops, n, orphans, key, queue) && queue != []
    ensures queue[0] < |Slots(ops, n, orphans)|
    ensures var o := Slots(ops, n, orphans)[queue[0]]; 1 <= o <= n && Matches(ops, o, n + 1)
  {
    assert PointsAt(ops, Slots(ops, n, orphans), key, queue, Paired(ops, n, key), 0);
    SlotBounds(ops, n, orphans, queue[0]);
  }

  lemma OthersKept(ops: seq<Op>, n: nat, orphans: bool, i: nat, j: nat)
    requires n < |ops| && i < |Slots(ops, n, orphans)| && j < |Slots(ops, n, orphans)| && i != j
    requires var o := Slots(ops, n, orphans)[i]; 1 <= o <= n && Matches(ops, o, n + 1)
    ensures Kept(ops, n, orphans, j)
  {
    var o, o' := Slots(ops, n, orphans)[i], Slots(ops, n, orphans)[j];
    SlotBounds(ops, n, orphans, j);
    SlotsAscend(ops, n, orphans, if i < j then i else j, if i < j then j else i);
    if Matches(ops, o', n + 1) {
      MatchingIsOneToOne(ops, o, n + 1, o', n + 1);
    }
    KeptUnlessMatched(ops, n, orphans, j);
  }

  lemma PairStep(ops: seq<Op>, n: nat, orphans: bool, queues: Queues)
    requires n < |ops| && ops[n].Close? && QueuesHold(ops, n, orphans, queues)
    requires Queue(queues, ops[n].key) != []
    ensures Slots(ops, n + 1, orphans) == Slots(ops, n, orphans) && !OrphanAt(ops, n + 1)
    ensures var i := Queue(queues, ops[n].key)[0];
            && i < |Slots(ops, n, orphans)|
            && 1 <= Slots(ops, n, orphans)[i] <= n && ops[Slots(ops, n, orphans)[i] - 1].Open?
            && Answer(ops, n + 1, Slots(ops, n, orphans)[i]) == Some(n + 1)
            && forall j :: 0 <= j < |Slots(ops, n, orphans)| && j != i ==> Kept(ops, n, orphans, j)
    ensures QueuesHold(ops, n + 1, orphans, queues[ops[n].key := Queue(queues, ops[n].key)[1..]])
  {
    var key := ops[n].key;
    assert QueueHolds(ops, n, orphans, key, Queue(queues, key));
    FrontMatches(ops, n, orphans, key, Queue(queues, key));
    forall j | 0 <= j < |Slots(ops, n, orphans)| && j != Queue(queues, key)[0] ensures Kept(ops, n, orphans, j) {
      OthersKept(ops, n, orphans, Queue(queues, key)[0], j);
    }
    PairQueues(ops, n, orphans, queues);
  }

  lemma PairQueues(ops: seq<Op>, n: nat, orphans: bool, queues: Queues)
    requires n < |ops| && ops[n].Close? && QueuesHold(ops, n, orphans, queues)
    requires Queue(queues, ops[n].key) != []
    ensures QueuesHold(ops, n + 1, orphans, queues[ops[n].key := Queue(queues, ops[n].key)[1..]])
  {
    var key := ops[n].key;
    var queues', n' := queues[key := Queue(queues, key)[1..]], n + 1;
    forall k ensures QueueHolds(ops, n', orphans, k, Queue(queues', k)) {
      assert QueueHolds(ops, n, orphans, k, Queue(queues, k));
      if k == key {
        QueueShrinks(ops, n, orphans, key, Queue(queues, key));
      } else {
        QueueKept(ops, n, orphans, k, Queue(queues, k));
      }
    }
  }

  // ---------------------------------------------------------------- the evidence normalizer

  /** The events both pairings distinguish; `tool` and `platform` are None when they are not strings (the
      platform of an invoke is among its arguments), and a missing correlation id is the empty one. */
  datatype Event =
    | Dispatch(agent: string, correlation: string)
    | Invoke(tool: Option<string>, correlation: string, platform: Option<string>)
    | Result(tool: Option<string>, agent: string, correlation: string, platform: Option<string>, error: Option<string>)
    | Other

  datatype Status = Success | Error | Unknown

  datatype ToolRecord = ToolRecord(order: nat, tool: string, correlation: string, answer: Option<nat>, status: Status)

  datatype DispatchRecord = DispatchRecord(order: nat, agent: string, correlation: string, finished: Option<nat>)

  /** `orphanSignals` holds the orders of the orphan_tool_result signals. */
  datatype Evidence = Evidence(dispatches: seq<DispatchRecord>, tools: seq<ToolRecord>, orphanSignals: seq<nat>)

  predicate Named(tool: Option<string>) { tool.Some? && tool.value != "" }

  function ToolOp(event: Event): Op {
    match event
    case Invoke(tool, correlation, _) => if Named(tool) then Open(Key(tool, correlation)) else Skip
    case Result(tool, _, correlation, _, _) =>
      if Named(tool) && tool.value != "task_dispatch" then Close(Key(tool, correlation)) else Skip
    case _ => Skip
  }

  function DispatchOp(event: Event): Op {
    match event
    case Dispatch(agent, correlation) =>
      if agent in {"search_agent", "trade_agent"} then Open(Key(Some(agent), correlation)) else Skip
    case Result(Some(tool), agent, correlation, _, _) =>
      if tool == "task_dispatch" then Close(Key(Some(agent), correlation)) else Skip
    case _ => Skip
  }

  function ToolOps(events: seq<Event>): (ops: seq<Op>)
    ensures |ops| == |events| && forall i :: 0 <= i < |ops| ==> ops[i] == ToolOp(events[i])
  {
    seq(|events|, i requires 0 <= i < |events| => ToolOp(events[i]))
  }

  function DispatchOps(events: seq<Event>): (ops: seq<Op>)
    ensures |ops| == |events| && forall i :: 0 <= i < |ops| ==> ops[i] == DispatchOp(events[i])
  {
    seq(|events|, i requires 0 <= i < |events| => DispatchOp(events[i]))
  }

  /** The status a result event gives a record. */
  function StatusFrom(event: Event, otherwise: Status): Status {
    if event.Result? && event.error.Some? then Error else otherwise
  }

  /** The tool record created at order `o`, as it stands after n events. */
  function ToolRecordAt(events: seq<Event>, n: nat, o: nat): ToolRecord
    requires 1 <= o <= n <= |events|
    requires ToolOp(events[o - 1]).Open? || OrphanAt(ToolOps(events), o)
  {
    var answer := Answer(ToolOps(events), n, o);
    var status := match answer
      case None => Unknown
      case Some(a) => StatusFrom(events[a - 1], if ToolOp(events[o - 1]).Open? then Success else Unknown);
    ToolRecord(o, events[o - 1].tool.value, events[o - 1].correlation, answer, status)
  }

  function DispatchRecordAt(events: seq<Event>, n: nat, o: nat): DispatchRecord
    requires 1 <= o <= n <= |events| && DispatchOp(events[o - 1]).Open?
  {
    DispatchRecord(o, events[o - 1].agent, events[o - 1].correlation, Answer(DispatchOps(events), n, o))
  }

  ghost predicate ToolsAre(events: seq<Event>, n: nat, tools: seq<ToolRecord>)
    requires n <= |events|
  {
    |tools| == |Slots(ToolOps(events), n, true)| && forall i :: 0 <= i < |tools| ==> ToolIs(events, n, i, tools[i])
  }

  ghost predicate ToolIs(events: seq<Event>, n: nat, i: nat, tool: ToolRecord)
    requires n <= |events| && i < |Slots(ToolOps(events), n, true)|
  {
    SlotBounds(ToolOps(events), n, true, i);
    tool == ToolRecordAt(events, n, Slots(ToolOps(events), n, true)[i])
  }

  ghost predicate DispatchesAre(events: seq<Event>, n: nat, dispatches: seq<DispatchRecord>)
    requires n <= |events|
  {
    && |dispatches| == |Slots(DispatchOps(events), n, false)|
    && forall i :: 0 <= i < |dispatches| ==> DispatchIs(events, n, i, dispatches[i])
  }

  ghost predicate DispatchIs(events: seq<Event>, n: nat, i: nat, dispatch: DispatchRecord)
    requires n <= |events| && i < |Slots(DispatchOps(events), n, false)|
  {
    SlotBounds(DispatchOps(events), n, false, i);
    dispatch == DispatchRecordAt(events, n, Slots(DispatchOps(events), n, false)[i])
  }

  /** A tool.invoke without a tool name aborts the normalization. */
  predicate Rejected(event: Event) { event.Invoke? && !Named(event.tool) }

  /** The tool records, orphan signals and open queues after n events. */
  ghost predicate ToolState(events: seq<Event>, n: nat, tools: seq<ToolRecord>, queues: Queues, orphanSignals: seq<nat>)
    requires n <= |events|
  {
    var records, held := ToolsAre(events, n, tools), QueuesHold(ToolOps(events), n, true, queues);
    records && held && orphanSignals == OrphanSlots(ToolOps(events), n)
  }

  /** The dispatch records and open queues after n events. */
  ghost predicate DispatchState(events: seq<Event>, n: nat, dispatches: seq<DispatchRecord>, queues: Queues)
    requires n <= |events|
  {
    var records, held := DispatchesAre(events, n, dispatches), QueuesHold(DispatchOps(events), n, false, queues);
    records && held
  }

  // One event leaves every record but the answered one as it was.

  lemma DispatchesKept(events: seq<Event>, n: nat, dispatches: seq<DispatchRecord>, i: nat)
    requires n < |events| && DispatchesAre(events, n, dispatches) && i < |dispatches|
    requires Kept(DispatchOps(events), n, false, i)
    ensures i < |Slots(DispatchOps(events), n + 1, false)| && DispatchIs(events, n + 1, i, dispatches[i])
  {}

  lemma DispatchOpened(events: seq<Event>, n: nat, dispatches: seq<DispatchRecord>, queues: Queues)
    requires n < |events| && DispatchOp(events[n]).Open?
    requires DispatchState(events, n, dispatches, queues)
    ensures var key := Key(Some(events[n].agent), events[n].correlation);
            DispatchState(events, n + 1, dispatches + [DispatchRecord(n + 1, events[n].agent, events[n].correlation, None)],
                          queues[key := Queue(queues, key) + [|dispatches|]])
  {
    var n' := n + 1;
    OpenStep(DispatchOps(events), n, false, queues);
    forall i | 0 <= i < |dispatches|
      ensures DispatchIs(events, n', i, dispatches[i])
    {
      assert Kept(DispatchOps(events), n, false, i);
      DispatchesKept(events, n, dispatches, i);
    }
  }

  lemma DispatchFinished(events: seq<Event>, n: nat, dispatches: seq<DispatchRecord>, queues: Queues, key: Key)
    requires n < |events| && DispatchOp(events[n]) == Close(key) && Queue(queues, key) != []
    requires DispatchState(events, n, dispatches, queues)
    ensures var i := Queue(queues, key)[0];
            && i < |dispatches|
            && DispatchState(events, n + 1, dispatches[i := dispatches[i].(finished := Some(n + 1))],
                             queues[key := Queue(queues, key)[1..]])
  {
    var n' := n + 1;
    PairStep(DispatchOps(events), n, false, queues);
    forall i | 0 <= i < |dispatches| && i != Queue(queues, key)[0]
      ensures DispatchIs(events, n', i, dispatches[i])
    {
      assert Kept(DispatchOps(events), n, false, i);
      DispatchesKept(events, n, dispatches, i);
    }
  }

  lemma DispatchIdle(events: seq<Event>, n: nat, dispatches: seq<DispatchRecord>, queues: Queues)
    requires n < |events| && var op := DispatchOp(events[n]); op.Skip? || (op.Close? && Queue(queues, op.key) == [])
    requires DispatchState(events, n, dispatches, queues)
    ensures DispatchState(events, n + 1, dispatches, queues)
  {
    var n' := n + 1;
    IdleStep(DispatchOps(events), n, false, queues);
    forall i | 0 <= i < |dispatches|
      ensures DispatchIs(events, n', i, dispatches[i])
    {
      assert Kept(DispatchOps(events), n, false, i);
      DispatchesKept(events, n, dispatches, i);
    }
  }

  lemma ToolsKept(events: seq<Event>, n: nat, tools: seq<ToolRecord>, i: nat)
    requires n < |events| && ToolsAre(events, n, tools) && i < |tools|
    requires Kept(ToolOps(events), n, true, i)
    ensures i < |Slots(ToolOps(events), n + 1, true)| && ToolIs(events, n + 1, i, tools[i])
  {}

  lemma ToolInvoked(events: seq<Event>, n: nat, tools: seq<ToolRecord>, queues: Queues, orphanSignals: seq<nat>)
    requires n < |events| && ToolOp(events[n]).Open?
    requires ToolState(events, n, tools, queues, orphanSignals)
    ensures var key := Key(events[n].tool, events[n].correlation);
            ToolState(events, n + 1, tools + [ToolRecord(n + 1, events[n].tool.value, events[n].correlation, None, Unknown)],
                      queues[key := Queue(queues, key) + [|tools|]], orphanSignals)
  {
    var n' := n + 1;
    OpenStep(ToolOps(events), n, true, queues);
    forall i | 0 <= i < |tools| ensures ToolIs(events, n', i, tools[i]) {
      assert Kept(ToolOps(events), n, true, i);
      ToolsKept(events, n, tools, i);
    }
  }

  lemma RecordAnswered(events: seq<Event>, n: nat, i: nat, tool: ToolRecord)
    requires n < |events| && i < |Slots(ToolOps(events), n, true)| && ToolIs(events, n, i, tool)
    requires Slots(ToolOps(events), n + 1, true) == Slots(ToolOps(events), n, true)
    requires var o := Slots(ToolOps(events), n, true)[i];
             1 <= o <= n && ToolOp(events[o - 1]).Open? && Answer(ToolOps(events), n + 1, o) == Some(n + 1)
    ensures ToolIs(events, n + 1, i, tool.(answer := Some(n + 1), status := StatusFrom(events[n], Success)))
  {}

  lemma ToolAnswered(events: seq<Event>, n: nat, tools: seq<ToolRecord>, queues: Queues, orphanSignals: seq<nat>, key: Key)
    requires n < |events| && ToolOp(events[n]) == Close(key) && Queue(queues, key) != []
    requires ToolState(events, n, tools, queues, orphanSignals)
    ensures var i := Queue(queues, key)[0];
            && i < |tools|
            && ToolState(events, n + 1, tools[i := tools[i].(answer := Some(n + 1), status := StatusFrom(events[n], Success))],
                         queues[key := Queue(queues, key)[1..]], orphanSignals)
  {
    PairStep(ToolOps(events), n, true, queues);
    OneToolAnswered(events, n, tools, Queue(queues, key)[0]);
  }

  lemma OneToolAnswered(events: seq<Event>, n: nat, tools: seq<ToolRecord>, i: nat)
    requires n < |events| && ToolsAre(events, n, tools) && i < |tools|
    requires Slots(ToolOps(events), n + 1, true) == Slots(ToolOps(events), n, true)
    requires var o := Slots(ToolOps(events), n, true)[i];
             1 <= o <= n && ToolOp(events[o - 1]).Open? && Answer(ToolOps(events), n + 1, o) == Some(n + 1)
    requires forall j :: 0 <= j < |tools| && j != i ==> Kept(ToolOps(events), n, true, j)
    ensures ToolsAre(events, n + 1, tools[i := tools[i].(answer := Some(n + 1), status := StatusFrom(events[n], Success))])
  {
    var n' := n + 1;
    RecordAnswered(events, n, i, tools[i]);
    forall j | 0 <= j < |tools| && j != i ensures ToolIs(events, n', j, tools[j]) {
      assert Kept(ToolOps(events), n, true, j);
      ToolsKept(events, n, tools, j);
    }
  }

  lemma OrphanValue(events: seq<Event>, n: nat)
    requires n < |events| && ToolOp(events[n]).Close? && OrphanAt(ToolOps(events), n + 1)
    ensures ToolRecordAt(events, n + 1, n + 1) ==
            ToolRecord(n + 1, events[n].tool.value, events[n].correlation, Some(n + 1), StatusFrom(events[n], Unknown))
  {}

  lemma OrphanRecord(events: seq<Event>, n: nat, i: nat)
    requires n < |events| && ToolOp(events[n]).Close? && OrphanAt(ToolOps(events), n + 1)
    requires i < |Slots(ToolOps(events), n + 1, true)| && Slots(ToolOps(events), n + 1, true)[i] == n + 1
    ensures ToolIs(events, n + 1, i, ToolRecordAt(events, n + 1, n + 1))
  {}

  lemma ToolOrphaned(events: seq<Event>, n: nat, tools: seq<ToolRecord>, queues: Queues, orphanSignals: seq<nat>, key: Key)
    requires n < |events| && ToolOp(events[n]) == Close(key) && Queue(queues, key) == []
    requires ToolState(events, n, tools, queues, orphanSignals)
    ensures var orphan := ToolRecord(n + 1, events[n].tool.value, events[n].correlation, Some(n + 1), StatusFrom(events[n], Unknown));
            ToolState(events, n + 1, tools + [orphan], queues, orphanSignals + [n + 1])
  {
    var n' := n + 1;
    IdleStep(ToolOps(events), n, true, queues);
    OrphanValue(events, n);
    OrphanRecord(events, n, |tools|);
    forall i | 0 <= i < |tools| ensures ToolIs(events, n', i, tools[i]) {
      assert Kept(ToolOps(events), n, true, i);
      ToolsKept(events, n, tools, i);
    }
  }

  lemma ToolIdle(events: seq<Event>, n: nat, tools: seq<ToolRecord>, queues: Queues, orphanSignals: seq<nat>)
    requires n < |events| && ToolOp(events[n]).Skip?
    requires ToolState(events, n, tools, queues, orphanSignals)
    ensures ToolState(events, n + 1, tools, queues, orphanSignals)
  {
    var n' := n + 1;
    IdleStep(ToolOps(events), n, true, queues);
    forall i | 0 <= i < |tools| ensures ToolIs(events, n', i, tools[i]) {
      assert Kept(ToolOps(events), n, true, i);
      ToolsKept(events, n, tools, i);
    }
  }

  /** One pass over the events with a first-in first-out queue of open records per key. */
  method NormalizeEvents(events: seq<Event>) returns (evidence: Option<Evidence>)
    ensures evidence == None <==> exists i :: 0 <= i < |events| && Rejected(events[i])
    ensures evidence.Some? ==>
              && ToolsAre(events, |events|, evidence.value.tools)
              && DispatchesAre(events, |events|, evidence.value.dispatches)
              && evidence.value.orphanSignals == OrphanSlots(ToolOps(events), |events|)
  {
    var dispatches: seq<DispatchRecord>, tools: seq<ToolRecord>, orphanSignals: seq<nat> := [], [], [];
    var activeTools: Queues, activeDispatches: Queues := map[], map[];
    for n := 0 to |events|
      invariant forall i :: 0 <= i < n ==> !Rejected(events[i])
      invariant ToolState(events, n, tools, activeTools, orphanSignals)
      invariant DispatchState(events, n, dispatches, activeDispatches)
    {
      var event := events[n];
      if event.Dispatch? {
        ToolIdle(events, n, tools, activeTools, orphanSignals);
        if event.agent in {"search_agent", "trade_agent"} {
          DispatchOpened(events, n, dispatches, activeDispatches);
          var key := Key(Some(event.agent), event.correlation);
          activeDispatches := activeDispatches[key := Queue(activeDispatches, key) + [|dispatches|]];
          dispatches := dispatches + [DispatchRecord(n + 1, event.agent, event.correlation, None)];
        } else {
          DispatchIdle(events, n, dispatches, activeDispatches);
        }
      } else if event.Invoke? {
        if !Named(event.tool) {
          return None;
        }
        DispatchIdle(events, n, dispatches, activeDispatches);
        ToolInvoked(events, n, tools, activeTools, orphanSignals);
        var key := Key(event.tool, event.correlation);
        activeTools := activeTools[key := Queue(activeTools, key) + [|tools|]];
        tools := tools + [ToolRecord(n + 1, event.tool.value, event.correlation, None, Unknown)];
      } else if event.Result? && event.tool == Some("task_dispatch") {
        ToolIdle(events, n, tools, activeTools, orphanSignals);
        var key := Key(Some(event.agent), event.correlation);
        var candidates := Queue(activeDispatches, key);
        if candidates != [] {
          DispatchFinished(events, n, dispatches, activeDispatches, key);
          dispatches := dispatches[candidates[0] := dispatches[candidates[0]].(finished := Some(n + 1))];
          activeDispatches := activeDispatches[key := candidates[1..]];
        } else {
          DispatchIdle(events, n, dispatches, activeDispatches);
        }
      } else if event.Result? && Named(event.tool) {
        DispatchIdle(events, n, dispatches, activeDispatches);
        var key := Key(event.tool, event.correlation);
        var candidates := Queue(activeTools, key);
        if candidates != [] {
          ToolAnswered(events, n, tools, activeTools, orphanSignals, key);
          tools := tools[candidates[0] := tools[candidates[0]].(answer := Some(n + 1), status := StatusFrom(event, Success))];
          activeTools := activeTools[key := candidates[1..]];
        } else {
          ToolOrphaned(events, n, tools, activeTools, orphanSignals, key);
          tools := tools + [ToolRecord(n + 1, event.tool.value, event.correlation, Some(n + 1), StatusFrom(event, Unknown))];
          orphanSignals := orphanSignals + [n + 1];
        }
      } else {
        ToolIdle(events, n, tools, activeTools, orphanSignals);
        DispatchIdle(events, n, dispatches, activeDispatches);
      }
    }
    evidence := Some(Evidence(dispatches, tools, orphanSignals));
  }

  // ---------------------------------------------------------------- the scan-based matcher

  const SEARCH := Some("product_search_tool")

  /** What an event is for the scan; a reply without a platform is one whose arguments were rejected. */
  datatype SearchEvent =
    | Call(platform: Option<string>)
    | Reply(platform: Option<string>)
    | Unrelated

  function SearchEventOf(event: Event): SearchEvent {
    match event
    case Invoke(tool, _, platform) => if tool == SEARCH then Call(platform) else Unrelated
    case Result(tool, _, _, platform, _) => if tool == SEARCH then Reply(platform) else Unrelated
    case _ => Unrelated
  }

  function Searches(events: seq<Event>): (searches: seq<SearchEvent>)
    ensures |searches| == |events| && forall i :: 0 <= i < |events| ==> searches[i] == SearchEventOf(events[i])
  {
    seq(|events|, i requires 0 <= i < |events| => SearchEventOf(events[i]))
  }

  /** An event with its time, as logged. */
  datatype Stamped = Stamped(at: int, event: Event)

  function EventsOf(log: seq<Stamped>): (events: seq<Event>)
    ensures |events| == |log| && forall i :: 0 <= i < |log| ==> events[i] == log[i].event
  {
    seq(|log|, i requires 0 <= i < |log| => log[i].event)
  }

  datatype SearchCall = SearchCall(order: nat, platform: Option<string>, answer: Option<nat>)

  /** Insertion after all events that are not later. */
  function Insert(sorted: seq<Stamped>, event: Stamped): seq<Stamped> {
    if sorted == [] || sorted[|sorted| - 1].at <= event.at then sorted + [event]
    else Insert(sorted[..|sorted| - 1], event) + [sorted[|sorted| - 1]]
  }

  function ByTime(log: seq<Stamped>): seq<Stamped> {
    if log == [] then [] else Insert(ByTime(log[..|log| - 1]), log[|log| - 1])
  }

  ghost predicate TimeOrdered(log: seq<Stamped>) {
    forall i, j :: 0 <= i < j < |log| ==> log[i].at <= log[j].at
  }

  /** The events of one moment, in order. */
  function At(log: seq<Stamped>, at: int): seq<Stamped> {
    if log == [] then [] else
      At(log[..|log| - 1], at) + (if log[|log| - 1].at == at then [log[|log| - 1]] else [])
  }

  lemma {:induction false} InsertKeepsOrder(sorted: seq<Stamped>, event: Stamped)
    requires TimeOrdered(sorted)
    ensures TimeOrdered(Insert(sorted, event)) && |Insert(sorted, event)| == |sorted| + 1
    ensures forall i :: 0 <= i <= |sorted| ==>
              (Insert(sorted, event)[i].at <= event.at || (sorted != [] && Insert(sorted, event)[i].at <= sorted[|sorted| - 1].at))
  {
    if !(sorted == [] || sorted[|sorted| - 1].at <= event.at) {
      InsertKeepsOrder(sorted[..|sorted| - 1], event);
    }
  }

  lemma {:induction false} InsertAddsOne(sorted: seq<Stamped>, event: Stamped)
    ensures multiset(Insert(sorted, event)) == multiset(sorted) + multiset{event}
  {
    if !(sorted == [] || sorted[|sorted| - 1].at <= event.at) {
      InsertAddsOne(sorted[..|sorted| - 1], event);
      assert sorted == sorted[..|sorted| - 1] + [sorted[|sorted| - 1]];
    }
  }

  lemma AtOfOneMore(log: seq<Stamped>, event: Stamped, at: int)
    ensures At(log + [event], at) == At(log, at) + (if event.at == at then [event] else [])
  {
    assert (log + [event])[..|log|] == log;
  }

  lemma {:induction false} InsertIsStable(sorted: seq<Stamped>, event: Stamped, at: int)
    ensures At(Insert(sorted, event), at) == At(sorted, at) + (if event.at == at then [event] else [])
  {
    if sorted == [] || sorted[|sorted| - 1].at <= event.at {
      AtOfOneMore(sorted, event, at);
    } else {
      var front, last := sorted[..|sorted| - 1], sorted[|sorted| - 1];
      InsertIsStable(front, event, at);
      AtOfOneMore(Insert(front, event), last, at);
    }
  }

  lemma {:induction false} ByTimeIsOrdered(log: seq<Stamped>)
    ensures TimeOrdered(ByTime(log)) && |ByTime(log)| == |log|
  {
    if log != [] {
      ByTimeIsOrdered(log[..|log| - 1]);
      InsertKeepsOrder(ByTime(log[..|log| - 1]), log[|log| - 1]);
    }
  }

  lemma {:induction false} ByTimeIsPermutation(log: seq<Stamped>)
    ensures multiset(ByTime(log)) == multiset(log)
  {
    if log != [] {
      ByTimeIsPermutation(log[..|log| - 1]);
      InsertAddsOne(ByTime(log[..|log| - 1]), log[|log| - 1]);
      assert log == log[..|log| - 1] + [log[|log| - 1]];
    }
  }

  lemma {:induction false} ByTimeKeepsMoments(log: seq<Stamped>, at: int)
    ensures At(ByTime(log), at) == At(log, at)
  {
    if log != [] {
      ByTimeKeepsMoments(log[..|log| - 1], at);
      InsertIsStable(ByTime(log[..|log| - 1]), log[|log| - 1], at);
    }
  }

  /** Sorting by time gives an ordered permutation in which events of one moment keep their order. */
  lemma ByTimeIsStableSort(log: seq<Stamped>)
    ensures TimeOrdered(ByTime(log)) && |ByTime(log)| == |log|
    ensures multiset(ByTime(log)) == multiset(log)
    ensures forall at :: At(ByTime(log), at) == At(log, at)
  {
    ByTimeIsOrdered(log);
    ByTimeIsPermutation(log);
    forall at ensures At(ByTime(log), at) == At(log, at) {
      ByTimeKeepsMoments(log, at);
    }
  }

  lemma {:induction false} ByTimeKeepsOrderedStreams(log: seq<Stamped>)
    requires TimeOrdered(log)
    ensures ByTime(log) == log
  {
    if log != [] {
      ByTimeKeepsOrderedStreams(log[..|log| - 1]);
    }
  }

  predicate Waits(call: SearchCall, platform: string) { call.answer == None && call.platform == Some(platform) }

  /** The first unanswered call of a platform, or the number of calls. */
  function FirstWaiting(calls: seq<SearchCall>, platform: string): (i: nat)
    ensures i <= |calls| && (i < |calls| ==> Waits(calls[i], platform))
    ensures forall j :: 0 <= j < i ==> !Waits(calls[j], platform)
  {
    if calls == [] || Waits(calls[0], platform) then 0
    else
      assert forall j :: 1 <= j < |calls| ==> calls[j] == calls[1..][j - 1];
      1 + FirstWaiting(calls[1..], platform)
  }

  /** The last unanswered call, or -1. */
  function LastUnanswered(calls: seq<SearchCall>): (i: int)
    ensures -1 <= i < |calls| && (i >= 0 ==> calls[i].answer == None)
    ensures forall j :: i < j < |calls| ==> calls[j].answer.Some?
  {
    if calls == [] then -1
    else if calls[|calls| - 1].answer == None then |calls| - 1
    else LastUnanswered(calls[..|calls| - 1])
  }

  /** The call a reply goes to, or -1: the first open one of its platform, or without a platform the last
      open one. */
  function Target(calls: seq<SearchCall>, platform: Option<string>): (i: int)
    ensures -1 <= i < |calls| && (i >= 0 ==> calls[i].answer == None)
  {
    match platform
    case Some(p) => var i := FirstWaiting(calls, p); if i < |calls| then i else -1
    case None => LastUnanswered(calls)
  }

  /** The calls after n events. */
  function ScanCalls(searches: seq<SearchEvent>, n: nat): seq<SearchCall>
    requires n <= |searches|
  {
    if n == 0 then [] else
      var calls := ScanCalls(searches, n - 1);
      match searches[n - 1]
      case Call(platform) => calls + [SearchCall(n, platform, None)]
      case Unrelated => calls
      case Reply(platform) =>
        var i := Target(calls, platform);
        if i >= 0 then calls[i := calls[i].(answer := Some(n))] else calls
  }

  method ProductSearchCalls(log: seq<Stamped>) returns (calls: seq<SearchCall>)
    ensures calls == ScanCalls(Searches(EventsOf(ByTime(log))), |ByTime(log)|)
  {
    var searches := Searches(EventsOf(ByTime(log)));
    calls := [];
    for n := 0 to |searches|
      invariant calls == ScanCalls(searches, n)
    {
      var target := -1;
      match searches[n] {
        case Call(platform) =>
          calls := calls + [SearchCall(n + 1, platform, None)];
        case Unrelated =>
        case Reply(Some(platform)) =>
          target := FirstWaiting(calls, platform);
          target := if target < |calls| then target else -1;
        case Reply(None) =>
          target := LastUnanswered(calls);
      }
      if target >= 0 {
        calls := calls[target := calls[target].(answer := Some(n + 1))];
      }
    }
  }

  // ---------------------------------------------------------------- when both compute the same matching

  /** Calls open and replies close something in `ops`, and nothing else shares their keys. */
  ghost predicate Follows(ops: seq<Op>, searches: seq<SearchEvent>) {
    && |ops| == |searches|
    && (forall i :: 0 <= i < |ops| && searches[i].Call? ==> ops[i].Open?)
    && (forall i :: 0 <= i < |ops| && searches[i].Reply? ==> ops[i].Close?)
    && (forall i, j :: 0 <= i < |ops| && 0 <= j < |ops| && searches[i].Unrelated? && !searches[j].Unrelated? && !ops[i].Skip? ==>
          ops[i].key != ops[j].key)
  }

  /** The oldest of the first m events that opened the key and has no answer after n events. */
  function OldestOpen(ops: seq<Op>, n: nat, key: Key, m: nat): (o: Option<nat>)
    requires m <= n <= |ops|
    ensures o.Some? ==> 1 <= o.value <= m && ops[o.value - 1] == Open(key) && Answer(ops, n, o.value) == None
    ensures o.None? ==> forall p :: 1 <= p <= m && ops[p - 1] == Open(key) ==> Answer(ops, n, p).Some?
    ensures o.Some? ==> forall p :: 1 <= p < o.value && ops[p - 1] == Open(key) ==> Answer(ops, n, p).Some?
  {
    if m == 0 then None else
      var before := OldestOpen(ops, n, key, m - 1);
      if before.Some? then before
      else if ops[m - 1] == Open(key) && Answer(ops, n, m) == None then Some(m)
      else None
  }

  /** The front of the queue of a key after n events. */
  function Front(ops: seq<Op>, n: nat, key: Key): Option<nat>
    requires n <= |ops|
  {
    OldestOpen(ops, n, key, n)
  }

  /** A close is answered for exactly the open at the front of its queue. */
  lemma FrontIsMatch(ops: seq<Op>, n: nat, o: nat)
    requires n < |ops| && ops[n].Close? && 1 <= o <= |ops|
    ensures Front(ops, n, ops[n].key) == Some(o) <==> Matches(ops, o, n + 1)
  {
    var key := ops[n].key;
    var front := Front(ops, n, key);
    if Matches(ops, o, n + 1) {
      MatchingIsOneToOne(ops, o, n + 1, o, n + 1);
      AnswerIsMatch(ops, n, o);
      var f := front.value;
      AnswerIsMatch(ops, n, f);
      if f < o {
        RankIsUnique(ops, f, o);
      }
    }
    if front.Some? {
      var f := front.value;
      AnswerIsMatch(ops, n, f);
      CountsGrow(ops, f, n, key);
      var m := EveryPairedCloseHasItsOpen(ops, n + 1);
      AnswerIsMatch(ops, n, m);
      if f < m {
        RankIsUnique(ops, f, m);
      }
      assert m == f;
    }
  }

  /** An open is answered by exactly the close that found it at the front. */
  lemma AnswerIsFront(ops: seq<Op>, n: nat, o: nat, a: nat)
    requires 1 <= o <= n <= |ops| && ops[o - 1].Open?
    ensures Answer(ops, n, o) == Some(a) <==>
            1 <= a <= n && ops[a - 1].Close? && ops[a - 1].key == ops[o - 1].key && Front(ops, a - 1, ops[a - 1].key) == Some(o)
  {
    AnswerIsMatch(ops, n, o);
    if 1 <= a <= n && ops[a - 1].Close? && ops[a - 1].key == ops[o - 1].key {
      FrontIsMatch(ops, a - 1, o);
      if Matches(ops, o, a) {
        MatchIsAnswer(ops, n, o, a);
      }
    }
  }

  /** The order of the call that the scan gives the reply after n events. */
  function ScanTarget(searches: seq<SearchEvent>, n: nat): Option<nat>
    requires n < |searches| && searches[n].Reply?
  {
    var calls := ScanCalls(searches, n);
    var i := Target(calls, searches[n].platform);
    if i >= 0 then Some(calls[i].order) else None
  }

  /** The scan keeps one record per call, in order. */
  lemma {:induction false} CallsInOrder(searches: seq<SearchEvent>, n: nat, i: nat, j: nat)
    requires n <= |searches| && i <= j < |ScanCalls(searches, n)|
    ensures var calls := ScanCalls(searches, n);
            && 1 <= calls[i].order <= n && searches[calls[i].order - 1] == Call(calls[i].platform)
            && (i < j ==> calls[i].order < calls[j].order)
  {
    var before := ScanCalls(searches, n - 1);
    if j < |before| {
      CallsInOrder(searches, n - 1, i, j);
    } else if i < j {
      CallsInOrder(searches, n - 1, i, i);
    }
  }

  lemma {:induction false} EveryCallIsKept(searches: seq<SearchEvent>, n: nat, o: nat) returns (i: nat)
    requires 1 <= o <= n <= |searches| && searches[o - 1].Call?
    ensures i < |ScanCalls(searches, n)| && ScanCalls(searches, n)[i].order == o
  {
    if o < n {
      i := EveryCallIsKept(searches, n - 1, o);
    } else {
      i := |ScanCalls(searches, n - 1)|;
    }
  }

  /** A reply may answer a call that is still open, on the platform the reply names if it names one. */
  predicate MayAnswer(call: SearchCall, platform: Option<string>) {
    call.answer == None && (platform.Some? ==> call.platform == platform)
  }

  /** Of the calls it may answer, a reply that names a platform targets the first and another one the last. */
  lemma ScanTargetTells(searches: seq<SearchEvent>, n: nat, i: nat)
    requires n < |searches| && searches[n].Reply? && i < |ScanCalls(searches, n)|
    ensures var calls, platform := ScanCalls(searches, n), searches[n].platform;
            ScanTarget(searches, n) == Some(calls[i].order) <==>
            && MayAnswer(calls[i], platform)
            && (platform.Some? ==> forall j :: 0 <= j < i ==> !MayAnswer(calls[j], platform))
            && (platform.None? ==> forall j :: i < j < |calls| ==> !MayAnswer(calls[j], platform))
  {
    var calls, platform := ScanCalls(searches, n), searches[n].platform;
    var t := Target(calls, platform);
    if t >= 0 && t != i {
      CallsInOrder(searches, n, if t < i then t else i, if t < i then i else t);
    }
    if platform.Some? {
      assert forall j :: 0 <= j < |calls| ==> (MayAnswer(calls[j], platform) <==> Waits(calls[j], platform.value));
    }
  }

  /** A call is answered by exactly the reply that had it as its target. */
  lemma {:induction false} ScanAnswered(searches: seq<SearchEvent>, n: nat, i: nat, a: nat)
    requires n <= |searches| && i < |ScanCalls(searches, n)|
    ensures var call := ScanCalls(searches, n)[i];
            call.answer == Some(a) <==>
            1 <= a <= n && searches[a - 1].Reply? && ScanTarget(searches, a - 1) == Some(call.order)
  {
    var before := ScanCalls(searches, n - 1);
    if i < |before| {
      ScanAnswered(searches, n - 1, i, a);
      if searches[n - 1].Reply? {
        var t := Target(before, searches[n - 1].platform);
        if t >= 0 && t != i {
          CallsInOrder(searches, n - 1, if t < i then t else i, if t < i then i else t);
        }
        if t == i {
          assert before[i].answer == None;
        }
      }
    } else {
      if 1 <= a <= n && searches[a - 1].Reply? && ScanTarget(searches, a - 1).Some? {
        var calls := ScanCalls(searches, a - 1);
        var t := Target(calls, searches[a - 1].platform);
        CallsInOrder(searches, a - 1, t, t);
      }
    }
  }

  /** After n events every call has the same answer in both pairings. */
  ghost predicate Agree(ops: seq<Op>, searches: seq<SearchEvent>, n: nat)
    requires |ops| == |searches| && n <= |ops|
  {
    forall i :: 0 <= i < |ScanCalls(searches, n)| ==> AgreeAt(ops, searches, n, i)
  }

  ghost predicate AgreeAt(ops: seq<Op>, searches: seq<SearchEvent>, n: nat, i: nat)
    requires |ops| == |searches| && n <= |ops| && i < |ScanCalls(searches, n)|
  {
    var call := ScanCalls(searches, n)[i];
    1 <= call.order <= n && call.answer == Answer(ops, n, call.order)
  }

  /** The reply after n events goes to the front of its queue, or to no call when the queue is empty. */
  ghost predicate TargetsFront(ops: seq<Op>, searches: seq<SearchEvent>, n: nat)
    requires |ops| == |searches| && n < |ops|
  {
    searches[n].Reply? && ops[n].Close? ==> ScanTarget(searches, n) == Front(ops, n, ops[n].key)
  }

  lemma TargetsMakeAgreement(ops: seq<Op>, searches: seq<SearchEvent>, n: nat, i: nat)
    requires Follows(ops, searches) && n <= |ops| && i < |ScanCalls(searches, n)|
    requires forall m :: 0 <= m < n ==> TargetsFront(ops, searches, m)
    ensures AgreeAt(ops, searches, n, i)
  {
    var call := ScanCalls(searches, n)[i];
    CallsInOrder(searches, n, i, i);
    if call.answer.Some? {
      var a := call.answer.value;
      ScanAnswered(searches, n, i, a);
      assert TargetsFront(ops, searches, a - 1);
      AnswerIsFront(ops, n, call.order, a);
    } else if Answer(ops, n, call.order).Some? {
      var a := Answer(ops, n, call.order).value;
      AnswerIsFront(ops, n, call.order, a);
      assert TargetsFront(ops, searches, a - 1);
      ScanAnswered(searches, n, i, a);
    }
  }

  lemma AgreementMakesTargets(ops: seq<Op>, searches: seq<SearchEvent>, n: nat, m: nat)
    requires Follows(ops, searches) && m < n <= |ops| && Agree(ops, searches, n)
    ensures TargetsFront(ops, searches, m)
  {
    if searches[m].Reply? {
      var target, front := ScanTarget(searches, m), Front(ops, m, ops[m].key);
      if target.Some? {
        var t := Target(ScanCalls(searches, m), searches[m].platform);
        CallsInOrder(searches, m, t, t);
        AgreedTarget(ops, searches, n, m, target.value);
      } else if front.Some? {
        AgreedTarget(ops, searches, n, m, front.value);
      }
    }
  }

  /** Where the answers agree, a call is the target of a reply exactly when it is at the front. */
  lemma AgreedTarget(ops: seq<Op>, searches: seq<SearchEvent>, n: nat, m: nat, o: nat)
    requires Follows(ops, searches) && m < n <= |ops| && Agree(ops, searches, n)
    requires searches[m].Reply? && 1 <= o <= m
    requires searches[o - 1].Call? || ops[o - 1] == Open(ops[m].key)
    ensures ScanTarget(searches, m) == Some(o) ==> Front(ops, m, ops[m].key) == Some(o)
    ensures Front(ops, m, ops[m].key) == Some(o) ==> ScanTarget(searches, m) == Some(o)
  {
    assert searches[o - 1].Call?;
    var i := EveryCallIsKept(searches, n, o);
    assert AgreeAt(ops, searches, n, i);
    ScanAnswered(searches, n, i, m + 1);
    AnswerIsFront(ops, n, o, m + 1);
  }

  /** Both pairings agree on every call exactly when, at each reply, the call the scan targets is the
      front of that reply's queue, or there is neither. */
  lemma AgreeExactlyOnFronts(ops: seq<Op>, searches: seq<SearchEvent>, n: nat)
    requires Follows(ops, searches) && n <= |ops|
    ensures Agree(ops, searches, n) <==> forall m :: 0 <= m < n ==> TargetsFront(ops, searches, m)
  {
    if Agree(ops, searches, n) {
      forall m | 0 <= m < n ensures TargetsFront(ops, searches, m) {
        AgreementMakesTargets(ops, searches, n, m);
      }
    }
    if forall m :: 0 <= m < n ==> TargetsFront(ops, searches, m) {
      forall i | 0 <= i < |ScanCalls(searches, n)| ensures AgreeAt(ops, searches, n, i) {
        TargetsMakeAgreement(ops, searches, n, i);
      }
    }
  }

  /** Every reply names its platform, and calls and replies share a key exactly when they share a
      platform. */
  ghost predicate KeysArePlatforms(ops: seq<Op>, searches: seq<SearchEvent>)
    requires Follows(ops, searches)
  {
    && (forall i :: 0 <= i < |ops| && searches[i].Reply? ==> searches[i].platform.Some?)
    && (forall i, j :: 0 <= i < |ops| && 0 <= j < |ops| && searches[i].Call? && searches[j].Reply? ==>
          (ops[i].key == ops[j].key <==> searches[i].platform == searches[j].platform))
  }

  /** Where both pairings agree so far, the first waiting call of a platform is the front of the queue. */
  lemma FirstWaitingIsFront(ops: seq<Op>, searches: seq<SearchEvent>, n: nat)
    requires Follows(ops, searches) && KeysArePlatforms(ops, searches) && n < |ops| && Agree(ops, searches, n)
    ensures TargetsFront(ops, searches, n)
  {
    if searches[n].Reply? {
      var calls, key, platform := ScanCalls(searches, n), ops[n].key, searches[n].platform.value;
      var first, front := FirstWaiting(calls, platform), Front(ops, n, key);
      if first < |calls| {
        CallsInOrder(searches, n, first, first);
        assert AgreeAt(ops, searches, n, first);
        assert ops[calls[first].order - 1] == Open(key);
      }
      if front.Some? {
        assert searches[front.value - 1].Call?;
        var i := EveryCallIsKept(searches, n, front.value);
        CallsInOrder(searches, n, i, i);
        assert AgreeAt(ops, searches, n, i) && Waits(calls[i], platform);
        CallsInOrder(searches, n, first, i);
      }
    }
  }

  lemma {:induction false} SharedKeysAgree(ops: seq<Op>, searches: seq<SearchEvent>, n: nat)
    requires Follows(ops, searches) && KeysArePlatforms(ops, searches) && n <= |ops|
    ensures Agree(ops, searches, n)
  {
    forall m | 0 <= m < n ensures TargetsFront(ops, searches, m) {
      SharedKeysAgree(ops, searches, m);
      FirstWaitingIsFront(ops, searches, m);
    }
    AgreeExactlyOnFronts(ops, searches, n);
  }

  function PlatformOp(event: SearchEvent): Op {
    match event
    case Call(platform) => Open(Key(platform, ""))
    case Reply(platform) => Close(Key(platform, ""))
    case Unrelated => Skip
  }

  function PlatformOps(searches: seq<SearchEvent>): (ops: seq<Op>)
    ensures |ops| == |searches| && forall i :: 0 <= i < |ops| ==> ops[i] == PlatformOp(searches[i])
  {
    seq(|searches|, i requires 0 <= i < |searches| => PlatformOp(searches[i]))
  }

  /** On a stream whose replies all name their platform the scan is the first-in first-out pairing of each
      platform. */
  lemma ScanIsFifo(searches: seq<SearchEvent>)
    requires forall i :: 0 <= i < |searches| && searches[i].Reply? ==> searches[i].platform.Some?
    ensures Agree(PlatformOps(searches), searches, |searches|)
  {
    SharedKeysAgree(PlatformOps(searches), searches, |searches|);
  }

  /** The scan of a log and the records of `_normalize_events` give every search call the same answer. */
  ghost predicate LogAgrees(log: seq<Stamped>) {
    var events := EventsOf(log);
    |ByTime(log)| == |log| && Agree(ToolOps(events), Searches(EventsOf(ByTime(log))), |log|)
  }

  /** Each reply of the search tool finds its scan target at the front of the queue of its tool and
      correlation id, or finds neither. */
  ghost predicate RepliesFindFronts(events: seq<Event>) {
    forall m :: 0 <= m < |events| ==> TargetsFront(ToolOps(events), Searches(events), m)
  }

  /** Every search reply names its platform, and a call and a reply share their correlation id exactly when
      they share their platform; events of other tools are free. */
  ghost predicate CorrelatedByPlatform(events: seq<Event>) {
    && (forall i :: 0 <= i < |events| && Searches(events)[i].Reply? ==> events[i].platform.Some?)
    && (forall i, j :: 0 <= i < |events| && 0 <= j < |events| && Searches(events)[i].Call? && Searches(events)[j].Reply? ==>
          (events[i].correlation == events[j].correlation <==> events[i].platform == events[j].platform))
  }

  lemma ToolsFollowSearches(events: seq<Event>)
    ensures Follows(ToolOps(events), Searches(events))
    ensures CorrelatedByPlatform(events) ==> KeysArePlatforms(ToolOps(events), Searches(events))
  {}

  /** On a time-ordered log both agree on every call exactly when every reply finds its target at the
      front of its queue. */
  lemma LogAgreesExactly(log: seq<Stamped>)
    requires TimeOrdered(log)
    ensures LogAgrees(log) <==> RepliesFindFronts(EventsOf(log))
  {
    ByTimeKeepsOrderedStreams(log);
    ToolsFollowSearches(EventsOf(log));
    AgreeExactlyOnFronts(ToolOps(EventsOf(log)), Searches(EventsOf(log)), |log|);
  }

  /** The queue-per-key pairing and the scan compute the same matching on every time-ordered log whose
      search results carry the key, whatever other tools do in between. */
  lemma QueueAndScanAgree(log: seq<Stamped>)
    requires TimeOrdered(log) && CorrelatedByPlatform(EventsOf(log))
    ensures LogAgrees(log)
  {
    ByTimeKeepsOrderedStreams(log);
    ToolsFollowSearches(EventsOf(log));
    SharedKeysAgree(ToolOps(EventsOf(log)), Searches(EventsOf(log)), |log|);
  }

  function SearchInvoke(correlation: string, platform: string): Event { Invoke(SEARCH, correlation, Some(platform)) }

  function SearchResult(correlation: string, platform: Option<string>): Event {
    Result(SEARCH, "search_agent", correlation, platform, None)
  }

  /** Two dispatches to one platform, answered in the other order: the scan gives the first reply to the
      first call, the queues to the call with its correlation id. */
  lemma CrossedRepliesDiffer(events: seq<Event>, platform: string)
    requires events == [SearchInvoke("1", platform), SearchInvoke("2", platform), SearchResult("2", Some(platform))]
    ensures ScanTarget(Searches(events), 2) == Some(1) && Front(ToolOps(events), 2, ToolOps(events)[2].key) == Some(2)
    ensures !RepliesFindFronts(events)
  {
    TwoOpenCalls(events, platform, platform);
    assert !TargetsFront(ToolOps(events), Searches(events), 2);
  }

  /** A reply whose arguments were rejected names no platform: the scan gives it to the last open call, the
      queues to the call with its correlation id. */
  lemma RejectedArgumentsDiffer(events: seq<Event>, platform: string, other: string)
    requires events == [SearchInvoke("1", platform), SearchInvoke("2", other), SearchResult("1", None)]
    ensures ScanTarget(Searches(events), 2) == Some(2) && Front(ToolOps(events), 2, ToolOps(events)[2].key) == Some(1)
    ensures !RepliesFindFronts(events)
  {
    TwoOpenCalls(events, platform, other);
    assert !TargetsFront(ToolOps(events), Searches(events), 2);
  }

  lemma TwoOpenCalls(events: seq<Event>, first: string, second: string)
    requires |events| == 3 && events[0] == SearchInvoke("1", first) && events[1] == SearchInvoke("2", second)
    ensures ScanCalls(Searches(events), 2) == [SearchCall(1, Some(first), None), SearchCall(2, Some(second), None)]
    ensures Front(ToolOps(events), 2, Key(SEARCH, "1")) == Some(1) && Front(ToolOps(events), 2, Key(SEARCH, "2")) == Some(2)
  {
    var searches, ops := Searches(events), ToolOps(events);
    assert ScanCalls(searches, 0) == [] && ScanCalls(searches, 1) == [SearchCall(1, Some(first), None)];
    assert Key(SEARCH, "1") != Key(SEARCH, "2") by {
      assert "1"[0] != "2"[0];
    }
    assert Answer(ops, 2, 2) == None && Answer(ops, 2, 1) == None;
    var _ := OldestOpen(ops, 2, Key(SEARCH, "1"), 1);
    var _ := OldestOpen(ops, 2, Key(SEARCH, "2"), 1);
  }
}
