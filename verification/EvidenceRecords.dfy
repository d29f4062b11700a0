/**
 What the normalized evidence says, in terms of the logged events alone.
 */
module EvidenceRecords {
  import opened Wrappers
  import opened EventPairing

  // ---------------------------------------------------------------- tool records

  predicate IsToolResult(e: Event) { e.Result? && Named(e.tool) && e.tool != Some("task_dispatch") }

  predicate AnswersTool(e: Event, tool: string, correlation: string) {
    e.Result? && e.tool == Some(tool) && e.correlation == correlation
  }

  /** A tool record stands for the invoke at its order, or for a result without one; its answer is a later
      result of the same tool and correlation id, or that result itself. */
  lemma ToolRecordTells(events: seq<Event>, tools: seq<ToolRecord>, i: nat)
    requires ToolsAre(events, |events|, tools) && i < |tools|
    ensures 1 <= tools[i].order <= |events|
    ensures var t, e := tools[i], events[tools[i].order - 1];
            && (e.Invoke? || IsToolResult(e))
            && e.tool == Some(t.tool) && t.tool != "" && e.correlation == t.correlation
            && (e.Result? ==> t.answer == Some(t.order))
            && (e.Invoke? && t.answer.Some? ==> t.order < t.answer.value <= |events| && t.tool != "task_dispatch"
                                                && AnswersTool(events[t.answer.value - 1], t.tool, t.correlation))
  {
    var ops, t := ToolOps(events), tools[i];
    assert ToolIs(events, |events|, i, t);
    SlotBounds(ops, |events|, true, i);
    if ToolOp(events[t.order - 1]).Open? && t.answer.Some? {
      AnswerIsMatch(ops, |events|, t.order);
      MatchingIsOneToOne(ops, t.order, t.answer.value, t.order, t.answer.value);
    }
  }

  /** The status of a record: an error exactly when its answer carries one, a success exactly when an invoke
      was answered without one, unknown exactly when an invoke is unanswered or a result without an invoke
      carries no error. */
  lemma ToolStatusTells(events: seq<Event>, tools: seq<ToolRecord>, i: nat)
    requires ToolsAre(events, |events|, tools) && i < |tools|
    ensures 1 <= tools[i].order <= |events| && (tools[i].answer.Some? ==> 1 <= tools[i].answer.value <= |events|)
    ensures var t := tools[i];
            var invoked := events[t.order - 1].Invoke?;
            var failed := t.answer.Some? && events[t.answer.value - 1].Result? && events[t.answer.value - 1].error.Some?;
            && (t.status.Error? <==> failed)
            && (t.status.Success? <==> invoked && t.answer.Some? && !failed)
            && (t.status.Unknown? <==> (invoked && t.answer.None?) || (!invoked && !failed))
  {
    ToolRecordTells(events, tools, i);
    assert ToolIs(events, |events|, i, tools[i]);
  }

  /** Records come in the order of their events. */
  lemma RecordsAscend(events: seq<Event>, tools: seq<ToolRecord>, i: nat, j: nat)
    requires ToolsAre(events, |events|, tools) && i < j < |tools|
    ensures tools[i].order < tools[j].order
  {
    assert ToolIs(events, |events|, i, tools[i]) && ToolIs(events, |events|, j, tools[j]);
    SlotBounds(ToolOps(events), |events|, true, i);
    SlotBounds(ToolOps(events), |events|, true, j);
    SlotsAscend(ToolOps(events), |events|, true, i, j);
  }

  lemma {:induction false} SlotOf(ops: seq<Op>, n: nat, orphans: bool, o: nat) returns (i: nat)
    requires 1 <= o <= n <= |ops| && (ops[o - 1].Open? || (orphans && OrphanAt(ops, o)))
    ensures i < |Slots(ops, n, orphans)| && Slots(ops, n, orphans)[i] == o
  {
    if o < n {
      i := SlotOf(ops, n - 1, orphans, o);
    } else {
      i := |Slots(ops, n - 1, orphans)|;
    }
  }

  /** Every invoke of a named tool has its record. */
  lemma EveryInvokeIsRecorded(events: seq<Event>, tools: seq<ToolRecord>, o: nat) returns (i: nat)
    requires ToolsAre(events, |events|, tools) && 1 <= o <= |events| && events[o - 1].Invoke? && Named(events[o - 1].tool)
    ensures i < |tools| && tools[i].order == o
  {
    i := SlotOf(ToolOps(events), |events|, true, o);
    assert ToolIs(events, |events|, i, tools[i]);
    SlotBounds(ToolOps(events), |events|, true, i);
  }

  /** Every result of a named tool but task_dispatch is the answer of exactly one record. */
  lemma EveryResultIsRecorded(events: seq<Event>, tools: seq<ToolRecord>, a: nat) returns (i: nat)
    requires ToolsAre(events, |events|, tools) && 1 <= a <= |events| && IsToolResult(events[a - 1])
    ensures i < |tools| && tools[i].answer == Some(a)
    ensures forall j :: 0 <= j < |tools| && tools[j].answer == Some(a) ==> j == i
  {
    var ops := ToolOps(events);
    var o := a;
    if PairsAt(ops, a) {
      o := EveryPairedCloseHasItsOpen(ops, a);
      MatchIsAnswer(ops, |events|, o, a);
    }
    i := SlotOf(ops, |events|, true, o);
    assert ToolIs(events, |events|, i, tools[i]);
    SlotBounds(ops, |events|, true, i);
    forall j | 0 <= j < |tools| && tools[j].answer == Some(a) ensures j == i {
      AnsweredOnce(events, tools, i, j, a);
    }
  }

  /** An answer is a matching result, or an orphan that answers itself. */
  lemma AnswerComesFrom(events: seq<Event>, tools: seq<ToolRecord>, i: nat, a: nat)
    requires ToolsAre(events, |events|, tools) && i < |tools| && tools[i].answer == Some(a)
    ensures 1 <= tools[i].order <= |events| && 1 <= a <= |events|
    ensures Matches(ToolOps(events), tools[i].order, a) || (tools[i].order == a && OrphanAt(ToolOps(events), a))
  {
    var ops := ToolOps(events);
    assert ToolIs(events, |events|, i, tools[i]);
    SlotBounds(ops, |events|, true, i);
    if ops[tools[i].order - 1].Open? {
      AnswerIsMatch(ops, |events|, tools[i].order);
    }
  }

  lemma AnsweredOnce(events: seq<Event>, tools: seq<ToolRecord>, i: nat, j: nat, a: nat)
    requires ToolsAre(events, |events|, tools) && i < |tools| && j < |tools|
    requires tools[i].answer == tools[j].answer == Some(a)
    ensures i == j
  {
    var ops, o, p := ToolOps(events), tools[i].order, tools[j].order;
    AnswerComesFrom(events, tools, i, a);
    AnswerComesFrom(events, tools, j, a);
    if Matches(ops, o, a) && Matches(ops, p, a) {
      MatchingIsOneToOne(ops, o, a, p, a);
    }
    assert o == p;
    if i < j {
      RecordsAscend(events, tools, i, j);
    } else if j < i {
      RecordsAscend(events, tools, j, i);
    }
  }

  /** The orphan signals are the orders of the records that stand for a result. */
  lemma {:induction false} OrphanSignalsTell(events: seq<Event>, n: nat, o: nat)
    requires n <= |events|
    ensures o in OrphanSlots(ToolOps(events), n) <==> 1 <= o <= n && OrphanAt(ToolOps(events), o)
  {
    if n > 0 {
      OrphanSignalsTell(events, n - 1, o);
    }
  }

  // ---------------------------------------------------------------- counting events

  function InvokesOf(events: seq<Event>, n: nat, tool: string, correlation: string): nat
    requires n <= |events|
  {
    if n == 0 then 0 else
      var e := events[n - 1];
      InvokesOf(events, n - 1, tool, correlation) +
      (if e.Invoke? && e.tool == Some(tool) && e.correlation == correlation then 1 else 0)
  }

  function ResultsOf(events: seq<Event>, n: nat, tool: string, correlation: string): nat
    requires n <= |events|
  {
    if n == 0 then 0 else
      ResultsOf(events, n - 1, tool, correlation) + (if AnswersTool(events[n - 1], tool, correlation) then 1 else 0)
  }

  lemma {:induction false} CountsOfEvents(events: seq<Event>, n: nat, tool: string, correlation: string)
    requires n <= |events| && tool != "" && tool != "task_dispatch"
    ensures Opened(ToolOps(events), n, Key(Some(tool), correlation)) == InvokesOf(events, n, tool, correlation)
    ensures Closed(ToolOps(events), n, Key(Some(tool), correlation)) == ResultsOf(events, n, tool, correlation)
  {
    if n > 0 {
      CountsOfEvents(events, n - 1, tool, correlation);
    }
  }

  /** How many more results than invokes the first n events hold. */
  function Surplus(events: seq<Event>, n: nat, tool: string, correlation: string): int
    requires n <= |events|
  {
    ResultsOf(events, n, tool, correlation) - InvokesOf(events, n, tool, correlation)
  }

  /** The orphan signals that stand for results of a tool and correlation id. */
  function SignalsOf(events: seq<Event>, signals: seq<nat>, tool: string, correlation: string): nat {
    if signals == [] then 0 else
      var s := signals[|signals| - 1];
      SignalsOf(events, signals[..|signals| - 1], tool, correlation) +
      (if 1 <= s <= |events| && AnswersTool(events[s - 1], tool, correlation) then 1 else 0)
  }

  lemma SignalsOfOneMore(events: seq<Event>, signals: seq<nat>, s: nat, tool: string, correlation: string)
    requires 1 <= s <= |events|
    ensures SignalsOf(events, signals + [s], tool, correlation) ==
            SignalsOf(events, signals, tool, correlation) + (if AnswersTool(events[s - 1], tool, correlation) then 1 else 0)
  {
    assert (signals + [s])[..|signals|] == signals;
  }

  lemma ClosedKey(events: seq<Event>, n: nat, tool: string, correlation: string)
    requires 1 <= n <= |events| && ToolOps(events)[n - 1].Close?
    ensures ToolOps(events)[n - 1].key == Key(Some(tool), correlation) <==> AnswersTool(events[n - 1], tool, correlation)
  {}

  lemma {:induction false} SignalsAreOrphans(events: seq<Event>, n: nat, tool: string, correlation: string)
    requires n <= |events| && tool != "" && tool != "task_dispatch"
    ensures SignalsOf(events, OrphanSlots(ToolOps(events), n), tool, correlation) ==
            Orphaned(ToolOps(events), n, Key(Some(tool), correlation))
  {
    if n > 0 {
      SignalsAreOrphans(events, n - 1, tool, correlation);
      var ops, before := ToolOps(events), OrphanSlots(ToolOps(events), n - 1);
      if OrphanAt(ops, n) {
        SignalsOfOneMore(events, before, n, tool, correlation);
        ClosedKey(events, n, tool, correlation);
      } else {
        assert OrphanSlots(ops, n) == before;
      }
    }
  }

  /** The orphan signals of a tool and correlation id number the largest prefix surplus of its results over its
      invokes, or 0. */
  lemma OrphansOfTool(events: seq<Event>, signals: seq<nat>, tool: string, correlation: string)
    requires signals == OrphanSlots(ToolOps(events), |events|) && tool != "" && tool != "task_dispatch"
    ensures forall n :: 0 <= n <= |events| ==> Surplus(events, n, tool, correlation) <= SignalsOf(events, signals, tool, correlation)
    ensures SignalsOf(events, signals, tool, correlation) == 0 ||
            (exists n :: 0 <= n <= |events| && Surplus(events, n, tool, correlation) == SignalsOf(events, signals, tool, correlation))
  {
    var ops, key := ToolOps(events), Key(Some(tool), correlation);
    OrphanCount(ops, |events|, key);
    SignalsAreOrphans(events, |events|, tool, correlation);
    forall n | 0 <= n <= |events| ensures Excess(ops, n, key) == Surplus(events, n, tool, correlation) {
      CountsOfEvents(events, n, tool, correlation);
    }
    if Orphaned(ops, |events|, key) != 0 {
      var n :| 0 <= n <= |events| && Excess(ops, n, key) == Orphaned(ops, |events|, key);
      assert Surplus(events, n, tool, correlation) == SignalsOf(events, signals, tool, correlation);
    }
  }

  // ---------------------------------------------------------------- dispatch records

  /** A dispatch record stands for the dispatch of a known agent at its order; its finish is a later
      task_dispatch result of the same agent and correlation id. */
  lemma DispatchRecordTells(events: seq<Event>, dispatches: seq<DispatchRecord>, i: nat)
    requires DispatchesAre(events, |events|, dispatches) && i < |dispatches|
    ensures 1 <= dispatches[i].order <= |events|
    ensures var d := dispatches[i];
            && events[d.order - 1] == Dispatch(d.agent, d.correlation) && (d.agent == "search_agent" || d.agent == "trade_agent")
            && (d.finished.Some? ==>
                  && d.order < d.finished.value <= |events|
                  && AnswersTool(events[d.finished.value - 1], "task_dispatch", d.correlation)
                  && events[d.finished.value - 1].agent == d.agent)
  {
    var ops, d := DispatchOps(events), dispatches[i];
    assert DispatchIs(events, |events|, i, d);
    SlotBounds(ops, |events|, false, i);
    if d.finished.Some? {
      AnswerIsMatch(ops, |events|, d.order);
      MatchingIsOneToOne(ops, d.order, d.finished.value, d.order, d.finished.value);
    }
  }

  /** Every dispatch of a known agent has its record. */
  lemma EveryDispatchIsRecorded(events: seq<Event>, dispatches: seq<DispatchRecord>, o: nat) returns (i: nat)
    requires DispatchesAre(events, |events|, dispatches) && 1 <= o <= |events| && events[o - 1].Dispatch?
    requires events[o - 1].agent == "search_agent" || events[o - 1].agent == "trade_agent"
    ensures i < |dispatches| && dispatches[i].order == o
  {
    i := SlotOf(DispatchOps(events), |events|, false, o);
    assert DispatchIs(events, |events|, i, dispatches[i]);
    SlotBounds(DispatchOps(events), |events|, false, i);
  }

  function DispatchesOf(events: seq<Event>, n: nat, agent: string, correlation: string): nat
    requires n <= |events|
  {
    if n == 0 then 0 else
      DispatchesOf(events, n - 1, agent, correlation) + (if events[n - 1] == Dispatch(agent, correlation) then 1 else 0)
  }

  function FinishesOf(events: seq<Event>, n: nat, agent: string, correlation: string): nat
    requires n <= |events|
  {
    if n == 0 then 0 else
      var e := events[n - 1];
      FinishesOf(events, n - 1, agent, correlation) +
      (if AnswersTool(e, "task_dispatch", correlation) && e.agent == agent then 1 else 0)
  }

  lemma {:induction false} CountsOfDispatches(events: seq<Event>, n: nat, agent: string, correlation: string)
    requires n <= |events| && (agent == "search_agent" || agent == "trade_agent")
    ensures Opened(DispatchOps(events), n, Key(Some(agent), correlation)) == DispatchesOf(events, n, agent, correlation)
    ensures Closed(DispatchOps(events), n, Key(Some(agent), correlation)) == FinishesOf(events, n, agent, correlation)
  {
    if n > 0 {
      CountsOfDispatches(events, n - 1, agent, correlation);
    }
  }

  // ---------------------------------------------------------------- search calls

  /** A call of the scan stands for an invoke of the search tool on its platform; its answer is a later result
      of the search tool that names this platform or none. */
  lemma SearchCallTells(events: seq<Event>, i: nat)
    requires i < |ScanCalls(Searches(events), |events|)|
    ensures var call := ScanCalls(Searches(events), |events|)[i];
            && 1 <= call.order <= |events|
            && events[call.order - 1].Invoke? && events[call.order - 1].tool == Some("product_search_tool")
            && events[call.order - 1].platform == call.platform
            && (call.answer.Some? ==>
                  && 1 <= call.answer.value <= |events|
                  && events[call.answer.value - 1].Result? && events[call.answer.value - 1].tool == Some("product_search_tool")
                  && (events[call.answer.value - 1].platform.Some? ==> events[call.answer.value - 1].platform == call.platform))
  {
    var searches, call := Searches(events), ScanCalls(Searches(events), |events|)[i];
    CallsInOrder(searches, |events|, i, i);
    if call.answer.Some? {
      var a := call.answer.value;
      ScanAnswered(searches, |events|, i, a);
      var before := ScanCalls(searches, a - 1);
      var t := Target(before, searches[a - 1].platform);
      CallsInOrder(searches, a - 1, t, t);
    }
  }

  lemma {:induction false} CallOf(searches: seq<SearchEvent>, n: nat, o: nat) returns (i: nat)
    requires 1 <= o <= n <= |searches| && searches[o - 1].Call?
    ensures i < |ScanCalls(searches, n)| && ScanCalls(searches, n)[i].order == o
  {
    if o < n {
      i := CallOf(searches, n - 1, o);
    } else {
      i := |ScanCalls(searches, n - 1)|;
    }
  }

  /** Every invoke of the search tool is a call of the scan. */
  lemma EverySearchIsACall(events: seq<Event>, o: nat) returns (i: nat)
    requires 1 <= o <= |events| && events[o - 1].Invoke? && events[o - 1].tool == Some("product_search_tool")
    ensures i < |ScanCalls(Searches(events), |events|)| && ScanCalls(Searches(events), |events|)[i].order == o
  {
    i := CallOf(Searches(events), |events|, o);
  }
}
