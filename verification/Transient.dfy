/**
 Which dependency errors are worth one retry: the walk along an exception's causes, over any finite
 graph of exceptions, and the retry that relies on it.
 */
module Transient {
  import opened Wrappers

  /** What kind of exception an object is, as far as the walk asks. */
  datatype Kind = HttpStatus(code: int) | Timeout | Connect | OtherKind

  type Id = nat

  /** An exception object with its explicit cause and its context. */
  datatype Error = Error(kind: Kind, cause: Option<Id>, context: Option<Id>)

  /** The exception objects by identity; links may form cycles. */
  type Graph = map<Id, Error>

  const RETRYABLE_CODES := {429, 502, 503, 504}

  predicate RetryableKind(kind: Kind) {
    match kind
    case HttpStatus(code) => code in RETRYABLE_CODES
    case Timeout => true
    case Connect => true
    case OtherKind => false
  }

  /** The link that is followed: the cause, or without one the context. */
  function Link(e: Error): Option<Id> { if e.cause.Some? then e.cause else e.context }

  ghost predicate Complete(g: Graph) {
    forall id :: id in g && Link(g[id]).Some? ==> Link(g[id]).value in g
  }

  /** The k-th exception of the followed chain. */
  function Follow(g: Graph, start: Id, k: nat): (at: Option<Id>)
    requires Complete(g) && start in g
    ensures at.Some? ==> at.value in g
  {
    if k == 0 then Some(start)
    else
      var before := Follow(g, start, k - 1);
      if before.Some? then Link(g[before.value]) else None
  }

  ghost predicate RetryableAt(g: Graph, start: Id, k: nat)
    requires Complete(g) && start in g
  {
    Follow(g, start, k).Some? && RetryableKind(g[Follow(g, start, k).value].kind)
  }

  /** Some exception of the followed chain, however far, is of a retryable kind. */
  ghost predicate RetryableChain(g: Graph, start: Id)
    requires Complete(g) && start in g
  {
    exists k: nat :: RetryableAt(g, start, k)
  }

  lemma {:induction false} FollowFromNext(g: Graph, start: Id, k: nat)
    requires Complete(g) && start in g
    ensures Follow(g, start, k + 1) == if Link(g[start]).Some? then Follow(g, Link(g[start]).value, k) else None
  {
    if k > 0 {
      FollowFromNext(g, start, k - 1);
    }
  }

  lemma RetryableFromNext(g: Graph, start: Id, k: nat)
    requires Complete(g) && start in g
    ensures RetryableAt(g, start, k + 1) <==> Link(g[start]).Some? && RetryableAt(g, Link(g[start]).value, k)
  {
    FollowFromNext(g, start, k);
  }

  /** The chain is retryable exactly when its first exception is a 429, 502, 503 or 504 status, a timeout or a
      connection error, or else when the chain of its cause is, or without a cause that of its context. */
  lemma ChainGoesOnAtTheCause(g: Graph, start: Id)
    requires Complete(g) && start in g
    ensures g[start].cause.Some? ==> g[start].cause.value in g
    ensures g[start].cause.None? && g[start].context.Some? ==> g[start].context.value in g
    ensures RetryableChain(g, start) <==>
            var e := g[start];
            || e.kind == HttpStatus(429) || e.kind == HttpStatus(502) || e.kind == HttpStatus(503) || e.kind == HttpStatus(504)
            || e.kind == Timeout || e.kind == Connect
            || (e.cause.Some? && RetryableChain(g, e.cause.value))
            || (e.cause.None? && e.context.Some? && RetryableChain(g, e.context.value))
  {
    var next := Link(g[start]);
    if RetryableChain(g, start) {
      var k: nat :| RetryableAt(g, start, k);
      if k > 0 {
        RetryableFromNext(g, start, k - 1);
        assert next.Some? && RetryableAt(g, next.value, k - 1);
      }
    }
    if RetryableKind(g[start].kind) {
      assert RetryableAt(g, start, 0);
    }
    if next.Some? && RetryableChain(g, next.value) {
      var k: nat :| RetryableAt(g, next.value, k);
      RetryableFromNext(g, start, k);
      assert RetryableAt(g, start, k + 1);
    }
  }

  /** A set that the links never leave. */
  ghost predicate Confined(g: Graph, s: set<Id>) {
    forall id :: id in s ==> id in g && (Link(g[id]).Some? ==> Link(g[id]).value in s)
  }

  lemma {:induction false} ChainStaysConfined(g: Graph, start: Id, s: set<Id>, k: nat)
    requires Complete(g) && start in g && start in s && Confined(g, s)
    ensures Follow(g, start, k).Some? ==> Follow(g, start, k).value in s
  {
    if k > 0 {
      ChainStaysConfined(g, start, s, k - 1);
    }
  }

  /** The walk ends on every finite graph, cycles included, looks at no exception twice, and finds a
      retryable kind exactly when the chain has one. */
  method IsRetryable(g: Graph, error: Id) returns (retryable: bool, ghost seen: set<Id>)
    requires Complete(g) && error in g
    ensures retryable <==> RetryableChain(g, error)
    ensures seen <= g.Keys
  {
    var current := Some(error);
    var visited: set<Id> := {};
    seen := {};
    ghost var k := 0;
    while current.Some? && current.value !in visited
      invariant current == Follow(g, error, k)
      invariant seen == visited <= g.Keys
      invariant forall id :: id in visited ==> !RetryableKind(g[id].kind)
      invariant forall id :: id in visited ==> Link(g[id]).None? || Link(g[id]).value in visited || Link(g[id]) == current
      invariant error in visited || current == Some(error)
      decreases g.Keys - visited
    {
      var e := g[current.value];
      visited := visited + {current.value};
      seen := visited;
      if RetryableKind(e.kind) {
        assert RetryableAt(g, error, k);
        return true, seen;
      }
      current := Link(e);
      k := k + 1;
    }
    assert Confined(g, visited);
    forall m: nat ensures !RetryableAt(g, error, m) {
      ChainStaysConfined(g, error, visited, m);
    }
    return false, seen;
  }

  // ---------------------------------------------------------------- one retry

  /** What one call of the operation does; an interruption is not an ordinary error. */
  datatype Outcome<T> = Value(value: T) | Raises(graph: Graph, error: Id) | Interrupted

  ghost predicate WellFormed<T>(o: Outcome<T>) {
    o.Raises? ==> Complete(o.graph) && o.error in o.graph
  }

  ghost predicate WorthARetry<T>(o: Outcome<T>) {
    WellFormed(o) && o.Raises? && RetryableChain(o.graph, o.error)
  }

  /** Calls the operation a second time exactly when the first call raised a retryable chain, and
      passes on what the last call did. */
  method RetryOnce<T>(operation: nat -> Outcome<T>) returns (outcome: Outcome<T>, calls: nat)
    requires forall i :: WellFormed(operation(i))
    ensures calls == 1 || calls == 2
    ensures outcome == operation(calls - 1)
    ensures calls == 2 <==> WorthARetry(operation(0))
  {
    calls := 0;
    outcome := operation(0);
    while calls < 2
      invariant calls == 0 || calls == 1
      invariant calls == 1 ==> WorthARetry(operation(0))
    {
      outcome := operation(calls);
      calls := calls + 1;
      if !outcome.Raises? || calls == 2 {
        return;
      }
      assert WellFormed(operation(0));
      var retryable, _ := IsRetryable(outcome.graph, outcome.error);
      if !retryable {
        return;
      }
    }
  }
}
