/**
 * `LongRequestQueue`: requests that may need to be reissued.  Each entry
 * carries the time it was last issued, the timeout to hold before the next
 * attempt and the attempts left; every tick reissues the entries whose
 * timeout has passed, drops the ones without attempts, and reports the
 * shortest wait before the next timeout.  The request handler is modelled by
 * the trace of calls it receives.
 */
module LongRequestQueue {
  import Vector

  datatype UpdateResult = Invoke | NoInvoke | Expired

  /** `LongRequest`: a request with its timing; stored by value in the queue. */
  datatype LongRequest<R> = LongRequest(request: R, startTime: nat, timeout: nat, nReattemptsLeft: nat)

  /** What `tryUpdateUseAllAttempts` returns, the entry it leaves and its `aNextTimeout`. */
  datatype Update<R> = Update(result: UpdateResult, entry: LongRequest<R>, nextTimeout: nat)

  /**
   * `tryUpdateUseAllAttempts(now, nextTimeout)`: expires an entry without
   * attempts, reissues one whose timeout has passed strictly, and otherwise
   * reports the time left.
   */
  function TryUpdateUseAllAttempts<R>(e: LongRequest<R>, now: nat): (u: Update<R>)
    ensures u.result == Expired <==> e.nReattemptsLeft == 0
    ensures u.result == Invoke <==> e.nReattemptsLeft > 0 && now > e.startTime + e.timeout
    ensures u.result != Invoke ==> u.entry == e
    ensures u.result == Invoke ==>
      u.entry == e.(startTime := now, nReattemptsLeft := e.nReattemptsLeft - 1) && u.nextTimeout == e.timeout
    ensures u.result == Expired ==> u.nextTimeout == 0
    ensures u.result == NoInvoke ==> u.nextTimeout + now == e.startTime + e.timeout
  {
    if e.nReattemptsLeft == 0 then
      Update(Expired, e, 0)
    else if now > e.startTime + e.timeout then
      Update(Invoke, e.(nReattemptsLeft := e.nReattemptsLeft - 1, startTime := now), e.timeout)
    else
      Update(NoInvoke, e, e.startTime + e.timeout - now)
  }

  /** The entry and the number of reissues after one step per tick of `times`. */
  function Replay<R>(e: LongRequest<R>, times: seq<nat>): (LongRequest<R>, nat)
    decreases |times|
  {
    if times == [] then (e, 0)
    else
      var u := TryUpdateUseAllAttempts(e, times[0]);
      var (last, invokes) := Replay(u.entry, times[1..]);
      (last, invokes + if u.result == Invoke then 1 else 0)
  }

  /**
   * The "not-less, use all attempts" policy over any series of ticks: every
   * reissue spends one attempt, so the reissues and the attempts left add up
   * to the attempts the request started with; the request and its timeout
   * stay, and its issue time never goes backwards.
   */
  lemma {:induction false} ReplaySpendsOneAttemptPerReissue<R>(e: LongRequest<R>, times: seq<nat>)
    ensures Replay(e, times).1 + Replay(e, times).0.nReattemptsLeft == e.nReattemptsLeft
    ensures Replay(e, times).0.request == e.request && Replay(e, times).0.timeout == e.timeout
    ensures Replay(e, times).0.startTime >= e.startTime
    decreases |times|
  {
    if times != [] {
      var u := TryUpdateUseAllAttempts(e, times[0]);
      ReplaySpendsOneAttemptPerReissue(u.entry, times[1..]);
    }
  }

  /** The calls a request handler receives. */
  datatype Event<R> = RetryEvent(request: R) | ExpiredEvent(request: R)

  /** `RequestHandler`: records `retryRequest` and `onRequestExpired` in call order. */
  class RequestHandler<R> {
    var events: seq<Event<R>>

    constructor ()
      ensures events == []
    {
      events := [];
    }

    method RetryRequest(request: R)
      modifies this
      ensures events == old(events) + [RetryEvent(request)]
    {
      events := events + [RetryEvent(request)];
    }

    method OnRequestExpired(request: R)
      modifies this
      ensures events == old(events) + [ExpiredEvent(request)]
    {
      events := events + [ExpiredEvent(request)];
    }
  }

  /** The running minimum of `onTick`: 0 means none yet, and later zeros are skipped. */
  function Combine(minNextTimeout: nat, nextTimeout: nat): nat
  {
    if minNextTimeout == 0 then nextTimeout
    else if nextTimeout > 0 && nextTimeout < minNextTimeout then nextTimeout
    else minNextTimeout
  }

  /**
   * One update of the running minimum keeps the smaller positive of the two
   * values, and stays 0 only while both are 0.
   */
  lemma CombineKeepsSmallerPositive(minNextTimeout: nat, nextTimeout: nat)
    ensures var r := Combine(minNextTimeout, nextTimeout);
      && (r == minNextTimeout || r == nextTimeout)
      && (r == 0 <==> minNextTimeout == 0 && nextTimeout == 0)
      && (minNextTimeout > 0 ==> r <= minNextTimeout)
      && (nextTimeout > 0 ==> r <= nextTimeout)
  {
  }

  /** What stays of `e` after one step: nothing if it expired, the updated entry otherwise. */
  function StepSurvivor<R>(e: LongRequest<R>, now: nat): seq<LongRequest<R>>
  {
    var u := TryUpdateUseAllAttempts(e, now);
    if u.result == Expired then [] else [u.entry]
  }

  /** The handler call one step of `e` makes, if any. */
  function StepEvents<R>(e: LongRequest<R>, now: nat): seq<Event<R>>
  {
    match TryUpdateUseAllAttempts(e, now).result
    case Invoke => [RetryEvent(e.request)]
    case Expired => [ExpiredEvent(e.request)]
    case NoInvoke => []
  }

  /** The entries that stay after visiting `visited` in that order. */
  function Survivors<R>(visited: seq<LongRequest<R>>, now: nat): seq<LongRequest<R>>
  {
    if visited == [] then []
    else Survivors(visited[..|visited| - 1], now) + StepSurvivor(visited[|visited| - 1], now)
  }

  /** The handler calls made while visiting `visited` in that order. */
  function Events<R>(visited: seq<LongRequest<R>>, now: nat): seq<Event<R>>
  {
    if visited == [] then []
    else Events(visited[..|visited| - 1], now) + StepEvents(visited[|visited| - 1], now)
  }

  /**
   * The value `onTick` accumulates over `visited`: the smallest positive next
   * timeout among them, or 0 when there is none.
   */
  function MinNextTimeout<R>(visited: seq<LongRequest<R>>, now: nat): nat
  {
    if visited == [] then 0
    else Combine(MinNextTimeout(visited[..|visited| - 1], now), TryUpdateUseAllAttempts(visited[|visited| - 1], now).nextTimeout)
  }

  /**
   * What `onTick` returns over the entries it visits: 0 when no step
   * reports a positive wait, and otherwise the smallest positive wait
   * reported.
   */
  lemma {:induction false} MinNextTimeoutIsSmallestPositive<R>(visited: seq<LongRequest<R>>, now: nat)
    ensures var m := MinNextTimeout(visited, now);
      && (m == 0 <==> forall k :: 0 <= k < |visited| ==> TryUpdateUseAllAttempts(visited[k], now).nextTimeout == 0)
      && (m > 0 ==> exists k :: 0 <= k < |visited| && TryUpdateUseAllAttempts(visited[k], now).nextTimeout == m)
      && (forall k :: 0 <= k < |visited| && TryUpdateUseAllAttempts(visited[k], now).nextTimeout > 0 ==>
            m <= TryUpdateUseAllAttempts(visited[k], now).nextTimeout)
  {
    if visited != [] {
      var prefix := visited[..|visited| - 1];
      MinNextTimeoutIsSmallestPositive(prefix, now);
      assert forall k :: 0 <= k < |prefix| ==> prefix[k] == visited[k];
    }
  }

  /** Visiting one more entry extends the survivors, the calls and the running minimum by that entry's step. */
  lemma VisitOne<R>(visited: seq<LongRequest<R>>, e: LongRequest<R>, now: nat)
    ensures Survivors(visited + [e], now) == Survivors(visited, now) + StepSurvivor(e, now)
    ensures Events(visited + [e], now) == Events(visited, now) + StepEvents(e, now)
    ensures MinNextTimeout(visited + [e], now) == Combine(MinNextTimeout(visited, now), TryUpdateUseAllAttempts(e, now).nextTimeout)
  {
    assert (visited + [e])[..|visited|] == visited;
  }

  /** The swap-erase at `i` keeps the prefix before `i` and drops `v[i]` from the rest. */
  lemma SwapEraseTail<T>(v: seq<T>, i: nat)
    requires i < |v|
    ensures Vector.SwapEraseAt(v, i)[..i] == v[..i]
    ensures multiset(Vector.SwapEraseAt(v, i)[i..]) + multiset{v[i]} == multiset(v[i..])
  {
    var w := Vector.SwapEraseAt(v, i);
    var last := |v| - 1;
    assert w[..i] == v[..i];
    if i < last {
      assert w[i..] == [v[last]] + v[i + 1..last];
      assert v[i..] == [v[i]] + v[i + 1..last] + [v[last]];
    } else {
      assert w[i..] == [];
      assert v[i..] == [v[i]];
    }
  }

  /**
   * The entries after the `onTick` loop body at index `i`: an expired entry
   * is swap-erased, any other is replaced in place by its updated self.
   */
  function AfterVisit<R>(v: seq<LongRequest<R>>, i: nat, now: nat): seq<LongRequest<R>>
    requires i < |v|
  {
    var u := TryUpdateUseAllAttempts(v[i], now);
    if u.result == Expired then Vector.SwapEraseAt(v, i) else v[i := u.entry]
  }

  /** `w` is what the `onTick` loop body at index `i` leaves of `v`. */
  ghost predicate VisitedAt<R>(v: seq<LongRequest<R>>, w: seq<LongRequest<R>>, i: nat, now: nat)
  {
    i < |v| && w == AfterVisit(v, i, now)
  }

  class LongRequestQueue<R> {
    var requests: seq<LongRequest<R>>
    /** Left uninitialised by the C++ constructor; the model starts it at `null`. */
    var requestHandler: RequestHandler?<R>

    constructor ()
      ensures requests == [] && requestHandler == null
    {
      requests := [];
      requestHandler := null;
    }

    function Size(): (n: nat)
      reads this
      ensures n == |requests|
    {
      |requests|
    }

    /** `push(request, timeout, nAttempts, now)`: appends the entry and tells the handler to issue it. */
    method Push(request: R, timeout: nat, nAttempts: nat, now: nat)
      modifies this, requestHandler
      ensures requests == old(requests) + [LongRequest(request, now, timeout, nAttempts)]
      ensures requestHandler == old(requestHandler)
      ensures requestHandler != null ==> requestHandler.events == old(requestHandler.events) + [RetryEvent(request)]
    {
      requests := requests + [LongRequest(request, now, timeout, nAttempts)];
      if requestHandler != null {
        requestHandler.RetryRequest(requests[|requests| - 1].request);
      }
    }

    /** `removeIf(matches)`: keeps exactly the entries whose request does not match. */
    method RemoveIf(matches: R -> bool)
      modifies this
      ensures requestHandler == old(requestHandler)
      ensures forall k :: 0 <= k < |requests| ==> !matches(requests[k].request)
      ensures Vector.KeepsExactlyUnmatched(old(requests), requests, (e: LongRequest<R>) => matches(e.request))
    {
      var removed;
      requests, removed := Vector.SwapEraseIf(requests, (e: LongRequest<R>) => matches(e.request));
    }

    method SetRequestHandler(handler: RequestHandler<R>)
      modifies this
      ensures requestHandler == handler && requests == old(requests)
    {
      requestHandler := handler;
    }

    /**
     * One pass of the `onTick` loop body at index `i`: steps the entry, tells
     * the handler, and either keeps the entry updated and moves on or
     * swap-erases it and stays at `i`.
     */
    method Visit(handler: RequestHandler<R>, i: nat, now: nat) returns (next: nat, nextTimeout: nat)
      requires i < |requests|
      modifies this, handler
      ensures requestHandler == old(requestHandler)
      ensures nextTimeout == TryUpdateUseAllAttempts(old(requests[i]), now).nextTimeout
      ensures next <= |requests| && |requests| - next < old(|requests|) - i
      ensures requests[..next] == old(requests[..i]) + StepSurvivor(old(requests[i]), now)
      ensures multiset(requests[next..]) + multiset{old(requests[i])} == multiset(old(requests[i..]))
      ensures handler.events == old(handler.events) + StepEvents(old(requests[i]), now)
      ensures next == if TryUpdateUseAllAttempts(old(requests[i]), now).result == Expired then i else i + 1
      ensures VisitedAt(old(requests), requests, i, now)
    {
      var u := TryUpdateUseAllAttempts(requests[i], now);
      nextTimeout := u.nextTimeout;
      assert requests[i..] == [requests[i]] + requests[i + 1..];
      if u.result == Invoke {
        ghost var before := requests;
        requests := requests[i := u.entry];
        handler.RetryRequest(requests[i].request);
        assert requests[..i + 1] == before[..i] + [u.entry];
        assert requests[i + 1..] == before[i + 1..];
        next := i + 1;
      } else if u.result == Expired {
        handler.OnRequestExpired(requests[i].request);
        SwapEraseTail(requests, i);
        requests := Vector.SwapEraseAt(requests, i);
        next := i;
      } else {
        assert requests[..i + 1] == requests[..i] + [requests[i]];
        next := i + 1;
      }
    }

    /**
     * `onTick(now)`: with a handler and a non-empty queue, steps every entry
     * once, in the order `visitOrder` (a permutation of the entries, set by
     * the swap-erase); expired entries are reported and dropped, reissued
     * ones are reported and kept updated.  The result is the shortest
     * positive wait before the next timeout, or 0.
     */
    method OnTick(now: nat) returns (minNextTimeout: nat, ghost visitOrder: seq<LongRequest<R>>)
      modifies this, requestHandler
      ensures requestHandler == old(requestHandler)
      ensures old(|requests|) == 0 || requestHandler == null ==>
        minNextTimeout == 0 && requests == old(requests) && visitOrder == []
      ensures requestHandler != null ==> multiset(visitOrder) == multiset(old(requests))
      ensures requestHandler != null ==> requests == Survivors(visitOrder, now)
      ensures requestHandler != null ==> requestHandler.events == old(requestHandler.events) + Events(visitOrder, now)
      ensures minNextTimeout == MinNextTimeout(visitOrder, now)
    {
      minNextTimeout := 0;
      visitOrder := [];
      if |requests| > 0 && requestHandler != null {
        minNextTimeout, visitOrder := VisitAll(requestHandler, now);
      }
    }

    /** The `onTick` loop with a handler: every entry is visited once, in the order `visitOrder`. */
    method VisitAll(handler: RequestHandler<R>, now: nat) returns (minNextTimeout: nat, ghost visitOrder: seq<LongRequest<R>>)
      requires requestHandler == handler
      modifies this, handler
      ensures requestHandler == handler
      ensures multiset(visitOrder) == multiset(old(requests))
      ensures requests == Survivors(visitOrder, now)
      ensures handler.events == old(handler.events) + Events(visitOrder, now)
      ensures minNextTimeout == MinNextTimeout(visitOrder, now)
    {
      minNextTimeout := 0;
      visitOrder := [];
      var i := 0;
      while i < |requests|
        invariant requestHandler == handler
        invariant 0 <= i <= |requests|
        invariant requests[..i] == Survivors(visitOrder, now)
        invariant multiset(visitOrder) + multiset(requests[i..]) == multiset(old(requests))
        invariant handler.events == old(handler.events) + Events(visitOrder, now)
        invariant minNextTimeout == MinNextTimeout(visitOrder, now)
        decreases |requests| - i
      {
        ghost var e := requests[i];
        ghost var calls := handler.events;
        VisitOne(visitOrder, e, now);
        var nextTimeout;
        i, nextTimeout := Visit(handler, i, now);
        assert handler.events == calls + StepEvents(e, now);
        assert old(handler.events) + Events(visitOrder + [e], now) == calls + StepEvents(e, now);
        visitOrder := visitOrder + [e];
        minNextTimeout := Combine(minNextTimeout, nextTimeout);
      }
      assert requests[i..] == [];
    }
  }

  /** A visit order that is a permutation of at most one entry is that entry. */
  lemma OnlyVisit<T>(order: seq<T>, s: seq<T>)
    requires multiset(order) == multiset(s) && |s| <= 1
    ensures order == s
  {
    assert |order| == |multiset(order)| == |s|;
    if |s| == 1 {
      assert order[0] in multiset(order);
    }
  }

  /**
   * The "Long request queue" sequence: request 42 pushed at time 0 with a
   * timeout of 1000 and 3 reattempts, then ticks at 900, 1200, 1400, 2300,
   * 3400, 4100, 5100 and 6100.  It is issued at the push and reissued at
   * 1200, 2300 and 3400, expires at 4100, and the queue is then empty.
   */
  method RetryCadence() returns (events: seq<Event<nat>>, waits: seq<nat>, size: nat)
    ensures events == [RetryEvent(42), RetryEvent(42), RetryEvent(42), RetryEvent(42), ExpiredEvent(42)]
    ensures waits == [100, 1000, 800, 1000, 1000, 0, 0, 0]
    ensures size == 0
  {
    var queue := new LongRequestQueue<nat>();
    var handler := new RequestHandler<nat>();
    queue.SetRequestHandler(handler);
    queue.Push(42, 1000, 3, 0);
    var early := CadenceUntilSecondReissue(queue);
    var late := CadenceUntilEmpty(queue);
    waits := early + late;
    events := handler.events;
    size := queue.Size();
  }

  /** The first four ticks of `RetryCadence`: reissues at 1200 and 2300. */
  method CadenceUntilSecondReissue(queue: LongRequestQueue<nat>) returns (waits: seq<nat>)
    requires queue.requests == [LongRequest(42, 0, 1000, 3)] && queue.requestHandler != null
    modifies queue, queue.requestHandler
    ensures queue.requestHandler == old(queue.requestHandler)
    ensures queue.requests == [LongRequest(42, 2300, 1000, 1)]
    ensures queue.requestHandler.events == old(queue.requestHandler.events) + [RetryEvent(42), RetryEvent(42)]
    ensures waits == [100, 1000, 800, 1000]
  {
    var w0 := Tick(queue, 900);
    assert queue.requests == [LongRequest(42, 0, 1000, 3)];
    var w1 := Tick(queue, 1200);
    assert queue.requests == [LongRequest(42, 1200, 1000, 2)];
    var w2 := Tick(queue, 1400);
    var w3 := Tick(queue, 2300);
    waits := [w0, w1, w2, w3];
  }

  /** The last four ticks of `RetryCadence`: a reissue at 3400, the expiry at 4100, then nothing. */
  method CadenceUntilEmpty(queue: LongRequestQueue<nat>) returns (waits: seq<nat>)
    requires queue.requests == [LongRequest(42, 2300, 1000, 1)] && queue.requestHandler != null
    modifies queue, queue.requestHandler
    ensures queue.requestHandler == old(queue.requestHandler)
    ensures queue.requests == []
    ensures queue.requestHandler.events == old(queue.requestHandler.events) + [RetryEvent(42), ExpiredEvent(42)]
    ensures waits == [1000, 0, 0, 0]
  {
    var w4 := Tick(queue, 3400);
    assert queue.requests == [LongRequest(42, 3400, 1000, 0)];
    var w5 := Tick(queue, 4100);
    var w6 := Tick(queue, 5100);
    var w7 := Tick(queue, 6100);
    waits := [w4, w5, w6, w7];
  }

  /** `onTick(now)` on a queue holding at most one entry, with a handler. */
  method Tick<R>(queue: LongRequestQueue<R>, now: nat) returns (wait: nat)
    requires |queue.requests| <= 1 && queue.requestHandler != null
    modifies queue, queue.requestHandler
    ensures queue.requestHandler == old(queue.requestHandler)
    ensures |old(queue.requests)| == 1 ==>
      var e := old(queue.requests[0]);
      && queue.requests == StepSurvivor(e, now)
      && queue.requestHandler.events == old(queue.requestHandler.events) + StepEvents(e, now)
      && wait == TryUpdateUseAllAttempts(e, now).nextTimeout
    ensures |old(queue.requests)| == 0 ==>
      queue.requests == [] && queue.requestHandler.events == old(queue.requestHandler.events) && wait == 0
  {
    ghost var before := queue.requests;
    ghost var order;
    wait, order := queue.OnTick(now);
    OnlyVisit(order, before);
    if |before| == 1 {
      assert order == [] + [before[0]];
    }
  }
}
