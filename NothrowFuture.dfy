/**
 * `NothrowFuture`: a `Future` registers itself in an instance registry and a
 * `Promise` is nothing but the identifier it was registered under; resolving
 * the promise looks the future up and resolves it if it is still pending.
 *
 * The registry holds, for each future, the record `(state, payload)` that the
 * C++ `Future` keeps in its own fields and reaches through a `Future *`.  The
 * stub semaphore makes every acquire and release a no-op, so waiting returns
 * the current state.
 */
module NothrowFuture {
  import opened Wrappers
  import opened StaticInstanceRegistry

  /** `std::numeric_limits<std::size_t>::max()` on a 64-bit target. */
  const UninitializedPromiseIdentifier: nat := 0xFFFF_FFFF_FFFF_FFFF

  datatype FutureState = Pending | Fulfilled | Failed

  function FutureStateAsString(s: FutureState): (r: string)
    ensures r != "TBD"
    ensures r == "Pending" <==> s == Pending
  {
    match s
    case Pending => "Pending"
    case Fulfilled => "Fulfilled"
    case Failed => "Failed"
  }

  /** Distinct states print as distinct names. */
  lemma FutureStateAsStringInjective(s: FutureState, t: FutureState)
    ensures FutureStateAsString(s) == FutureStateAsString(t) ==> s == t
  {
  }

  datatype FutureRecord<P> = FutureRecord(state: FutureState, payload: P)

  datatype Promise = Promise(identifier: nat)

  /** `Promise()`: a promise that refers to no future. */
  function DefaultPromise(): (p: Promise)
    ensures p.identifier == UninitializedPromiseIdentifier
  {
    Promise(UninitializedPromiseIdentifier)
  }

  /**
   * Every future is registered under an identifier the registry handed out,
   * or under the default promise's: the identifiers a promise can carry.
   */
  ghost predicate PromiseIdentifiersOnly<P>(registry: InstanceRegistry<FutureRecord<P>>)
    reads registry, registry.storage
  {
    forall k :: 0 <= k < |registry.storage.instances| ==>
      IsPromiseIdentifier(registry, registry.storage.instances[k].identifier)
  }

  /** `id` was handed out by the registry, or is the default promise's. */
  predicate IsPromiseIdentifier<P(==)>(registry: InstanceRegistry<FutureRecord<P>>, id: nat)
    reads registry
  {
    id < registry.identifierBoundCounter || id == UninitializedPromiseIdentifier
  }

  /** Resolution of one record: the first writer wins, later ones change nothing. */
  function Resolve<P>(rec: FutureRecord<P>, state: FutureState, payload: P): (r: FutureRecord<P>)
    ensures rec.state == Pending ==> r == FutureRecord(state, payload)
    ensures rec.state != Pending ==> r == rec
  {
    if rec.state == Pending then FutureRecord(state, payload) else rec
  }

  /**
   * The registry after `setPromise(state, payload)` on identifier `id`: the
   * future found under `id` is resolved, every other lookup and every
   * identifier stays as it was.
   */
  function Settled<P>(blocks: seq<ControlBlock<FutureRecord<P>>>, id: nat, state: FutureState, payload: P)
    : (r: seq<ControlBlock<FutureRecord<P>>>)
    ensures |r| == |blocks|
    ensures forall k :: 0 <= k < |r| ==> r[k].identifier == blocks[k].identifier
    ensures Lookup(r, id) == match Lookup(blocks, id)
      case None => None
      case Some(rec) => Some(Resolve(rec, state, payload))
    ensures forall other :: other != id ==> Lookup(r, other) == Lookup(blocks, other)
    ensures Lookup(blocks, id).None? ==> r == blocks
  {
    var i := IndexOf(blocks, id);
    if i < |blocks| then
      var r := blocks[i := ControlBlock(Resolve(blocks[i].stored, state, payload), id)];
      assert IndexOf(r, id) == i by { SameIdentifiersSameIndex(blocks, r, id); }
      assert forall other :: IndexOf(r, other) == IndexOf(blocks, other) by {
        forall other ensures IndexOf(r, other) == IndexOf(blocks, other) {
          SameIdentifiersSameIndex(blocks, r, other);
        }
      }
      r
    else
      blocks
  }

  /** First writer wins: once resolved, a second `setPromise` leaves the registry as it is. */
  lemma SettledTwice<P>(blocks: seq<ControlBlock<FutureRecord<P>>>, id: nat, state: FutureState, payload: P,
                        state2: FutureState, payload2: P)
    requires state != Pending
    ensures var once := Settled(blocks, id, state, payload);
      Settled(once, id, state2, payload2) == once
  {
    var once := Settled(blocks, id, state, payload);
    var i := IndexOf(blocks, id);
    if i < |blocks| {
      SameIdentifiersSameIndex(blocks, once, id);
      assert once[i].stored.state != Pending;
      assert once[i := ControlBlock(Resolve(once[i].stored, state2, payload2), id)] == once;
    }
  }

  /** `IndexOf` depends only on the identifiers. */
  lemma {:induction false} SameIdentifiersSameIndex<S>(a: seq<ControlBlock<S>>, b: seq<ControlBlock<S>>, id: nat)
    requires |a| == |b|
    requires forall k :: 0 <= k < |a| ==> a[k].identifier == b[k].identifier
    ensures IndexOf(a, id) == IndexOf(b, id)
  {
    if a != [] && a[0].identifier != id {
      SameIdentifiersSameIndex(a[1..], b[1..], id);
    }
  }

  /** `canMakeFuture()`: true unless a future is registered under the promise's identifier. */
  method CanMakeFuture<P(==)>(promise: Promise, registry: InstanceRegistry<FutureRecord<P>>) returns (ret: bool)
    ensures ret <==> Lookup(registry.storage.instances, promise.identifier) == None
  {
    var found := registry.WithRegisteredInstanceConst(promise.identifier, (rec: FutureRecord<P>) => false);
    ret := if found.Some? then found.value else true;
  }

  /** `setPromise(state, payload)`: resolves the future registered under the promise's identifier, if any. */
  method SetPromise<P(==)>(promise: Promise, registry: InstanceRegistry<FutureRecord<P>>, state: FutureState, payload: P)
    modifies registry.storage
    ensures registry.storage.instances == Settled(old(registry.storage.instances), promise.identifier, state, payload)
    ensures old(registry.Valid()) ==> registry.Valid()
  {
    registry.WithRegisteredInstance(promise.identifier, (rec: FutureRecord<P>) => Resolve(rec, state, payload));
  }

  /** `fulfill(payload)`. */
  method Fulfill<P(==)>(promise: Promise, registry: InstanceRegistry<FutureRecord<P>>, payload: P)
    modifies registry.storage
    ensures registry.storage.instances == Settled(old(registry.storage.instances), promise.identifier, Fulfilled, payload)
    ensures old(registry.Valid()) ==> registry.Valid()
  {
    SetPromise(promise, registry, Fulfilled, payload);
  }

  /** `fail()`: the payload becomes the default-constructed one, passed here as `defaultPayload`. */
  method Fail<P(==)>(promise: Promise, registry: InstanceRegistry<FutureRecord<P>>, defaultPayload: P)
    modifies registry.storage
    ensures registry.storage.instances == Settled(old(registry.storage.instances), promise.identifier, Failed, defaultPayload)
    ensures old(registry.Valid()) ==> registry.Valid()
  {
    SetPromise(promise, registry, Failed, defaultPayload);
  }

  /**
   * `tryWithFuturePayload(f)`: `f` applied to the payload of the registered
   * future, or `None` (the C++ `false`) when no future carries the identifier.
   */
  method TryWithFuturePayload<P(==), R>(promise: Promise, registry: InstanceRegistry<FutureRecord<P>>, f: P -> R)
    returns (applied: Option<R>)
    ensures applied.None? <==> Lookup(registry.storage.instances, promise.identifier).None?
    ensures applied.Some? ==> applied.value == f(Lookup(registry.storage.instances, promise.identifier).value.payload)
  {
    applied := registry.WithRegisteredInstanceConst(promise.identifier, (rec: FutureRecord<P>) => f(rec.payload));
  }

  /** `tryCloneFuturePayload(payload)`: copies the payload out when the future is registered. */
  method TryCloneFuturePayload<P(==)>(promise: Promise, registry: InstanceRegistry<FutureRecord<P>>, payload0: P)
    returns (res: bool, payload: P)
    ensures res <==> Lookup(registry.storage.instances, promise.identifier).Some?
    ensures payload == if res then Lookup(registry.storage.instances, promise.identifier).value.payload else payload0
  {
    var applied := TryWithFuturePayload(promise, registry, (p: P) => p);
    res := applied.Some?;
    payload := if res then applied.value else payload0;
  }

  /** `tryAcquireFutureState(state)`: reads the state out when the future is registered. */
  method TryAcquireFutureState<P(==)>(promise: Promise, registry: InstanceRegistry<FutureRecord<P>>, state0: FutureState)
    returns (res: bool, state: FutureState)
    ensures res <==> Lookup(registry.storage.instances, promise.identifier).Some?
    ensures state == if res then Lookup(registry.storage.instances, promise.identifier).value.state else state0
  {
    var found := registry.WithRegisteredInstanceConst(promise.identifier, (rec: FutureRecord<P>) => rec.state);
    res := found.Some?;
    state := if res then found.value else state0;
  }

  class Future<P(==)> {
    const promiseIdentifier: nat
    const registry: InstanceRegistry<FutureRecord<P>>

    /** The future is registered, so its record can be found. */
    ghost predicate Live()
      reads this, registry, registry.storage
    {
      Lookup(registry.storage.instances, promiseIdentifier).Some?
    }

    /** The state and payload the C++ object holds in `mState` and `payload`. */
    function Record(): FutureRecord<P>
      reads this, registry, registry.storage
      requires Live()
    {
      Lookup(registry.storage.instances, promiseIdentifier).value
    }

    /** `Future(args...)`: registers a pending record under the next identifier. */
    constructor (registry: InstanceRegistry<FutureRecord<P>>, payload: P)
      requires registry.Valid()
      modifies registry, registry.storage
      ensures this.registry == registry
      ensures promiseIdentifier == old(registry.identifierBoundCounter)
      ensures registry.identifierBoundCounter == promiseIdentifier + 1
      ensures registry.storage.instances
        == old(registry.storage.instances) + [ControlBlock(FutureRecord(Pending, payload), promiseIdentifier)]
      ensures registry.Valid() && Live() && Record() == FutureRecord(Pending, payload)
    {
      var id := registry.RegisterInstance(FutureRecord(Pending, payload));
      this.registry := registry;
      promiseIdentifier := id;
    }

    /**
     * A future registered under a promise's identifier (one the registry
     * handed out earlier, or the default promise's) which no live future
     * holds.  This is what `makeFuture` needs.
     */
    constructor ForPromise(registry: InstanceRegistry<FutureRecord<P>>, promise: Promise, payload: P)
      requires PromiseIdentifiersOnly(registry)
      requires IsPromiseIdentifier(registry, promise.identifier)
      requires Lookup(registry.storage.instances, promise.identifier).None?
      modifies registry.storage
      ensures this.registry == registry && promiseIdentifier == promise.identifier
      ensures registry.storage.instances
        == old(registry.storage.instances) + [ControlBlock(FutureRecord(Pending, payload), promise.identifier)]
      ensures PromiseIdentifiersOnly(registry) && Live() && Record() == FutureRecord(Pending, payload)
      ensures old(registry.Valid()) && promise.identifier < registry.identifierBoundCounter ==> registry.Valid()
    {
      ghost var before := registry.storage.instances;
      registry.storage.StoreInstance(ControlBlock(FutureRecord(Pending, payload), promise.identifier));
      this.registry := registry;
      promiseIdentifier := promise.identifier;
      new;
      assert forall k :: 0 <= k < |before| ==> registry.storage.instances[k] == before[k];
      assert registry.storage.instances[|before|].identifier == promiseIdentifier;
      assert IndexOf(registry.storage.instances, promiseIdentifier) == |before|;
    }

    /** `~Future()`: unregisters the future; lookups under its identifier then miss. */
    method Destroy()
      modifies registry.storage
      ensures Lookup(registry.storage.instances, promiseIdentifier) == None
      ensures forall other :: other != promiseIdentifier ==>
        (Lookup(registry.storage.instances, other).None? <==> Lookup(old(registry.storage.instances), other).None?)
      ensures old(registry.Valid()) ==> registry.Valid()
    {
      registry.UnregisterInstance(promiseIdentifier);
      forall other | other != promiseIdentifier
        ensures Lookup(registry.storage.instances, other).None? <==> Lookup(old(registry.storage.instances), other).None?
      {
        KeptLookup(old(registry.storage.instances), registry.storage.instances, promiseIdentifier, other);
      }
    }

    /** `retrieve(payload)`: the current state and payload, unchanged. */
    method Retrieve() returns (state: FutureState, payload: P)
      requires Live()
      ensures FutureRecord(state, payload) == Record()
    {
      var found := registry.WithRegisteredInstanceConst(promiseIdentifier, (rec: FutureRecord<P>) => rec);
      state, payload := found.value.state, found.value.payload;
    }

    /** `wait(payload)`: with the stub semaphore it does not block and returns what `retrieve` does. */
    method WaitPayload() returns (state: FutureState, payload: P)
      requires Live()
      ensures FutureRecord(state, payload) == Record()
    {
      state, payload := Retrieve();
    }

    /** `wait()` and `tryWaitFor(time)`: with the stub semaphore, the current state. */
    method Wait() returns (state: FutureState)
      requires Live()
      ensures state == Record().state
    {
      var payload;
      state, payload := Retrieve();
    }

    function Ready(): (r: bool)
      reads this, registry, registry.storage
      requires Live()
      ensures r <==> Record().state != Pending
    {
      State() != Pending
    }

    function State(): (s: FutureState)
      reads this, registry, registry.storage
      requires Live()
      ensures s == Record().state
    {
      Record().state
    }

    /** `identifier()`: the identifier under which a live future's record is found. */
    function Identifier(): (id: nat)
      reads this, registry, registry.storage
      ensures Live() ==> Lookup(registry.storage.instances, id) == Some(Record())
    {
      promiseIdentifier
    }

    /** `makePromise()`: a promise that reaches this future. */
    function MakePromise(): (p: Promise)
      reads this, registry, registry.storage
      ensures p.identifier == promiseIdentifier
      ensures Live() ==> Lookup(registry.storage.instances, p.identifier) == Some(Record())
    {
      Promise(Identifier())
    }
  }

  /** A lookup under `other` hits in `w` exactly when it hits in `v`, when `w` keeps exactly the blocks not under `id`. */
  lemma KeptLookup<S>(v: seq<ControlBlock<S>>, w: seq<ControlBlock<S>>, id: nat, other: nat)
    requires other != id
    requires forall x | x in v + w :: multiset(w)[x] == if HasIdentifier(id)(x) then 0 else multiset(v)[x]
    ensures Lookup(w, other).None? <==> Lookup(v, other).None?
  {
    if Lookup(v, other).Some? {
      var k := IndexOf(v, other);
      assert v[k] in v + w;
      assert multiset(w)[v[k]] == multiset(v)[v[k]] > 0;
      assert v[k] in w;
      var j :| 0 <= j < |w| && w[j] == v[k];
    }
    if Lookup(w, other).Some? {
      var k := IndexOf(w, other);
      assert w[k] in v + w;
      assert multiset(v)[w[k]] == multiset(w)[w[k]] > 0;
      assert w[k] in v;
      var j :| 0 <= j < |v| && v[j] == w[k];
    }
  }

  /**
   * `makeFuture(args...)` as written: the promise's identifier is forwarded
   * to the payload's constructor (here `makePayload`), and the future takes
   * the next identifier of the registry instead of the promise's.
   */
  method MakeFutureAsWritten<P(==)>(promise: Promise, registry: InstanceRegistry<FutureRecord<P>>, makePayload: nat -> P)
    returns (future: Future<P>)
    requires registry.Valid()
    requires Lookup(registry.storage.instances, promise.identifier).None?
    modifies registry, registry.storage
    ensures future.registry == registry && future.promiseIdentifier == old(registry.identifierBoundCounter)
    ensures registry.Valid() && future.Live()
    ensures future.Record() == FutureRecord(Pending, makePayload(promise.identifier))
  {
    future := new Future(registry, makePayload(promise.identifier));
  }

  /**
   * The flow of `Promise`'s documentation example on the as-written
   * `makeFuture`, with a payload type constructible from `size_t` (here
   * `nat`; the documented `int` payload would make the call ill-formed): the
   * future made from a default promise is registered under 0, so the
   * promise's `fulfill(42)` does not reach it and it stays pending with the
   * promise's identifier as its payload.
   */
  method MakeFutureAsWrittenMissesPromise() returns (futureIdentifier: nat, state: FutureState, payload: nat)
    ensures futureIdentifier == 0 && futureIdentifier != DefaultPromise().identifier
    ensures state == Pending && payload == UninitializedPromiseIdentifier
  {
    var registry := new InstanceRegistry<FutureRecord<nat>>();
    var promise := DefaultPromise();
    var future := MakeFutureAsWritten(promise, registry, (id: nat) => id);
    Fulfill(promise, registry, 42);
    futureIdentifier := future.Identifier();
    state, payload := future.Retrieve();
  }

  /**
   * `makeFuture(payload)` corrected: the future is registered under the
   * promise's own identifier, which no live future may hold
   * (`canMakeFuture()`).
   */
  method MakeFuture<P(==)>(promise: Promise, registry: InstanceRegistry<FutureRecord<P>>, payload: P)
    returns (future: Future<P>)
    requires PromiseIdentifiersOnly(registry)
    requires IsPromiseIdentifier(registry, promise.identifier)
    requires Lookup(registry.storage.instances, promise.identifier).None?
    modifies registry.storage
    ensures future.registry == registry && future.promiseIdentifier == promise.identifier
    ensures PromiseIdentifiersOnly(registry) && future.Live() && future.Record() == FutureRecord(Pending, payload)
    ensures old(registry.Valid()) && promise.identifier < registry.identifierBoundCounter ==> registry.Valid()
  {
    future := new Future.ForPromise(registry, promise, payload);
  }

  /**
   * The example of `Promise`'s documentation on the corrected `makeFuture`:
   * the future made from a default promise is registered under the default
   * identifier, so the promise's `fulfill(42)` reaches it.
   */
  method MakeFutureReachesDefaultPromise() returns (futureIdentifier: nat, state: FutureState, payload: int)
    ensures futureIdentifier == DefaultPromise().identifier
    ensures state == Fulfilled && payload == 42
  {
    var registry := new InstanceRegistry<FutureRecord<int>>();
    var promise := DefaultPromise();
    var future := MakeFuture(promise, registry, 0);
    Fulfill(promise, registry, 42);
    futureIdentifier := future.Identifier();
    state, payload := future.Retrieve();
  }

  /**
   * With the corrected `makeFuture`, a promise whose future was destroyed can
   * make a new one, and its `fulfill(42)` reaches that new future.
   */
  method MakeFutureReachesPromise() returns (sameIdentifier: bool, state: FutureState, payload: int)
    ensures sameIdentifier && state == Fulfilled && payload == 42
  {
    var registry := new InstanceRegistry<FutureRecord<int>>();
    var first := new Future(registry, 0);
    var promise := first.MakePromise();
    first.Destroy();
    var second := MakeFuture(promise, registry, 0);
    Fulfill(promise, registry, 42);
    sameIdentifier := second.Identifier() == promise.identifier;
    state, payload := second.Retrieve();
  }

  /**
   * The "Run future" sequence with the threads flattened: the consumer sees
   * `Pending` with the initial payload, then `Fulfilled` with 42; a later
   * `fail()` or `fulfill` changes nothing; once the future is destroyed the
   * promise finds nothing.
   */
  method RunFuture() returns (first: FutureState, firstValue: int, second: FutureState, secondValue: int,
                              afterLateWriters: FutureState, lateValue: int, found: bool)
    ensures first == Pending && firstValue == 0
    ensures second == Fulfilled && secondValue == 42
    ensures afterLateWriters == Fulfilled && lateValue == 42
    ensures !found
  {
    var registry := new InstanceRegistry<FutureRecord<int>>();
    var future := new Future(registry, 0);
    var promise := future.MakePromise();
    first, firstValue := future.Retrieve();
    Fulfill(promise, registry, 42);
    second, secondValue := future.Retrieve();
    Fail(promise, registry, 0);
    Fulfill(promise, registry, 7);
    afterLateWriters, lateValue := future.WaitPayload();
    future.Destroy();
    var state;
    found, state := TryAcquireFutureState(promise, registry, Pending);
  }
}
