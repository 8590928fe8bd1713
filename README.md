# embutil core, modelled in Dafny

This project models the sequential core of `embutil`, a small C++ utility library for embedded code. Locks and semaphores are treated as no-ops, which is how the library behaves with its stub mutex and stub semaphore. The model covers these parts:

- **Retry queue.** `LongRequestQueue` holds requests with a timeout and a number of reattempts. On every tick it reissues the due requests, drops the exhausted ones, and reports the shortest wait before the next timeout. The request handler is modelled as the trace of calls it receives.
- **Registry.** `StaticInstanceStorage` is a growable vector of instances. `StaticInstanceRegistry` builds on it and stores control blocks `(stored, identifier)`. The identifiers come from a counter that grows by one per registration.
- **Futures.** `NothrowFuture`: a `Future` registers itself in such a registry, and a `Promise` is the identifier it got. `fulfill`/`fail` resolve the future if it is still pending, so the first writer wins. The registry holds each future's `(state, payload)` record.
- **Helpers** used by the above:
  - swap-erase on vectors (`Vector`);
  - a power-of-two ring queue with ever-growing push/pop positions (`FixedSizeQueue`);
  - a subscriber list with broadcast (`SubscriberNotification`);
  - a shared identifier counter (`IdentifiedInstance`);
  - a global instance pointer (`Singleton`);
  - integer helpers (`Algorithm`);
  - C-string helpers (`Strings`).

Each source file is one Dafny module:
- Static members of the C++ classes (the instance vector, the identifier counter, the singleton pointer) become fields of an object that the users of the class share.
- Vectors become `seq` fields, and the ring buffer an `array`.
- Functions that compute values become Dafny functions; code that updates state becomes methods with loop invariants.
- The tests in `test/` become methods whose postconditions state what the tests assert.

## Model

| member | source | states |
|---|---|---|
| Algorithm.IsPow2CeAcceptsEveryPositive | src/embutil/algorithm/Algorithm.hpp:76-84 | as written, `isPow2Ce(x)` holds exactly when `x > 0`, so it accepts non-powers of two |
| Algorithm.IsPow2AcceptsEveryPositive | src/embutil/algorithm/Algorithm.hpp:66-74 | read as if it compiled, `isPow2`'s text recurses through `isPow2Ce` and likewise holds exactly for `x > 0` |
| Algorithm.IsPow2CeAcceptsThree | src/embutil/algorithm/Algorithm.hpp:76-84 | witness: `isPow2Ce(3)` holds although 3 is not a power of two |
| Algorithm.IsPowerOfTwoCorrect | src/embutil/container/FixedSizeQueue.hpp:24 | the corrected test holds exactly for `2^k`, the size the queue's assertion asks for |
| Algorithm.MaskIsModulo | src/embutil/container/FixedSizeQueue.hpp:137-141 | `p & (2^k - 1) == p % 2^k`: the mask is the fast modulo it is documented to be |
| Algorithm.Clamp | src/embutil/algorithm/Algorithm.hpp:44-52 | with `from < to`: `from` below the range, `to` above it, `val` inside; the result always lies in `[from, to]` |
| Algorithm.In | src/embutil/algorithm/Algorithm.hpp:54-64 | `in(base, o1..on)` holds iff `base` equals some `oi`; false with no candidates |
| Strings.CxStrlen | src/embutil/algorithm/String.hpp:20-25 | the index of the first NUL at or after `pos`; no NUL in between |
| Strings.CxStrcmp | src/embutil/algorithm/String.hpp:27-35 | result in {-1, 0, 1}; 0 iff both strings agree up to the terminator |
| Strings.CxStrcmpDecidedByFirstDifference | src/embutil/algorithm/String.hpp:32-34 | the first differing position decides: -1 if `lhs` is smaller there, 1 if larger |
| Strings.CxStrcmpAntisymmetric | src/embutil/algorithm/String.hpp:32-34 | swapping the operands negates the result |
| Strings.CxStrcmpCompileTimeChecks | src/embutil/algorithm/String.hpp:37-44 | all eight `static_assert` cases hold |
| Strings.FindEnd | src/embutil/algorithm/String.cpp:22 | `std::find_end`: the last occurrence of the needle, or the end when there is none |
| Strings.StringIsEnswith | src/embutil/algorithm/String.cpp:15-30 | true iff both strings are non-empty, the suffix is not longer, and the string ends with it |
| Strings.EqualNonEmptyStringsEndWithEachOther | src/embutil/algorithm/String.cpp:21-26 | a non-empty string ends with itself |
| Strings.StringIsEnswithRejects | src/embutil/algorithm/String.cpp:21 | an empty string, an empty suffix or a longer suffix gives false |
| Vector.SwapEraseIf | src/embutil/algorithm/Vector.hpp:17-35 | returns the number removed; no remaining element matches; each non-matching element keeps its multiplicity |
| Vector.SwapEraseAt | src/embutil/algorithm/Vector.hpp:38-47 | out of range: unchanged; in range: one shorter, the last element moved into the slot, every other position kept, that one element gone from the multiset |
| StaticInstanceStorage.InstanceStorage.constructor | src/embutil/snippet/StaticInstanceStorage.hpp:125-126 | the storage starts empty |
| StaticInstanceStorage.InstanceStorage.Size | src/embutil/snippet/StaticInstanceStorage.hpp:36-39 | `size()` is the number of stored instances |
| StaticInstanceStorage.InstanceStorage.IterInstancesWhile | src/embutil/snippet/StaticInstanceStorage.hpp:57-68 | visits in storage order and stops right after the first callback that says stop; visited elements are updated, the rest untouched |
| StaticInstanceStorage.InstanceStorage.RemoveInstanceIf | src/embutil/snippet/StaticInstanceStorage.hpp:70-76 | exactly the non-matching instances remain, as a multiset |
| StaticInstanceStorage.InstanceStorage.StoreInstance | src/embutil/snippet/StaticInstanceStorage.hpp:78-83 | appends at the end |
| StaticInstanceStorage.InstanceStorage.StoreInstanceThen | src/embutil/snippet/StaticInstanceStorage.hpp:88-95 | appends, then hands the appended element to the callable once, by reference: the stored element is what the callable leaves of it |
| StaticInstanceStorage.InstanceStorage.StoreAsInstance | src/embutil/snippet/StaticInstanceStorage.hpp:103-107 | appends the caller itself |
| StaticInstanceStorage.InstanceStorage.RemoveAsInstance | src/embutil/snippet/StaticInstanceStorage.hpp:111-119 | no entry equal to the caller remains; every other value keeps its multiplicity, and nothing is added |
| StaticInstanceRegistry.IndexOf | src/embutil/snippet/StaticInstanceRegistry.hpp:79-93 | the first block carrying the identifier, or the end |
| StaticInstanceRegistry.Lookup | src/embutil/snippet/StaticInstanceRegistry.hpp:79-93 | `None` iff no block carries the identifier; otherwise a block with that identifier stores the value |
| StaticInstanceRegistry.InstanceRegistry.constructor | src/embutil/snippet/StaticInstanceRegistry.hpp:30-31 | the counter starts at 0, the storage empty |
| StaticInstanceRegistry.InstanceRegistry.RegisterInstance | src/embutil/snippet/StaticInstanceRegistry.hpp:43-54 | returns the counter's old value, increments it, appends exactly one block; the new identifier finds the stored value |
| StaticInstanceRegistry.InstanceRegistry.UnregisterInstance | src/embutil/snippet/StaticInstanceRegistry.hpp:56-63 | removes every block with the identifier, keeps all others; lookups of it then miss |
| StaticInstanceRegistry.InstanceRegistry.UnregisterInstanceIf | src/embutil/snippet/StaticInstanceRegistry.hpp:65-77 | removes only the blocks with the identifier whose stored value the callable accepts |
| StaticInstanceRegistry.InstanceRegistry.WithRegisteredInstance | src/embutil/snippet/StaticInstanceRegistry.hpp:79-93 | applies the callable once, to the first block with the identifier, and never when it is absent |
| StaticInstanceRegistry.InstanceRegistry.WithRegisteredInstanceConst | src/embutil/snippet/StaticInstanceRegistry.hpp:79-93 | a read-only callable's result on the first match, or nothing when the identifier is absent |
| NothrowFuture.FutureStateAsString | src/embutil/snippet/NothrowFuture.hpp:226-232 | every state has its own name, never the fallback |
| NothrowFuture.FutureStateAsStringInjective | src/embutil/snippet/NothrowFuture.hpp:226-232 | distinct states give distinct names |
| NothrowFuture.DefaultPromise | src/embutil/snippet/NothrowFuture.hpp:111-114 | a default promise carries the maximal `size_t` identifier |
| NothrowFuture.Resolve | src/embutil/snippet/NothrowFuture.hpp:214-216 | a pending record takes the new state and payload; any other record is left as it is |
| NothrowFuture.Settled | src/embutil/snippet/NothrowFuture.hpp:208-220 | `setPromise` resolves the future under the identifier; all identifiers, and lookups of all other identifiers, are unchanged; a missing identifier changes nothing |
| NothrowFuture.SettledTwice | src/embutil/snippet/NothrowFuture.hpp:214 | first writer wins: a second `setPromise` after a `fulfill`/`fail` changes nothing |
| NothrowFuture.CanMakeFuture | src/embutil/snippet/NothrowFuture.hpp:116-126 | true iff no future is registered under the promise's identifier |
| NothrowFuture.SetPromise | src/embutil/snippet/NothrowFuture.hpp:208-220 | the registry becomes `Settled` of its old contents |
| NothrowFuture.Fulfill | src/embutil/snippet/NothrowFuture.hpp:140-143 | `setPromise(Fulfilled, payload)` |
| NothrowFuture.Fail | src/embutil/snippet/NothrowFuture.hpp:145-149 | `setPromise(Failed, PayloadType{})` |
| NothrowFuture.TryWithFuturePayload | src/embutil/snippet/NothrowFuture.hpp:157-169 | the callable sees the registered payload; the result is false iff nothing is registered |
| NothrowFuture.TryCloneFuturePayload | src/embutil/snippet/NothrowFuture.hpp:171-179 | true and a copy of the payload iff a future is registered; otherwise the out-value is untouched |
| NothrowFuture.TryAcquireFutureState | src/embutil/snippet/NothrowFuture.hpp:186-199 | false when nothing is registered; otherwise true and the current state |
| NothrowFuture.Future.constructor | src/embutil/snippet/NothrowFuture.hpp:255-262 | a new future is pending with its payload and registered under the identifier the registry hands out |
| NothrowFuture.Future.Destroy | src/embutil/snippet/NothrowFuture.hpp:250-253 | unregisters: promise lookups on its identifier miss afterwards |
| NothrowFuture.Future.Retrieve | src/embutil/snippet/NothrowFuture.hpp:264-268 | the current state and payload, nothing modified |
| NothrowFuture.Future.WaitPayload | src/embutil/snippet/NothrowFuture.hpp:275-282 | with the stub semaphore, what `retrieve` returns |
| NothrowFuture.Future.Wait | src/embutil/snippet/NothrowFuture.hpp:284-291 | with the stub semaphore, the current state |
| NothrowFuture.Future.Ready | src/embutil/snippet/NothrowFuture.hpp:318-321 | true iff the state is not pending |
| NothrowFuture.Future.State | src/embutil/snippet/NothrowFuture.hpp:323-326 | the current state |
| NothrowFuture.Future.Identifier | src/embutil/snippet/NothrowFuture.hpp:338-341 | the identifier under which a live future's own record is found |
| NothrowFuture.Future.MakePromise | src/embutil/snippet/NothrowFuture.hpp:270-273 | a promise with the future's identifier, which finds this future's record |
| NothrowFuture.MakeFutureAsWritten | src/embutil/snippet/NothrowFuture.hpp:128-133 | as written: the future takes the registry's next identifier, and its payload is built from the promise's identifier |
| NothrowFuture.MakeFutureAsWrittenMissesPromise | src/embutil/snippet/NothrowFuture.hpp:84-92 | the flow of the documented example, with a payload type constructible from `size_t` (the model uses `nat`): the future gets identifier 0, the default promise's `fulfill(42)` misses it, it stays pending |
| NothrowFuture.MakeFuture | src/embutil/snippet/NothrowFuture.hpp:128-133 | corrected: the future is registered, pending, under the promise's own identifier, whether the registry handed it out or it is the default promise's |
| NothrowFuture.Future.ForPromise | src/embutil/snippet/NothrowFuture.hpp:128-133 | corrected: the constructor `makeFuture` needs registers under a given, unused promise identifier, issued or default |
| NothrowFuture.MakeFutureReachesDefaultPromise | src/embutil/snippet/NothrowFuture.hpp:84-92 | the documented example with the corrected `makeFuture`: the future made from a default promise carries the default identifier, and `fulfill(42)` resolves it |
| NothrowFuture.MakeFutureReachesPromise | src/embutil/snippet/NothrowFuture.hpp:116-133 | with the corrected `makeFuture`, a promise's `fulfill(42)` reaches its new future |
| NothrowFuture.RunFuture | test/snippet_lib_test/main.cpp:28-58 | pending with 0, then fulfilled with 42; a later `fail`/`fulfill` changes nothing; after destruction the promise finds nothing |
| LongRequestQueue.TryUpdateUseAllAttempts | src/embutil/snippet/LongRequestQueue.hpp:69-86 | Expired iff no attempts left (next timeout 0, entry kept). Invoke iff attempts left and `now > startTime + timeout`: one attempt spent, restarted at `now`, next timeout `timeout`. Otherwise NoInvoke, with the time left |
| LongRequestQueue.ReplaySpendsOneAttemptPerReissue | src/embutil/snippet/LongRequestQueue.hpp:64-68 | over any series of ticks: reissues plus attempts left equal the initial attempts; request and timeout unchanged; issue time never goes back |
| LongRequestQueue.CombineKeepsSmallerPositive | src/embutil/snippet/LongRequestQueue.hpp:182-186 | one update of the running minimum yields one of its two inputs: the smaller positive one, and 0 only when both are 0 |
| LongRequestQueue.MinNextTimeoutIsSmallestPositive | src/embutil/snippet/LongRequestQueue.hpp:182-186 | the accumulated value is the smallest positive next timeout of the visited entries, or 0 if there is none |
| LongRequestQueue.RequestHandler.RetryRequest | src/embutil/snippet/LongRequestQueue.hpp:28-31 | records one retry call |
| LongRequestQueue.RequestHandler.OnRequestExpired | src/embutil/snippet/LongRequestQueue.hpp:34-37 | records one expiry call |
| LongRequestQueue.LongRequestQueue.constructor | src/embutil/snippet/LongRequestQueue.hpp:114-120 | empty queue, no handler |
| LongRequestQueue.LongRequestQueue.Size | src/embutil/snippet/LongRequestQueue.hpp:122-125 | the number of queued entries |
| LongRequestQueue.LongRequestQueue.Push | src/embutil/snippet/LongRequestQueue.hpp:127-136 | appends exactly `{request, now, timeout, n}`, existing entries unchanged; the handler, if any, gets exactly one retry |
| LongRequestQueue.LongRequestQueue.RemoveIf | src/embutil/snippet/LongRequestQueue.hpp:143-149 | exactly the entries whose request does not match remain, as a multiset |
| LongRequestQueue.LongRequestQueue.SetRequestHandler | src/embutil/snippet/LongRequestQueue.hpp:151-156 | installs the handler, queue unchanged |
| LongRequestQueue.LongRequestQueue.Visit | src/embutil/snippet/LongRequestQueue.hpp:167-186 | one loop pass: an expired entry is swap-erased (the last entry moves into its slot) and the index stays; any other entry is replaced in place by its updated self and the index advances; every other entry keeps its position; one handler call as the step says |
| LongRequestQueue.LongRequestQueue.VisitAll | src/embutil/snippet/LongRequestQueue.hpp:166-187 | the loop visits every entry exactly once: the survivors, the handler calls and the running minimum are those of the visit order |
| LongRequestQueue.LongRequestQueue.OnTick | src/embutil/snippet/LongRequestQueue.hpp:159-191 | no handler or empty queue: returns 0, nothing changes. Otherwise each entry is visited exactly once: expired ones reported and removed, reissued ones reported and kept; result is the smallest positive next timeout, or 0 |
| LongRequestQueue.RetryCadence | test/snippet_lib_test/main.cpp:81-104 | retries at push, 1200, 2300 and 3400; expiry at 4100; waits 100, 1000, 800, 1000, 1000, 0, 0, 0; then an empty queue |
| FixedSizeQueue.MaskCollidesWithoutPowerOfTwo | src/embutil/container/FixedSizeQueue.hpp:24 | `N = 3` passes the as-written check, yet positions 0 and 1 share a slot |
| FixedSizeQueue.FixedSizeQueue.constructor | src/embutil/container/FixedSizeQueue.hpp:143-146 | empty, both positions 0, `N` slots |
| FixedSizeQueue.FixedSizeQueue.AbsolutePosition | src/embutil/container/FixedSizeQueue.hpp:137-141 | the mask `p & (N - 1)` equals `p % N` |
| FixedSizeQueue.FixedSizeQueue.Count | src/embutil/container/FixedSizeQueue.hpp:130-134 | `pushPosition - popPosition` is the number of queued elements, at most `N` |
| FixedSizeQueue.FixedSizeQueue.TryPush | src/embutil/container/FixedSizeQueue.hpp:91-101 | succeeds iff `count < N`, placing the element at the back; otherwise nothing changes |
| FixedSizeQueue.FixedSizeQueue.TryEmplace | src/embutil/container/FixedSizeQueue.hpp:103-114 | as `tryPush`, with the element built from the arguments |
| FixedSizeQueue.FixedSizeQueue.TryPop | src/embutil/container/FixedSizeQueue.hpp:116-128 | succeeds iff non-empty: returns the oldest element and removes it; otherwise nothing changes |
| FixedSizeQueue.FixedSizeQueue.ForcePush | src/embutil/container/FixedSizeQueue.hpp:82-89 | when full, drops the oldest first; then appends |
| FixedSizeQueue.FixedSizeQueue.Elements | src/embutil/container/FixedSizeQueue.hpp:62-80 | iterating from begin to end yields the elements oldest first |
| FixedSizeQueue.SimplePushPopCount | test/snippet_lib_queue_test/main.cpp:15-43 | two fill/drain cycles on 4 slots: pushes accepted, the fifth refused, pops in push order 1..8 |
| FixedSizeQueue.QueueIteration | test/snippet_lib_queue_test/main.cpp:45-74 | 16 forced pushes fill the queue, the pop returns 0, and iteration yields 1..16 |
| SubscriberNotification.SubscriberNotification.constructor | src/embutil/snippet/SubscriberNotification.hpp:76-81 | a new notifier has no subscribers |
| SubscriberNotification.SubscriberNotification.AddSubscriber | src/embutil/snippet/SubscriberNotification.hpp:37-40 | appends exactly one entry |
| SubscriberNotification.SubscriberNotification.RemoveSubscriber | src/embutil/snippet/SubscriberNotification.hpp:42-50 | removes every entry of the subscriber, keeps every other entry's multiplicity |
| SubscriberNotification.SubscriberNotification.NotifySubscribers | src/embutil/snippet/SubscriberNotification.hpp:52-62 | one call per entry in storage order, duplicates included; no calls with a null method; the list is not changed |
| IdentifiedInstance.IdentifierBoundary.constructor | src/embutil/snippet/IdentifiedInstance.hpp:65-66 | the boundary starts at 0 |
| IdentifiedInstance.IdentifierBoundary.NextIdentifierSynchronized | src/embutil/snippet/IdentifiedInstance.hpp:51-58 | returns the boundary and increments it by one |
| IdentifiedInstance.IdentifiedInstance.constructor | src/embutil/snippet/IdentifiedInstance.hpp:27-30 | takes the current boundary as identifier |
| IdentifiedInstance.IdentifiedInstance.Copy | src/embutil/snippet/IdentifiedInstance.hpp:32-35 | copying draws a fresh identifier |
| IdentifiedInstance.IdentifiedInstance.AssignFrom | src/embutil/snippet/IdentifiedInstance.hpp:42-43 | assignment copies the identifier |
| IdentifiedInstance.IdentifiedInstance.Identifier | src/embutil/snippet/IdentifiedInstance.hpp:45-48 | the stored identifier |
| IdentifiedInstance.ConstructMany | src/embutil/snippet/IdentifiedInstance.hpp:51-58 | instances built in a row get consecutive, strictly increasing identifiers |
| IdentifiedInstance.CopyDrawsFreshAssignShares | src/embutil/snippet/IdentifiedInstance.hpp:27-48 | 0 and 1 for two instances, 2 for a copy; after assignment two instances share 0 |
| Singleton.Registration.constructor | src/embutil/snippet/Singleton.hpp:58-59 | initially `instance()` is null |
| Singleton.Registration.Instance | src/embutil/snippet/Singleton.hpp:33-36 | `instance()` is null or an object of this instantiation |
| Singleton.Singleton.constructor | src/embutil/snippet/Singleton.hpp:21-26 | with auto-registration the new object is the instance; without, the instance is unchanged |
| Singleton.Singleton.Destroy | src/embutil/snippet/Singleton.hpp:28-31 | the instance becomes null, whichever object was registered |
| Singleton.Singleton.SetInstance | src/embutil/snippet/Singleton.hpp:44-47 | this object becomes the instance |
| Singleton.Singleton.ResetInstance | src/embutil/snippet/Singleton.hpp:49-52 | the instance becomes null |
| Singleton.MostRecentWinsAnyDestroyClears | src/embutil/snippet/Singleton.hpp:21-52 | the most recent construction wins; destroying an older object still clears the instance; without auto-registration it stays null |

## Left out

- Mutexes and semaphores (`LockWrapper`, `StubMutex`, `StubSemaphore`, `SemaphoreTypeInvokeSelector`): locking is plain field access and signalling is a no-op, so the model has no threads.
- Blocking in `Future::wait`/`tryWaitFor` with a real semaphore: with the stub semaphore they return the current state at once, and `tryWaitFor`'s time argument is ignored.
- `Future(Future&&)` and `registerAsInstance`: the move constructor reads its own identifier before anything sets it, so its behaviour is undefined.
- `IdentifiedInstance(IdentifiedInstance&&)`: it names a member `identifiedInstance` that does not exist, so it does not compile once instantiated.
- `vectorInsertSorted`: its `std::lower_bound` arguments are in the wrong order, so it does not compile once instantiated.
- `Buffer.hpp`, `Indexed.hpp`, `Time.hpp`:
  - `Buffer.hpp` holds only declarations;
  - `Indexed.hpp` copies overlapping memory and mixes element and byte counts;
  - `Time.hpp` holds only `std::chrono` casts.
- Algorithm.Clamp: the output type `O` is taken equal to `T`, and `T` to be signed, so the `static_cast<O>` conversions are identities. A narrower `O` would compare truncated values: `clamp<uint8_t, int>(300, 0, 255)` compares 44 and yields 44, where the model yields 255. The assertion on `to - from` becomes the precondition `from < to`; an unsigned `T` would let `from > to` through by wrap-around.
- Algorithm.IsPow2AcceptsEveryPositive: `isPow2` calls `isPow2Ce` before `isPow2Ce` is declared. The call depends on `T`, so the name is looked up where the template is defined, where it is not yet visible, and by argument-dependent lookup, which finds nothing for built-in integers. `isPow2` therefore does not compile once instantiated with a built-in integer. The lemma reads its text as if it compiled.
- NothrowFuture.Future.constructor: registration under the counter's value assumes the counter never reaches the default promise's identifier (2^64 - 1 registrations); the invariant `Valid` excludes futures registered under that identifier, which only `makeFuture` with a default promise creates (`PromiseIdentifiersOnly`).
- `normalize`, `scale`, `bytewiseMove` and `makeVisitor` in `Algorithm.hpp`: floating point, raw memory copies and type-level composition.
- Logging calls, and the capacity hints passed to `reserve`.
- `size_t` overflow: identifiers, queue positions, boundaries and `startTime + timeout` are unbounded naturals. The constant `UninitializedPromiseIdentifier` assumes a 64-bit `size_t`.
- Signed `char` effects in `stringCxStrcmp`: characters compare by code point.
- `stringIsEndswith`: the header declares this name, but `String.cpp` defines `stringIsEnswith`. A caller of the header name would fail to link, so the model follows the definition.
- Raw pointer identity of futures: the registry stores each future's `(state, payload)` record, not a `Future *`, so null entries cannot occur.
- NothrowFuture.Future.Retrieve: it, and the other accessors, require the future to be registered (`Live`), because the model keeps the future's fields in the registry.
- NothrowFuture.Fail: `PayloadType{}` is a parameter, since a generic type has no default value in the model.
- NothrowFuture.FutureStateAsString: the `"TBD"` fallback has no counterpart, because the modelled enum has only three values.
- NothrowFuture.MakeFutureAsWrittenMissesPromise: uses a `nat` payload. With the documented `int` payload, the as-written `makeFuture()` brace-initialises the `int` from a `size_t`, a narrowing conversion that a conforming compiler rejects; that is a second symptom of the same defect.
- StaticInstanceRegistry.InstanceRegistry.RegisterInstance: the counter is a field of each registry object. In C++ it is a static of `ControlBlock<StoredType>`, so registries that differ only in mutex type or initial size share one counter; that sharing is not modelled.
- NothrowFuture.Future.Destroy: promises only that every other future stays registered, not that a lookup of it finds the same record. The registry invariant `Valid` does not state that identifiers are unique. Without uniqueness, reordering by the swap-erase can change which block a lookup finds first. The full multiset statement is on `UnregisterInstance`.
- LongRequestQueue.LongRequestQueue.OnTick: the visit order is a ghost permutation of the entries, fixed by the swap-erase, rather than spelled out step by step. The `Visit` method states each step's exact new contents.
- LongRequestQueue.LongRequestQueue.constructor: the C++ constructor leaves `requestHandler` uninitialised. The model starts it at `null`; with a garbage pointer, the first `push` or `onTick` would be undefined behaviour.
- SubscriberNotification.SubscriberNotification.NotifySubscribers: the called member's effects and the forwarded arguments are outside the model; a notification is the list of subscribers called.
- SubscriberNotification.SubscriberNotification.constructor: `LightweightSubscriberNotification`'s reference to a caller-owned storage is not modelled separately. The model has the subscriber list owned by the notifier.
- FixedSizeQueue.FixedSizeQueue.constructor: requires a power-of-two size. The as-written check accepts any positive size (see Findings).
- StaticInstanceRegistry.InstanceRegistry.RegisterInstance: the new identifier's lookup is promised when every stored identifier came from the counter (`Valid`). The class keeps that invariant.

## Findings

| source | as written | input that shows it | evidently intended | confidence | as-written member | corrected member |
|---|---|---|---|---|---|---|
| src/embutil/algorithm/Algorithm.hpp:76-84 | `isPow2Ce` halves without rejecting odd values, so every positive integer passes and the power-of-two assertion of `FixedSizeQueue` (line 24) rejects nothing | `x = 3`; a queue with `N = 3` maps positions 0 and 1 to slot 0 | accept exactly the powers of two | not executed | Algorithm.IsPow2CeAcceptsEveryPositive | Algorithm.IsPowerOfTwoCorrect |
| src/embutil/snippet/NothrowFuture.hpp:128-133 | `makeFuture` forwards the promise's identifier to the payload's constructor, and the future registers under a fresh identifier | a default `Promise`, `makeFuture()`, `fulfill(42)`, with a payload type constructible from `size_t` (the model uses `nat`): the future has identifier 0 and stays pending; with the documented `int` payload the call does not compile | the future is registered under the promise's identifier, so the promise reaches it | not executed | NothrowFuture.MakeFutureAsWrittenMissesPromise | NothrowFuture.MakeFutureReachesDefaultPromise |
