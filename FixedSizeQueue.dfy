/**
 * `FixedSizeQueue<T, N>`: a ring buffer of `N` slots.  Two counters only ever
 * grow: elements live at positions `popPosition .. pushPosition - 1`, and
 * position `p` is stored in slot `p & (N - 1)`, which is `p % N` when `N` is
 * a power of two.
 */
module FixedSizeQueue {
  import opened Algorithm

  /** Positions closer than `n` apart fall into distinct slots. */
  lemma DistinctSlots(a: nat, b: nat, n: nat)
    requires a < b < a + n
    ensures a % n != b % n
  {
    var qa, qb := a / n, b / n;
    assert a == qa * n + a % n && b == qb * n + b % n;
    if a % n == b % n {
      assert b - a == (qb - qa) * n;
      if qb - qa <= 0 {
        MulAtLeast(n, qa - qb);
      } else {
        MulAtLeast(n, qb - qa);
      }
    }
  }

  /**
   * With `N = 3`, which the as-written `isPow2Ce` lets through, the mask
   * `p & 2` sends positions 0 and 1 to the same slot, so the second push
   * overwrites the first element.
   */
  lemma MaskCollidesWithoutPowerOfTwo()
    ensures IsPow2Ce(3) && BitAnd(0, 3 - 1) == BitAnd(1, 3 - 1)
  {
  }

  class FixedSizeQueue<T(0)> {
    const N: nat
    const storage: array<T>
    var popPosition: nat
    var pushPosition: nat
    /** The queued elements, oldest first. */
    ghost var Contents: seq<T>

    ghost predicate Valid()
      reads this, storage
    {
      && IsPowerOfTwo(N)
      && storage.Length == N
      && popPosition <= pushPosition
      && |Contents| == pushPosition - popPosition <= N
      && forall k :: 0 <= k < |Contents| ==> storage[(popPosition + k) % N] == Contents[k]
    }

    /** A queue of `n` slots; the size must be a power of two. */
    constructor (n: nat)
      requires IsPowerOfTwo(n)
      ensures Valid() && fresh(storage)
      ensures N == n && Contents == [] && popPosition == 0 && pushPosition == 0
    {
      N := n;
      storage := new T[n];
      popPosition, pushPosition := 0, 0;
      Contents := [];
    }

    /** `absolutePosition(p)`: the mask `p & (N - 1)`, the slot of position `p`. */
    function AbsolutePosition(p: nat): (r: nat)
      reads this
      requires IsPowerOfTwo(N)
      ensures r == p % N
    {
      assert BitAnd(p, N - 1) == p % N by {
        var k := PowerOfTwoHasExponent(N);
        MaskIsModulo(p, k);
      }
      BitAnd(p, N - 1)
    }

    /** `count()`: the number of queued elements, never more than `N`. */
    function Count(): (c: nat)
      reads this, storage
      requires Valid()
      ensures c == |Contents| && c <= N
    {
      pushPosition - popPosition
    }

    /** `tryPush(x)`: appends `x` unless the queue is full. */
    method TryPush(x: T) returns (ok: bool)
      requires Valid()
      modifies this, storage
      ensures Valid()
      ensures ok <==> old(|Contents|) < N
      ensures Contents == if ok then old(Contents) + [x] else old(Contents)
      ensures popPosition == old(popPosition)
    {
      if Count() < N {
        var slot := AbsolutePosition(pushPosition);
        forall k | 0 <= k < |Contents|
          ensures storage[(popPosition + k) % N] == Contents[k] && (popPosition + k) % N != slot
        {
          DistinctSlots(popPosition + k, pushPosition, N);
        }
        storage[slot] := x;
        pushPosition := pushPosition + 1;
        Contents := Contents + [x];
        ok := true;
      } else {
        ok := false;
      }
    }

    /** `tryEmplace(args...)`: as `tryPush`, with the element built in place by `construct(args)`. */
    method TryEmplace<A>(construct: A -> T, args: A) returns (ok: bool)
      requires Valid()
      modifies this, storage
      ensures Valid()
      ensures ok <==> old(|Contents|) < N
      ensures Contents == if ok then old(Contents) + [construct(args)] else old(Contents)
      ensures popPosition == old(popPosition)
    {
      if Count() < N {
        var slot := AbsolutePosition(pushPosition);
        forall k | 0 <= k < |Contents|
          ensures storage[(popPosition + k) % N] == Contents[k] && (popPosition + k) % N != slot
        {
          DistinctSlots(popPosition + k, pushPosition, N);
        }
        storage[slot] := construct(args);
        pushPosition := pushPosition + 1;
        Contents := Contents + [construct(args)];
        ok := true;
      } else {
        ok := false;
      }
    }

    /** `tryPop(ret)`: takes out the oldest element; an empty queue leaves `ret` as it was. */
    method TryPop(ret0: T) returns (ok: bool, ret: T)
      requires Valid()
      modifies this
      ensures Valid()
      ensures ok <==> old(|Contents|) > 0
      ensures ok ==> ret == old(Contents)[0] && Contents == old(Contents)[1..]
      ensures !ok ==> ret == ret0 && Contents == old(Contents)
      ensures pushPosition == old(pushPosition)
    {
      if Count() > 0 {
        ret := storage[AbsolutePosition(popPosition)];
        popPosition := popPosition + 1;
        Contents := Contents[1..];
        ok := true;
      } else {
        ok, ret := false, ret0;
      }
    }

    /** `forcePush(x)`: appends `x`, first dropping the oldest element when the queue is full. */
    method ForcePush(x: T)
      requires Valid()
      modifies this, storage
      ensures Valid()
      ensures Contents == if old(|Contents|) < N then old(Contents) + [x] else old(Contents)[1..] + [x]
    {
      var pushed := TryPush(x);
      if !pushed {
        var t: T := *;
        var popped;
        popped, t := TryPop(t);
        pushed := TryPush(x);
      }
    }

    /** Iteration from `begin()` to `end()`: the queued elements, oldest first. */
    method Elements() returns (items: seq<T>)
      requires Valid()
      ensures items == Contents
    {
      items := [];
      var position := popPosition;
      while position != pushPosition
        invariant popPosition <= position <= pushPosition
        invariant items == Contents[..position - popPosition]
        decreases pushPosition - position
      {
        items := items + [storage[AbsolutePosition(position)]];
        position := position + 1;
      }
    }
  }

  /**
   * The "Simple push, pop, count" sequence on a queue of 4: twice, four
   * pushes succeed, a fifth is refused, and four pops return the values in
   * push order.
   */
  method SimplePushPopCount() returns (accepted: bool, refused: bool, popped: seq<int>)
    ensures accepted && refused
    ensures popped == seq(8, i => i + 1)
  {
    var queue := new FixedSizeQueue<int>(4);
    accepted, refused, popped := true, true, [];
    for attempt := 0 to 2
      invariant queue.Valid() && queue.N == 4 && fresh(queue.storage)
      invariant queue.Contents == [] && accepted && refused
      invariant popped == seq(4 * attempt, i => i + 1)
    {
      for i := 0 to 4
        invariant queue.Valid() && queue.N == 4
        invariant queue.Contents == seq(i, j => j + 4 * attempt + 1) && accepted
      {
        var ok := queue.TryPush(i + 4 * attempt + 1);
        accepted := accepted && ok;
      }
      var ok := queue.TryPush(0);
      refused := refused && !ok;
      for i := 0 to 4
        invariant queue.Valid() && queue.N == 4
        invariant queue.Contents == seq(4 - i, j => i + j + 4 * attempt + 1)
        invariant popped == seq(4 * attempt + i, j => j + 1)
      {
        var value;
        ok, value := queue.TryPop(0);
        popped := popped + [value];
      }
    }
  }

  /**
   * The "Queue iteration" sequence on a queue of 16: sixteen forced pushes
   * of 0..15 fill it, one pop returns 0, a push of 16 succeeds, and
   * iteration yields 1..16.
   */
  method QueueIteration() returns (countWhenFull: nat, popped: int, items: seq<int>)
    ensures countWhenFull == 16 && popped == 0
    ensures items == seq(16, i => i + 1)
  {
    var queue := new FixedSizeQueue<int>(16);
    for i := 0 to 16
      invariant queue.Valid() && queue.N == 16 && fresh(queue.storage)
      invariant queue.Contents == seq(i, j => j)
    {
      queue.ForcePush(i);
    }
    countWhenFull := queue.Count();
    var ok;
    ok, popped := queue.TryPop(0);
    ok := queue.TryPush(16);
    items := queue.Elements();
  }
}
