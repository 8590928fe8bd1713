/**
 * `StaticInstanceStorage`: the process-wide vector of stored instances of
 * one template instantiation.  The static vector is the field `instances`
 * of one `InstanceStorage` object; locking is a no-op and is not modelled.
 */
module StaticInstanceStorage {
  import Vector

  class InstanceStorage<T(==)> {
    var instances: seq<T>

    /** The storage starts out empty. */
    constructor ()
      ensures instances == []
    {
      instances := [];
    }

    /** `size()`: the number of stored instances. */
    function Size(): (n: nat)
      reads this
      ensures n == |instances|
    {
      |instances|
    }

    /**
     * `iterInstancesWhile(cb)`: hands the instances to `cb` in storage order
     * and stops right after the first call that answers false.  The callback
     * takes its instance by reference: `cb(x).0` is what it leaves in the
     * slot, `cb(x).1` its answer.  `visited` is the number of calls made.
     */
    method IterInstancesWhile(cb: T -> (T, bool)) returns (visited: nat)
      modifies this
      ensures visited <= |old(instances)| && |instances| == |old(instances)|
      ensures forall k :: 0 <= k < visited - 1 ==> cb(old(instances)[k]).1
      ensures visited < |old(instances)| ==> 0 < visited && !cb(old(instances)[visited - 1]).1
      ensures forall k :: 0 <= k < visited ==> instances[k] == cb(old(instances)[k]).0
      ensures forall k :: visited <= k < |instances| ==> instances[k] == old(instances)[k]
    {
      visited := 0;
      while visited < |instances|
        invariant visited <= |instances| == |old(instances)|
        invariant forall k :: 0 <= k < visited ==> cb(old(instances)[k]).1
        invariant forall k :: 0 <= k < visited ==> instances[k] == cb(old(instances)[k]).0
        invariant forall k :: visited <= k < |instances| ==> instances[k] == old(instances)[k]
      {
        var (next, proceed) := cb(instances[visited]);
        instances := instances[visited := next];
        visited := visited + 1;
        if !proceed {
          break;
        }
      }
    }

    /** `removeInstanceIf(pred)`: keeps exactly the instances `pred` rejects, in swap-erase order. */
    method RemoveInstanceIf(matches: T -> bool)
      modifies this
      ensures |instances| <= |old(instances)|
      ensures forall k :: 0 <= k < |instances| ==> !matches(instances[k])
      ensures Vector.KeepsExactlyUnmatched(old(instances), instances, matches)
    {
      var removed;
      instances, removed := Vector.SwapEraseIf(instances, matches);
    }

    /** `storeInstance(x)`: appends at the end. */
    method StoreInstance(x: T)
      modifies this
      ensures instances == old(instances) + [x]
    {
      instances := instances + [x];
    }

    /**
     * `storeInstance(x, cb)`: appends, then calls `cb` once on the appended
     * (last) element, which it receives by reference: `cb` returns the element
     * as it leaves it and `r`, what it computes from it.
     */
    method StoreInstanceThen<R>(x: T, cb: T -> (T, R)) returns (r: R)
      modifies this
      ensures instances == old(instances) + [cb(x).0]
      ensures r == cb(x).1
    {
      instances := instances + [x];
      var last := |instances| - 1;
      var updated;
      updated, r := cb(instances[last]).0, cb(instances[last]).1;
      instances := instances[last := updated];
    }

    /** `storeAsInstance()`: stores the caller itself (`self` stands for `this`). */
    method StoreAsInstance(self: T)
      modifies this
      ensures instances == old(instances) + [self]
    {
      StoreInstance(self);
    }

    /** `removeAsInstance()`: removes every entry equal to the caller. */
    method RemoveAsInstance(self: T)
      modifies this
      ensures self !in instances
      ensures Vector.KeepsExactlyUnmatched(old(instances), instances, (x: T) => x == self)
    {
      RemoveInstanceIf((x: T) => x == self);
    }
  }
}
