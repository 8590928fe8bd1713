/**
 * `StaticInstanceRegistry`: a storage of control blocks `(stored, identifier)`
 * whose identifiers come from a counter that grows by one on every
 * registration.  The C++ class inherits the storage; here the registry holds
 * it, and the counter (a static of `ControlBlock<S>`) is a field.
 */
module StaticInstanceRegistry {
  import opened Wrappers
  import Vector
  import opened StaticInstanceStorage

  datatype ControlBlock<S> = ControlBlock(stored: S, identifier: nat)

  /** The position of the first block registered under `id`, or `|blocks|` when there is none. */
  function IndexOf<S>(blocks: seq<ControlBlock<S>>, id: nat): (r: nat)
    ensures r <= |blocks|
    ensures r < |blocks| ==> blocks[r].identifier == id
    ensures forall k :: 0 <= k < r ==> blocks[k].identifier != id
  {
    if blocks == [] then 0
    else if blocks[0].identifier == id then 0
    else 1 + IndexOf(blocks[1..], id)
  }

  /** What the first block registered under `id` stores, if any. */
  function Lookup<S>(blocks: seq<ControlBlock<S>>, id: nat): (r: Option<S>)
    ensures r.None? <==> forall k :: 0 <= k < |blocks| ==> blocks[k].identifier != id
    ensures r.Some? ==> exists k :: 0 <= k < |blocks| && blocks[k] == ControlBlock(r.value, id)
  {
    var i := IndexOf(blocks, id);
    if i < |blocks| then Some(blocks[i].stored) else None
  }

  function HasIdentifier<S>(id: nat): ControlBlock<S> -> bool
  {
    (b: ControlBlock<S>) => b.identifier == id
  }

  function HasIdentifierAnd<S>(id: nat, accept: S -> bool): ControlBlock<S> -> bool
  {
    (b: ControlBlock<S>) => b.identifier == id && accept(b.stored)
  }

  function UpdateFirst<S>(id: nat, f: S -> S): ControlBlock<S> -> (ControlBlock<S>, bool)
  {
    (b: ControlBlock<S>) => if b.identifier == id then (ControlBlock(f(b.stored), b.identifier), false) else (b, true)
  }

  class InstanceRegistry<S(==)> {
    const storage: InstanceStorage<ControlBlock<S>>
    var identifierBoundCounter: nat

    /** Every registered identifier was handed out by the counter. */
    ghost predicate Valid()
      reads this, storage
    {
      forall k :: 0 <= k < |storage.instances| ==> storage.instances[k].identifier < identifierBoundCounter
    }

    /** The registry starts empty and its counter at 0. */
    constructor ()
      ensures Valid() && fresh(storage)
      ensures storage.instances == [] && identifierBoundCounter == 0
    {
      storage := new InstanceStorage();
      identifierBoundCounter := 0;
    }

    /**
     * `registerInstance(x)`: the control block takes the counter's value as
     * its identifier and bumps the counter; the block is appended and its
     * identifier returned.
     */
    method RegisterInstance(stored: S) returns (id: nat)
      modifies this, storage
      ensures id == old(identifierBoundCounter) && identifierBoundCounter == id + 1
      ensures storage.instances == old(storage.instances) + [ControlBlock(stored, id)]
      ensures old(Valid()) ==> Valid() && Lookup(storage.instances, id) == Some(stored)
    {
      var block := ControlBlock(stored, identifierBoundCounter);
      identifierBoundCounter := identifierBoundCounter + 1;
      var readIdentifier := (b: ControlBlock<S>) => (b, b.identifier);
      id := storage.StoreInstanceThen(block, readIdentifier);
      assert readIdentifier(block) == (block, block.identifier);
      if old(Valid()) {
        assert storage.instances == old(storage.instances) + [block];
        assert forall k :: 0 <= k < |storage.instances| - 1 ==> storage.instances[k].identifier < id;
        assert storage.instances[|storage.instances| - 1].identifier == id;
        var i := IndexOf(storage.instances, id);
        assert i == |storage.instances| - 1;
      }
    }

    /** `unregisterInstance(id)`: removes every block registered under `id` and keeps all others. */
    method UnregisterInstance(id: nat)
      modifies storage
      ensures Vector.KeepsExactlyUnmatched(old(storage.instances), storage.instances, HasIdentifier(id))
      ensures Lookup(storage.instances, id) == None
      ensures old(Valid()) ==> Valid()
    {
      storage.RemoveInstanceIf(HasIdentifier(id));
      forall k | 0 <= k < |storage.instances|
        ensures storage.instances[k] in old(storage.instances)
      {
        assert multiset(storage.instances)[storage.instances[k]] > 0;
      }
    }

    /** `unregisterInstanceIf(id, accept)`: removes the blocks under `id` whose stored value `accept` approves. */
    method UnregisterInstanceIf(id: nat, accept: S -> bool)
      modifies storage
      ensures Vector.KeepsExactlyUnmatched(old(storage.instances), storage.instances, HasIdentifierAnd(id, accept))
      ensures old(Valid()) ==> Valid()
    {
      storage.RemoveInstanceIf(HasIdentifierAnd(id, accept));
      forall k | 0 <= k < |storage.instances|
        ensures storage.instances[k] in old(storage.instances)
      {
        assert multiset(storage.instances)[storage.instances[k]] > 0;
      }
    }

    /**
     * `withRegisteredInstance(id, f)`: applies `f` to the stored value of the
     * first block under `id`, at most once; without such a block nothing changes.
     */
    method WithRegisteredInstance(id: nat, f: S -> S)
      modifies storage
      ensures var old_ := old(storage.instances); var i := IndexOf(old_, id);
        storage.instances == if i < |old_| then old_[i := ControlBlock(f(old_[i].stored), id)] else old_
      ensures old(Valid()) ==> Valid()
    {
      var visited := storage.IterInstancesWhile(UpdateFirst(id, f));
      ghost var old_ := old(storage.instances);
      ghost var i := IndexOf(old_, id);
      forall k | 0 <= k < visited && k != i
        ensures storage.instances[k] == old_[k]
      {
      }
      if i < |old_| {
        assert visited == i + 1;
        assert storage.instances == old_[i := ControlBlock(f(old_[i].stored), id)];
      } else {
        assert storage.instances == old_;
      }
    }

    /**
     * `withRegisteredInstance(id, f)` with a callback that only reads: the
     * result is `f` of the first block's stored value, or `None` when no block
     * carries `id`.
     */
    method WithRegisteredInstanceConst<R>(id: nat, f: S -> R) returns (r: Option<R>)
      ensures r == match Lookup(storage.instances, id) case None => None case Some(s) => Some(f(s))
    {
      var blocks := storage.instances;
      var i := 0;
      while i < |blocks| && blocks[i].identifier != id
        invariant 0 <= i <= |blocks|
        invariant forall k :: 0 <= k < i ==> blocks[k].identifier != id
      {
        i := i + 1;
      }
      assert i == IndexOf(blocks, id);
      r := if i < |blocks| then Some(f(blocks[i].stored)) else None;
    }
  }
}
