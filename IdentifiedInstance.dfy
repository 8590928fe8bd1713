/**
 * `IdentifiedInstance`: every constructed instance draws its identifier from
 * a counter shared by all instances of the derived type (a static in C++,
 * an object passed to the constructors here).
 */
module IdentifiedInstance {

  /** The static `identifierBoundary`, starting at 0. */
  class IdentifierBoundary {
    var next: nat

    constructor ()
      ensures next == 0
    {
      next := 0;
    }

    /** `nextIdentifierSynchronized()`: hands out the boundary and moves it on by one. */
    method NextIdentifierSynchronized() returns (id: nat)
      modifies this
      ensures id == old(next) && next == old(next) + 1
    {
      id := next;
      next := next + 1;
    }
  }

  class IdentifiedInstance {
    var mIdentifier: nat

    /** Default construction takes the next identifier. */
    constructor (boundary: IdentifierBoundary)
      modifies boundary
      ensures mIdentifier == old(boundary.next) && boundary.next == old(boundary.next) + 1
    {
      var id := boundary.NextIdentifierSynchronized();
      mIdentifier := id;
    }

    /** Copy construction does not copy: it takes the next identifier as well. */
    constructor Copy(other: IdentifiedInstance, boundary: IdentifierBoundary)
      modifies boundary
      ensures mIdentifier == old(boundary.next) && boundary.next == old(boundary.next) + 1
    {
      var id := boundary.NextIdentifierSynchronized();
      mIdentifier := id;
    }

    /** Copy and move assignment (both defaulted) copy the identifier. */
    method AssignFrom(other: IdentifiedInstance)
      modifies this
      ensures mIdentifier == old(other.mIdentifier)
    {
      mIdentifier := other.mIdentifier;
    }

    function Identifier(): (id: nat)
      reads this
      ensures id == mIdentifier
    {
      mIdentifier
    }
  }

  /** Constructing `n` instances in a row gives them consecutive, hence distinct and increasing, identifiers. */
  method ConstructMany(boundary: IdentifierBoundary, n: nat) returns (instances: seq<IdentifiedInstance>)
    modifies boundary
    ensures |instances| == n && boundary.next == old(boundary.next) + n
    ensures forall k :: 0 <= k < n ==> instances[k].Identifier() == old(boundary.next) + k
    ensures forall j, k :: 0 <= j < k < n ==> instances[j].Identifier() < instances[k].Identifier()
  {
    instances := [];
    while |instances| < n
      invariant |instances| <= n
      invariant boundary.next == old(boundary.next) + |instances|
      invariant forall k :: 0 <= k < |instances| ==> instances[k].Identifier() == old(boundary.next) + k
    {
      var instance := new IdentifiedInstance(boundary);
      instances := instances + [instance];
    }
  }

  /**
   * From a fresh boundary: two instances get 0 and 1, a copy of the first
   * gets 2, and assigning the first to the copy makes both carry 0.
   */
  method CopyDrawsFreshAssignShares() returns (first: nat, second: nat, copied: nat, shared: nat)
    ensures first == 0 && second == 1 && copied == 2 && shared == 0
  {
    var boundary := new IdentifierBoundary();
    var a := new IdentifiedInstance(boundary);
    var b := new IdentifiedInstance(boundary);
    var c := new IdentifiedInstance.Copy(a, boundary);
    first, second, copied := a.Identifier(), b.Identifier(), c.Identifier();
    c.AssignFrom(a);
    shared := c.Identifier();
  }
}
