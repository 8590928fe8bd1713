/**
 * `Singleton<T, kAutoregisterInstance>`: a static pointer to the registered
 * instance.  The static is modelled as a `Registration` object shared by all
 * instances of one instantiation, which also carries the template flag.
 */
module Singleton {

  class Registration {
    const autoregister: bool
    /** The static `inst`, null at start. */
    var inst: Singleton?

    /** The static points at an object of this instantiation, if at any. */
    ghost predicate Valid()
      reads this
    {
      inst != null ==> inst.registration == this
    }

    constructor (autoregister: bool)
      ensures this.autoregister == autoregister && inst == null && Valid()
    {
      this.autoregister := autoregister;
      inst := null;
    }

    /** `instance()`: null, or an object of this instantiation. */
    function Instance(): (r: Singleton?)
      reads this
      requires Valid()
      ensures r == null || r.registration == this
    {
      inst
    }
  }

  class Singleton {
    const registration: Registration

    /** With `kAutoregisterInstance`, the new object becomes the instance; otherwise nothing changes. */
    constructor (registration: Registration)
      requires registration.Valid()
      modifies registration
      ensures this.registration == registration && registration.Valid()
      ensures registration.autoregister ==> registration.Instance() == this
      ensures !registration.autoregister ==> registration.Instance() == old(registration.Instance())
    {
      this.registration := registration;
      new;
      if registration.autoregister {
        SetInstance();
      }
    }

    /** `~Singleton()`: clears the instance, whichever object it was. */
    method Destroy()
      modifies registration
      ensures registration.Valid() && registration.Instance() == null
    {
      ResetInstance();
    }

    method SetInstance()
      modifies registration
      ensures registration.Valid() && registration.Instance() == this
    {
      registration.inst := this;
    }

    method ResetInstance()
      modifies registration
      ensures registration.Valid() && registration.Instance() == null
    {
      registration.inst := null;
    }
  }

  /**
   * Two auto-registering objects: the later one is the instance, and
   * destroying the earlier one still clears it.  Without auto-registration
   * a construction leaves the instance null.
   */
  method MostRecentWinsAnyDestroyClears() returns (firstSet: bool, secondWins: bool, cleared: bool, manualUnset: bool)
    ensures firstSet && secondWins && cleared && manualUnset
  {
    var registration := new Registration(true);
    var a := new Singleton(registration);
    firstSet := registration.Instance() == a;
    var b := new Singleton(registration);
    secondWins := registration.Instance() == b;
    a.Destroy();
    cleared := registration.Instance() == null;
    var manual := new Registration(false);
    var c := new Singleton(manual);
    manualUnset := manual.Instance() == null;
  }
}
