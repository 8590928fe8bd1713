/**
 * `SubscriberNotification`: a list of subscribers and a member function to
 * call on each of them.  The subscribers are compared by identity, as the
 * C++ compares pointers; what the called member does is outside the model,
 * so a notification is the sequence of subscribers called, in call order.
 */
module SubscriberNotification {
  import opened Wrappers
  import Vector

  class SubscriberNotification<S(==), M> {
    var subscribers: seq<S>
    /** The member function pointer; `None` is the null pointer. */
    const subscriberMethod: Option<M>

    /** `SubscriberNotification(method, nSubscribers)`: the capacity hint only reserves memory. */
    constructor (method_: Option<M>, nSubscribers: nat)
      ensures subscribers == [] && subscriberMethod == method_
    {
      subscribers := [];
      subscriberMethod := method_;
    }

    /** `addSubscriber(s)`: one more entry, at the end. */
    method AddSubscriber(s: S)
      modifies this
      ensures subscribers == old(subscribers) + [s]
    {
      subscribers := subscribers + [s];
    }

    /** `removeSubscriber(s)`: every entry of `s` goes, all other entries stay. */
    method RemoveSubscriber(s: S)
      modifies this
      ensures s !in subscribers
      ensures Vector.KeepsExactlyUnmatched(old(subscribers), subscribers, (x: S) => x == s)
    {
      var removed;
      subscribers, removed := Vector.SwapEraseIf(subscribers, (x: S) => x == s);
    }

    /**
     * `notifySubscribers(args...)`: calls the member once per entry, in
     * storage order, duplicates included; with a null member nobody is called.
     */
    method NotifySubscribers() returns (notified: seq<S>)
      ensures subscriberMethod.Some? ==> notified == subscribers
      ensures subscriberMethod.None? ==> notified == []
    {
      notified := [];
      if subscriberMethod.Some? {
        for k := 0 to |subscribers|
          invariant notified == subscribers[..k]
        {
          notified := notified + [subscribers[k]];
        }
      }
    }
  }
}
