/** The aggregate root base class (src/shared/domain/aggregate-root.ts). */
module Aggregates {
  import opened Optional
  import opened Throwing

  const NullEventMessage := "Domain event cannot be null or undefined."

  /**
   * An entity with properties and a list of events raised but not yet dispatched. The events
   * are held as a value: callers of `domainEvents` get a snapshot, not the live array.
   */
  class AggregateRoot<P, E> {
    const id: string
    var props: P
    var domainEvents: seq<E>

    /** A new aggregate starts with no pending events. */
    constructor (props: P, id: string)
      ensures this.id == id && this.props == props && domainEvents == []
    {
      this.id := id;
      this.props := props;
      domainEvents := [];
    }

    /** Returns the pending events in the order they were raised and empties the list. */
    method PopDomainEvents() returns (events: seq<E>)
      modifies this`domainEvents
      ensures events == old(domainEvents)
      ensures domainEvents == []
    {
      events := domainEvents;
      ClearEvents();
    }

    method ClearEvents()
      modifies this`domainEvents
      ensures domainEvents == []
    {
      domainEvents := [];
    }

    /** Appends an event; a missing event is a thrown Error and leaves the list as it was. */
    method AddDomainEvent(event: Option<E>) returns (o: Outcome)
      modifies this`domainEvents
      ensures event.None? ==> o == Throw(ErrorThrown(NullEventMessage)) && domainEvents == old(domainEvents)
      ensures event.Some? ==> o == Pass && domainEvents == old(domainEvents) + [event.value]
    {
      if event.None? {
        return Throw(ErrorThrown(NullEventMessage));
      }
      domainEvents := domainEvents + [event.value];
      o := Pass;
    }
  }

  /** Events raised between two pops are handed out once, in order, and never again. */
  method RaiseThenPopTwice<P, E>(root: AggregateRoot<P, E>, first: E, second: E)
      returns (popped: seq<E>, poppedAgain: seq<E>)
    modifies root
    ensures popped == old(root.domainEvents) + [first, second]
    ensures poppedAgain == []
    ensures root.props == old(root.props)
  {
    var _ := root.AddDomainEvent(Some(first));
    var _ := root.AddDomainEvent(Some(second));
    popped := root.PopDomainEvents();
    poppedAgain := root.PopDomainEvents();
  }
}
