/** The abstract domain event (src/shared/domain/domain-event.ts). */
module DomainEvents {
  import opened Text

  /** A point in time, in milliseconds; the clock is an input to every operation that reads it. */
  type Instant = int

  /**
   * A raised event. `className` stands for the name of the concrete event class, which the
   * source reads through `this.constructor.name`.
   */
  datatype DomainEvent<+P> = DomainEvent(
    id: string,
    aggregateId: string,
    occurredOn: Instant,
    version: int,
    aggregateType: string,
    className: string,
    payload: P)
  {
    /** `eventType`: the aggregate type and the class name joined by a dot. */
    function EventType(): string {
      aggregateType + "." + className
    }
  }

  /**
   * The protected constructor: a fresh id and the current time are inputs, the version
   * defaults to 1.
   */
  function NewDomainEvent<P>(id: string, aggregateId: string, now: Instant, aggregateType: string,
                             className: string, payload: P, version: int := 1): (e: DomainEvent<P>)
    ensures e.aggregateId == aggregateId && e.payload == payload && e.version == version
    ensures e.EventType() == aggregateType + "." + className
  {
    DomainEvent(id, aggregateId, now, version, aggregateType, className, payload)
  }

  /**
   * When aggregate types contain no dot, the event type tells both the aggregate type
   * and the class name apart.
   */
  lemma EventTypeDeterminesParts<P>(a: DomainEvent<P>, b: DomainEvent<P>)
    requires '.' !in a.aggregateType && '.' !in b.aggregateType
    ensures a.EventType() == b.EventType() <==>
            a.aggregateType == b.aggregateType && a.className == b.className
  {
    if a.EventType() == b.EventType() {
      var x, y := a.aggregateType, b.aggregateType;
      IndexOfAfterPrefix(x, '.', a.className);
      IndexOfAfterPrefix(y, '.', b.className);
      assert x == a.EventType()[..|x|];
      assert y == b.EventType()[..|y|];
      assert a.className == a.EventType()[|x| + 1..];
      assert b.className == b.EventType()[|y| + 1..];
    }
  }
}
