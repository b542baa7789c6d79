/** The user aggregate's events (src/user/domain/events/index.ts). */
module UserEvents {
  import opened DomainEvents
  import opened UserStatus

  const UserAggregateType := "User"
  const UserCreatedClass := "UserCreatedEvent"
  const UserUpdatedClass := "UserUpdatedEvent"
  const UserPasswordChangedClass := "UserPasswordChangedEvent"
  const UserBlockedClass := "UserBlockedEvent"
  const UserActivatedClass := "UserActivatedEvent"

  /** The payload interfaces: the activated event also carries the status the user left. */
  datatype UserPayload =
    | ProfilePayload(email: string, name: string, surname: string)
    | ActivatedPayload(email: string, name: string, surname: string, prevStatus: Status)

  type UserEvent = DomainEvent<UserPayload>

  function UserCreatedEvent(id: string, aggregateId: string, now: Instant,
                            email: string, name: string, surname: string): (e: UserEvent)
    ensures e.aggregateType == UserAggregateType && e.className == UserCreatedClass && e.version == 1
    ensures e.aggregateId == aggregateId && e.payload == ProfilePayload(email, name, surname)
  {
    NewDomainEvent(id, aggregateId, now, UserAggregateType, UserCreatedClass,
                   ProfilePayload(email, name, surname))
  }

  function UserUpdatedEvent(id: string, aggregateId: string, now: Instant,
                            email: string, name: string, surname: string): (e: UserEvent)
    ensures e.aggregateType == UserAggregateType && e.className == UserUpdatedClass && e.version == 1
    ensures e.aggregateId == aggregateId && e.payload == ProfilePayload(email, name, surname)
  {
    NewDomainEvent(id, aggregateId, now, UserAggregateType, UserUpdatedClass,
                   ProfilePayload(email, name, surname))
  }

  function UserPasswordChangedEvent(id: string, aggregateId: string, now: Instant,
                                    email: string, name: string, surname: string): (e: UserEvent)
    ensures e.aggregateType == UserAggregateType && e.className == UserPasswordChangedClass && e.version == 1
    ensures e.aggregateId == aggregateId && e.payload == ProfilePayload(email, name, surname)
  {
    NewDomainEvent(id, aggregateId, now, UserAggregateType, UserPasswordChangedClass,
                   ProfilePayload(email, name, surname))
  }

  function UserBlockedEvent(id: string, aggregateId: string, now: Instant,
                            email: string, name: string, surname: string): (e: UserEvent)
    ensures e.aggregateType == UserAggregateType && e.className == UserBlockedClass && e.version == 1
    ensures e.aggregateId == aggregateId && e.payload == ProfilePayload(email, name, surname)
  {
    NewDomainEvent(id, aggregateId, now, UserAggregateType, UserBlockedClass,
                   ProfilePayload(email, name, surname))
  }

  function UserActivatedEvent(id: string, aggregateId: string, now: Instant, email: string,
                              name: string, surname: string, prevStatus: Status): (e: UserEvent)
    ensures e.aggregateType == UserAggregateType && e.className == UserActivatedClass && e.version == 1
    ensures e.aggregateId == aggregateId
    ensures e.payload == ActivatedPayload(email, name, surname, prevStatus)
  {
    NewDomainEvent(id, aggregateId, now, UserAggregateType, UserActivatedClass,
                   ActivatedPayload(email, name, surname, prevStatus))
  }

  /** The five user events are told apart by their event type alone. */
  lemma EventTypesDistinct(id: string, aggregateId: string, now: Instant, email: string,
                           name: string, surname: string, prevStatus: Status)
    ensures var types := [
        UserCreatedEvent(id, aggregateId, now, email, name, surname).EventType(),
        UserUpdatedEvent(id, aggregateId, now, email, name, surname).EventType(),
        UserPasswordChangedEvent(id, aggregateId, now, email, name, surname).EventType(),
        UserBlockedEvent(id, aggregateId, now, email, name, surname).EventType(),
        UserActivatedEvent(id, aggregateId, now, email, name, surname, prevStatus).EventType()];
      forall i, j :: 0 <= i < j < |types| ==> types[i] != types[j]
  {
    var types := [
        UserCreatedEvent(id, aggregateId, now, email, name, surname).EventType(),
        UserUpdatedEvent(id, aggregateId, now, email, name, surname).EventType(),
        UserPasswordChangedEvent(id, aggregateId, now, email, name, surname).EventType(),
        UserBlockedEvent(id, aggregateId, now, email, name, surname).EventType(),
        UserActivatedEvent(id, aggregateId, now, email, name, surname, prevStatus).EventType()];
    assert types[0][9] == 'C' && types[1][9] == 'U' && types[2][9] == 'P';
    assert types[3][9] == 'B' && types[4][9] == 'A';
  }
}
