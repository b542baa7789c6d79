/**
 * The shared tail of every command (src/shared/application/command-handler.base.ts): commit
 * the unit of work, then hand the aggregate's pending events to the dispatcher.
 */
module CommandHandling {
  import opened Throwing
  import opened Results
  import opened DomainErrors
  import opened Aggregates
  import opened UserRepositories

  /** The event dispatcher port; it records each batch it was handed, in order. */
  class EventDispatcher<E> {
    var batches: seq<seq<E>>

    constructor ()
      ensures batches == []
    {
      batches := [];
    }

    /** `dispatchEvents(events)` */
    method DispatchEvents(events: seq<E>)
      modifies this`batches
      ensures batches == old(batches) + [events]
    {
      batches := batches + [events];
    }
  }

  /**
   * `execute` after `executeAsync` returned `result` and `getAggregateRoot` gave `aggregate`:
   * a failure is returned untouched with nothing committed or dispatched; a success commits
   * once and, when the commit goes through and there is an aggregate, pops its events and
   * dispatches them as one batch. A failing commit propagates and dispatches nothing.
   */
  method Complete<T, P, E>(result: Result<T, DomainError>, aggregate: AggregateRoot?<P, E>,
                           unitOfWork: UnitOfWork, dispatcher: EventDispatcher<E>)
      returns (r: Try<Result<T, DomainError>>)
    modifies unitOfWork`commits, unitOfWork.repository`rows, unitOfWork.repository`staged
    modifies dispatcher`batches, aggregate
    ensures result.IsFailure() ==>
      && r == Returned(result)
      && unchanged(unitOfWork, unitOfWork.repository, dispatcher)
      && (aggregate != null ==> unchanged(aggregate))
    ensures result.IsSuccess() ==>
      var next := Committed(old(unitOfWork.repository.rows), old(unitOfWork.repository.staged));
      && unitOfWork.commits == old(unitOfWork.commits) + 1
      && (next.None? ==>
            && r == Threw(InfrastructureThrown)
            && unchanged(unitOfWork.repository, dispatcher)
            && (aggregate != null ==> unchanged(aggregate)))
      && (next.Some? ==>
            && r == Returned(result)
            && unitOfWork.repository.rows == next.value && unitOfWork.repository.staged == []
            && (aggregate == null ==> unchanged(dispatcher))
            && (aggregate != null ==>
                  && dispatcher.batches == old(dispatcher.batches) + [old(aggregate.domainEvents)]
                  && aggregate.domainEvents == [] && aggregate.props == old(aggregate.props)))
  {
    if result.IsFailure() {
      return Returned(result);
    }
    var committed := unitOfWork.CommitChanges();
    if committed.Throw? {
      return Threw(committed.thrown);
    }
    if aggregate != null {
      var events := aggregate.PopDomainEvents();
      dispatcher.DispatchEvents(events);
    }
    r := Returned(result);
  }
}
