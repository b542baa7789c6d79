/** The delete-user command (src/user/application/commands/handlers/delete-user.handler.ts). */
module DeleteUserHandling {
  import opened Optional
  import opened Throwing
  import opened Results
  import opened DomainErrors
  import opened UserEvents
  import opened Users
  import opened UserMapper
  import opened UserRepositories
  import opened CommandHandling
  import opened Aggregates

  const UserNotFoundMessage := "User to delete was not found."

  datatype DeleteUserCommand = DeleteUserCommand(userId: string)

  class DeleteUserCommandHandler {
    const userRepository: UserRepository
    const eventDispatcher: EventDispatcher<UserEvent>
    const unitOfWork: UnitOfWork
    /** The user the last successful `executeAsync` staged for deletion. */
    var userToDelete: User?

    constructor (userRepository: UserRepository, eventDispatcher: EventDispatcher<UserEvent>,
                 unitOfWork: UnitOfWork)
      ensures this.userRepository == userRepository && this.eventDispatcher == eventDispatcher
      ensures this.unitOfWork == unitOfWork && userToDelete == null
    {
      this.userRepository := userRepository;
      this.eventDispatcher := eventDispatcher;
      this.unitOfWork := unitOfWork;
      userToDelete := null;
    }

    /** `executeAsync(command)`: an unknown id is a NotFound failure; otherwise the removal is staged. */
    method ExecuteAsync(command: DeleteUserCommand) returns (r: Try<Result<(), DomainError>>)
      modifies this`userToDelete, userRepository`staged
      ensures userToDelete == old(userToDelete) || (userToDelete != null && fresh(userToDelete.root))
      ensures command.userId !in userRepository.rows ==>
        && r == Returned(Failure(NotFoundError(UserNotFoundMessage)))
        && userRepository.staged == old(userRepository.staged)
      ensures command.userId in userRepository.rows ==>
        var row := userRepository.rows[command.userId];
        var props := DomainPropsOf(WithoutLazyColumns(row));
        && (props.Threw? ==> r == Threw(props.thrown) && userRepository.staged == old(userRepository.staged))
        && (props.Returned? ==>
              && r == Returned(Success(()))
              && userRepository.staged == old(userRepository.staged) + [Remove(row.id)]
              && userToDelete != null && userToDelete.root.domainEvents == [])
    {
      var user := userRepository.FindById(command.userId);
      if user.Threw? {
        return Threw(user.thrown);
      }
      if user.value.None? {
        return Returned(Failure(NotFoundError(UserNotFoundMessage)));
      }
      userRepository.Delete(user.value.value);
      userToDelete := user.value.value;
      r := Returned(Success(()));
    }

    /** `getAggregateRoot()` */
    function GetAggregateRoot(): (a: AggregateRoot?<UserProps, UserEvent>)
      reads this
      ensures a == null <==> userToDelete == null
    {
      if userToDelete == null then null else userToDelete.root
    }

    /**
     * `execute(command)`: a committed deletion removes the row; the deleted user raised no
     * event, so the dispatcher is handed one empty batch.
     */
    method Execute(command: DeleteUserCommand) returns (r: Try<Result<(), DomainError>>)
      requires unitOfWork.repository == userRepository
      modifies this`userToDelete, userRepository`staged, userRepository`rows
      modifies unitOfWork`commits, eventDispatcher`batches
      modifies if userToDelete != null then {userToDelete.root} else {}
      ensures command.userId !in old(userRepository.rows) ==>
        && r == Returned(Failure(NotFoundError(UserNotFoundMessage)))
        && userRepository.rows == old(userRepository.rows)
        && unitOfWork.commits == old(unitOfWork.commits)
        && eventDispatcher.batches == old(eventDispatcher.batches)
      ensures command.userId in old(userRepository.rows) ==>
        var row := old(userRepository.rows)[command.userId];
        var props := DomainPropsOf(WithoutLazyColumns(row));
        && (props.Threw? ==>
              && r == Threw(props.thrown) && userRepository.rows == old(userRepository.rows)
              && unitOfWork.commits == old(unitOfWork.commits)
              && eventDispatcher.batches == old(eventDispatcher.batches))
        && (props.Returned? ==>
              var next := Committed(old(userRepository.rows), old(userRepository.staged) + [Remove(row.id)]);
              && unitOfWork.commits == old(unitOfWork.commits) + 1
              && (next.None? ==> r == Threw(InfrastructureThrown) && userRepository.rows == old(userRepository.rows)
                                 && eventDispatcher.batches == old(eventDispatcher.batches))
              && (next.Some? ==>
                    && r == Returned(Success(())) && userRepository.rows == next.value
                    && eventDispatcher.batches == old(eventDispatcher.batches) + [[]]))
    {
      var operationResult := ExecuteAsync(command);
      if operationResult.Threw? {
        return operationResult;
      }
      r := Complete(operationResult.value, GetAggregateRoot(), unitOfWork, eventDispatcher);
    }
  }

  /** Deleting from a table with no pending changes removes exactly that row. */
  lemma DeleteRemovesOnlyThatRow(rows: map<string, UserRow>, id: string)
    requires UniqueEmails(rows) && id in rows
    ensures Committed(rows, [Remove(id)]) == Some(rows - {id})
  {
    assert Apply(rows, [Remove(id)]) == Apply(rows - {id}, []);
  }
}
