/** The change-password command (src/user/application/commands/handlers/change-password.handler.ts). */
module ChangePasswordHandling {
  import opened Optional
  import opened Throwing
  import opened Results
  import opened DomainErrors
  import opened DomainEvents
  import opened UserEvents
  import opened Users
  import opened UserMapper
  import opened UserRepositories
  import opened CommandHandling
  import opened Aggregates
  import Emails
  import Passwords

  const UserNotFoundMessage := "User to change password not found."

  datatype ChangePasswordCommand = ChangePasswordCommand(userId: string, currentPassword: string, newPassword: string)

  /** The row a successful change stages: the new hash and the new update time. */
  function ChangedRow(row: UserRow, props: UserProps, password: Passwords.Password, now: Instant): UserRow {
    RowOf(row.id, ChangedProps(props, password, now))
  }

  function ChangedProps(props: UserProps, password: Passwords.Password, now: Instant): UserProps {
    props.(passwordHash := Some(password), updatedAt := now)
  }

  /**
   * The change-password path can commit: with nothing else staged, the changed row of a stored
   * user whose email is already normalised replaces that user's row.
   */
  lemma ChangedRowCommits(rows: map<string, UserRow>, staged: seq<Change>, id: string,
                          props: UserProps, password: Passwords.Password, now: Instant)
    requires UniqueEmails(rows) && KeyedById(rows) && staged == [] && id in rows
    requires DomainPropsOf(rows[id]) == Returned(props)
    requires Emails.Normalize(rows[id].email) == rows[id].email
    ensures Committed(rows, staged + [Persist(ChangedRow(rows[id], props, password, now))]) ==
            Some(rows[id := ChangedRow(rows[id], props, password, now)])
  {
    var changed := ChangedRow(rows[id], props, password, now);
    DomainPropsOfSpec(rows[id]);
    assert changed.id == id && changed.email == rows[id].email;
    assert staged + [Persist(changed)] == [Persist(changed)];
    CommitSingleRow(rows, changed);
  }

  class ChangePasswordCommandHandler {
    const userRepository: UserRepository
    const eventDispatcher: EventDispatcher<UserEvent>
    const unitOfWork: UnitOfWork
    /** The user the last successful `executeAsync` changed. */
    var userToChangePassword: User?

    constructor (userRepository: UserRepository, eventDispatcher: EventDispatcher<UserEvent>,
                 unitOfWork: UnitOfWork)
      ensures this.userRepository == userRepository && this.eventDispatcher == eventDispatcher
      ensures this.unitOfWork == unitOfWork && userToChangePassword == null
    {
      this.userRepository := userRepository;
      this.eventDispatcher := eventDispatcher;
      this.unitOfWork := unitOfWork;
      userToChangePassword := null;
    }

    /**
     * `executeAsync(command)`: an unknown id is a NotFound failure; otherwise the user, loaded
     * with its password, changes it (the domain errors propagate as thrown) and is staged.
     */
    method ExecuteAsync(command: ChangePasswordCommand, now: Instant, eventId: string)
        returns (r: Try<Result<(), DomainError>>)
      modifies this`userToChangePassword, userRepository`staged
      ensures userToChangePassword == old(userToChangePassword)
              || (userToChangePassword != null && fresh(userToChangePassword.root))
      ensures command.userId !in userRepository.rows ==>
        && r == Returned(Failure(NotFoundError(UserNotFoundMessage)))
        && userRepository.staged == old(userRepository.staged)
      ensures command.userId in userRepository.rows ==>
        var row := userRepository.rows[command.userId];
        var props := DomainPropsOf(row);
        && (props.Threw? ==> r == Threw(props.thrown) && userRepository.staged == old(userRepository.staged))
        && (props.Returned? ==>
              var change := PasswordChange(props.value, command.currentPassword, command.newPassword);
              && (change.Threw? ==>
                    r == Threw(change.thrown) && userRepository.staged == old(userRepository.staged))
              && (change.Returned? ==>
                    && r == Returned(Success(()))
                    && userRepository.staged ==
                         old(userRepository.staged) + [Persist(ChangedRow(row, props.value, change.value, now))]
                    && userToChangePassword != null
                    && userToChangePassword.root.props == ChangedProps(props.value, change.value, now)
                    && userToChangePassword.root.domainEvents ==
                         [PasswordChangedEventOf(eventId, row.id, now, userToChangePassword.root.props)]))
    {
      var user := userRepository.FindByIdForAuthentication(command.userId);
      if user.Threw? {
        return Threw(user.thrown);
      }
      if user.value.None? {
        return Returned(Failure(NotFoundError(UserNotFoundMessage)));
      }
      r := ChangeAndStage(user.value.value, command, now, eventId);
    }

    /** The part of `executeAsync` after the user is found: change the password, then stage the user. */
    method ChangeAndStage(user: User, command: ChangePasswordCommand, now: Instant, eventId: string)
        returns (r: Try<Result<(), DomainError>>)
      requires user.root.domainEvents == []
      modifies this`userToChangePassword, userRepository`staged, user.root`props, user.root`domainEvents
      ensures var change := PasswordChange(old(user.root.props), command.currentPassword, command.newPassword);
        && (change.Threw? ==>
              && r == Threw(change.thrown) && userRepository.staged == old(userRepository.staged)
              && userToChangePassword == old(userToChangePassword))
        && (change.Returned? ==>
              && r == Returned(Success(()))
              && user.root.props == ChangedProps(old(user.root.props), change.value, now)
              && userRepository.staged == old(userRepository.staged) + [Persist(RowOf(user.root.id, user.root.props))]
              && userToChangePassword == user
              && user.root.domainEvents == [PasswordChangedEventOf(eventId, user.root.id, now, user.root.props)])
    {
      var changed := user.ChangePassword(command.currentPassword, command.newPassword, now, eventId);
      if changed.Throw? {
        return Threw(changed.thrown);
      }
      userRepository.Save(user);
      userToChangePassword := user;
      r := Returned(Success(()));
    }

    /** `getAggregateRoot()` */
    function GetAggregateRoot(): (a: AggregateRoot?<UserProps, UserEvent>)
      reads this
      ensures a == null <==> userToChangePassword == null
    {
      if userToChangePassword == null then null else userToChangePassword.root
    }

    /**
     * `execute(command)`: a successful change that commits writes the new row and dispatches
     * exactly one UserPasswordChangedEvent; every error leaves the table as it was, and an
     * error before the commit also leaves the commit count and the dispatched batches alone.
     */
    method Execute(command: ChangePasswordCommand, now: Instant, eventId: string)
        returns (r: Try<Result<(), DomainError>>)
      requires unitOfWork.repository == userRepository
      modifies this`userToChangePassword, userRepository`staged, userRepository`rows
      modifies unitOfWork`commits, eventDispatcher`batches
      modifies if userToChangePassword != null then {userToChangePassword.root} else {}
      ensures command.userId !in old(userRepository.rows) ==>
        && r == Returned(Failure(NotFoundError(UserNotFoundMessage)))
        && userRepository.rows == old(userRepository.rows)
        && unitOfWork.commits == old(unitOfWork.commits)
        && eventDispatcher.batches == old(eventDispatcher.batches)
      ensures command.userId in old(userRepository.rows) ==>
        var row := old(userRepository.rows)[command.userId];
        var props := DomainPropsOf(row);
        && (props.Threw? ==>
              && r == Threw(props.thrown) && userRepository.rows == old(userRepository.rows)
              && unitOfWork.commits == old(unitOfWork.commits)
              && eventDispatcher.batches == old(eventDispatcher.batches))
        && (props.Returned? ==>
        var change := PasswordChange(props.value, command.currentPassword, command.newPassword);
        && (change.Threw? ==>
              && r == Threw(change.thrown) && userRepository.rows == old(userRepository.rows)
              && unitOfWork.commits == old(unitOfWork.commits)
              && eventDispatcher.batches == old(eventDispatcher.batches))
        && (change.Returned? ==>
              var changedRow := ChangedRow(row, props.value, change.value, now);
              var next := Committed(old(userRepository.rows), old(userRepository.staged) + [Persist(changedRow)]);
              && unitOfWork.commits == old(unitOfWork.commits) + 1
              && (next.None? ==> r == Threw(InfrastructureThrown) && userRepository.rows == old(userRepository.rows)
                                 && eventDispatcher.batches == old(eventDispatcher.batches))
              && (next.Some? ==>
                    && r == Returned(Success(())) && userRepository.rows == next.value
                    && eventDispatcher.batches == old(eventDispatcher.batches) +
                         [[PasswordChangedEventOf(eventId, row.id, now, ChangedProps(props.value, change.value, now))]])))
    {
      var operationResult := ExecuteAsync(command, now, eventId);
      if operationResult.Threw? {
        return operationResult;
      }
      r := Complete(operationResult.value, GetAggregateRoot(), unitOfWork, eventDispatcher);
    }
  }
}
