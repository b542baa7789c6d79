/** The create-user command (src/user/application/commands/handlers/create-user.handler.ts). */
module CreateUserHandling {
  import opened Optional
  import opened Throwing
  import opened Results
  import opened DomainErrors
  import opened DomainEvents
  import opened UserEvents
  import opened Users
  import opened UserMapper
  import opened UserRepositories
  import opened CommandHandling
  import opened Aggregates
  import Emails

  const DuplicateEmailMessage := "User with this email already exists."

  datatype CreateUserCommand = CreateUserCommand(
    name: string, surname: string, email: string, password: string, phone: string)
  {
    function Input(): NewUser {
      NewUser(name, surname, email, phone, password)
    }
  }

  /**
   * The lookup compares the raw command email with stored, normalised emails. A command whose
   * email differs from a stored one only by case or padding passes the lookup, and its row
   * then breaks the unique constraint when the commit writes it.
   */
  lemma NormalisedDuplicateFailsAtCommit(rows: map<string, UserRow>, staged: seq<Change>, id: string,
                                         props: UserProps, existing: string)
    requires KeyedById(rows) && staged == []
    requires existing in rows && existing != id
    requires rows[existing].email == props.email.GetValue()
    ensures Committed(rows, staged + [Persist(RowOf(id, props))]) == None
  {
    assert staged + [Persist(RowOf(id, props))] == [Persist(RowOf(id, props))];
    assert [Persist(RowOf(id, props))][1..] == [];
    var row := RowOf(id, props);
    assert Apply(rows, [Persist(row)]) == Apply(rows[row.id := row], []);
    var next := Apply(rows, [Persist(row)]);
    assert next == rows[id := row];
    assert next[existing].email == next[id].email;
  }

  /**
   * The create path can commit: with nothing else staged, the row of a user whose id is new
   * and whose email no stored row holds is written under that id.
   */
  lemma NewUserCommits(rows: map<string, UserRow>, staged: seq<Change>, id: string, props: UserProps)
    requires UniqueEmails(rows) && staged == [] && id !in rows
    requires !EmailTaken(rows, props.email.GetValue())
    ensures Committed(rows, staged + [Persist(RowOf(id, props))]) == Some(rows[id := RowOf(id, props)])
  {
    assert staged + [Persist(RowOf(id, props))] == [Persist(RowOf(id, props))];
    CommitSingleRow(rows, RowOf(id, props));
  }

  /** A stored email never equals a command email that normalisation would change. */
  lemma RawEmailMissesNormalisedRows(rows: map<string, UserRow>, email: string)
    requires forall id :: id in rows ==> Emails.Create(Some(rows[id].email)).Returned? &&
                                         Emails.Create(Some(rows[id].email)).value.GetValue() == rows[id].email
    requires Emails.Normalize(email) != email
    ensures !EmailTaken(rows, email)
  {
    if id :| id in rows && rows[id].email == email {
      Emails.CreateIgnoresPaddingAndCase(email);
      Emails.NormalizeIdempotent(email);
    }
  }

  class CreateUserCommandHandler {
    const userRepository: UserRepository
    const eventDispatcher: EventDispatcher<UserEvent>
    const unitOfWork: UnitOfWork
    /** The user the last successful `executeAsync` created. */
    var createdUser: User?

    constructor (userRepository: UserRepository, eventDispatcher: EventDispatcher<UserEvent>,
                 unitOfWork: UnitOfWork)
      ensures this.userRepository == userRepository && this.eventDispatcher == eventDispatcher
      ensures this.unitOfWork == unitOfWork && createdUser == null
    {
      this.userRepository := userRepository;
      this.eventDispatcher := eventDispatcher;
      this.unitOfWork := unitOfWork;
      createdUser := null;
    }

    /**
     * `executeAsync(command)`: a taken email is a Conflict failure; otherwise the user is
     * created (its factories may throw), staged for saving, and its id returned.
     * The fresh id, the clock and the event id are inputs.
     */
    method ExecuteAsync(command: CreateUserCommand, id: string, now: Instant, eventId: string)
        returns (r: Try<Result<string, DomainError>>)
      modifies this`createdUser, userRepository`staged
      ensures createdUser == old(createdUser) || (createdUser != null && fresh(createdUser.root))
      ensures EmailTaken(userRepository.rows, command.email) ==>
        && userRepository.staged == old(userRepository.staged) && createdUser == old(createdUser)
        && (r.Returned? ==> r == Returned(Failure(ConflictError(DuplicateEmailMessage))))
        && (r.Threw? ==> EmailRowThrows(userRepository.rows, command.email, r.thrown))
        && (UniqueEmails(userRepository.rows) ==>
              (r.Threw? <==> !EmailRowsLoad(userRepository.rows, command.email)))
      ensures !EmailTaken(userRepository.rows, command.email) ==>
        var props := CreateProps(command.Input(), id, now);
        && (props.Threw? ==>
              r == Threw(props.thrown) && userRepository.staged == old(userRepository.staged)
              && createdUser == old(createdUser))
        && (props.Returned? ==>
              && r == Returned(Success(id))
              && userRepository.staged == old(userRepository.staged) + [Persist(RowOf(id, props.value))]
              && createdUser != null && createdUser.root.id == id && createdUser.root.props == props.value
              && createdUser.root.domainEvents == [CreatedEventOf(eventId, id, now, props.value)])
    {
      var userExists := userRepository.FindByEmail(command.email);
      if userExists.Threw? {
        return Threw(userExists.thrown);
      }
      if userExists.value.Some? {
        return Returned(Failure(ConflictError(DuplicateEmailMessage)));
      }
      r := CreateAndStage(command, id, now, eventId);
    }

    /** The second half of `executeAsync`, once the email is known to be free. */
    method CreateAndStage(command: CreateUserCommand, id: string, now: Instant, eventId: string)
        returns (r: Try<Result<string, DomainError>>)
      modifies this`createdUser, userRepository`staged
      ensures createdUser == old(createdUser) || (createdUser != null && fresh(createdUser.root))
      ensures var props := CreateProps(command.Input(), id, now);
        && (props.Threw? ==>
              r == Threw(props.thrown) && userRepository.staged == old(userRepository.staged)
              && createdUser == old(createdUser))
        && (props.Returned? ==>
              && r == Returned(Success(id))
              && userRepository.staged == old(userRepository.staged) + [Persist(RowOf(id, props.value))]
              && createdUser != null && createdUser.root.id == id && createdUser.root.props == props.value
              && createdUser.root.domainEvents == [CreatedEventOf(eventId, id, now, props.value)])
    {
      var user := User.Create(command.Input(), id, now, eventId);
      if user.Threw? {
        return Threw(user.thrown);
      }
      userRepository.Save(user.value);
      createdUser := user.value;
      r := Returned(Success(user.value.root.id));
    }

    /** `getAggregateRoot()` */
    function GetAggregateRoot(): (a: AggregateRoot?<UserProps, UserEvent>)
      reads this
      ensures a == null <==> createdUser == null
    {
      if createdUser == null then null else createdUser.root
    }

    /**
     * `execute(command)`: for a new email and valid input, the committed table gains the
     * user's row and the created event is dispatched once; a taken email or invalid input
     * commits and dispatches nothing.
     */
    method Execute(command: CreateUserCommand, id: string, now: Instant, eventId: string)
        returns (r: Try<Result<string, DomainError>>)
      requires unitOfWork.repository == userRepository
      modifies this`createdUser, userRepository`staged, userRepository`rows
      modifies unitOfWork`commits, eventDispatcher`batches
      modifies if createdUser != null then {createdUser.root} else {}
      ensures EmailTaken(old(userRepository.rows), command.email) ==>
        && (r.Returned? ==> r == Returned(Failure(ConflictError(DuplicateEmailMessage))))
        && (r.Threw? ==> EmailRowThrows(old(userRepository.rows), command.email, r.thrown))
        && (UniqueEmails(old(userRepository.rows)) ==>
              (r.Threw? <==> !EmailRowsLoad(old(userRepository.rows), command.email)))
        && userRepository.rows == old(userRepository.rows)
        && unitOfWork.commits == old(unitOfWork.commits)
        && eventDispatcher.batches == old(eventDispatcher.batches)
      ensures !EmailTaken(old(userRepository.rows), command.email) ==>
        var props := CreateProps(command.Input(), id, now);
        && (props.Threw? ==>
              && r == Threw(props.thrown) && userRepository.rows == old(userRepository.rows)
              && unitOfWork.commits == old(unitOfWork.commits)
              && eventDispatcher.batches == old(eventDispatcher.batches))
        && (props.Returned? ==>
              var next := Committed(old(userRepository.rows),
                                    old(userRepository.staged) + [Persist(RowOf(id, props.value))]);
              && unitOfWork.commits == old(unitOfWork.commits) + 1
              && (next.None? ==> r == Threw(InfrastructureThrown) && userRepository.rows == old(userRepository.rows)
                                 && eventDispatcher.batches == old(eventDispatcher.batches))
              && (next.Some? ==>
                    && r == Returned(Success(id)) && userRepository.rows == next.value
                    && eventDispatcher.batches ==
                         old(eventDispatcher.batches) + [[CreatedEventOf(eventId, id, now, props.value)]]))
    {
      var operationResult := ExecuteAsync(command, id, now, eventId);
      if operationResult.Threw? {
        return operationResult;
      }
      r := Complete(operationResult.value, GetAggregateRoot(), unitOfWork, eventDispatcher);
    }
  }
}
