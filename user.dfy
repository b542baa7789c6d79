/** The User aggregate (src/user/domain/user.model.ts). */
module Users {
  import opened Optional
  import opened Text
  import opened Throwing
  import opened DomainEvents
  import opened UserStatus
  import opened UserEvents
  import opened Aggregates
  import PersonNames
  import Emails
  import PhoneNumbers
  import Passwords

  const NotActiveMessage := "Cannot change password for a non-active user."
  const NoPasswordMessage := "Password change is not available for users without a password set."
  const SamePasswordMessage := "New password and old password cannot be the same."
  const WrongPasswordMessage := "The old password you entered is incorrect."

  /** The user's state. A user without a password has no `passwordHash`. */
  datatype UserProps = UserProps(
    id: string,
    name: PersonNames.PersonName,
    surname: PersonNames.PersonName,
    email: Emails.Email,
    phone: PhoneNumbers.PhoneNumber,
    status: Status,
    passwordHash: Option<Passwords.Password>,
    createdAt: Instant,
    updatedAt: Instant)
  {
    /** Every value object holds what its factory guarantees. */
    predicate Valid() {
      && name.Valid() && surname.Valid() && email.Valid() && phone.Valid()
      && (passwordHash.Some? ==> passwordHash.value.Valid())
    }
  }

  /** The raw input of `User.create`; an empty password means the user has none. */
  datatype NewUser = NewUser(name: string, surname: string, email: string, phone: string, password: string)

  /**
   * The properties `User.create` assembles: the value objects are built in the order name,
   * surname, email, phone, password, and the first one that throws decides the error.
   * The fresh id and one reading of the clock are inputs.
   */
  function CreateProps(input: NewUser, id: string, now: Instant): (r: Try<UserProps>)
  {
    var name :- PersonNames.Create(Some(input.name), PersonNames.Name);
    var surname :- PersonNames.Create(Some(input.surname), PersonNames.Surname);
    var email :- Emails.Create(Some(input.email));
    var phone :- PhoneNumbers.Create(Some(input.phone));
    var passwordHash :- if input.password == "" then Returned(None)
                        else (var p :- Passwords.Create(input.password); Returned(Some(p)));
    Returned(UserProps(id, name, surname, email, phone, ACTIVE, passwordHash, now, now))
  }

  /** What `User.create` guarantees about the properties it builds and the first error it reports. */
  lemma CreatePropsSpec(input: NewUser, id: string, now: Instant)
    ensures CreateProps(input, id, now).Returned? <==>
      && PersonNames.Create(Some(input.name), PersonNames.Name).Returned?
      && PersonNames.Create(Some(input.surname), PersonNames.Surname).Returned?
      && Emails.Create(Some(input.email)).Returned?
      && PhoneNumbers.Create(Some(input.phone)).Returned?
      && (input.password == "" || Passwords.Create(input.password).Returned?)
    ensures var r := CreateProps(input, id, now);
      r.Returned? ==>
      && r.value.Valid() && r.value.id == id && r.value.status == ACTIVE
      && r.value.createdAt == now && r.value.updatedAt == now
      && r.value.name.GetValue() == Trim(input.name)
      && r.value.surname.GetValue() == Trim(input.surname)
      && r.value.email.GetValue() == Emails.Normalize(input.email)
      && r.value.phone.GetValue() == input.phone
      && (r.value.passwordHash.None? <==> input.password == "")
      && (r.value.passwordHash.Some? ==> r.value.passwordHash.value.Compare(input.password))
    ensures PersonNames.Create(Some(input.name), PersonNames.Name).Threw? ==>
      CreateProps(input, id, now) == Threw(PersonNames.Create(Some(input.name), PersonNames.Name).thrown)
    ensures PersonNames.Create(Some(input.name), PersonNames.Name).Returned? &&
            PersonNames.Create(Some(input.surname), PersonNames.Surname).Threw? ==>
      CreateProps(input, id, now) == Threw(PersonNames.Create(Some(input.surname), PersonNames.Surname).thrown)
    ensures PersonNames.Create(Some(input.name), PersonNames.Name).Returned? &&
            PersonNames.Create(Some(input.surname), PersonNames.Surname).Returned? &&
            Emails.Create(Some(input.email)).Threw? ==>
      CreateProps(input, id, now) == Threw(Emails.Create(Some(input.email)).thrown)
    ensures PersonNames.Create(Some(input.name), PersonNames.Name).Returned? &&
            PersonNames.Create(Some(input.surname), PersonNames.Surname).Returned? &&
            Emails.Create(Some(input.email)).Returned? &&
            PhoneNumbers.Create(Some(input.phone)).Threw? ==>
      CreateProps(input, id, now) == Threw(PhoneNumbers.Create(Some(input.phone)).thrown)
  {
  }

  lemma CreatedPropsValid(input: NewUser, id: string, now: Instant)
    requires CreateProps(input, id, now).Returned?
    ensures CreateProps(input, id, now).value.Valid()
  {
    CreatePropsSpec(input, id, now);
  }

  /** A name error hides any later error; a bad password only surfaces when all else is valid. */
  lemma CreateReportsFirstError(input: NewUser, id: string, now: Instant)
    requires PersonNames.Create(Some(input.name), PersonNames.Name).Returned?
    requires PersonNames.Create(Some(input.surname), PersonNames.Surname).Returned?
    requires Emails.Create(Some(input.email)).Returned?
    requires PhoneNumbers.Create(Some(input.phone)).Returned?
    requires input.password != "" && Passwords.Create(input.password).Threw?
    ensures CreateProps(input, id, now) == Threw(Passwords.Create(input.password).thrown)
  {
  }

  /**
   * The change `changePassword` makes to the password: the user must be active, have a
   * password, give a different new password, and give the right old password; the new
   * password then goes through `Password.create`, whose errors propagate.
   */
  function PasswordChange(props: UserProps, oldPassword: string, newPassword: string): (r: Try<Passwords.Password>)
    ensures r.Returned? <==>
      && props.status == ACTIVE && props.passwordHash.Some? && oldPassword != newPassword
      && props.passwordHash.value.Compare(oldPassword)
      && Passwords.MinLength <= |newPassword| <= Passwords.MaxLength
    ensures r.Returned? ==>
      r.value.Valid() && r.value.Compare(newPassword) && !r.value.Compare(oldPassword)
    ensures props.status != ACTIVE ==> r == Threw(BadRequestThrown(NotActiveMessage))
    ensures props.status == ACTIVE && props.passwordHash.None? ==>
      r == Threw(BadRequestThrown(NoPasswordMessage))
    ensures props.status == ACTIVE && props.passwordHash.Some? && oldPassword == newPassword ==>
      r == Threw(BadRequestThrown(SamePasswordMessage))
    ensures props.status == ACTIVE && props.passwordHash.Some? && oldPassword != newPassword &&
            !props.passwordHash.value.Compare(oldPassword) ==>
      r == Threw(BadRequestThrown(WrongPasswordMessage))
    ensures props.status == ACTIVE && props.passwordHash.Some? && oldPassword != newPassword &&
            props.passwordHash.value.Compare(oldPassword) && Passwords.Create(newPassword).Threw? ==>
      r == Threw(Passwords.Create(newPassword).thrown)
  {
    if props.status != ACTIVE then Threw(BadRequestThrown(NotActiveMessage))
    else if props.passwordHash.None? then Threw(BadRequestThrown(NoPasswordMessage))
    else if oldPassword == newPassword then Threw(BadRequestThrown(SamePasswordMessage))
    else if !props.passwordHash.value.Compare(oldPassword) then Threw(BadRequestThrown(WrongPasswordMessage))
    else
      var created := Passwords.Create(newPassword);
      if created.Returned? then Passwords.CompareAcceptsOnlyOriginal(newPassword, oldPassword); created
      else created
  }

  /** Only the password the hash was made from authorises a change. */
  lemma OnlyCurrentPasswordAuthorises(props: UserProps, current: string, oldPassword: string, newPassword: string)
    requires Passwords.Create(current).Returned?
    requires props.passwordHash == Some(Passwords.Create(current).value)
    requires PasswordChange(props, oldPassword, newPassword).Returned?
    ensures oldPassword == current
  {
    Passwords.CompareAcceptsOnlyOriginal(current, oldPassword);
  }

  /** The outcome of the non-atomic `updateProfile`: the state reached and what was thrown. */
  datatype ProfileUpdate = ProfileUpdate(props: UserProps, thrown: Option<Thrown>)

  /**
   * `updateProfile` assigns name, surname and phone one after the other; a failing factory
   * stops it, with the earlier assignments already made.
   */
  function ApplyProfileUpdate(props: UserProps, name: string, surname: string, phone: string, now: Instant): (r: ProfileUpdate)
    ensures r.thrown.None? <==>
      && PersonNames.Create(Some(name), PersonNames.Name).Returned?
      && PersonNames.Create(Some(surname), PersonNames.Surname).Returned?
      && PhoneNumbers.Create(Some(phone)).Returned?
    ensures r.thrown.None? ==>
      && r.props.name.GetValue() == Trim(name) && r.props.surname.GetValue() == Trim(surname)
      && r.props.phone.GetValue() == phone && r.props.updatedAt == now
    ensures r.thrown.Some? ==> r.props.phone == props.phone && r.props.updatedAt == props.updatedAt
    ensures PersonNames.Create(Some(name), PersonNames.Name).Threw? ==>
      r == ProfileUpdate(props, Some(PersonNames.Create(Some(name), PersonNames.Name).thrown))
    ensures PersonNames.Create(Some(name), PersonNames.Name).Returned? &&
            PersonNames.Create(Some(surname), PersonNames.Surname).Threw? ==>
      r == ProfileUpdate(props.(name := PersonNames.Create(Some(name), PersonNames.Name).value),
                         Some(PersonNames.Create(Some(surname), PersonNames.Surname).thrown))
    ensures PersonNames.Create(Some(name), PersonNames.Name).Returned? &&
            PersonNames.Create(Some(surname), PersonNames.Surname).Returned? &&
            PhoneNumbers.Create(Some(phone)).Threw? ==>
      r == ProfileUpdate(props.(name := PersonNames.Create(Some(name), PersonNames.Name).value,
                                surname := PersonNames.Create(Some(surname), PersonNames.Surname).value),
                         Some(PhoneNumbers.Create(Some(phone)).thrown))
    ensures r.props.(name := props.name, surname := props.surname, phone := props.phone,
                     updatedAt := props.updatedAt) == props
    ensures props.Valid() ==> r.props.Valid()
  {
    match PersonNames.Create(Some(name), PersonNames.Name)
    case Threw(t) => ProfileUpdate(props, Some(t))
    case Returned(newName) =>
      var withName := props.(name := newName);
      match PersonNames.Create(Some(surname), PersonNames.Surname)
      case Threw(t) => ProfileUpdate(withName, Some(t))
      case Returned(newSurname) =>
        var withNames := withName.(surname := newSurname);
        match PhoneNumbers.Create(Some(phone))
        case Threw(t) => ProfileUpdate(withNames, Some(t))
        case Returned(newPhone) => ProfileUpdate(withNames.(phone := newPhone, updatedAt := now), None)
  }

  /** The update is not atomic: a rejected surname leaves the new name in place. */
  lemma RejectedSurnameKeepsNewName(props: UserProps, name: string, surname: string, phone: string, now: Instant)
    requires PersonNames.Create(Some(name), PersonNames.Name).Returned?
    requires PersonNames.Create(Some(surname), PersonNames.Surname).Threw?
    ensures ApplyProfileUpdate(props, name, surname, phone, now).props.name.GetValue() == Trim(name)
    ensures ApplyProfileUpdate(props, name, surname, phone, now).props.surname == props.surname
    ensures ApplyProfileUpdate(props, name, surname, phone, now).thrown ==
            Some(BadRequestThrown(PersonNames.LengthMessage(PersonNames.Surname)))
  {
  }

  function CreatedEventOf(eventId: string, id: string, now: Instant, p: UserProps): UserEvent {
    UserCreatedEvent(eventId, id, now, p.email.GetValue(), p.name.GetValue(), p.surname.GetValue())
  }

  function UpdatedEventOf(eventId: string, id: string, now: Instant, p: UserProps): UserEvent {
    UserUpdatedEvent(eventId, id, now, p.email.GetValue(), p.name.GetValue(), p.surname.GetValue())
  }

  function PasswordChangedEventOf(eventId: string, id: string, now: Instant, p: UserProps): UserEvent {
    UserPasswordChangedEvent(eventId, id, now, p.email.GetValue(), p.name.GetValue(), p.surname.GetValue())
  }

  function BlockedEventOf(eventId: string, id: string, now: Instant, p: UserProps): UserEvent {
    UserBlockedEvent(eventId, id, now, p.email.GetValue(), p.name.GetValue(), p.surname.GetValue())
  }

  function ActivatedEventOf(eventId: string, id: string, now: Instant, p: UserProps, prevStatus: Status): UserEvent {
    UserActivatedEvent(eventId, id, now, p.email.GetValue(), p.name.GetValue(), p.surname.GetValue(), prevStatus)
  }

  /** The user aggregate: an aggregate root over `UserProps` raising `UserEvent`s. */
  class User {
    const root: AggregateRoot<UserProps, UserEvent>

    predicate Valid()
      reads root
    {
      root.props.Valid()
    }

    /** `User.reconstitute(id, props)`: rebuilds a stored user without raising an event. */
    constructor Reconstitute(id: string, props: UserProps)
      ensures fresh(root) && root.id == id && root.props == props && root.domainEvents == []
    {
      root := new AggregateRoot(props, id);
    }

    /**
     * `User.create(props)`: builds the value objects, makes an active user with the given
     * id and timestamps, and raises one UserCreatedEvent.
     */
    static method Create(input: NewUser, id: string, now: Instant, eventId: string) returns (r: Try<User>)
      ensures r.Returned? <==> CreateProps(input, id, now).Returned?
      ensures r.Threw? ==> r.thrown == CreateProps(input, id, now).thrown
      ensures r.Returned? ==>
        && fresh(r.value) && fresh(r.value.root) && r.value.Valid()
        && r.value.root.id == id && r.value.root.props == CreateProps(input, id, now).value
        && r.value.root.domainEvents == [CreatedEventOf(eventId, id, now, r.value.root.props)]
    {
      var props := CreateProps(input, id, now);
      if props.Threw? {
        return Threw(props.thrown);
      }
      CreatedPropsValid(input, id, now);
      var user := new User.Reconstitute(id, props.value);
      var event := CreatedEventOf(eventId, id, now, props.value);
      var _ := user.root.AddDomainEvent(Some(event));
      assert user.root.props == props.value && user.root.domainEvents == [event];
      return Returned(user);
    }

    function GetId(): string {
      root.id
    }

    function GetName(): string
      reads root
    {
      root.props.name.GetValue()
    }

    function GetSurname(): string
      reads root
    {
      root.props.surname.GetValue()
    }

    function GetEmail(): string
      reads root
    {
      root.props.email.GetValue()
    }

    function GetPhone(): string
      reads root
    {
      root.props.phone.GetValue()
    }

    /** The `passwordHash` getter: the stored hash, absent for a user without a password. */
    function GetPasswordHash(): (h: Option<string>)
      reads root
      ensures h.None? <==> root.props.passwordHash.None?
      ensures Valid() && h.Some? ==> h.value != ""
    {
      match root.props.passwordHash
      case None => None
      case Some(p) => Some(p.GetValue())
    }

    function GetStatus(): Status
      reads root
    {
      root.props.status
    }

    function GetCreatedAt(): Instant
      reads root
    {
      root.props.createdAt
    }

    function GetUpdatedAt(): Instant
      reads root
    {
      root.props.updatedAt
    }

    /** `changePassword(old, new)`: on success stores the new hash, stamps and raises an event. */
    method ChangePassword(oldPassword: string, newPassword: string, now: Instant, eventId: string)
        returns (o: Outcome)
      modifies root`props, root`domainEvents
      ensures var change := PasswordChange(old(root.props), oldPassword, newPassword);
        if change.Threw? then
          o == Throw(change.thrown) && root.props == old(root.props)
          && root.domainEvents == old(root.domainEvents)
        else
          && o == Pass
          && root.props == old(root.props).(passwordHash := Some(change.value), updatedAt := now)
          && root.domainEvents == old(root.domainEvents) + [PasswordChangedEventOf(eventId, root.id, now, root.props)]
      ensures old(Valid()) ==> Valid()
    {
      var change := PasswordChange(root.props, oldPassword, newPassword);
      if change.Threw? {
        return Throw(change.thrown);
      }
      root.props := root.props.(passwordHash := Some(change.value));
      root.props := root.props.(updatedAt := now);
      var _ := root.AddDomainEvent(Some(PasswordChangedEventOf(eventId, root.id, now, root.props)));
      o := Pass;
    }

    /** `ban()`: an active user becomes banned and raises a UserBlockedEvent; a banned user is left alone. */
    method Ban(now: Instant, eventId: string)
      modifies root`props, root`domainEvents
      ensures old(root.props.status) == BANNED ==>
        root.props == old(root.props) && root.domainEvents == old(root.domainEvents)
      ensures old(root.props.status) == ACTIVE ==>
        && root.props == old(root.props).(status := BANNED, updatedAt := now)
        && root.domainEvents == old(root.domainEvents) + [BlockedEventOf(eventId, root.id, now, root.props)]
      ensures root.props.status == BANNED
      ensures old(Valid()) ==> Valid()
    {
      if root.props.status == BANNED {
        return;
      }
      root.props := root.props.(status := BANNED);
      root.props := root.props.(updatedAt := now);
      var _ := root.AddDomainEvent(Some(BlockedEventOf(eventId, root.id, now, root.props)));
    }

    /**
     * `activate()`: a banned user becomes active and raises a UserActivatedEvent carrying the
     * previous status; an active user is left alone.
     */
    method Activate(now: Instant, eventId: string)
      modifies root`props, root`domainEvents
      ensures old(root.props.status) == ACTIVE ==>
        root.props == old(root.props) && root.domainEvents == old(root.domainEvents)
      ensures old(root.props.status) == BANNED ==>
        && root.props == old(root.props).(status := ACTIVE, updatedAt := now)
        && root.domainEvents == old(root.domainEvents) + [ActivatedEventOf(eventId, root.id, now, root.props, BANNED)]
      ensures root.props.status == ACTIVE
      ensures old(Valid()) ==> Valid()
    {
      if root.props.status == ACTIVE {
        return;
      }
      var prevStatus := root.props.status;
      root.props := root.props.(status := ACTIVE);
      root.props := root.props.(updatedAt := now);
      var _ := root.AddDomainEvent(Some(ActivatedEventOf(eventId, root.id, now, root.props, prevStatus)));
    }

    /**
     * `updateProfile(data)`: assigns the new name, surname and phone in turn, then stamps and
     * raises a UserUpdatedEvent. A factory that throws stops it part way.
     */
    method UpdateProfile(name: string, surname: string, phone: string, now: Instant, eventId: string)
        returns (o: Outcome)
      modifies root`props, root`domainEvents
      ensures var update := ApplyProfileUpdate(old(root.props), name, surname, phone, now);
        && root.props == update.props
        && (update.thrown.Some? ==> o == Throw(update.thrown.value) && root.domainEvents == old(root.domainEvents))
        && (update.thrown.None? ==>
              o == Pass && root.domainEvents == old(root.domainEvents) + [UpdatedEventOf(eventId, root.id, now, root.props)])
      ensures old(Valid()) ==> Valid()
    {
      var newName := PersonNames.Create(Some(name), PersonNames.Name);
      if newName.Threw? {
        return Throw(newName.thrown);
      }
      root.props := root.props.(name := newName.value);
      var newSurname := PersonNames.Create(Some(surname), PersonNames.Surname);
      if newSurname.Threw? {
        return Throw(newSurname.thrown);
      }
      root.props := root.props.(surname := newSurname.value);
      var newPhone := PhoneNumbers.Create(Some(phone));
      if newPhone.Threw? {
        return Throw(newPhone.thrown);
      }
      root.props := root.props.(phone := newPhone.value);
      root.props := root.props.(updatedAt := now);
      var _ := root.AddDomainEvent(Some(UpdatedEventOf(eventId, root.id, now, root.props)));
      o := Pass;
    }
  }

  /** Banning twice raises a single UserBlockedEvent; the second call changes nothing. */
  method BanTwice(user: User, now: Instant, eventId: string, later: Instant, laterEventId: string)
    requires user.root.props.status == ACTIVE
    modifies user.root
    ensures |user.root.domainEvents| == |old(user.root.domainEvents)| + 1
    ensures user.root.props.updatedAt == now
  {
    user.Ban(now, eventId);
    user.Ban(later, laterEventId);
  }
}
