/**
 * The mapping between the User aggregate and its `users` table row
 * (src/user/infrastructure/persistence/mikro-orm/mappers/user.mapper.ts).
 */
module UserMapper {
  import opened Optional
  import opened Throwing
  import opened DomainEvents
  import opened UserStatus
  import opened Users
  import PersonNames
  import Emails
  import PhoneNumbers
  import Passwords
  import Text

  /** The stored columns the domain reads and writes; a missing password is `None`. */
  datatype UserRow = UserRow(
    id: string,
    createdAt: Instant,
    updatedAt: Instant,
    name: string,
    surname: string,
    email: string,
    phone: string,
    password: Option<string>,
    status: Status)

  /** `toPersistence` on the aggregate's id and properties. */
  function RowOf(id: string, props: UserProps): (row: UserRow)
    ensures row.id == id && row.status == props.status
    ensures row.createdAt == props.createdAt && row.updatedAt == props.updatedAt
    ensures row.name == props.name.GetValue() && row.surname == props.surname.GetValue()
    ensures row.email == props.email.GetValue() && row.phone == props.phone.GetValue()
    ensures row.password.None? <==> props.passwordHash.None?
    ensures props.passwordHash.Some? ==> row.password == Some(props.passwordHash.value.GetValue())
  {
    UserRow(
      id, props.createdAt, props.updatedAt,
      props.name.GetValue(), props.surname.GetValue(), props.email.GetValue(), props.phone.GetValue(),
      match props.passwordHash
      case None => None
      case Some(p) => Some(p.GetValue()),
      props.status)
  }

  /** `toPersistence(user)`: each column is read through the user's getters. */
  function ToPersistence(user: User): (row: UserRow)
    reads user.root
    ensures row == RowOf(user.root.id, user.root.props)
    ensures row.id == user.GetId() && row.status == user.GetStatus()
    ensures row.createdAt == user.GetCreatedAt() && row.updatedAt == user.GetUpdatedAt()
    ensures row.name == user.GetName() && row.surname == user.GetSurname()
    ensures row.email == user.GetEmail() && row.phone == user.GetPhone()
    ensures row.password == user.GetPasswordHash()
  {
    RowOf(user.root.id, user.root.props)
  }

  /** The password column read back: a stored hash through `Password.fromHash`, else none. */
  function StoredPassword(column: Option<string>): (p: Option<Passwords.Password>)
    ensures p.None? <==> column.None? || column == Some("")
    ensures p.Some? ==> p.value.Valid() && p.value.GetValue() == column.value
  {
    match column
    case None => None
    case Some(hash) => if hash == "" then None else Some(Passwords.FromHash(hash).value)
  }

  /**
   * The properties `toDomain` rebuilds from a row: the value objects are recreated (and may
   * throw on stored data they reject), an empty or missing password means no password.
   */
  function DomainPropsOf(row: UserRow): (r: Try<UserProps>)
  {
    var name :- PersonNames.Create(Some(row.name), PersonNames.Name);
    var surname :- PersonNames.Create(Some(row.surname), PersonNames.Surname);
    var email :- Emails.Create(Some(row.email));
    var phone :- PhoneNumbers.Create(Some(row.phone));
    Returned(UserProps(row.id, name, surname, email, phone, row.status,
                       StoredPassword(row.password), row.createdAt, row.updatedAt))
  }

  /**
   * When a row can be rebuilt, and what a rebuilt user holds: valid value objects and the row's
   * id, status and timestamps. A rejected stored value throws the error of the first factory
   * that rejects it, in the order name, surname, email, phone.
   */
  lemma DomainPropsOfSpec(row: UserRow)
    ensures DomainPropsOf(row).Returned? <==>
      && PersonNames.Create(Some(row.name), PersonNames.Name).Returned?
      && PersonNames.Create(Some(row.surname), PersonNames.Surname).Returned?
      && Emails.Create(Some(row.email)).Returned?
      && PhoneNumbers.Create(Some(row.phone)).Returned?
    ensures PersonNames.Create(Some(row.name), PersonNames.Name).Threw? ==>
      DomainPropsOf(row) == Threw(PersonNames.Create(Some(row.name), PersonNames.Name).thrown)
    ensures PersonNames.Create(Some(row.name), PersonNames.Name).Returned? &&
            PersonNames.Create(Some(row.surname), PersonNames.Surname).Threw? ==>
      DomainPropsOf(row) == Threw(PersonNames.Create(Some(row.surname), PersonNames.Surname).thrown)
    ensures PersonNames.Create(Some(row.name), PersonNames.Name).Returned? &&
            PersonNames.Create(Some(row.surname), PersonNames.Surname).Returned? &&
            Emails.Create(Some(row.email)).Threw? ==>
      DomainPropsOf(row) == Threw(Emails.Create(Some(row.email)).thrown)
    ensures PersonNames.Create(Some(row.name), PersonNames.Name).Returned? &&
            PersonNames.Create(Some(row.surname), PersonNames.Surname).Returned? &&
            Emails.Create(Some(row.email)).Returned? &&
            PhoneNumbers.Create(Some(row.phone)).Threw? ==>
      DomainPropsOf(row) == Threw(PhoneNumbers.Create(Some(row.phone)).thrown)
    ensures var r := DomainPropsOf(row);
      r.Returned? ==>
      && r.value.Valid() && r.value.id == row.id && r.value.status == row.status
      && r.value.createdAt == row.createdAt && r.value.updatedAt == row.updatedAt
      && (r.value.passwordHash.None? <==> row.password.None? || row.password == Some(""))
      && r.value.name.GetValue() == Text.Trim(row.name) && r.value.surname.GetValue() == Text.Trim(row.surname)
      && r.value.email.GetValue() == Emails.Normalize(row.email) && r.value.phone.GetValue() == row.phone
  {
    var name := PersonNames.Create(Some(row.name), PersonNames.Name);
    var surname := PersonNames.Create(Some(row.surname), PersonNames.Surname);
    var email := Emails.Create(Some(row.email));
    var phone := PhoneNumbers.Create(Some(row.phone));
    if name.Returned? && surname.Returned? && email.Returned? && phone.Returned? {
      var passwordHash := StoredPassword(row.password);
      assert DomainPropsOf(row) == Returned(UserProps(row.id, name.value, surname.value, email.value,
        phone.value, row.status, passwordHash, row.createdAt, row.updatedAt));
    }
  }

  /** Storing a valid user and loading it back gives the same properties. */
  lemma {:induction false} RoundTrip(id: string, props: UserProps)
    requires props.Valid() && props.id == id
    ensures DomainPropsOf(RowOf(id, props)) == Returned(props)
  {
    PersonNames.CreateOwnValue(props.name, PersonNames.Name);
    PersonNames.CreateOwnValue(props.surname, PersonNames.Surname);
    Emails.CreateOwnValue(props.email);
  }

  /** A valid user written by `toPersistence` is rebuilt by `toDomain` with the same properties. */
  lemma ToPersistenceRoundTrip(user: User)
    requires user.Valid() && user.root.props.id == user.root.id
    ensures DomainPropsOf(ToPersistence(user)) == Returned(user.root.props)
  {
    RoundTrip(user.root.id, user.root.props);
  }

  /** `toDomain(entity)`: a reconstituted user, without events. */
  method ToDomain(row: UserRow) returns (r: Try<User>)
    ensures r.Returned? <==> DomainPropsOf(row).Returned?
    ensures r.Threw? ==> r.thrown == DomainPropsOf(row).thrown
    ensures r.Returned? ==>
      && fresh(r.value) && fresh(r.value.root)
      && r.value.root.id == row.id && r.value.root.props == DomainPropsOf(row).value
      && r.value.root.domainEvents == []
  {
    var props := DomainPropsOf(row);
    if props.Threw? {
      return Threw(props.thrown);
    }
    var user := new User.Reconstitute(row.id, props.value);
    return Returned(user);
  }
}
