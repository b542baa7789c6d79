/** The read model handed to controllers (src/user/application/mappers/user-dto.mapper.ts). */
module UserDtos {
  import opened Optional
  import opened DomainEvents
  import opened UserStatus
  import opened Users
  import opened UserMapper

  datatype UserDto = UserDto(
    id: string,
    name: string,
    surname: string,
    email: string,
    phone: string,
    status: Status,
    updatedAt: Instant,
    createdAt: Instant,
    passwordHash: Option<string>)

  /** `toDto` on the aggregate's id and properties; an empty hash is dropped by `|| undefined`. */
  function DtoOf(id: string, props: UserProps): (dto: UserDto)
  {
    UserDto(
      id, props.name.GetValue(), props.surname.GetValue(), props.email.GetValue(),
      props.phone.GetValue(), props.status, props.updatedAt, props.createdAt,
      match props.passwordHash
      case None => None
      case Some(p) => if p.GetValue() == "" then None else Some(p.GetValue()))
  }

  /** The DTO shows exactly what the stored row holds. */
  lemma DtoAgreesWithRow(id: string, props: UserProps)
    requires props.Valid()
    ensures var dto, row := DtoOf(id, props), RowOf(id, props);
      && dto.id == row.id && dto.name == row.name && dto.surname == row.surname
      && dto.email == row.email && dto.phone == row.phone && dto.status == row.status
      && dto.createdAt == row.createdAt && dto.updatedAt == row.updatedAt
      && dto.passwordHash == row.password
  {
  }

  /**
   * `toDto(user)`: each field is read through the user's getters, and an empty hash becomes
   * undefined.
   */
  function ToDto(user: User): (dto: UserDto)
    reads user.root
    ensures dto == DtoOf(user.root.id, user.root.props)
    ensures dto.id == user.GetId() && dto.status == user.GetStatus()
    ensures dto.createdAt == user.GetCreatedAt() && dto.updatedAt == user.GetUpdatedAt()
    ensures dto.name == user.GetName() && dto.surname == user.GetSurname()
    ensures dto.email == user.GetEmail() && dto.phone == user.GetPhone()
    ensures dto.passwordHash == if user.GetPasswordHash() == Some("") then None else user.GetPasswordHash()
    ensures user.Valid() ==> dto.passwordHash == user.GetPasswordHash()
  {
    DtoOf(user.root.id, user.root.props)
  }

  /** `toDtoList(users)`: one DTO per user, in order. */
  function ToDtoList(users: seq<User>): (dtos: seq<UserDto>)
    reads set u | u in users :: u.root
    ensures |dtos| == |users|
    ensures forall i :: 0 <= i < |users| ==> dtos[i] == ToDto(users[i])
  {
    if users == [] then [] else [ToDto(users[0])] + ToDtoList(users[1..])
  }
}
