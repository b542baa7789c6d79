/**
 * The read side: look a user up by id or email, or list a page of users
 * (src/user/application/queries/handlers/).
 */
module UserQueries {
  import opened Optional
  import opened Throwing
  import opened Users
  import opened UserMapper
  import opened UserDtos
  import opened UserRepositories
  import opened Pagination
  import Emails

  /** A user read without its lazy password column never shows a password hash. */
  lemma LazyReadHidesPassword(row: UserRow)
    requires DomainPropsOf(WithoutLazyColumns(row)).Returned?
    ensures DtoOf(row.id, DomainPropsOf(WithoutLazyColumns(row)).value).passwordHash.None?
  {
    DomainPropsOfSpec(WithoutLazyColumns(row));
  }

  class GetUserByIdHandler {
    const userRepository: UserRepository

    constructor (userRepository: UserRepository)
      ensures this.userRepository == userRepository
    {
      this.userRepository := userRepository;
    }

    /** `execute(query)`: the user's DTO, or null when no committed user has that id. */
    method Execute(userId: string) returns (r: Try<Option<UserDto>>)
      ensures userId !in userRepository.rows ==> r == Returned(None)
      ensures userId in userRepository.rows ==>
        var row := WithoutLazyColumns(userRepository.rows[userId]);
        var props := DomainPropsOf(row);
        && (props.Threw? ==> r == Threw(props.thrown))
        && (props.Returned? ==> r == Returned(Some(DtoOf(row.id, props.value))))
      ensures r.Returned? && r.value.Some? ==> r.value.value.passwordHash.None?
    {
      var user := userRepository.FindById(userId);
      if user.Threw? {
        return Threw(user.thrown);
      }
      if user.value.None? {
        return Returned(None);
      }
      LazyReadHidesPassword(userRepository.rows[userId]);
      r := Returned(Some(ToDto(user.value.value)));
    }
  }

  class GetUserByEmailHandler {
    const userRepository: UserRepository

    constructor (userRepository: UserRepository)
      ensures this.userRepository == userRepository
    {
      this.userRepository := userRepository;
    }

    /** `execute(query)`: the DTO of a user stored under exactly that email, or null. */
    method Execute(email: string) returns (r: Try<Option<UserDto>>)
      ensures !EmailTaken(userRepository.rows, email) ==> r == Returned(None)
      ensures EmailTaken(userRepository.rows, email) ==> r != Returned(None)
      ensures r.Returned? && r.value.Some? ==>
        && r.value.value.email == Emails.Normalize(email)
        && r.value.value.passwordHash.None?
        && exists id :: id in userRepository.rows && userRepository.rows[id].email == email
             && r.value.value.id == userRepository.rows[id].id
             && DomainPropsOf(WithoutLazyColumns(userRepository.rows[id])).Returned?
             && r.value.value == DtoOf(userRepository.rows[id].id,
                                       DomainPropsOf(WithoutLazyColumns(userRepository.rows[id])).value)
      ensures r.Threw? ==> EmailRowThrows(userRepository.rows, email, r.thrown)
      ensures UniqueEmails(userRepository.rows) ==> (r.Threw? <==> !EmailRowsLoad(userRepository.rows, email))
    {
      var user := userRepository.FindByEmail(email);
      if user.Threw? {
        return Threw(user.thrown);
      }
      if user.value.None? {
        return Returned(None);
      }
      var found := user.value.value;
      ghost var id :| && id in userRepository.rows && userRepository.rows[id].email == email
                      && found.root.id == userRepository.rows[id].id
                      && DomainPropsOf(WithoutLazyColumns(userRepository.rows[id])) == Returned(found.root.props);
      DomainPropsOfSpec(WithoutLazyColumns(userRepository.rows[id]));
      r := Returned(Some(ToDto(found)));
    }
  }

  /** The DTOs of the users stored under `ids`, read without passwords. */
  predicate DtosOf(dtos: seq<UserDto>, rows: map<string, UserRow>, ids: seq<string>) {
    && |dtos| == |ids|
    && forall i :: 0 <= i < |ids| ==>
         && ids[i] in rows
         && var props := DomainPropsOf(WithoutLazyColumns(rows[ids[i]]));
         && props.Returned? && dtos[i] == DtoOf(rows[ids[i]].id, props.value)
  }

  class GetAllUsersHandler {
    const userRepository: UserRepository

    constructor (userRepository: UserRepository)
      ensures this.userRepository == userRepository
    {
      this.userRepository := userRepository;
    }

    /**
     * `execute(query)`: the repository's page with every user turned into a DTO and the
     * totals carried over. `matching` stands for the ids the query's filters select, newest
     * first; `page` and `limit` are those of a validated query.
     */
    method Execute(matching: seq<string>, page: nat, limit: nat) returns (r: Try<Paginated<UserDto>>)
      requires forall i :: 0 <= i < |matching| ==> matching[i] in userRepository.rows
      requires page >= 1 && limit >= 1
      ensures r.Returned? ==>
        && r.value.totalItems == |matching| && r.value.currentPage == page
        && r.value.currentLimit == limit && r.value.totalPages == TotalPages(|matching|, limit)
        && DtosOf(r.value.data, userRepository.rows, PageIds(matching, page, limit))
        && forall i :: 0 <= i < |r.value.data| ==> r.value.data[i].passwordHash.None?
      ensures r.Threw? ==>
        exists id :: id in PageIds(matching, page, limit) && DomainPropsOf(WithoutLazyColumns(userRepository.rows[id])).Threw?
      ensures r.Threw? ==> exists k :: FirstFailureAt(userRepository.rows, PageIds(matching, page, limit), k, r.thrown)
    {
      var paginatedUsers := userRepository.FindAllPaginated(matching, page, limit);
      if paginatedUsers.Threw? {
        return Threw(paginatedUsers.thrown);
      }
      var fetched := paginatedUsers.value;
      var dtos := ToDtoList(fetched.data);
      PageDtos(fetched.data, dtos, userRepository.rows, PageIds(matching, page, limit));
      r := Returned(NewPaginated(fetched.totalItems, dtos, fetched.currentPage, fetched.currentLimit));
    }
  }

  lemma PageDtos(users: seq<User>, dtos: seq<UserDto>, rows: map<string, UserRow>, ids: seq<string>)
    requires LoadedFrom(users, rows, ids)
    requires |dtos| == |users| && forall i :: 0 <= i < |users| ==> dtos[i] == DtoOf(users[i].root.id, users[i].root.props)
    ensures DtosOf(dtos, rows, ids)
    ensures forall i :: 0 <= i < |dtos| ==> dtos[i].passwordHash.None?
  {
    forall i | 0 <= i < |ids|
      ensures && ids[i] in rows
              && var props := DomainPropsOf(WithoutLazyColumns(rows[ids[i]]));
              && props.Returned? && dtos[i] == DtoOf(rows[ids[i]].id, props.value)
      ensures dtos[i].passwordHash.None?
    {
      LoadedFromAt(users, rows, ids, i);
      LazyReadHidesPassword(rows[ids[i]]);
    }
  }
}
