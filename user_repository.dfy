/**
 * The user repository port and the unit of work that commits what it stages
 * (src/user/application/repositories/user.repository.ts; the MikroORM adapters behind them
 * are described only as far as the command and query handlers observe them).
 */
module UserRepositories {
  import opened Optional
  import opened Throwing
  import opened Users
  import opened UserMapper
  import opened Pagination

  /** A change staged in the ORM's unit of work and written at the next commit. */
  datatype Change = Persist(row: UserRow) | Remove(id: string)

  /** The table after the staged changes are written in order. */
  function Apply(rows: map<string, UserRow>, changes: seq<Change>): map<string, UserRow>
    decreases |changes|
  {
    if changes == [] then rows
    else
      var next := match changes[0]
        case Persist(row) => rows[row.id := row]
        case Remove(id) => rows - {id};
      Apply(next, changes[1..])
  }

  /** Every row is stored under its own primary key. */
  predicate KeyedById(rows: map<string, UserRow>) {
    forall id :: id in rows ==> rows[id].id == id
  }

  /** The unique constraint on the email column. */
  predicate UniqueEmails(rows: map<string, UserRow>) {
    forall a, b :: a in rows && b in rows && rows[a].email == rows[b].email ==> a == b
  }

  lemma {:induction false} ApplyKeepsKeyedById(rows: map<string, UserRow>, changes: seq<Change>)
    requires KeyedById(rows)
    ensures KeyedById(Apply(rows, changes))
    decreases |changes|
  {
    if changes != [] {
      var next := match changes[0]
        case Persist(row) => rows[row.id := row]
        case Remove(id) => rows - {id};
      ApplyKeepsKeyedById(next, changes[1..]);
    }
  }

  /** The table a commit leaves, or `None` when the write breaks the unique constraint. */
  function Committed(rows: map<string, UserRow>, staged: seq<Change>): (r: Option<map<string, UserRow>>)
    ensures r.Some? ==> UniqueEmails(r.value)
    ensures KeyedById(rows) && r.Some? ==> KeyedById(r.value)
  {
    var next := Apply(rows, staged);
    assert KeyedById(rows) ==> KeyedById(next) by {
      if KeyedById(rows) {
        ApplyKeepsKeyedById(rows, staged);
      }
    }
    if UniqueEmails(next) then Some(next) else None
  }

  /** Writing one row commits, and stores it under its id, whenever no other row holds its email. */
  lemma CommitSingleRow(rows: map<string, UserRow>, row: UserRow)
    requires UniqueEmails(rows)
    requires forall k :: k in rows && k != row.id ==> rows[k].email != row.email
    ensures Committed(rows, [Persist(row)]) == Some(rows[row.id := row])
  {
    assert [Persist(row)][1..] == [];
    assert Apply(rows, [Persist(row)]) == Apply(rows[row.id := row], []);
  }

  /** Whether a committed row stores exactly this email (the `findByEmail` filter). */
  predicate EmailTaken(rows: map<string, UserRow>, email: string) {
    exists id :: id in rows && rows[id].email == email
  }

  /** Rebuilding the rows under `ids` in order first fails at position `k`, which throws `t`. */
  predicate FirstFailureAt(rows: map<string, UserRow>, ids: seq<string>, k: int, t: Thrown) {
    && 0 <= k < |ids| && ids[k] in rows
    && (forall j :: 0 <= j < k ==> ids[j] in rows && DomainPropsOf(WithoutLazyColumns(rows[ids[j]])).Returned?)
    && DomainPropsOf(WithoutLazyColumns(rows[ids[k]])) == Threw(t)
  }

  /** The password column is lazy: a plain lookup does not load it. */
  function WithoutLazyColumns(row: UserRow): UserRow {
    row.(password := None)
  }

  /** Some committed row with this email cannot be rebuilt, and rebuilding it throws `t`. */
  predicate EmailRowThrows(rows: map<string, UserRow>, email: string, t: Thrown) {
    exists id :: id in rows && rows[id].email == email && DomainPropsOf(WithoutLazyColumns(rows[id])) == Threw(t)
  }

  /** Every committed row with this email can be rebuilt into a user. */
  predicate EmailRowsLoad(rows: map<string, UserRow>, email: string) {
    forall id :: id in rows && rows[id].email == email ==> DomainPropsOf(WithoutLazyColumns(rows[id])).Returned?
  }

  class UserRepository {
    /** The committed table. */
    var rows: map<string, UserRow>
    /** Saves and deletions waiting for the next commit. */
    var staged: seq<Change>

    predicate Valid()
      reads this
    {
      KeyedById(rows) && UniqueEmails(rows)
    }

    constructor (rows: map<string, UserRow>)
      ensures this.rows == rows && staged == []
    {
      this.rows := rows;
      staged := [];
    }

    /** Rebuilds a user from a row, or reports the error the value objects throw. */
    static method Load(row: UserRow) returns (r: Try<Option<User>>)
      ensures r.Returned? <==> DomainPropsOf(row).Returned?
      ensures r.Threw? ==> r.thrown == DomainPropsOf(row).thrown
      ensures r.Returned? ==>
        && r.value.Some? && fresh(r.value.value) && fresh(r.value.value.root)
        && r.value.value.root.id == row.id && r.value.value.root.props == DomainPropsOf(row).value
        && r.value.value.root.domainEvents == []
    {
      var user := ToDomain(row);
      if user.Threw? {
        return Threw(user.thrown);
      }
      return Returned(Some(user.value));
    }

    /** `findById(id)`: the committed user with that id, without its password. */
    method FindById(id: string) returns (r: Try<Option<User>>)
      ensures id !in rows ==> r == Returned(None)
      ensures id in rows ==>
        var row := WithoutLazyColumns(rows[id]);
        && (r.Returned? <==> DomainPropsOf(row).Returned?)
        && (r.Threw? ==> r.thrown == DomainPropsOf(row).thrown)
        && (r.Returned? ==>
              && r.value.Some? && fresh(r.value.value) && fresh(r.value.value.root)
              && r.value.value.root.id == row.id && r.value.value.root.props == DomainPropsOf(row).value
              && r.value.value.root.domainEvents == [])
    {
      if id !in rows {
        return Returned(None);
      }
      r := Load(WithoutLazyColumns(rows[id]));
    }

    /** `findByIdForAuthentication(id)`: the committed user with that id, all columns loaded. */
    method FindByIdForAuthentication(id: string) returns (r: Try<Option<User>>)
      ensures id !in rows ==> r == Returned(None)
      ensures id in rows ==>
        var row := rows[id];
        && (r.Returned? <==> DomainPropsOf(row).Returned?)
        && (r.Threw? ==> r.thrown == DomainPropsOf(row).thrown)
        && (r.Returned? ==>
              && r.value.Some? && fresh(r.value.value) && fresh(r.value.value.root)
              && r.value.value.root.id == row.id && r.value.value.root.props == DomainPropsOf(row).value
              && r.value.value.root.domainEvents == [])
    {
      if id !in rows {
        return Returned(None);
      }
      r := Load(rows[id]);
    }

    /** `findByEmail(email)`: a committed user whose stored email equals `email` exactly. */
    method FindByEmail(email: string) returns (r: Try<Option<User>>)
      ensures !EmailTaken(rows, email) ==> r == Returned(None)
      ensures EmailTaken(rows, email) ==> r != Returned(None)
      ensures r.Threw? ==> EmailRowThrows(rows, email, r.thrown)
      ensures UniqueEmails(rows) ==> (r.Threw? <==> !EmailRowsLoad(rows, email))
      ensures r.Returned? && r.value.Some? ==>
        && fresh(r.value.value) && fresh(r.value.value.root) && r.value.value.root.domainEvents == []
        && exists id :: id in rows && rows[id].email == email
             && r.value.value.root.id == rows[id].id
             && DomainPropsOf(WithoutLazyColumns(rows[id])) == Returned(r.value.value.root.props)
    {
      if id :| id in rows && rows[id].email == email {
        r := Load(WithoutLazyColumns(rows[id]));
      } else {
        r := Returned(None);
      }
    }

    /** `save(user)`: stages the user's row; nothing is written before the commit. */
    method Save(user: User)
      modifies this`staged
      ensures staged == old(staged) + [Persist(ToPersistence(user))]
    {
      staged := staged + [Persist(ToPersistence(user))];
    }

    /** `delete(user)`: stages the removal of the user's row. */
    method Delete(user: User)
      modifies this`staged
      ensures staged == old(staged) + [Remove(user.root.id)]
    {
      staged := staged + [Remove(user.root.id)];
    }

    /**
     * `findAllPaginated(options)`: `matching` lists the ids the search and status filters
     * select, newest first; the page at offset `(page - 1) * limit` is loaded without passwords.
     */
    method FindAllPaginated(matching: seq<string>, page: nat, limit: nat) returns (r: Try<Paginated<User>>)
      requires forall i :: 0 <= i < |matching| ==> matching[i] in rows
      requires page >= 1 && limit >= 1
      ensures r.Returned? ==>
        && r.value.totalItems == |matching| && r.value.currentPage == page && r.value.currentLimit == limit
        && r.value.totalPages == TotalPages(|matching|, limit)
        && LoadedFrom(r.value.data, rows, PageIds(matching, page, limit))
      ensures r.Threw? ==>
        exists id :: id in PageIds(matching, page, limit) && DomainPropsOf(WithoutLazyColumns(rows[id])).Threw?
      ensures r.Threw? ==> exists k :: FirstFailureAt(rows, PageIds(matching, page, limit), k, r.thrown)
    {
      var users := LoadAll(rows, PageIds(matching, page, limit));
      if users.Threw? {
        return Threw(users.thrown);
      }
      r := Returned(NewPaginated(|matching|, users.value, page, limit));
    }
  }

  /** `entities.map(toDomain)` over the rows under `ids`, stopping at the first error. */
  method LoadAll(rows: map<string, UserRow>, ids: seq<string>) returns (r: Try<seq<User>>)
    requires forall id :: id in ids ==> id in rows
    ensures r.Returned? ==> LoadedFrom(r.value, rows, ids)
    ensures r.Threw? ==> exists id :: id in ids && DomainPropsOf(WithoutLazyColumns(rows[id])).Threw?
    ensures r.Threw? ==> exists k :: FirstFailureAt(rows, ids, k, r.thrown)
  {
    var users: seq<User> := [];
    var i := 0;
    while i < |ids|
      invariant 0 <= i <= |ids|
      invariant LoadedFrom(users, rows, ids[..i])
    {
      var next := LoadNext(rows, ids, users, i);
      if next.Threw? {
        return Threw(next.thrown);
      }
      users := next.value;
      i := i + 1;
    }
    assert ids[..i] == ids;
    r := Returned(users);
  }

  /** One step of the map: rebuilds the row under `ids[i]` and appends it. */
  method LoadNext(rows: map<string, UserRow>, ids: seq<string>, users: seq<User>, i: nat)
    returns (r: Try<seq<User>>)
    requires i < |ids| && forall id :: id in ids ==> id in rows
    requires LoadedFrom(users, rows, ids[..i])
    ensures r.Returned? ==> LoadedFrom(r.value, rows, ids[..i + 1])
    ensures r.Threw? ==> exists id :: id in ids && DomainPropsOf(WithoutLazyColumns(rows[id])).Threw?
    ensures r.Threw? ==> FirstFailureAt(rows, ids, i, r.thrown)
  {
    var row := WithoutLazyColumns(rows[ids[i]]);
    var user := ToDomain(row);
    if user.Threw? {
      assert ids[i] in ids;
      LoadedFromLoads(users, rows, ids, i);
      return Threw(user.thrown);
    }
    LoadedFromExtend(users, rows, ids[..i], user.value, ids[i]);
    PrefixExtend(ids, i);
    r := Returned(users + [user.value]);
  }

  /** The ids on page `page` of `limit` items: offset `(page - 1) * limit`, at most `limit` of them. */
  function PageIds(matching: seq<string>, page: nat, limit: nat): (ids: seq<string>)
    requires page >= 1
    ensures |ids| <= limit
    ensures forall id :: id in ids ==> id in matching
  {
    var start := (page - 1) * limit;
    if start >= |matching| then [] else matching[start..Min(start + limit, |matching|)]
  }

  /** `user` is the row under `id`, rebuilt without its password. */
  predicate Rebuilt(user: User, rows: map<string, UserRow>, id: string)
    reads user.root
  {
    && id in rows && user.root.id == rows[id].id
    && DomainPropsOf(WithoutLazyColumns(rows[id])) == Returned(user.root.props)
  }

  /** `users` are the rows under `ids`, rebuilt in order without their passwords. */
  predicate LoadedFrom(users: seq<User>, rows: map<string, UserRow>, ids: seq<string>)
    reads set u | u in users :: u.root
    decreases |ids|
  {
    && |users| == |ids|
    && (|ids| > 0 ==>
          && Rebuilt(users[|ids| - 1], rows, ids[|ids| - 1])
          && LoadedFrom(users[..|ids| - 1], rows, ids[..|ids| - 1]))
  }

  lemma LoadedFromExtend(users: seq<User>, rows: map<string, UserRow>, ids: seq<string>, user: User, id: string)
    requires LoadedFrom(users, rows, ids) && Rebuilt(user, rows, id)
    ensures LoadedFrom(users + [user], rows, ids + [id])
  {
    assert (users + [user])[..|ids|] == users && (ids + [id])[..|ids|] == ids;
  }

  /** Every row before position `i` was rebuilt when the users of that prefix were loaded. */
  lemma LoadedFromLoads(users: seq<User>, rows: map<string, UserRow>, ids: seq<string>, i: nat)
    requires i <= |ids| && LoadedFrom(users, rows, ids[..i])
    ensures forall j :: 0 <= j < i ==> ids[j] in rows && DomainPropsOf(WithoutLazyColumns(rows[ids[j]])).Returned?
  {
    forall j | 0 <= j < i
      ensures ids[j] in rows && DomainPropsOf(WithoutLazyColumns(rows[ids[j]])).Returned?
    {
      LoadedFromAt(users, rows, ids[..i], j);
    }
  }

  /** Each user in a loaded sequence is the row under the id at the same position. */
  lemma {:induction false} LoadedFromAt(users: seq<User>, rows: map<string, UserRow>, ids: seq<string>, j: int)
    requires LoadedFrom(users, rows, ids) && 0 <= j < |ids|
    ensures |users| == |ids| && Rebuilt(users[j], rows, ids[j])
    decreases |ids|
  {
    if j < |ids| - 1 {
      LoadedFromAt(users[..|ids| - 1], rows, ids[..|ids| - 1], j);
    }
  }

  lemma PrefixExtend<T>(s: seq<T>, i: nat)
    requires i < |s|
    ensures s[..i] + [s[i]] == s[..i + 1]
  {
  }

  function Min(a: int, b: int): int {
    if a <= b then a else b
  }

  /** The MikroORM unit of work: `commitChanges` flushes what the repository staged. */
  class UnitOfWork {
    const repository: UserRepository
    /** How many times a commit was asked for. */
    var commits: nat

    constructor (repository: UserRepository)
      ensures this.repository == repository && commits == 0
    {
      this.repository := repository;
      commits := 0;
    }

    /**
     * Writes every staged change in one transaction. A write that breaks the unique email
     * constraint fails as a whole: nothing is written and the error propagates.
     */
    method CommitChanges() returns (o: Outcome)
      modifies this`commits, repository`rows, repository`staged
      ensures commits == old(commits) + 1
      ensures var next := Committed(old(repository.rows), old(repository.staged));
        if next.Some? then o == Pass && repository.rows == next.value && repository.staged == []
        else o == Throw(InfrastructureThrown) && repository.rows == old(repository.rows)
             && repository.staged == old(repository.staged)
      ensures old(repository.Valid()) ==> repository.Valid()
    {
      commits := commits + 1;
      var next := Committed(repository.rows, repository.staged);
      if next.None? {
        return Throw(InfrastructureThrown);
      }
      repository.rows := next.value;
      repository.staged := [];
      o := Pass;
    }
  }
}
