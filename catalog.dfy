/**
 * The database catalog the authenticator reads and changes: users, roles,
 * the grants (rights) between them, the object-id allocator and the
 * system session's commits.
 */
module Catalog {
  import opened Wrappers

  /** A Java `byte`. */
  type JavaByte = b: int | -128 <= b < 128

  /** The grant of a role to a user; a temporary grant is never persisted. */
  datatype Right = Right(temporary: bool)

  datatype Role = Role(id: int, name: string, system: bool)

  /** A user; `grants` maps a role name to the right by which the user holds it. */
  datatype User = User(
    id: int,
    name: string,
    systemUser: bool,
    passwordHash: seq<JavaByte>,
    temporary: bool,
    grants: map<string, Right>)

  /** A snapshot of the catalog. */
  datatype Catalog = Catalog(users: map<string, User>, roles: map<string, Role>, nextObjectId: int, commits: nat)

  /**
   * Catalog consistency: objects are filed under their own names, every
   * allocated id lies below the allocator, and grants refer to existing roles.
   */
  ghost predicate WellFormed(c: Catalog) {
    && 0 <= c.nextObjectId
    && (forall n :: n in c.users ==> c.users[n].name == n && c.users[n].id < c.nextObjectId)
    && (forall n :: n in c.users ==> c.users[n].grants.Keys <= c.roles.Keys)
    && (forall n :: n in c.roles ==> c.roles[n].name == n && 0 <= c.roles[n].id < c.nextObjectId)
  }

  /** The roles a user holds through a temporary right. */
  function TemporaryRoles(grants: map<string, Right>): set<string> {
    set n | n in grants && grants[n].temporary
  }

  /** `User.revokeTemporaryRightsOnRoles`: drop exactly the temporary grants. */
  function RevokeTemporaryRights(grants: map<string, Right>): (r: map<string, Right>)
    ensures r.Keys == grants.Keys - TemporaryRoles(grants)
    ensures forall n :: n in r ==> r[n] == grants[n]
    ensures TemporaryRoles(r) == {}
  {
    map n | n in grants && !grants[n].temporary :: grants[n]
  }

  /** Revoking twice is revoking once. */
  lemma RevokeIdempotent(grants: map<string, Right>)
    ensures RevokeTemporaryRights(RevokeTemporaryRights(grants)) == RevokeTemporaryRights(grants)
  {
  }

  /**
   * The database collaborator: only the catalog operations the authenticator
   * calls (`findUser`, `findRole`, `allocateObjectId`, `addDatabaseObject`,
   * in-place changes of a user's grants, and the system session's commit).
   */
  class Database {
    var users: map<string, User>
    var roles: map<string, Role>
    var nextObjectId: int
    var commits: nat

    constructor (c: Catalog)
      ensures State() == c
    {
      users, roles, nextObjectId, commits := c.users, c.roles, c.nextObjectId, c.commits;
    }

    function State(): Catalog
      reads this
    {
      Catalog(users, roles, nextObjectId, commits)
    }

    /** `findUser(name)`: the user filed under `name`, or null. */
    function FindUser(name: string): (r: Option<User>)
      reads this
      ensures r.Some? <==> name in users
      ensures r.Some? ==> r.value == users[name]
    {
      if name in users then Some(users[name]) else None
    }

    /** `findRole(name)`: the role filed under `name`, or null. */
    function FindRole(name: string): (r: Option<Role>)
      reads this
      ensures r.Some? <==> name in roles
      ensures r.Some? ==> r.value == roles[name]
    {
      if name in roles then Some(roles[name]) else None
    }

    /** `allocateObjectId()`: a fresh id, never handed out before. */
    method AllocateObjectId() returns (id: int)
      modifies this`nextObjectId
      ensures id == old(nextObjectId) && nextObjectId == id + 1
    {
      id := nextObjectId;
      nextObjectId := nextObjectId + 1;
    }

    /** `addDatabaseObject(session, user)`. */
    method AddUser(u: User)
      modifies this`users
      ensures users == old(users)[u.name := u]
    {
      users := users[u.name := u];
    }

    /** `addDatabaseObject(session, role)`. */
    method AddRole(r: Role)
      modifies this`roles
      ensures roles == old(roles)[r.name := r]
    {
      roles := roles[r.name := r];
    }

    /** An in-place change of the user object filed under `name`. */
    method UpdateUser(name: string, u: User)
      requires name in users
      modifies this`users
      ensures users == old(users)[name := u]
    {
      users := users[name := u];
    }

    /** `getSystemSession().commit(false)`. */
    method Commit()
      modifies this`commits
      ensures commits == old(commits) + 1
    {
      commits := commits + 1;
    }
  }
}
