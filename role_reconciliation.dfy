/**
 * What `DefaultAuthenticator.updateRoles` does to the catalog, stated as
 * values: the candidate role names are the union of the mappers' answers;
 * each non-empty candidate is resolved against the catalog (created there
 * when missing roles may be created, silently skipped otherwise) and granted
 * to the user through a temporary right unless the user already holds it.
 */
module RoleReconciliation {
  import opened Wrappers
  import opened Catalog
  import opened Plugins

  /**
   * The union of the mappers' role sets, taken in order; the first mapper
   * that throws ends the collection with its exception.
   */
  function CandidateRoles(outcomes: seq<MapperOutcome>): (r: Result<set<string>, string>)
    ensures r.Success? <==> forall i :: 0 <= i < |outcomes| ==> !outcomes[i].MapperThrew?
    ensures r.Success? ==>
      forall n :: n in r.value <==> exists i :: 0 <= i < |outcomes| && outcomes[i].Roles? && n in outcomes[i].names
    ensures r.Failure? ==>
      exists i :: 0 <= i < |outcomes| && outcomes[i] == MapperThrew(r.error)
        && forall j :: 0 <= j < i ==> !outcomes[j].MapperThrew?
  {
    if |outcomes| == 0 then Success({})
    else
      var prefix := outcomes[..|outcomes| - 1];
      var last := outcomes[|outcomes| - 1];
      match CandidateRoles(prefix)
      case Failure(e) =>
        assert forall j :: 0 <= j < |prefix| ==> prefix[j] == outcomes[j];
        Failure(e)
      case Success(acc) =>
        assert forall j :: 0 <= j < |prefix| ==> prefix[j] == outcomes[j];
        match last
        case MapperThrew(e) => Failure(e)
        case NullRoles => Success(acc)
        case Roles(names) => Success(acc + names)
  }

  /** The candidates that end up granted: non-empty, and existing or creatable. */
  function Resolved(candidates: set<string>, existing: set<string>, createMissing: bool): set<string> {
    set n | n in candidates && n != "" && (n in existing || createMissing)
  }

  /** The candidates for which a new role is created. */
  function Created(candidates: set<string>, existing: set<string>, createMissing: bool): set<string> {
    set n | n in candidates && n != "" && n !in existing && createMissing
  }

  /** The user's grants after a temporary right was added for every role in `roles` not already held. */
  function GrantTemporary(grants: map<string, Right>, roles: set<string>): map<string, Right> {
    map n | n in grants.Keys + roles :: if n in grants then grants[n] else Right(true)
  }

  /**
   * Processing one candidate name for `user` (one iteration of the loop over
   * the role set): skip "", create the role if missing and allowed, and grant
   * it temporarily if it exists and is not yet held.
   */
  function ReconcileOne(c: Catalog, user: string, name: string, createMissing: bool): (r: Catalog)
    requires user in c.users
    ensures user in r.users
  {
    if name == "" then c
    else
      var c1 :=
        if name !in c.roles && createMissing
        then c.(roles := c.roles[name := Role(c.nextObjectId, name, false)], nextObjectId := c.nextObjectId + 1)
        else c;
      if name !in c1.roles then c1
      else
        var u := c1.users[user];
        if name in u.grants then c1
        else c1.(users := c1.users[user := u.(grants := u.grants[name := Right(true)])])
  }

  /**
   * `roles` extends `before` by exactly the roles named in `created`, each
   * filed under its name, not a system role, with distinct ids drawn from
   * the allocator range `[from, to)`, which they use up.
   */
  ghost predicate RolesExtended(before: map<string, Role>, roles: map<string, Role>, created: set<string>, from: int, to: int) {
    && (forall n :: n in roles <==> n in before || n in created)
    && (forall n :: n in before ==> n in roles && roles[n] == before[n])
    && FreshRoles(roles, created, from, to)
    && to == from + |created|
  }

  /** The roles named in `created` are filed under their names, not system roles, with distinct ids in `[from, to)`. */
  ghost predicate FreshRoles(roles: map<string, Role>, created: set<string>, from: int, to: int) {
    && (forall n :: n in created ==> n in roles && roles[n].name == n && !roles[n].system && from <= roles[n].id < to)
    && (forall n, m :: n in created && m in created && n != m ==> roles[n].id != roles[m].id)
  }

  /** The users after `user` was granted the resolved roles: no one else changes. */
  function UsersReconciled(before: Catalog, user: string, done: set<string>, createMissing: bool): map<string, User>
    requires user in before.users
  {
    var u := before.users[user];
    before.users[user := u.(grants := GrantTemporary(u.grants, Resolved(done, before.roles.Keys, createMissing)))]
  }

  /**
   * `after` is `before` with every name in `done` processed, in whatever order
   * the role set was iterated: roles created for exactly the creatable
   * missing names, with fresh distinct ids; temporary grants added for every
   * resolved role the user did not hold; nothing else changed, no commit.
   */
  ghost predicate Reconciled(before: Catalog, after: Catalog, user: string, done: set<string>, createMissing: bool)
    requires user in before.users
  {
    && after.commits == before.commits
    && after.users == UsersReconciled(before, user, done, createMissing)
    && RolesExtended(before.roles, after.roles, Created(done, before.roles.Keys, createMissing),
                     before.nextObjectId, after.nextObjectId)
  }

  /** Nothing processed, nothing changed. */
  lemma ReconciledStart(c: Catalog, user: string, createMissing: bool)
    requires user in c.users
    ensures Reconciled(c, c, user, {}, createMissing)
  {
    var u := c.users[user];
    assert Resolved({}, c.roles.Keys, createMissing) == {};
    assert GrantTemporary(u.grants, {}) == u.grants;
    assert c.users[user := u] == c.users;
    assert Created({}, c.roles.Keys, createMissing) == {};
  }

  lemma CreatedAdd(done: set<string>, name: string, existing: set<string>, createMissing: bool)
    requires name !in done
    ensures name !in Created(done, existing, createMissing)
    ensures Created(done + {name}, existing, createMissing)
         == if name != "" && name !in existing && createMissing
            then Created(done, existing, createMissing) + {name}
            else Created(done, existing, createMissing)
  {
  }

  lemma ResolvedAdd(done: set<string>, name: string, existing: set<string>, createMissing: bool)
    ensures Resolved(done + {name}, existing, createMissing)
         == if name != "" && (name in existing || createMissing)
            then Resolved(done, existing, createMissing) + {name}
            else Resolved(done, existing, createMissing)
  {
  }

  /** A role added with the allocator's next id is fresh. */
  lemma FreshStep(roles: map<string, Role>, created: set<string>, from: int, to: int, name: string)
    requires FreshRoles(roles, created, from, to)
    requires name !in created && from <= to
    ensures FreshRoles(roles[name := Role(to, name, false)], created + {name}, from, to + 1)
  {
    var roles' := roles[name := Role(to, name, false)];
    var created' := created + {name};
    forall n, m | n in created' && m in created' && n != m ensures roles'[n].id != roles'[m].id {
      if n == name {
        assert roles[m].id < to;
      } else if m == name {
        assert roles[n].id < to;
      }
    }
  }

  /** Adding a role with the allocator's next id keeps `RolesExtended`. */
  lemma RolesStep(before: map<string, Role>, roles: map<string, Role>, created: set<string>, from: int, to: int, name: string)
    requires RolesExtended(before, roles, created, from, to)
    requires name !in before && name !in created
    ensures RolesExtended(before, roles[name := Role(to, name, false)], created + {name}, from, to + 1)
  {
    assert |created + {name}| == |created| + 1;
    FreshStep(roles, created, from, to, name);
  }

  /** Granting one more resolved role keeps the users in step with `done`. */
  lemma UsersStep(before: Catalog, user: string, done: set<string>, name: string, createMissing: bool)
    requires user in before.users
    requires name != "" && (name in before.roles || createMissing)
    ensures var g := UsersReconciled(before, user, done, createMissing)[user].grants;
      UsersReconciled(before, user, done + {name}, createMissing)
        == if name in g then UsersReconciled(before, user, done, createMissing)
           else UsersReconciled(before, user, done, createMissing)[user := before.users[user].(grants := g[name := Right(true)])]
  {
    var existing := before.roles.Keys;
    var g0 := before.users[user].grants;
    var resolved := Resolved(done, existing, createMissing);
    ResolvedAdd(done, name, existing, createMissing);
    var g := GrantTemporary(g0, resolved);
    if name in g {
      assert GrantTemporary(g0, resolved + {name}) == g;
    } else {
      assert GrantTemporary(g0, resolved + {name}) == g[name := Right(true)];
    }
  }

  /** Processing one more name keeps `Reconciled`: the loop's step is independent of the iteration order. */
  lemma ReconcileStep(before: Catalog, mid: Catalog, user: string, done: set<string>, name: string, createMissing: bool)
    requires user in before.users
    requires Reconciled(before, mid, user, done, createMissing)
    requires name !in done
    ensures Reconciled(before, ReconcileOne(mid, user, name, createMissing), user, done + {name}, createMissing)
  {
    if name == "" || (name !in before.roles && !createMissing) {
      ReconcileSkipped(before, mid, user, done, name, createMissing);
    } else if name !in before.roles {
      ReconcileCreated(before, mid, user, done, name, createMissing);
    } else {
      ReconcileExisting(before, mid, user, done, name, createMissing);
    }
  }

  /** A name that is empty, or missing while roles may not be created, changes nothing. */
  lemma ReconcileSkipped(before: Catalog, mid: Catalog, user: string, done: set<string>, name: string, createMissing: bool)
    requires user in before.users
    requires Reconciled(before, mid, user, done, createMissing)
    requires name !in done
    requires name == "" || (name !in before.roles && !createMissing)
    ensures ReconcileOne(mid, user, name, createMissing) == mid
    ensures Reconciled(before, mid, user, done + {name}, createMissing)
  {
    var existing := before.roles.Keys;
    CreatedAdd(done, name, existing, createMissing);
    ResolvedAdd(done, name, existing, createMissing);
    if name != "" {
      assert name !in mid.roles;
    }
  }

  /** A missing name, when roles may be created, gets a new role and a temporary grant. */
  lemma ReconcileCreated(before: Catalog, mid: Catalog, user: string, done: set<string>, name: string, createMissing: bool)
    requires user in before.users
    requires Reconciled(before, mid, user, done, createMissing)
    requires name !in done
    requires name != "" && name !in before.roles && createMissing
    ensures Reconciled(before, ReconcileOne(mid, user, name, createMissing), user, done + {name}, createMissing)
  {
    CreatedUsers(before, mid, user, done, name, createMissing);
    CreatedRoles(before, mid, user, done, name, createMissing);
  }

  lemma CreatedUsers(before: Catalog, mid: Catalog, user: string, done: set<string>, name: string, createMissing: bool)
    requires user in before.users && user in mid.users
    requires mid.users == UsersReconciled(before, user, done, createMissing)
    requires name != "" && name !in mid.roles && createMissing
    ensures ReconcileOne(mid, user, name, createMissing).users == UsersReconciled(before, user, done + {name}, createMissing)
  {
    UsersStep(before, user, done, name, createMissing);
    var g := mid.users[user].grants;
    assert mid.users[user] == before.users[user].(grants := g);
  }

  lemma CreatedRoles(before: Catalog, mid: Catalog, user: string, done: set<string>, name: string, createMissing: bool)
    requires user in mid.users
    requires RolesExtended(before.roles, mid.roles, Created(done, before.roles.Keys, createMissing),
                           before.nextObjectId, mid.nextObjectId)
    requires name !in done
    requires name != "" && name !in before.roles && createMissing
    ensures var r := ReconcileOne(mid, user, name, createMissing);
      && r.commits == mid.commits
      && RolesExtended(before.roles, r.roles, Created(done + {name}, before.roles.Keys, createMissing),
                       before.nextObjectId, r.nextObjectId)
  {
    var created := Created(done, before.roles.Keys, createMissing);
    CreatedAdd(done, name, before.roles.Keys, createMissing);
    assert name !in mid.roles;
    RolesStep(before.roles, mid.roles, created, before.nextObjectId, mid.nextObjectId, name);
  }

  /** An existing name is granted temporarily unless already held; roles do not change. */
  lemma ReconcileExisting(before: Catalog, mid: Catalog, user: string, done: set<string>, name: string, createMissing: bool)
    requires user in before.users
    requires Reconciled(before, mid, user, done, createMissing)
    requires name !in done
    requires name != "" && name in before.roles
    ensures Reconciled(before, ReconcileOne(mid, user, name, createMissing), user, done + {name}, createMissing)
  {
    var existing := before.roles.Keys;
    CreatedAdd(done, name, existing, createMissing);
    UsersStep(before, user, done, name, createMissing);
    assert name in mid.roles;
  }

  /** Adding temporary grants to revoked grants: the temporary roles are the new ones. */
  lemma GrantTemporaryRoles(g: map<string, Right>, roles: set<string>)
    requires TemporaryRoles(g) == {}
    ensures TemporaryRoles(GrantTemporary(g, roles)) == roles - g.Keys
    ensures RevokeTemporaryRights(GrantTemporary(g, roles)) == g
  {
    var g' := GrantTemporary(g, roles);
    forall n | n in g ensures !g[n].temporary {
      assert n !in TemporaryRoles(g);
    }
    forall n ensures n in TemporaryRoles(g') <==> n in roles - g.Keys {
    }
    var revoked := RevokeTemporaryRights(g');
    assert revoked.Keys == g.Keys;
    forall n | n in g ensures revoked[n] == g[n] {
    }
  }

  /**
   * After reconciling a user whose temporary grants were revoked, the user's
   * temporary roles are exactly the resolved roles not held persistently,
   * and the persistent grants are those it had.
   */
  lemma ReconciledGrants(before: Catalog, after: Catalog, user: string, candidates: set<string>, createMissing: bool)
    requires user in before.users
    requires TemporaryRoles(before.users[user].grants) == {}
    requires Reconciled(before, after, user, candidates, createMissing)
    ensures user in after.users
    ensures TemporaryRoles(after.users[user].grants)
         == Resolved(candidates, before.roles.Keys, createMissing) - before.users[user].grants.Keys
    ensures RevokeTemporaryRights(after.users[user].grants) == before.users[user].grants
  {
    GrantTemporaryRoles(before.users[user].grants, Resolved(candidates, before.roles.Keys, createMissing));
  }

  /** Reconciliation keeps the catalog consistent when every resolved role can be granted. */
  lemma ReconciledWellFormed(before: Catalog, after: Catalog, user: string, candidates: set<string>, createMissing: bool)
    requires user in before.users
    requires WellFormed(before)
    requires Reconciled(before, after, user, candidates, createMissing)
    ensures WellFormed(after)
  {
    var created := Created(candidates, before.roles.Keys, createMissing);
    var resolved := Resolved(candidates, before.roles.Keys, createMissing);
    assert forall n :: n in resolved ==> n in after.roles;
    forall n | n in after.users
      ensures after.users[n].name == n && after.users[n].id < after.nextObjectId
      ensures after.users[n].grants.Keys <= after.roles.Keys
    {
      assert n in before.users;
    }
  }

  /**
   * The role set the static default (`""`) yields grants nothing and creates
   * nothing: empty names are skipped.
   */
  lemma EmptyNameSkipped(existing: set<string>, createMissing: bool)
    ensures Resolved({""}, existing, createMissing) == {}
    ensures Created({""}, existing, createMissing) == {}
  {
  }
}
