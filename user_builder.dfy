/** The catalog record an externally authenticated user is born with. */
module UserBuilding {
  import opened AuthInfo
  import opened Catalog

  /**
   * `UserBuilder.buildUser`: given the database's object-id allocator, the
   * new user and the allocator afterwards (an id is allocated only for a
   * persistent user).
   */
  function BuildUser(info: AuthenticationInfo, nextObjectId: int, persistent: bool): (r: (User, int))
    ensures r.0.name == FullyQualifiedName(info)
    ensures persistent ==> r.0.id == nextObjectId && r.1 == nextObjectId + 1
    ensures !persistent ==> r.0.id == -1 && r.1 == nextObjectId
    ensures r.0.passwordHash == [-1]
    ensures r.0.temporary == !persistent
    ensures !r.0.systemUser && r.0.grants == map[]
  {
    var id := if persistent then nextObjectId else -1;
    var next := if persistent then nextObjectId + 1 else nextObjectId;
    (User(id, FullyQualifiedName(info), false, [-1], !persistent, map[]), next)
  }

  /**
   * Filing the built user keeps the catalog consistent, and a persistent
   * user's id is used by no other catalog object.
   */
  lemma BuiltUserFits(c: Catalog, info: AuthenticationInfo, persistent: bool)
    requires WellFormed(c)
    ensures var (u, next) := BuildUser(info, c.nextObjectId, persistent);
      && WellFormed(c.(users := c.users[u.name := u], nextObjectId := next))
      && (persistent ==>
            (forall n :: n in c.users ==> c.users[n].id != u.id) && (forall n :: n in c.roles ==> c.roles[n].id != u.id))
  {
  }
}
