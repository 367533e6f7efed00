/** `StaticRolesMapper`: every user gets the same roles, read from a comma-separated property. */
module StaticRoles {
  import opened Wrappers
  import opened Strings
  import opened AuthInfo
  import opened ConfigProps
  import opened Plugins
  import opened RoleReconciliation

  /** The role set a `roles` property yields: its comma-separated pieces, duplicates collapsed. */
  function RolesFrom(p: ConfigProperties): (r: set<string>)
    ensures forall x :: x in r <==> x in JavaSplit(GetStringValue(p, "roles", Some("")).value, ',')
  {
    set x | x in JavaSplit(GetStringValue(p, "roles", Some("")).value, ',')
  }

  /**
   * The configured roles are the non-empty pieces between commas, none
   * holding a comma, plus possibly the empty name.
   */
  lemma RolesArePieces(p: ConfigProperties, x: string)
    ensures x in RolesFrom(p) ==> ',' !in x
    ensures x != "" ==> (x in RolesFrom(p) <==> x in SplitAll(GetStringValue(p, "roles", Some("")).value, ','))
  {
    JavaSplitPieces(GetStringValue(p, "roles", Some("")).value, ',', x);
  }

  /** Without a `roles` property the set is `{""}`, which grants and creates no role. */
  lemma MissingPropertyGrantsNothing(p: ConfigProperties, existing: set<string>, createMissing: bool)
    requires "roles" !in p.values
    ensures RolesFrom(p) == {""}
    ensures Resolved(RolesFrom(p), existing, createMissing) == {}
    ensures Created(RolesFrom(p), existing, createMissing) == {}
  {
    assert JavaSplit("", ',') == [""];
    EmptyNameSkipped(existing, createMissing);
  }

  class StaticRolesMapper {
    /** `null` until configured. */
    var roles: Option<set<string>>

    constructor ()
      ensures roles == None
    {
      roles := None;
    }

    method Configure(p: ConfigProperties)
      modifies this
      ensures roles == Some(RolesFrom(p))
    {
      var value := GetStringValue(p, "roles", Some("")).value;
      var pieces := JavaSplit(value, ',');
      roles := Some(set x | x in pieces);
    }

    /** The configured set whatever the user; null (no roles) before `configure`. */
    function MapUserToRoles(info: AuthenticationInfo): (r: MapperOutcome)
      reads this
      ensures roles.None? ==> r == NullRoles
      ensures roles.Some? ==> r == Roles(roles.value)
    {
      if roles.None? then NullRoles else Roles(roles.value)
    }

    /** The result does not depend on who is logging in. */
    lemma MapsEveryoneAlike(a: AuthenticationInfo, b: AuthenticationInfo)
      ensures MapUserToRoles(a) == MapUserToRoles(b)
    {
    }
  }
}
