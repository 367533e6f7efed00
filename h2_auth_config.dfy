/** The authentication configuration (`<h2Auth>`): flags, validators, mappers. */
module AuthConfig {
  import opened Wrappers
  import opened Plugins
  import opened ValidatorConfig

  /** A `<userToRolesMapper>` entry: implementing class and properties. */
  datatype MapperEntry = MapperEntry(className: Option<string>, properties: seq<PropertyConfig>)

  /** The value of a whole configuration, as `configureFrom` reads it. */
  datatype AuthSettings = AuthSettings(
    allowUserRegistration: bool,
    createMissingRoles: bool,
    validators: seq<ValidatorEntry>,
    userToRolesMappers: seq<MapperEntry>)

  class H2AuthConfig {
    var allowUserRegistration: bool
    var createMissingRoles: bool
    var validators: Option<seq<CredentialsValidatorConfig>>
    var userToRolesMappers: Option<seq<MapperEntry>>

    /** Both flags default to true; both lists start unset. */
    constructor ()
      ensures IsAllowUserRegistration() && IsCreateMissingRoles()
      ensures validators == None && userToRolesMappers == None
    {
      allowUserRegistration, createMissingRoles := true, true;
      validators, userToRolesMappers := None, None;
    }

    function IsAllowUserRegistration(): bool
      reads this
    {
      allowUserRegistration
    }

    method SetAllowUserRegistration(b: bool)
      modifies this`allowUserRegistration
      ensures IsAllowUserRegistration() == b
    {
      allowUserRegistration := b;
    }

    function IsCreateMissingRoles(): bool
      reads this
    {
      createMissingRoles
    }

    method SetCreateMissingRoles(b: bool)
      modifies this`createMissingRoles
      ensures IsCreateMissingRoles() == b
    {
      createMissingRoles := b;
    }

    /** `getValidators`: never null; an unset list becomes a kept empty list. */
    method GetValidators() returns (r: seq<CredentialsValidatorConfig>)
      modifies this`validators
      ensures validators == Some(r)
      ensures old(validators).Some? ==> r == old(validators).value
      ensures old(validators).None? ==> r == []
    {
      if validators.None? {
        validators := Some([]);
      }
      r := validators.value;
    }

    method SetValidators(v: seq<CredentialsValidatorConfig>)
      modifies this`validators
      ensures validators == Some(v)
    {
      validators := Some(v);
    }

    /** `getUserToRolesMappers`: never null; an unset list becomes a kept empty list. */
    method GetUserToRolesMappers() returns (r: seq<MapperEntry>)
      modifies this`userToRolesMappers
      ensures userToRolesMappers == Some(r)
      ensures old(userToRolesMappers).Some? ==> r == old(userToRolesMappers).value
      ensures old(userToRolesMappers).None? ==> r == []
    {
      if userToRolesMappers.None? {
        userToRolesMappers := Some([]);
      }
      r := userToRolesMappers.value;
    }

    method SetUserToRolesMappers(m: seq<MapperEntry>)
      modifies this`userToRolesMappers
      ensures userToRolesMappers == Some(m)
    {
      userToRolesMappers := Some(m);
    }

    /** The validator entry objects. */
    function ValidatorObjects(): set<object>
      reads this
    {
      set v | v in validators.GetOr([])
    }

    /** The configuration's value, as read through its getters. */
    function Settings(): AuthSettings
      reads this, ValidatorObjects()
    {
      var vs := validators.GetOr([]);
      AuthSettings(
        allowUserRegistration,
        createMissingRoles,
        seq(|vs|, i requires 0 <= i < |vs| reads set v | v in vs => vs[i].Entry()),
        userToRolesMappers.GetOr([]))
    }
  }
}
