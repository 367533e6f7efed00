/** One `<validator>` entry of the authentication configuration. */
module ValidatorConfig {
  import opened Wrappers
  import opened Plugins

  /** The value of a validator entry: realm, implementing class, properties. */
  datatype ValidatorEntry = ValidatorEntry(realmName: Option<string>, className: Option<string>, properties: seq<PropertyConfig>)

  class CredentialsValidatorConfig {
    var realmName: Option<string>
    var className: Option<string>
    var properties: Option<seq<PropertyConfig>>

    constructor ()
      ensures realmName == None && className == None && properties == None
    {
      realmName, className, properties := None, None, None;
    }

    function GetRealmName(): Option<string>
      reads this
    {
      realmName
    }

    method SetRealmName(name: Option<string>)
      modifies this`realmName
      ensures GetRealmName() == name
    {
      realmName := name;
    }

    function GetClassName(): Option<string>
      reads this
    {
      className
    }

    method SetClassName(name: Option<string>)
      modifies this`className
      ensures GetClassName() == name
    {
      className := name;
    }

    /**
     * `getProperties`: never null. An unset list is replaced by a new empty
     * one, which is kept, so later calls return the same list.
     */
    method GetProperties() returns (r: seq<PropertyConfig>)
      modifies this`properties
      ensures properties == Some(r)
      ensures old(properties).Some? ==> r == old(properties).value
      ensures old(properties).None? ==> r == []
    {
      if properties.None? {
        properties := Some([]);
      }
      r := properties.value;
    }

    /** The entry as the authenticator reads it through the getters. */
    function Entry(): ValidatorEntry
      reads this
    {
      ValidatorEntry(realmName, className, properties.GetOr([]))
    }
  }
}
