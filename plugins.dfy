/**
 * The pluggable components (credentials validators, user-to-roles mappers)
 * as seen from the dispatch engine. A component is named by its class and
 * its configuration properties; what it does is given by a `Plugins` record,
 * standing for reflective class loading and the components' own code.
 */
module Plugins {
  import opened AuthInfo

  /** A `<property name=... value=.../>` configuration entry. */
  datatype PropertyConfig = PropertyConfig(name: string, value: string)

  /** An instantiated, configured component: its class name and its properties. */
  datatype PluginRef = PluginRef(className: string, properties: seq<PropertyConfig>)

  /** `validateCredentials`: true, false, or an exception. */
  datatype Validation = Accepted | Rejected | Threw(cause: string)

  /**
   * `mapUserToRoles`: null, a set of role names, or an exception. A null
   * element of the set is represented by "" (both are skipped the same way).
   */
  datatype MapperOutcome = NullRoles | Roles(names: set<string>) | MapperThrew(cause: string)

  datatype Plugins = Plugins(
    loads: PluginRef -> bool,                                     // Class.forName, newInstance and configure succeed
    validate: (PluginRef, AuthenticationInfo) -> Validation,
    mapRoles: (PluginRef, AuthenticationInfo) -> MapperOutcome)

  /** The outcome of every configured mapper, in order. */
  function MapperOutcomes(plugins: Plugins, mappers: seq<PluginRef>, info: AuthenticationInfo): (r: seq<MapperOutcome>)
    ensures |r| == |mappers|
    ensures forall i :: 0 <= i < |mappers| ==> r[i] == plugins.mapRoles(mappers[i], info)
  {
    seq(|mappers|, i requires 0 <= i < |mappers| => plugins.mapRoles(mappers[i], info))
  }
}
