/**
 * The key/value settings handed to a pluggable component's `configure`.
 * Values are strings; the typed getters convert them the way Java's
 * `Boolean.parseBoolean` and `Integer.parseInt` do.
 */
module ConfigProps {
  import opened Wrappers
  import opened Strings

  datatype ConfigProperties = ConfigProperties(values: map<string, string>)

  /** `getStringValue(key, default)`: the stored value, or `default` (which may be null). */
  function GetStringValue(p: ConfigProperties, key: string, default: Option<string>): (r: Option<string>)
    ensures key in p.values ==> r == Some(p.values[key])
    ensures key !in p.values ==> r == default
  {
    if key in p.values then Some(p.values[key]) else default
  }

  /** `getStringValue(key)`: the stored value; a missing key is an error (None). */
  function GetRequiredStringValue(p: ConfigProperties, key: string): (r: Option<string>)
    ensures r.Some? <==> key in p.values
    ensures r.Some? ==> r.value == p.values[key]
  {
    if key in p.values then Some(p.values[key]) else None
  }

  /** `getBooleanValue(key, default)`; a present value is true exactly when it reads "true" ignoring case. */
  function GetBooleanValue(p: ConfigProperties, key: string, default: bool): (r: bool)
    ensures key !in p.values ==> r == default
    ensures key in p.values ==> (r <==> ToLower(p.values[key]) == "true")
  {
    if key in p.values then ToLower(p.values[key]) == "true" else default
  }

  /** `getIntValue(key, default)`; None when a present value is not a 32-bit integer (the getter throws). */
  function GetIntValue(p: ConfigProperties, key: string, default: int): (r: Option<int>)
    ensures key !in p.values ==> r == Some(default)
    ensures key in p.values ==> r == ParseInt(p.values[key])
  {
    if key in p.values then ParseInt(p.values[key]) else Some(default)
  }
}
