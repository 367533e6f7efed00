/**
 * `LdapCredentialsValidator`: credentials are checked by a simple bind
 * (section 4.2 of RFC 4511) as the user's DN, built from a pattern.
 */
module Ldap {
  import opened Wrappers
  import opened Strings
  import opened AuthInfo
  import opened ConfigProps
  import opened Plugins

  const Placeholder: string := "%u"
  const SecurePort: int := 636
  const PlainPort: int := 389

  // JNDI environment keys (the values of the `javax.naming.Context` constants).
  const InitialContextFactory: string := "java.naming.factory.initial"
  const ProviderUrl: string := "java.naming.provider.url"
  const SecurityAuthentication: string := "java.naming.security.authentication"
  const SecurityPrincipal: string := "java.naming.security.principal"
  const SecurityCredentials: string := "java.naming.security.credentials"
  const LdapContextFactory: string := "com.sun.jndi.ldap.LdapCtxFactory"

  /** The scheme and authority part of the URL: `ldaps://host:` or `ldap://host:`. */
  function UrlPrefix(secure: bool, host: string): string {
    "ldap" + (if secure then "s" else "") + "://" + host + ":"
  }

  /** The provider URL `configure` builds. */
  function LdapUrl(secure: bool, host: string, port: int): (r: string)
    ensures r == UrlPrefix(secure, host) + IntToString(port)
  {
    "ldap" + (if secure then "s" else "") + "://" + host + ":" + IntToString(port)
  }

  /** The port field after the URL's prefix reads back as the configured port. */
  lemma {:induction false} UrlPortReadsBack(secure: bool, host: string, port: int)
    requires MinInt32 <= port <= MaxInt32
    ensures var url := LdapUrl(secure, host, port);
      var prefix := UrlPrefix(secure, host);
      && |prefix| <= |url| && url[..|prefix|] == prefix
      && ParseInt(url[|prefix|..]) == Some(port)
  {
    var url := LdapUrl(secure, host, port);
    var prefix := UrlPrefix(secure, host);
    assert url[|prefix|..] == IntToString(port);
    assert url[..|prefix|] == prefix;
    ParseIntToString(port);
  }

  /** The scheme is "ldaps" exactly for a secure connection. */
  lemma {:induction false} UrlSchemeShowsSecurity(secure: bool, host: string, port: int)
    ensures var url := LdapUrl(secure, host, port);
      |url| > 4 && (url[4] == 's' <==> secure)
  {
    var prefix := UrlPrefix(secure, host);
    if secure {
      assert prefix == "ldaps://" + host + ":";
    } else {
      assert prefix == "ldap://" + host + ":";
    }
    assert prefix[4] == (if secure then 's' else ':');
    assert LdapUrl(secure, host, port)[4] == prefix[4];
  }

  /** The principal to bind as: every `%u` in the pattern replaced by the user name. */
  function BindPrincipal(pattern: string, userName: string): string {
    ReplaceAll(pattern, Placeholder, userName)
  }

  /** A pattern without `%u` is used as it is. */
  lemma PatternWithoutPlaceholder(pattern: string, userName: string)
    requires !Contains(pattern, Placeholder)
    ensures BindPrincipal(pattern, userName) == pattern
  {
    ReplaceAllAbsent(pattern, Placeholder, userName);
  }

  /**
   * A pattern made of parts joined by `%u`, none of which contains `%u`
   * itself, yields those parts joined by the user name: "uid=%u,ou=users"
   * binds as "uid=alice,ou=users", and "cn=%u,o=50%" as "cn=alice,o=50%".
   */
  lemma PatternFilled(parts: seq<string>, userName: string)
    requires forall p :: p in parts ==> !Contains(p, Placeholder)
    ensures BindPrincipal(Join(parts, Placeholder), userName) == Join(parts, userName)
  {
    ReplaceAllFillsTemplate(parts, Placeholder, userName);
  }

  /**
   * The JNDI environment for the bind; None where `Hashtable.put` would be
   * handed a null value (an unconfigured validator, or no password).
   */
  function BindEnvironment(url: Option<string>, pattern: Option<string>, info: AuthenticationInfo): (r: Option<map<string, string>>)
    ensures r.Some? <==> url.Some? && pattern.Some? && info.password.Some?
    ensures r.Some? ==>
      && r.value.Keys == {InitialContextFactory, ProviderUrl, SecurityAuthentication, SecurityPrincipal, SecurityCredentials}
      && r.value[InitialContextFactory] == LdapContextFactory
      && r.value[ProviderUrl] == url.value
      && r.value[SecurityAuthentication] == "simple"
      && r.value[SecurityPrincipal] == BindPrincipal(pattern.value, info.userName)
      && r.value[SecurityCredentials] == info.password.value
  {
    if url.None? || pattern.None? || info.password.None? then None
    else Some(map[
      InitialContextFactory := LdapContextFactory,
      ProviderUrl := url.value,
      SecurityAuthentication := "simple",
      SecurityPrincipal := BindPrincipal(pattern.value, info.userName),
      SecurityCredentials := info.password.value])
  }

  class LdapCredentialsValidator {
    var bindDnPattern: Option<string>
    var host: Option<string>
    var port: int
    var secure: bool
    var url: Option<string>

    constructor ()
      ensures bindDnPattern.None? && host.None? && port == 0 && !secure && url.None?
    {
      bindDnPattern, host, port, secure, url := None, None, 0, false, None;
    }

    /**
     * `configure`: `bindDnPattern` and `host` are required; `secure`
     * defaults to true; `port` defaults to 636 when secure and 389
     * otherwise. A missing required value or a malformed port raises an
     * exception after the earlier fields were assigned.
     */
    method Configure(p: ConfigProperties) returns (error: Option<string>)
      modifies this
      ensures error.None? <==>
        "bindDnPattern" in p.values && "host" in p.values
        && GetIntValue(p, "port", if GetBooleanValue(p, "secure", true) then SecurePort else PlainPort).Some?
      ensures "bindDnPattern" in p.values ==> bindDnPattern == Some(p.values["bindDnPattern"])
      ensures "bindDnPattern" !in p.values ==> bindDnPattern == old(bindDnPattern)
      ensures "bindDnPattern" in p.values && "host" in p.values ==>
        host == Some(p.values["host"]) && secure == GetBooleanValue(p, "secure", true)
      ensures !("bindDnPattern" in p.values && "host" in p.values) ==> host == old(host) && secure == old(secure)
      ensures error.Some? ==> port == old(port)
      ensures error.None? ==>
        && Some(port) == GetIntValue(p, "port", if secure then SecurePort else PlainPort)
        && url == Some(LdapUrl(secure, host.value, port))
      ensures error.Some? ==> url == old(url)
    {
      var pattern := GetRequiredStringValue(p, "bindDnPattern");
      if pattern.None? {
        return Some("missing bindDnPattern");
      }
      bindDnPattern := pattern;
      var h := GetRequiredStringValue(p, "host");
      if h.None? {
        return Some("missing host");
      }
      host := h;
      secure := GetBooleanValue(p, "secure", true);
      var n := GetIntValue(p, "port", if secure then SecurePort else PlainPort);
      if n.None? {
        return Some("malformed port");
      }
      port := n.value;
      url := Some(LdapUrl(secure, h.value, port));
      error := None;
    }

    /**
     * `validateCredentials`: true when the bind succeeds; a failing bind,
     * or a null value for the environment, raises an exception. The bind
     * itself is the parameter `bind` (None: success, Some: the exception).
     */
    function ValidateCredentials(info: AuthenticationInfo, bind: map<string, string> -> Option<string>): (r: Validation)
      reads this
      ensures r != Rejected
      ensures r == Accepted <==>
        BindEnvironment(url, bindDnPattern, info).Some? && bind(BindEnvironment(url, bindDnPattern, info).value).None?
    {
      match BindEnvironment(url, bindDnPattern, info)
      case None => Threw("java.lang.NullPointerException")
      case Some(env) =>
        match bind(env)
        case None => Accepted
        case Some(cause) => Threw(cause)
    }
  }
}
