/**
 * One authentication attempt as the dispatch engine sees it, and what an
 * attempt can end in.
 */
module AuthInfo {
  import opened Wrappers
  import opened Strings

  /**
   * The claimed identity. `realm` is None when the connection named no realm
   * (the internal, locally-checked path); `password` is None when absent.
   */
  datatype AuthenticationInfo = AuthenticationInfo(realm: Option<string>, userName: string, password: Option<string>)

  /**
   * The catalog key of the external user: `(userName + "@" + realm)` upper-cased,
   * or the upper-cased user name alone when no realm is given.
   */
  function FullyQualifiedName(info: AuthenticationInfo): (r: string)
    ensures ToUpper(r) == r
    ensures info.realm.Some? ==> r == ToUpper(info.userName) + "@" + ToUpper(info.realm.value)
    ensures info.realm.None? ==> r == ToUpper(info.userName)
  {
    match info.realm
    case None =>
      ToUpperConcat(info.userName, "");
      ToUpper(info.userName)
    case Some(realm) =>
      var s := info.userName + "@" + realm;
      ToUpperConcat(info.userName + "@", realm);
      ToUpperConcat(info.userName, "@");
      ToUpperConcat(s, "");
      ToUpper(s)
  }

  /**
   * An exception raised while an authenticator is being installed: a null
   * authenticator dereferenced, a class that cannot be instantiated, or an
   * `init` that threw.
   */
  datatype Fault = NullAuthenticator | ClassNotInstantiable(className: string) | InitFailed(className: string, cause: string)

  /** Why an attempt failed (Java: the exception that leaves `authenticate`). */
  datatype AuthError =
    | UserNotFound(userName: string)            // unknown user, registration disallowed
    | RealmNotConfigured(realm: Option<string>) // no validator for the realm
    | CredentialsCheckFailed(cause: string)     // the validator threw; wrapped
    | RoleMappingFailed(cause: string)          // a roles mapper threw
    | NoAuthenticatorAvailable                  // pluggable path without authenticator
    | Converted(fault: Fault)                   // an exception converted by DbException.convert

  /** `authenticate`'s outcome: a user, `null` (rejected credentials), or a thrown exception. */
  datatype AuthResult<+U> = Authenticated(user: U) | NotAuthenticated | Failed(error: AuthError)
}
